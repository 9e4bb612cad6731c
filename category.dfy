/**
 * Item categories of src/lib/utils/category-detection.ts: a description is
 * classified by ordered keyword rules over its lower-cased text, and a hex
 * colour can be brightened toward white.
 */
module CategoryDetection {
  import opened Wrappers
  import opened Numbers
  import Strings

  datatype Icon = Wrench | Sparkles | Car | Hammer | Paintbrush | Package | Zap | Scissors | GraduationCap

  datatype CategoryInfo = CategoryInfo(icon: Icon, color: string, name: string)

  /** A rule fires when the description contains any of its keywords. */
  datatype Rule = Rule(keywords: seq<string>, category: CategoryInfo)

  const Mechanics := CategoryInfo(Wrench, "#EF4444", "Automotivo - Mecânica")
  const CarCare := CategoryInfo(Sparkles, "#3B82F6", "Automotivo - Estética")
  const CarAccessories := CategoryInfo(Car, "#6366F1", "Automotivo - Acessórios")
  const Masonry := CategoryInfo(Hammer, "#F59E0B", "Construção - Obra")
  const Painting := CategoryInfo(Paintbrush, "#EC4899", "Construção - Pintura")
  const Finishing := CategoryInfo(Package, "#8B5CF6", "Construção - Acabamento")
  const Electrical := CategoryInfo(Zap, "#FBBF24", "Elétrica")
  const Technology := CategoryInfo(Zap, "#10B981", "Tecnologia")
  const Beauty := CategoryInfo(Scissors, "#F472B6", "Beleza & Estética")
  const Education := CategoryInfo(GraduationCap, "#6366F1", "Educação")
  const General := CategoryInfo(Package, "#64748B", "Geral")

  /** The rules, in the order they are tried. */
  const Rules: seq<Rule> := [
    Rule(["óleo", "filtro", "pneu", "freio", "embreagem", "diagnóstico", "injetor", "motor", "suspensão"], Mechanics),
    Rule(["lavagem", "polimento", "enceramento", "detalhamento"], CarCare),
    Rule(["som", "alarme", "ar condicionado"], CarAccessories),
    Rule(["piso", "cerâmic", "azulejo", "reboco", "massa", "parede", "laje", "pedreiro", "cimento", "argamassa"], Masonry),
    Rule(["pintura", "tinta", "látex"], Painting),
    Rule(["porta", "janela", "acabamento", "gesso"], Finishing),
    Rule(["elétric", "tomada", "disjuntor", "chuveiro", "ventilador", "ponto elétrico", "fio", "fiação"], Electrical),
    Rule(["computador", "notebook", "formatação", "rede", "wi-fi", "tela"], Technology),
    Rule(["cabelo", "corte", "barba", "manicure", "pedicure", "unhas", "sobrancelha", "maquiagem", "escova", "coloração", "hidratação"], Beauty),
    Rule(["aula", "consultoria", "treinamento", "curso"], Education)
  ]

  predicate Matches(rule: Rule, text: string) {
    exists i | 0 <= i < |rule.keywords| :: Strings.Contains(text, rule.keywords[i])
  }

  /** The category of the first rule that fires, or `General` when none does. */
  function FirstMatching(rules: seq<Rule>, text: string): CategoryInfo {
    if rules == [] then General
    else if Matches(rules[0], text) then rules[0].category
    else FirstMatching(rules[1..], text)
  }

  /** `detectItemCategory(description)`. */
  function DetectItemCategory(description: string): CategoryInfo {
    FirstMatching(Rules, Strings.Lower(description))
  }

  /** The first rule that fires decides; with no rule firing the result is the default. */
  lemma {:induction false} FirstMatchingDecides(rules: seq<Rule>, text: string)
    ensures forall k :: (0 <= k < |rules| && Matches(rules[k], text) &&
      (forall j :: 0 <= j < k ==> !Matches(rules[j], text))) ==> FirstMatching(rules, text) == rules[k].category
    ensures (forall k :: 0 <= k < |rules| ==> !Matches(rules[k], text)) ==> FirstMatching(rules, text) == General
  {
    if rules != [] && !Matches(rules[0], text) {
      var rest := rules[1..];
      assert forall k :: 0 <= k < |rest| ==> rest[k] == rules[k + 1];
      FirstMatchingDecides(rest, text);
      forall k | 0 < k < |rules| && Matches(rules[k], text) &&
        (forall j :: 0 <= j < k ==> !Matches(rules[j], text))
        ensures FirstMatching(rest, text) == rest[k - 1].category
      {
        assert forall j :: 0 <= j < k - 1 ==> !Matches(rest[j], text);
      }
    }
  }

  /** The result is the category of some rule that fires, or the default when none fires. */
  lemma {:induction false} FirstMatchingFires(rules: seq<Rule>, text: string)
    ensures FirstMatching(rules, text) == General ||
      exists k :: 0 <= k < |rules| && Matches(rules[k], text) && FirstMatching(rules, text) == rules[k].category
  {
    if rules != [] && !Matches(rules[0], text) {
      FirstMatchingFires(rules[1..], text);
      if FirstMatching(rules[1..], text) != General {
        var k :| 0 <= k < |rules[1..]| && Matches(rules[1..][k], text) &&
          FirstMatching(rules[1..], text) == rules[1..][k].category;
        assert rules[k + 1] == rules[1..][k];
      }
    } else if rules != [] {
      assert Matches(rules[0], text);
    }
  }

  /** 'Geral' is returned exactly when no keyword of any rule occurs in the lower-cased text. */
  lemma GeneralIffNoKeyword(description: string)
    ensures DetectItemCategory(description).name == "Geral" <==>
      forall k :: 0 <= k < |Rules| ==> !Matches(Rules[k], Strings.Lower(description))
    ensures DetectItemCategory(description).name == "Geral" ==> DetectItemCategory(description) == General
  {
    assert forall k :: 0 <= k < |Rules| ==> Rules[k].category.name != "Geral";
    DefaultIffNoneFires(Rules, Strings.Lower(description));
  }

  /** When no rule's category is called 'Geral', the result is called so exactly when no
      rule fires, and it is then the default itself. */
  lemma {:induction false} DefaultIffNoneFires(rules: seq<Rule>, text: string)
    requires forall k :: 0 <= k < |rules| ==> rules[k].category.name != "Geral"
    ensures FirstMatching(rules, text).name == "Geral" <==> forall k :: 0 <= k < |rules| ==> !Matches(rules[k], text)
    ensures FirstMatching(rules, text).name == "Geral" ==> FirstMatching(rules, text) == General
  {
    if rules != [] && !Matches(rules[0], text) {
      var rest := rules[1..];
      assert forall k :: 0 <= k < |rest| ==> rest[k] == rules[k + 1];
      DefaultIffNoneFires(rest, text);
      assert (forall k :: 0 <= k < |rules| ==> !Matches(rules[k], text)) <==>
        (forall k :: 0 <= k < |rest| ==> !Matches(rest[k], text));
    }
  }

  /** Letter case never changes the category: the rules only see the lower-cased text. */
  lemma CaseInsensitive(a: string, b: string)
    requires Strings.Lower(a) == Strings.Lower(b)
    ensures DetectItemCategory(a) == DetectItemCategory(b)
  {
  }

  lemma LowerCasedAgain(description: string)
    ensures DetectItemCategory(Strings.Lower(description)) == DetectItemCategory(description)
  {
    Strings.LowerIdempotent(description);
  }

  /** Mechanics is tried first: any description with 'óleo' is mechanics, whatever else
      it mentions ('pintura' included). */
  lemma OilIsMechanics(description: string)
    requires Strings.Contains(Strings.Lower(description), "óleo")
    ensures DetectItemCategory(description) == Mechanics
  {
    assert Rules[0].keywords[0] == "óleo";
    assert Matches(Rules[0], Strings.Lower(description));
  }

  /** Keywords match inside longer words: once the first two rules fail, any text
      containing 'som' anywhere, such as 'isomorfo', is an accessory. */
  lemma SomAnywhere(a: string, b: string)
    requires !Matches(Rules[0], Strings.Lower(a + "som" + b))
    requires !Matches(Rules[1], Strings.Lower(a + "som" + b))
    ensures DetectItemCategory(a + "som" + b) == CarAccessories
  {
    var text := Strings.Lower(a + "som" + b);
    Strings.LowerConcat(a + "som", b);
    Strings.LowerConcat(a, "som");
    assert Strings.Lower("som") == "som";
    assert text == Strings.Lower(a) + "som" + Strings.Lower(b);
    assert Strings.OccursAt(text, "som", |a|);
    assert Rules[2].keywords[0] == "som";
    assert Matches(Rules[2], text);
    FirstMatchingDecides(Rules, text);
  }

  // ------------------------------------------------------------ brightness

  /** The inner `adjust`: move a channel `percent`% of the way to 255, rounded and clamped. */
  function Adjust(value: int, percent: real): (w: int)
    ensures 0 <= w <= 255
  {
    var adjusted := value as real + (255 - value) as real * (percent / 100.0);
    var rounded := Round(adjusted);
    if rounded < 0 then 0 else if rounded > 255 then 255 else rounded
  }

  /** One output channel: `toHex(adjust(v))`; a channel that did not parse is NaN and
      prints as "NaN". */
  function ChannelText(channel: Option<int>, percent: real): (t: string)
    ensures channel.Some? ==> |t| == 2 && AllDigits(t, 16) && Strings.IsLower(t)
    ensures channel.None? ==> t == "NaN"
  {
    match channel
    case None => "NaN"
    case Some(v) => Hex2(Adjust(v, percent))
  }

  /** The channels read from digit pairs 0-1, 2-3 and 4-5 after the first '#' is removed. */
  function Channels(hex: string): (Option<int>, Option<int>, Option<int>) {
    ChannelsOf(Strings.RemoveFirst(hex, '#'))
  }

  function ChannelsOf(color: string): (Option<int>, Option<int>, Option<int>) {
    (ParseInt(Strings.Substring(color, 0, 2), 16),
     ParseInt(Strings.Substring(color, 2, 4), 16),
     ParseInt(Strings.Substring(color, 4, 6), 16))
  }

  /** `adjustColorBrightness(hex, percent)`. */
  function AdjustColorBrightness(hex: string, percent: real): (out: string)
    ensures Channels(hex).0.Some? && Channels(hex).1.Some? && Channels(hex).2.Some? ==>
      |out| == 7 && out[0] == '#' && AllDigits(out[1..], 16) && Strings.IsLower(out)
  {
    var (r, g, b) := Channels(hex);
    var out := "#" + ChannelText(r, percent) + ChannelText(g, percent) + ChannelText(b, percent);
    if r.Some? && g.Some? && b.Some? then
      HexTriple(ChannelText(r, percent), ChannelText(g, percent), ChannelText(b, percent));
      out
    else out
  }

  lemma HexTriple(a: string, b: string, c: string)
    requires |a| == 2 && |b| == 2 && |c| == 2
    requires AllDigits(a, 16) && AllDigits(b, 16) && AllDigits(c, 16)
    requires Strings.IsLower(a) && Strings.IsLower(b) && Strings.IsLower(c)
    ensures var out := "#" + a + b + c;
      |out| == 7 && out[0] == '#' && AllDigits(out[1..], 16) && Strings.IsLower(out)
  {
    var out := "#" + a + b + c;
    assert out[1..] == a + b + c;
    assert out[1..3] == a && out[3..5] == b && out[5..7] == c;
  }

  /** For a percentage in [0, 100] a channel in [0, 255] never gets darker. */
  lemma AdjustBrightens(value: int, percent: real)
    requires 0 <= value <= 255 && 0.0 <= percent <= 100.0
    ensures value <= Adjust(value, percent)
  {
    var adjusted := value as real + (255 - value) as real * (percent / 100.0);
    assert (255 - value) as real * (percent / 100.0) >= 0.0;
    assert adjusted <= 255.0 by {
      assert (255 - value) as real * (percent / 100.0) <= (255 - value) as real;
    }
  }

  /** Zero percent keeps a channel in [0, 255]; a hundred percent makes any channel 255. */
  lemma AdjustEnds(value: int)
    ensures 0 <= value <= 255 ==> Adjust(value, 0.0) == value
    ensures Adjust(value, 100.0) == 255
  {
  }

  /** A more brightening percentage never gives a darker channel. */
  lemma AdjustMonotone(value: int, p: real, q: real)
    requires 0 <= value <= 255 && p <= q
    ensures Adjust(value, p) <= Adjust(value, q)
  {
    var a := value as real + (255 - value) as real * (p / 100.0);
    var b := value as real + (255 - value) as real * (q / 100.0);
    assert (255 - value) as real * (p / 100.0) <= (255 - value) as real * (q / 100.0);
    assert a <= b;
  }

  /** Six hexadecimal digits are read as the three pairs they consist of. */
  lemma ChannelsOfDigits(color: string)
    requires |color| == 6 && AllDigits(color, 16)
    ensures AllDigits(color[0..2], 16) && AllDigits(color[2..4], 16) && AllDigits(color[4..6], 16)
    ensures ChannelsOf(color) == (Some(Value(color[0..2], 16) as int), Some(Value(color[2..4], 16) as int),
                                  Some(Value(color[4..6], 16) as int))
  {
    PairAt(color, 0);
    PairAt(color, 2);
    PairAt(color, 4);
  }

  /** The colour text keeps everything after the leading '#'. */
  lemma ChannelsOfHexColor(hex: string)
    requires |hex| >= 1 && hex[0] == '#'
    ensures Channels(hex) == ChannelsOf(hex[1..])
  {
    assert Strings.RemoveFirst(hex, '#') == hex[1..];
  }

  lemma PairAt(color: string, i: nat)
    requires i + 2 <= |color| && AllDigits(color, 16)
    ensures AllDigits(color[i..i + 2], 16)
    ensures ParseInt(Strings.Substring(color, i, i + 2), 16) == Some(Value(color[i..i + 2], 16) as int)
  {
    var p := color[i..i + 2];
    assert Strings.Substring(color, i, i + 2) == p;
    assert p[0] == color[i] && p[1] == color[i + 1];
    ParsePair(p);
  }

  /** Zero percent gives the input colour back, in lower case. */
  lemma ZeroPercentLowercases(hex: string)
    requires |hex| == 7 && hex[0] == '#' && AllDigits(hex[1..], 16)
    ensures AdjustColorBrightness(hex, 0.0) == Strings.Lower(hex)
  {
    assert hex == "#" + hex[1..];
    ZeroPercentDigits(hex[1..]);
  }

  lemma ZeroPercentDigits(color: string)
    requires |color| == 6 && AllDigits(color, 16)
    ensures AdjustColorBrightness("#" + color, 0.0) == Strings.Lower("#" + color)
  {
    var hex := "#" + color;
    assert hex[1..] == color;
    ChannelsOfHexColor(hex);
    ChannelsOfDigits(color);
    ZeroPercentChannel(color[0..2]);
    ZeroPercentChannel(color[2..4]);
    ZeroPercentChannel(color[4..6]);
    AdjustUnfold(hex, 0.0);
    LowerHexColor(color);
  }

  lemma AdjustUnfold(hex: string, percent: real)
    ensures AdjustColorBrightness(hex, percent) ==
      "#" + ChannelText(Channels(hex).0, percent) + ChannelText(Channels(hex).1, percent) + ChannelText(Channels(hex).2, percent)
  {
  }

  lemma ZeroPercentChannel(p: string)
    requires |p| == 2 && AllDigits(p, 16)
    ensures ChannelText(Some(Value(p, 16) as int), 0.0) == Strings.Lower(p)
  {
    Hex2OfValue(p);
    AdjustEnds(Value(p, 16));
  }

  lemma LowerHexColor(color: string)
    requires |color| == 6
    ensures Strings.Lower("#" + color) ==
      "#" + Strings.Lower(color[0..2]) + Strings.Lower(color[2..4]) + Strings.Lower(color[4..6])
  {
    var p0, p1, p2 := color[0..2], color[2..4], color[4..6];
    assert color == p0 + p1 + p2;
    assert "#" + color == "#" + p0 + p1 + p2;
    Strings.LowerConcat("#" + p0 + p1, p2);
    Strings.LowerConcat("#" + p0, p1);
    Strings.LowerConcat("#", p0);
    assert Strings.Lower("#") == "#";
  }

  /** A hundred percent gives white for every colour whose three channels parse. */
  lemma HundredPercentIsWhite(hex: string)
    requires Channels(hex).0.Some? && Channels(hex).1.Some? && Channels(hex).2.Some?
    ensures AdjustColorBrightness(hex, 100.0) == "#ffffff"
  {
    AdjustUnfold(hex, 100.0);
    WhiteChannels(Channels(hex).0, Channels(hex).1, Channels(hex).2);
  }

  lemma WhiteChannels(r: Option<int>, g: Option<int>, b: Option<int>)
    requires r.Some? && g.Some? && b.Some?
    ensures "#" + ChannelText(r, 100.0) + ChannelText(g, 100.0) + ChannelText(b, 100.0) == "#ffffff"
  {
    AdjustEnds(r.value);
    AdjustEnds(g.value);
    AdjustEnds(b.value);
    assert Hex2(255) == "ff";
  }

  /** Only the first '#' is removed, wherever it stands. */
  lemma StripsOneHash(s: string)
    requires '#' !in s
    ensures Strings.RemoveFirst("#" + s, '#') == s
    ensures Strings.RemoveFirst("#" + "#" + s, '#') == "#" + s
    ensures Strings.RemoveFirst(s, '#') == s
  {
  }
}
