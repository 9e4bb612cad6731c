/**
 * Client-profile detection of src/lib/utils/profile-detection.ts: the quote
 * total and the client's business name choose a layout, a tone, a density
 * and three extra sections.
 */
module ProfileDetection {
  import opened Wrappers
  import Strings

  datatype Tone = Friendly | Balanced | Corporate
  datatype Layout = Modern | Professional | Classic
  datatype Density = Spacious | Normal | Compact
  datatype Extra = Timeline | Warranty | Terms | Signatures | ValueProposition
  datatype Complexity = Low | Medium | High

  /** Why a profile was chosen. The amounts are rendered as BRL currency text by
      the application; the model keeps the amount itself. */
  datatype Reason = CorporateClient(name: string) | HighValue(total: real) | MidValue(total: real) | LowValue(total: real)

  datatype ProfileDetectionResult = ProfileDetectionResult(
    layout: Layout, tone: Tone, density: Density, extras: seq<Extra>, reason: Reason)

  const CorporateIndicators: seq<string> := [
    "ltda", "limitada", "s.a.", "s/a", "sa", "sociedade anônima", "me", "mei", "eireli", "epp",
    "empresa", "indústria", "comércio", "serviços", "tecnologia", "solutions", "sistemas", "engenharia"
  ]

  /** `a || b` on optional strings: `a` unless it is null or empty. */
  function OrElse(a: Option<string>, b: string): (r: string)
    ensures a.Some? && a.value != "" ==> r == a.value
    ensures (a.None? || a.value == "") ==> r == b
  {
    if a.Some? && a.value != "" then a.value else b
  }

  /** The name the corporate test looks at: the business name, else the client name, else "". */
  function NameForTest(businessName: Option<string>, clientName: Option<string>): (name: string)
    ensures businessName.Some? && businessName.value != "" ==> name == businessName.value
    ensures (businessName.None? || businessName.value == "") ==> name == OrElse(clientName, "")
  {
    OrElse(businessName, OrElse(clientName, ""))
  }

  /** `isCorporateClient`: some indicator occurs in the lower-cased name. */
  predicate IsCorporateClient(businessName: Option<string>, clientName: Option<string>) {
    var name := Strings.Lower(NameForTest(businessName, clientName));
    exists i | 0 <= i < |CorporateIndicators| :: Strings.Contains(name, CorporateIndicators[i])
  }

  /** `calculateQuoteComplexity` on the number of items. */
  function QuoteComplexity(itemCount: nat): (c: Complexity)
    ensures c == Low <==> itemCount <= 3
    ensures c == Medium <==> 3 < itemCount <= 10
    ensures c == High <==> itemCount > 10
  {
    if itemCount <= 3 then Low else if itemCount <= 10 then Medium else High
  }

  /** `detectClientProfile` for a quote total, its client name and the provider's business name. */
  function DetectClientProfile(total: real, clientName: string, businessName: Option<string>): ProfileDetectionResult {
    var corporate := IsCorporateClient(businessName, Some(clientName));
    if total > 5000.0 || corporate then
      ProfileDetectionResult(Classic, Corporate, Compact, [Terms, Signatures, Warranty],
        if corporate then CorporateClient(OrElse(businessName, clientName)) else HighValue(total))
    else if total > 500.0 && total <= 5000.0 then
      ProfileDetectionResult(Professional, Balanced, Normal, [Warranty, Timeline, ValueProposition], MidValue(total))
    else
      ProfileDetectionResult(Modern, Friendly, Spacious, [Timeline, ValueProposition, Warranty], LowValue(total))
  }

  /** The three tiers, stated from their conditions. */
  lemma ProfileTiers(total: real, clientName: string, businessName: Option<string>)
    ensures var p := DetectClientProfile(total, clientName, businessName);
      var corporate := IsCorporateClient(businessName, Some(clientName));
      (p.tone == Corporate <==> total > 5000.0 || corporate) &&
      (p.tone == Corporate ==> p.layout == Classic && p.density == Compact && p.extras == [Terms, Signatures, Warranty]) &&
      (p.tone == Balanced <==> !corporate && 500.0 < total <= 5000.0) &&
      (p.tone == Balanced ==> p.layout == Professional && p.density == Normal && p.extras == [Warranty, Timeline, ValueProposition]) &&
      (p.tone == Friendly <==> !corporate && total <= 500.0) &&
      (p.tone == Friendly ==> p.layout == Modern && p.density == Spacious && p.extras == [Timeline, ValueProposition, Warranty])
  {
  }

  /** The reason names the corporate client exactly when the name made the decision. */
  lemma ReasonNamesClient(total: real, clientName: string, businessName: Option<string>)
    ensures var p := DetectClientProfile(total, clientName, businessName);
      p.reason.CorporateClient? <==> IsCorporateClient(businessName, Some(clientName))
    ensures var p := DetectClientProfile(total, clientName, businessName);
      p.reason.HighValue? ==> total > 5000.0
  {
  }

  /** `shouldShowExtra(extra, profile)`. */
  predicate ShouldShowExtra(extra: Extra, profile: ProfileDetectionResult) {
    extra in profile.extras
  }

  /** Every detection lists three distinct extras, warranty always among them, and only the
      corporate tier shows terms and signatures. */
  lemma ExtrasShape(total: real, clientName: string, businessName: Option<string>)
    ensures var p := DetectClientProfile(total, clientName, businessName);
      |p.extras| == 3 && p.extras[0] != p.extras[1] && p.extras[0] != p.extras[2] && p.extras[1] != p.extras[2]
    ensures ShouldShowExtra(Warranty, DetectClientProfile(total, clientName, businessName))
    ensures var p := DetectClientProfile(total, clientName, businessName);
      ShouldShowExtra(Terms, p) <==> p.tone == Corporate
    ensures var p := DetectClientProfile(total, clientName, businessName);
      ShouldShowExtra(Timeline, p) <==> p.tone != Corporate
  {
  }

  /** `getToneClasses`. */
  function ToneClasses(tone: Tone): (c: string)
    ensures Strings.StartsWith(c, "tone-")
  {
    match tone
    case Friendly => "tone-friendly"
    case Balanced => "tone-balanced"
    case Corporate => "tone-corporate"
  }

  /** `getDensityClasses`. */
  function DensityClasses(density: Density): (c: string)
    ensures Strings.StartsWith(c, "density-")
  {
    match density
    case Spacious => "density-spacious"
    case Normal => "density-normal"
    case Compact => "density-compact"
  }

  /** Distinct tones and densities get distinct classes, and no tone class is a density class. */
  lemma ClassesInjective(a: Tone, b: Tone, c: Density, d: Density)
    ensures ToneClasses(a) == ToneClasses(b) ==> a == b
    ensures DensityClasses(c) == DensityClasses(d) ==> c == d
    ensures ToneClasses(a) != DensityClasses(c)
  {
    assert ToneClasses(a)[0] == 't' && DensityClasses(c)[0] == 'd';
    if ToneClasses(a) == ToneClasses(b) {
      assert ToneClasses(a)[5] == ToneClasses(b)[5];
    }
    if DensityClasses(c) == DensityClasses(d) {
      assert DensityClasses(c)[8] == DensityClasses(d)[8];
    }
  }

  /** The business name decides when present and non-empty; the client name is only
      a fallback, and with neither name the client is not corporate. */
  lemma NameFallback(business: string, clientName: Option<string>)
    ensures business != "" ==> (IsCorporateClient(Some(business), clientName) <==>
      exists i | 0 <= i < |CorporateIndicators| :: Strings.Contains(Strings.Lower(business), CorporateIndicators[i]))
    ensures IsCorporateClient(Some(""), clientName) == IsCorporateClient(None, clientName)
    ensures !IsCorporateClient(None, None)
  {
    assert NameForTest(None, None) == "";
    assert Strings.Lower("") == "";
    forall i | 0 <= i < |CorporateIndicators| ensures !Strings.Contains("", CorporateIndicators[i]) {
      assert |CorporateIndicators[i]| > 0;
    }
  }

  /** The indicators are matched as substrings: a personal name with "sa" or "me" inside,
      such as "Vanessa", makes the client corporate. */
  lemma ShortIndicatorInsideName()
    ensures IsCorporateClient(None, Some("Vanessa"))
    ensures DetectClientProfile(100.0, "Vanessa", None).tone == Corporate
  {
    var name := Strings.Lower("Vanessa");
    assert name == "vanessa";
    assert Strings.OccursAt(name, "sa", 5);
    assert CorporateIndicators[4] == "sa";
  }
}
