/**
 * The dominant-colour reporter of analyze_colors.py: the pixels of the
 * resized image are tallied per exact RGB triple (a `Counter`), the most
 * frequent `num_colors` triples are ranked the way `Counter.most_common`
 * ranks them (by count, ties in first-seen order), and each is printed as
 * `RGB: (r, g, b) - Hex: #rrggbb` under a header line.
 */
module DominantColors {
  import opened Wrappers
  import opened Numbers
  import Strings
  import Seqs
  import Ranking

  datatype Color = Color(r: Byte, g: Byte, b: Byte)

  /** One entry of the counter: a colour, how often it occurs, and its
      position in the counter's insertion (first-seen) order. */
  datatype Entry = Entry(color: Color, count: nat, first: nat)

  function Id(c: Color): Color { c }

  /** How many pixels have colour `c`. */
  function Count(pixels: seq<Color>, c: Color): nat {
    multiset(pixels)[c]
  }

  /** The distinct colours, in the order they are first seen: the counter's keys. */
  function Seen(pixels: seq<Color>): seq<Color> {
    Seqs.KeepFirst(pixels, Id)
  }

  /** The counter as a list of entries in insertion order. */
  function Entries(pixels: seq<Color>): (es: seq<Entry>)
    ensures |es| == |Seen(pixels)|
    ensures forall i :: 0 <= i < |es| ==> es[i].first == i
    ensures Ranking.DistinctTieBreaks(es, EntryKey)
  {
    var order := Seen(pixels);
    seq(|order|, i requires 0 <= i < |order| => Entry(order[i], Count(pixels, order[i]), i))
  }

  // --------------------------------------------------------------- ranking

  /**
   * The key `most_common` sorts by: a higher count first, and among equal
   * counts the earlier insertion position first (a stable sort).
   */
  function EntryKey(e: Entry): (int, int) {
    (e.count, e.first)
  }

  /** `Counter(pixels).most_common(n)`. */
  function MostCommon(pixels: seq<Color>, n: int): seq<Entry> {
    Ranking.Top(Entries(pixels), n, EntryKey)
  }

  // ------------------------------------------------------------ the tally

  /** Tallies the pixels into a counter: the counts and the insertion order of its keys. */
  method Tally(pixels: seq<Color>) returns (counts: map<Color, nat>, order: seq<Color>)
    ensures order == Seen(pixels)
    ensures forall c :: c in counts <==> c in pixels
    ensures forall c :: c in counts ==> counts[c] == Count(pixels, c)
  {
    counts := map[];
    order := [];
    var i := 0;
    while i < |pixels|
      invariant 0 <= i <= |pixels|
      invariant order == Seen(pixels[..i])
      invariant forall c :: c in counts <==> c in pixels[..i]
      invariant forall c :: c in counts ==> counts[c] == Count(pixels[..i], c)
    {
      var p := pixels[i];
      assert pixels[..i + 1] == pixels[..i] + [p];
      TallyStep(pixels[..i], p);
      if p in counts {
        counts := counts[p := counts[p] + 1];
      } else {
        counts := counts[p := 1];
        order := order + [p];
      }
      i := i + 1;
    }
    assert pixels[..i] == pixels;
  }

  /** One more pixel: the counter gains the colour as a new key or counts it once more. */
  lemma TallyStep(q: seq<Color>, p: Color)
    ensures Seen(q + [p]) == if p in q then Seen(q) else Seen(q) + [p]
    ensures forall c :: Count(q + [p], c) == Count(q, c) + (if c == p then 1 else 0)
  {
    Seqs.KeepFirstStep(q, p, Id);
    SeenIsDistinct(q);
    if p in Seen(q) {
      var k :| 0 <= k < |Seen(q)| && Seen(q)[k] == p;
      assert Id(Seen(q)[k]) in Seqs.Keys(Seen(q), Id);
    } else {
      assert p !in Seqs.Keys(Seen(q), Id);
    }
  }

  /** `most_common(n)` computed from the tally. */
  method ComputeMostCommon(pixels: seq<Color>, n: int) returns (common: seq<Entry>)
    ensures common == MostCommon(pixels, n)
  {
    var counts, order := Tally(pixels);
    SeenIsDistinct(pixels);
    var es := seq(|order|, i requires 0 <= i < |order| => Entry(order[i], counts[order[i]], i));
    assert es == Entries(pixels);
    common := Ranking.Top(es, n, EntryKey);
  }

  // ------------------------------------------------------------ properties

  lemma SeenIsDistinct(pixels: seq<Color>)
    ensures forall c :: c in Seen(pixels) <==> c in pixels
    ensures forall i, j :: 0 <= i < j < |Seen(pixels)| ==> Seen(pixels)[i] != Seen(pixels)[j]
    ensures |Seen(pixels)| == |set c | c in pixels|
  {
    var order := Seen(pixels);
    Seqs.KeepFirstKeys(pixels, Id);
    Seqs.KeepFirstDistinct(pixels, Id);
    Seqs.DistinctKeysCount(order, Id);
    assert Seqs.Keys(pixels, Id) == set c | c in pixels by {
      forall c | c in pixels ensures c in Seqs.Keys(pixels, Id) {
        var k :| 0 <= k < |pixels| && pixels[k] == c;
        assert Id(pixels[k]) == c;
      }
    }
    forall c ensures c in order <==> c in pixels {
      if c in order {
        var k :| 0 <= k < |order| && order[k] == c;
        assert Id(order[k]) in Seqs.Keys(order, Id);
      }
      if c in pixels {
        var k :| 0 <= k < |pixels| && pixels[k] == c;
        assert Id(pixels[k]) in Seqs.Keys(pixels, Id);
      }
    }
  }

  /** The result has min(n, number of distinct colours) entries. */
  lemma MostCommonLength(pixels: seq<Color>, n: int)
    ensures n <= 0 ==> |MostCommon(pixels, n)| == 0
    ensures 0 <= n <= |set c | c in pixels| ==> |MostCommon(pixels, n)| == n
    ensures n > |set c | c in pixels| ==> |MostCommon(pixels, n)| == |set c | c in pixels|
  {
    SeenIsDistinct(pixels);
  }

  /** Every listed entry is a colour of the image with its exact count; counts
      never increase down the list, and equal counts keep first-seen order. */
  lemma MostCommonOrdered(pixels: seq<Color>, n: int)
    ensures forall i :: 0 <= i < |MostCommon(pixels, n)| ==>
      MostCommon(pixels, n)[i].color in pixels &&
      MostCommon(pixels, n)[i].count == Count(pixels, MostCommon(pixels, n)[i].color)
    ensures forall i, j :: 0 <= i < j < |MostCommon(pixels, n)| ==>
      MostCommon(pixels, n)[i].count >= MostCommon(pixels, n)[j].count
    ensures forall i, j :: (0 <= i < j < |MostCommon(pixels, n)| &&
      MostCommon(pixels, n)[i].count == MostCommon(pixels, n)[j].count) ==>
      MostCommon(pixels, n)[i].first < MostCommon(pixels, n)[j].first
  {
    var es := Entries(pixels);
    var r := MostCommon(pixels, n);
    Ranking.TopIsTop(es, n, EntryKey);
    assert Ranking.Ranked(r, EntryKey);
    forall i | 0 <= i < |r|
      ensures r[i].color in pixels && r[i].count == Count(pixels, r[i].color)
    {
      EntryIsTally(pixels, r[i]);
    }
  }

  /** An entry of the counter is a colour of the image with its exact count. */
  lemma EntryIsTally(pixels: seq<Color>, e: Entry)
    requires e in Entries(pixels)
    ensures e.color in pixels && e.count == Count(pixels, e.color)
  {
    var es := Entries(pixels);
    var k :| 0 <= k < |es| && es[k] == e;
    SeenIsDistinct(pixels);
    assert e.color == Seen(pixels)[k];
  }

  /** Ties are broken by scan order: of two listed colours with equal counts, the
      one listed first appears in the image before any pixel of the other. */
  lemma TiesInScanOrder(pixels: seq<Color>, n: int, i: int, j: int, b: int)
    requires 0 <= i < j < |MostCommon(pixels, n)|
    requires MostCommon(pixels, n)[i].count == MostCommon(pixels, n)[j].count
    requires 0 <= b < |pixels| && pixels[b] == MostCommon(pixels, n)[j].color
    ensures exists a :: 0 <= a < b && pixels[a] == MostCommon(pixels, n)[i].color
  {
    var es := Entries(pixels);
    var ranked := Ranking.Rank(es, EntryKey);
    var r := MostCommon(pixels, n);
    var order := Seen(pixels);
    MostCommonOrdered(pixels, n);
    assert r[i] in multiset(ranked) && r[j] in multiset(ranked);
    var ki :| 0 <= ki < |es| && es[ki] == r[i];
    var kj :| 0 <= kj < |es| && es[kj] == r[j];
    assert r[i].color == order[ki] && r[j].color == order[kj];
    Seqs.KeepFirstOrder(pixels, Id);
    assert Id(pixels[b]) == Id(order[kj]);
    var a :| 0 <= a < b && Id(pixels[a]) == Id(order[ki]);
  }

  /** No colour left off the list occurs more often than the last listed one. */
  lemma MostCommonIsTop(pixels: seq<Color>, n: int, c: Color)
    requires c in pixels
    requires forall i :: 0 <= i < |MostCommon(pixels, n)| ==> MostCommon(pixels, n)[i].color != c
    requires MostCommon(pixels, n) != []
    ensures Count(pixels, c) <= MostCommon(pixels, n)[|MostCommon(pixels, n)| - 1].count
  {
    var es := Entries(pixels);
    var r := MostCommon(pixels, n);
    SeenIsDistinct(pixels);
    var order := Seen(pixels);
    var k :| 0 <= k < |order| && order[k] == c;
    var e := es[k];
    assert e.color == c && e.count == Count(pixels, c);
    assert e !in r;
    Ranking.TopIsTop(es, n, EntryKey);
    assert EntryKey(e).0 <= EntryKey(r[|r| - 1]).0;
  }

  // ---------------------------------------------------- counting every pixel

  /** The counts of the colours of `d` in `m`, added up. */
  function SumCounts(d: seq<Color>, m: multiset<Color>): nat {
    if d == [] then 0 else SumCounts(d[..|d| - 1], m) + m[d[|d| - 1]]
  }

  lemma {:induction false} SumCountsAdd(d: seq<Color>, m: multiset<Color>, x: Color)
    requires forall i, j :: 0 <= i < j < |d| ==> d[i] != d[j]
    ensures SumCounts(d, m + multiset{x}) == SumCounts(d, m) + (if x in d then 1 else 0)
  {
    if d != [] {
      var p := d[..|d| - 1];
      SumCountsAdd(p, m, x);
      assert x in d <==> x in p || x == d[|d| - 1];
      assert x == d[|d| - 1] ==> x !in p;
    }
  }

  /** Counting over a list of distinct colours that covers the pixels adds up to the pixel count. */
  lemma {:induction false} SumCountsCovers(d: seq<Color>, pixels: seq<Color>)
    requires forall i, j :: 0 <= i < j < |d| ==> d[i] != d[j]
    requires forall c :: c in pixels ==> c in d
    ensures SumCounts(d, multiset(pixels)) == |pixels|
  {
    if pixels == [] {
      SumCountsEmpty(d);
    } else {
      var q := pixels[..|pixels| - 1];
      var x := pixels[|pixels| - 1];
      assert pixels == q + [x];
      SumCountsCovers(d, q);
      SumCountsAdd(d, multiset(q), x);
    }
  }

  lemma {:induction false} SumCountsEmpty(d: seq<Color>)
    ensures SumCounts(d, multiset{}) == 0
  {
    if d != [] {
      SumCountsEmpty(d[..|d| - 1]);
    }
  }

  /** Every pixel is counted exactly once: the counts add up to the number of
      pixels, 22500 for the 150 by 150 image. */
  lemma CountsCoverAllPixels(pixels: seq<Color>)
    ensures SumCounts(Seen(pixels), multiset(pixels)) == |pixels|
    ensures |pixels| == 150 * 150 ==> SumCounts(Seen(pixels), multiset(pixels)) == 22500
  {
    SeenIsDistinct(pixels);
    SumCountsCovers(Seen(pixels), pixels);
  }

  // ------------------------------------------------------------- the output

  /** `#rrggbb`: each channel as two lower-case, zero-padded hexadecimal digits. */
  function HexCode(c: Color): (h: string)
    ensures |h| == 7 && h[0] == '#' && Strings.IsLower(h)
  {
    "#" + Hex2(c.r) + Hex2(c.g) + Hex2(c.b)
  }

  /** Reading the three digit pairs back gives the colour. */
  lemma HexCodeRoundTrip(c: Color)
    ensures ParseInt(HexCode(c)[1..3], 16) == Some(c.r as int)
    ensures ParseInt(HexCode(c)[3..5], 16) == Some(c.g as int)
    ensures ParseInt(HexCode(c)[5..7], 16) == Some(c.b as int)
  {
    var h := HexCode(c);
    assert h[1..3] == Hex2(c.r);
    assert h[3..5] == Hex2(c.g);
    assert h[5..7] == Hex2(c.b);
    ParseHex2(c.r);
    ParseHex2(c.g);
    ParseHex2(c.b);
  }

  /** Python's text for the tuple `(r, g, b)`. */
  function TupleText(c: Color): string {
    "(" + NatToString(c.r) + ", " + NatToString(c.g) + ", " + NatToString(c.b) + ")"
  }

  function ColorLine(c: Color): (line: string)
    ensures Strings.StartsWith(line, "RGB: (")
    ensures |line| > 7 && line[|line| - 7..] == HexCode(c)
  {
    var head := "RGB: (";
    var middle := NatToString(c.r) + ", " + NatToString(c.g) + ", " + NatToString(c.b) + ") - Hex: ";
    var h := HexCode(c);
    var line := head + middle + h;
    assert line[..|head|] == head;
    assert line[|line| - 7..] == h;
    line
  }

  function Header(path: string): string {
    "Dominant colors for " + path + ":"
  }

  function ErrorLine(message: string): string {
    "Error: " + message
  }

  /** Opening and decoding the image: the resized pixels, or the exception's message. */
  datatype Decoded = Pixels(pixels: seq<Color>) | Failed(message: string)

  /** One printed line per ranked entry, in rank order. */
  function ColorLines(common: seq<Entry>): (lines: seq<string>)
    ensures |lines| == |common|
    ensures forall k :: 0 <= k < |common| ==> lines[k] == ColorLine(common[k].color)
  {
    seq(|common|, k requires 0 <= k < |common| => ColorLine(common[k].color))
  }

  /** One more ranked entry adds its line at the end. */
  lemma ColorLinesStep(common: seq<Entry>, k: int)
    requires 0 <= k < |common|
    ensures ColorLines(common[..k + 1]) == ColorLines(common[..k]) + [ColorLine(common[k].color)]
  {
    var a := ColorLines(common[..k + 1]);
    var b := ColorLines(common[..k]) + [ColorLine(common[k].color)];
    assert |a| == |b|;
    forall i | 0 <= i < |a| ensures a[i] == b[i] {
      var e := common[i];
      assert common[..k + 1][i] == e;
      assert a[i] == ColorLine(e.color);
      if i < k {
        assert common[..k][i] == e;
        assert b[i] == ColorLines(common[..k])[i];
      }
    }
  }

  /**
   * `get_dominant_colors(path, num_colors)`: the printed lines. On success the
   * header comes first, followed by one line per ranked colour; a failure
   * prints a single error line and no header.
   */
  method DominantColorsReport(path: string, image: Decoded, numColors: int) returns (lines: seq<string>)
    ensures image.Failed? ==> lines == [ErrorLine(image.message)]
    ensures image.Pixels? ==> lines == [Header(path)] + ColorLines(MostCommon(image.pixels, numColors))
  {
    if image.Failed? {
      lines := [ErrorLine(image.message)];
    } else {
      var common := ComputeMostCommon(image.pixels, numColors);
      lines := [Header(path)];
      for k := 0 to |common|
        invariant lines == [Header(path)] + ColorLines(common[..k])
      {
        ColorLinesStep(common, k);
        lines := lines + [ColorLine(common[k].color)];
      }
      assert common[..|common|] == common;
    }
  }

  /** No colour line and no error line can be mistaken for the header. */
  lemma HeaderOnlyOnce(path: string, c: Color, message: string)
    ensures ColorLine(c) != Header(path)
    ensures ErrorLine(message) != Header(path)
  {
    assert ColorLine(c)[0] == 'R';
    assert Header(path)[0] == 'D';
    assert ErrorLine(message)[0] == 'E';
  }

  const Usage := "Usage: python analyze_colors.py <image_path>"

  const NoPil := "PIL not installed"

  /** The script entry. Importing PIL comes first: without it the script prints
      `PIL not installed` and exits with status 1. Otherwise, with an argument it
      reports on that image with the default of five colours, and without one it
      prints only the usage line; both end with status 0. */
  method RunScript(pilAvailable: bool, argv: seq<string>, image: Decoded) returns (lines: seq<string>, status: int)
    ensures !pilAvailable ==> lines == [NoPil] && status == 1
    ensures pilAvailable ==> status == 0
    ensures pilAvailable && |argv| <= 1 ==> lines == [Usage]
    ensures pilAvailable && |argv| > 1 && image.Failed? ==> lines == [ErrorLine(image.message)]
    ensures pilAvailable && |argv| > 1 && image.Pixels? ==>
      lines == [Header(argv[1])] + ColorLines(MostCommon(image.pixels, 5))
  {
    if !pilAvailable {
      return [NoPil], 1;
    }
    status := 0;
    if |argv| > 1 {
      lines := DominantColorsReport(argv[1], image, 5);
    } else {
      lines := [Usage];
    }
  }
}
