/**
 * Number <-> text conversions the application relies on: decimal rendering of
 * integers (JavaScript template literals, Python f-strings), `parseInt` with
 * radix 10 or 16 or none, `parseFloat`, and two-digit lower-case hexadecimal
 * (`{:02x}` in Python, `toString(16).padStart(2, '0')` in JavaScript).
 */
module Numbers {
  import opened Wrappers
  import Strings

  type Byte = x: int | 0 <= x < 256
  type Radix = r: int | r == 10 || r == 16 witness 10

  // ---------------------------------------------------------------- digits

  predicate IsDigit(c: char, radix: Radix) {
    ('0' <= c <= '9') || (radix == 16 && (('a' <= c <= 'f') || ('A' <= c <= 'F')))
  }

  function DigitValue(c: char, radix: Radix): (v: nat)
    requires IsDigit(c, radix)
    ensures v < radix
  {
    if '0' <= c <= '9' then c as int - '0' as int
    else if 'a' <= c <= 'f' then c as int - 'a' as int + 10
    else c as int - 'A' as int + 10
  }

  predicate AllDigits(s: string, radix: Radix) {
    forall i :: 0 <= i < |s| ==> IsDigit(s[i], radix)
  }

  /** The value of a digit string, most significant digit first. */
  function Value(s: string, radix: Radix): nat
    requires AllDigits(s, radix)
  {
    if s == [] then 0 else Value(s[..|s| - 1], radix) * radix + DigitValue(s[|s| - 1], radix)
  }

  /** The longest prefix of `s` made of digits of the radix. */
  function DigitPrefix(s: string, radix: Radix): (d: string)
    ensures |d| <= |s| && d == s[..|d|]
    ensures AllDigits(d, radix)
    ensures |d| == |s| || !IsDigit(s[|d|], radix)
  {
    if s != [] && IsDigit(s[0], radix) then [s[0]] + DigitPrefix(s[1..], radix) else []
  }

  lemma DigitPrefixOfDigits(s: string, radix: Radix)
    requires AllDigits(s, radix)
    ensures DigitPrefix(s, radix) == s
  {
  }

  /** `n` shifted `k` decimal places to the right: `n / 10^k`. */
  function Shift(n: nat, k: nat): (x: real)
    ensures x >= 0.0
    ensures n > 0 ==> x > 0.0
    decreases k
  {
    if k == 0 then n as real else Shift(n, k - 1) / 10.0
  }

  // ------------------------------------------------------------- rendering

  function DecimalDigit(d: int): (c: char)
    requires 0 <= d < 10
    ensures IsDigit(c, 10) && DigitValue(c, 10) == d
  {
    "0123456789"[d]
  }

  /** The decimal text of a natural number, without leading zeros. */
  function NatToString(n: nat): (s: string)
    ensures |s| >= 1 && AllDigits(s, 10)
    ensures |s| > 1 ==> s[0] != '0'
    decreases n
  {
    if n < 10 then [DecimalDigit(n)] else NatToString(n / 10) + [DecimalDigit(n % 10)]
  }

  /** `${n}` for an integer `n`. */
  function IntToString(n: int): (s: string)
    ensures |s| >= 1
  {
    if n < 0 then "-" + NatToString(-n) else NatToString(n)
  }

  /** Reading back the rendered digits gives the number: the rendering is lossless. */
  lemma {:induction false} NatToStringValue(n: nat)
    ensures Value(NatToString(n), 10) == n
    decreases n
  {
    var s := NatToString(n);
    if n >= 10 {
      NatToStringValue(n / 10);
      assert s[..|s| - 1] == NatToString(n / 10);
    }
  }

  /** Reads back the text `IntToString` renders. */
  function ReadInt(s: string): int
    requires s != [] && (s[0] == '-' ==> AllDigits(s[1..], 10)) && (s[0] != '-' ==> AllDigits(s, 10))
  {
    if s[0] == '-' then 0 - Value(s[1..], 10) as int else Value(s, 10) as int
  }

  lemma ReadIntToString(n: int)
    ensures ReadInt(IntToString(n)) == n
  {
    if n < 0 {
      ReadNegative(-n);
      assert IntToString(n) == "-" + NatToString(-n);
    } else {
      ReadNatural(n);
      assert IntToString(n) == NatToString(n);
    }
  }

  lemma ReadNatural(m: nat)
    ensures NatToString(m)[0] != '-'
    ensures ReadInt(NatToString(m)) == m
  {
    var d := NatToString(m);
    assert IsDigit(d[0], 10);
    NatToStringValue(m);
  }

  lemma ReadNegative(m: nat)
    ensures ("-" + NatToString(m))[0] == '-' && ("-" + NatToString(m))[1..] == NatToString(m)
    ensures ReadInt("-" + NatToString(m)) == -(m as int)
  {
    var d := NatToString(m);
    var s := "-" + d;
    assert s[1..] == d;
    NatToStringValue(m);
  }

  /** Distinct numbers have distinct decimal texts. */
  lemma IntToStringInjective(m: int, n: int)
    requires IntToString(m) == IntToString(n)
    ensures m == n
  {
    ReadIntToString(m);
    ReadIntToString(n);
  }

  // --------------------------------------------------------------- parsing

  /** The sign in front of a number and the text after it. */
  function SplitSign(t: string): (int, string) {
    if t != [] && t[0] == '-' then (-1, t[1..])
    else if t != [] && t[0] == '+' then (1, t[1..])
    else (1, t)
  }

  /**
   * `parseInt(s, radix)`: leading white space and a sign are skipped, with
   * radix 16 a `0x` / `0X` prefix too, then the longest run of digits is
   * read; no digit at all gives NaN (`None`).
   */
  function ParseInt(s: string, radix: Radix): (r: Option<int>)
    ensures r.None? <==> DigitPrefix(HexBody(SplitSign(Strings.TrimStart(s)).1, radix), radix) == []
  {
    var (sign, rest) := SplitSign(Strings.TrimStart(s));
    var ds := DigitPrefix(HexBody(rest, radix), radix);
    if ds == [] then None else Some(sign * Value(ds, radix))
  }

  /** `parseInt` of a natural number's own decimal text gives the number back. */
  lemma ParseIntOfNat(n: nat)
    ensures ParseInt(NatToString(n), 10) == Some(n)
  {
    var s := NatToString(n);
    assert IsDigit(s[0], 10);
    Strings.TrimStartKeeps(s);
    assert SplitSign(s) == (1, s);
    DigitPrefixOfDigits(s, 10);
    NatToStringValue(n);
  }

  /** Text that starts with `0x` or `0X`. */
  predicate HexPrefixed(rest: string) {
    |rest| >= 2 && rest[0] == '0' && (rest[1] == 'x' || rest[1] == 'X')
  }

  function HexBody(rest: string, radix: Radix): string {
    if radix == 16 && HexPrefixed(rest) then rest[2..] else rest
  }

  /**
   * `parseInt(s)` with no radix: when the text after the white space and the
   * sign starts with `0x` or `0X` it is read in radix 16, otherwise in radix 10.
   */
  function ParseIntAuto(s: string): (r: Option<int>)
    ensures HexPrefixed(SplitSign(Strings.TrimStart(s)).1) ==> r == ParseInt(s, 16)
    ensures !HexPrefixed(SplitSign(Strings.TrimStart(s)).1) ==> r == ParseInt(s, 10)
  {
    if HexPrefixed(SplitSign(Strings.TrimStart(s)).1) then ParseInt(s, 16) else ParseInt(s, 10)
  }

  /** A natural number's decimal text is read as decimal, and a `0x` text as
      hexadecimal, with its sign. */
  lemma ParseIntAutoExamples(n: nat)
    ensures ParseIntAuto(NatToString(n)) == Some(n)
    ensures ParseIntAuto("0x1e") == Some(30) && ParseIntAuto("-0x1e") == Some(-30)
    ensures ParseIntAuto("1e") == Some(1)
  {
    var s := NatToString(n);
    assert IsDigit(s[0], 10);
    Strings.TrimStartKeeps(s);
    assert SplitSign(s) == (1, s);
    assert !HexPrefixed(s) by {
      if |s| >= 2 { assert IsDigit(s[1], 10); }
    }
    ParseIntOfNat(n);
    HexDigits("0x1e", "1e");
    assert SplitSign("-0x1e") == (-1, "0x1e");
    Strings.TrimStartKeeps("-0x1e");
    assert Value("1e", 16) == 30 by { assert "1e"[..1] == "1"; }
    assert SplitSign("1e") == (1, "1e");
    Strings.TrimStartKeeps("1e");
    assert DigitPrefix("1e", 10) == "1";
    assert Value("1", 10) == 1;
  }

  lemma HexDigits(s: string, body: string)
    requires s == "0x" + body && body == "1e"
    ensures Strings.TrimStart(s) == s && SplitSign(s) == (1, s) && HexPrefixed(s)
    ensures DigitPrefix(HexBody(s, 16), 16) == "1e"
  {
    Strings.TrimStartKeeps(s);
    assert s[2..] == body;
    DigitPrefixOfDigits(body, 16);
  }

  /**
   * `parseFloat(s)` for plain decimal notation: leading white space and a
   * sign, then digits with an optional fractional part. The longest such
   * prefix is read; without any digit the result is NaN (`None`).
   */
  function ParseDecimal(s: string): (r: Option<real>)
  {
    var (sign, rest) := SplitSign(Strings.TrimStart(s));
    ReadDecimal(sign, rest)
  }

  /** The unsigned part of `parseFloat`: whole digits, then `.` and fraction digits. */
  function ReadDecimal(sign: int, rest: string): Option<real> {
    var whole := DigitPrefix(rest, 10);
    var after := rest[|whole|..];
    var frac := if after != [] && after[0] == '.' then DigitPrefix(after[1..], 10) else [];
    if whole == [] && frac == [] then None
    else Some(Compose(sign, whole, frac))
  }

  /** The number written with this sign, whole digits and fraction digits. */
  function Compose(sign: int, whole: string, frac: string): real
    requires AllDigits(whole, 10) && AllDigits(frac, 10)
  {
    var magnitude := Value(whole, 10) as real + Shift(Value(frac, 10), |frac|);
    if sign < 0 then -magnitude else magnitude
  }

  /** A natural number's own decimal text parses back to it. */
  lemma ParseDecimalOfNat(n: nat)
    ensures ParseDecimal(NatToString(n)) == Some(n as real)
  {
    var s := NatToString(n);
    assert IsDigit(s[0], 10);
    Strings.TrimStartKeeps(s);
    assert SplitSign(s) == (1, s);
    NatToStringValue(n);
    ReadDigitsOnly(s);
  }

  /** A run of digits with nothing after it reads as its integer value. */
  lemma ReadDigitsOnly(s: string)
    requires s != [] && AllDigits(s, 10)
    ensures ReadDecimal(1, s) == Some(Value(s, 10) as real)
  {
    DigitPrefixOfDigits(s, 10);
    assert s[|s|..] == [];
    assert Value([], 10) == 0;
  }

  /**
   * A number with a finite decimal expansion, in the form
   * `Number.prototype.toString` writes it in plain notation: `-` for a
   * negative number, the whole part, then `.` and the fraction digits when
   * there are any, the last of them not `0`. Zero has no sign.
   */
  datatype Decimal = Decimal(negative: bool, whole: nat, fraction: string)

  predicate Canonical(d: Decimal) {
    AllDigits(d.fraction, 10) && (d.fraction == [] || d.fraction[|d.fraction| - 1] != '0') &&
    (d.negative ==> d.whole > 0 || d.fraction != [])
  }

  type CanonicalDecimal = d: Decimal | Canonical(d) witness Decimal(false, 0, [])

  function DecimalValue(d: CanonicalDecimal): real {
    var magnitude := d.whole as real + Shift(Value(d.fraction, 10), |d.fraction|);
    if d.negative then -magnitude else magnitude
  }

  /** The digits of such a number without its sign. */
  function UnsignedText(d: CanonicalDecimal): (s: string)
    ensures ',' !in s && '-' !in s
    ensures s != [] && IsDigit(s[0], 10)
  {
    var w := NatToString(d.whole);
    assert w[0] in w;
    var s := w + (if d.fraction == [] then [] else "." + d.fraction);
    assert s[0] == w[0];
    assert forall i :: 0 <= i < |s| ==> s[i] != ',' && s[i] != '-' by {
      forall i | 0 <= i < |s| ensures s[i] != ',' && s[i] != '-' {
        if i < |w| { assert IsDigit(w[i], 10); }
        else if i > |w| { assert s[i] == d.fraction[i - |w| - 1]; assert IsDigit(d.fraction[i - |w| - 1], 10); }
      }
    }
    s
  }

  /** `String(x)` for such a number. */
  function DecimalToString(d: CanonicalDecimal): (s: string)
    ensures ',' !in s
    ensures s != [] && (d.negative <==> s[0] == '-')
    ensures !d.negative ==> IsDigit(s[0], 10)
  {
    if d.negative then "-" + UnsignedText(d) else UnsignedText(d)
  }

  /** The digit prefix of digits followed by a non-digit is those digits. */
  lemma {:induction false} DigitPrefixStops(a: string, b: string)
    requires AllDigits(a, 10)
    requires b == [] || !IsDigit(b[0], 10)
    ensures DigitPrefix(a + b, 10) == a
  {
    if a != [] {
      assert (a + b)[1..] == a[1..] + b;
      DigitPrefixStops(a[1..], b);
    } else {
      assert a + b == b;
    }
  }

  /** Reading whole digits, then optionally `.` and fraction digits. */
  lemma ReadDecimalParts(sign: int, w: string, f: string)
    requires w != [] && AllDigits(w, 10) && AllDigits(f, 10)
    ensures ReadDecimal(sign, w + (if f == [] then [] else "." + f)) == Some(Compose(sign, w, f))
  {
    var tail := if f == [] then [] else "." + f;
    var s := w + tail;
    DigitPrefixStops(w, tail);
    var after := s[|w|..];
    assert after == tail;
    var frac := if after != [] && after[0] == '.' then DigitPrefix(after[1..], 10) else [];
    if f != [] {
      assert after[1..] == f;
      DigitPrefixOfDigits(f, 10);
    }
    assert frac == f;
    assert ReadDecimal(sign, s) == Some(Compose(sign, w, f));
  }

  /** `parseFloat(String(x))` gives `x` back, for negative numbers too. */
  lemma ParseDecimalToString(d: CanonicalDecimal)
    ensures ParseDecimal(DecimalToString(d)) == Some(DecimalValue(d))
  {
    var u := UnsignedText(d);
    var w := NatToString(d.whole);
    var sign := if d.negative then -1 else 1;
    assert u == w + (if d.fraction == [] then [] else "." + d.fraction);
    ReadDecimalParts(sign, w, d.fraction);
    ComposeIsValue(d, sign);
    ReadSigned(d.negative, u);
  }

  /** Reading the sign in front of unsigned digits. */
  lemma ReadSigned(negative: bool, u: string)
    requires u != [] && IsDigit(u[0], 10)
    ensures ParseDecimal(if negative then "-" + u else u) == ReadDecimal(if negative then -1 else 1, u)
  {
    if negative {
      var s := "-" + u;
      assert s[0] == '-' && s[1..] == u;
      Strings.TrimStartKeeps(s);
    } else {
      assert !Strings.IsSpace(u[0]);
      Strings.TrimStartKeeps(u);
    }
  }

  lemma ComposeIsValue(d: CanonicalDecimal, sign: int)
    requires sign == if d.negative then -1 else 1
    ensures Compose(sign, NatToString(d.whole), d.fraction) == DecimalValue(d)
  {
    NatToStringValue(d.whole);
  }

  /** `x || 0` on a parsed number: NaN and zero both become zero. */
  function OrZero(r: Option<real>): (x: real)
    ensures r.Some? && r.value != 0.0 ==> x == r.value
    ensures r.None? ==> x == 0.0
    ensures r.Some? && r.value == 0.0 ==> x == 0.0
  {
    if r.Some? then r.value else 0.0
  }

  /** `x || d` on a parsed number: NaN and zero both become `d`. */
  function OrDefault(r: Option<real>, d: real): (x: real)
    ensures r.Some? && r.value != 0.0 ==> x == r.value
    ensures (r.None? || r.value == 0.0) ==> x == d
  {
    if r.Some? && r.value != 0.0 then r.value else d
  }

  /** `Math.round` on an exact value: the nearest integer, halves rounded up. */
  function Round(x: real): (n: int)
    ensures n as real <= x + 0.5 < n as real + 1.0
  {
    (x + 0.5).Floor
  }

  // -------------------------------------------------------- hexadecimal

  function HexDigit(d: int): (c: char)
    requires 0 <= d < 16
    ensures IsDigit(c, 16) && DigitValue(c, 16) == d
    ensures !('A' <= c <= 'Z') && c != 'x' && c != 'X'
  {
    "0123456789abcdef"[d]
  }

  /** A byte as exactly two lower-case, zero-padded hexadecimal digits. */
  function Hex2(v: Byte): (s: string)
    ensures |s| == 2 && AllDigits(s, 16)
    ensures Strings.IsLower(s)
  {
    [HexDigit(v / 16), HexDigit(v % 16)]
  }

  /** Decoding the two digits gives the byte back. */
  lemma Hex2Value(v: Byte)
    ensures Value(Hex2(v), 16) == v
  {
    var s := Hex2(v);
    Value2Bound(s);
    assert v == (v / 16) * 16 + v % 16;
  }

  /** Two hexadecimal digits have a value below 256. */
  lemma Value2Bound(s: string)
    requires |s| == 2 && AllDigits(s, 16)
    ensures Value(s, 16) == DigitValue(s[0], 16) * 16 + DigitValue(s[1], 16)
    ensures Value(s, 16) < 256
  {
    var d0, d1 := DigitValue(s[0], 16), DigitValue(s[1], 16);
    var p := s[..1];
    assert p == [s[0]];
    assert p[..0] == [];
    assert Value(p, 16) == Value(p[..0], 16) * 16 + DigitValue(p[0], 16);
    assert Value(p, 16) == d0;
    assert Value(s, 16) == Value(p, 16) * 16 + d1;
    assert d0 <= 15 && d1 <= 15;
    assert d0 * 16 <= 240;
  }

  /** `parseInt(Hex2(v), 16)` reads the byte back. */
  lemma ParseHex2(v: Byte)
    ensures ParseInt(Hex2(v), 16) == Some(v)
  {
    ParsePair(Hex2(v));
    Hex2Value(v);
  }

  /** `parseInt` of two hexadecimal digits is their value. */
  lemma ParsePair(s: string)
    requires |s| == 2 && AllDigits(s, 16)
    ensures ParseInt(s, 16) == Some(Value(s, 16) as int)
  {
    assert IsDigit(s[0], 16) && IsDigit(s[1], 16);
    Strings.TrimStartKeeps(s);
    assert SplitSign(s) == (1, s);
    assert HexBody(s, 16) == s;
    DigitPrefixOfDigits(s, 16);
  }

  /** Re-encoding two hexadecimal digits gives their lower-case form. */
  lemma Hex2OfValue(s: string)
    requires |s| == 2 && AllDigits(s, 16)
    ensures Value(s, 16) < 256 && Hex2(Value(s, 16)) == Strings.Lower(s)
  {
    Value2Bound(s);
    var v := Value(s, 16);
    var d0, d1 := DigitValue(s[0], 16), DigitValue(s[1], 16);
    assert v == d0 * 16 + d1;
    assert v / 16 == d0 && v % 16 == d1;
    HexDigitOfChar(s[0]);
    HexDigitOfChar(s[1]);
  }

  /** Rendering the value of a hexadecimal digit gives the digit in lower case. */
  lemma HexDigitOfChar(c: char)
    requires IsDigit(c, 16)
    ensures HexDigit(DigitValue(c, 16)) == Strings.LowerChar(c)
  {
    var l := Strings.LowerChar(c);
    assert IsDigit(l, 16) && DigitValue(l, 16) == DigitValue(c, 16);
    SameLowerDigit(HexDigit(DigitValue(c, 16)), l);
  }

  /** A digit that is not an upper-case letter is fixed by its value. */
  lemma SameLowerDigit(x: char, y: char)
    requires IsDigit(x, 16) && IsDigit(y, 16) && !('A' <= x <= 'Z') && !('A' <= y <= 'Z')
    requires DigitValue(x, 16) == DigitValue(y, 16)
    ensures x == y
  {
  }
}
