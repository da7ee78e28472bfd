/** Character classes, stripping, splitting and decimal numerals, as Python's
    `str` methods, `int()`, `float()` and format specifiers treat them. */
module Text {
  import opened Wrappers

  // ---- characters ----

  /** `str.isspace` */
  predicate IsSpace(c: char) {
    var k := c as int;
    9 <= k <= 13 || 28 <= k <= 32 || k == 0x85 || k == 0xA0 || k == 0x1680 || 0x2000 <= k <= 0x200A
    || k == 0x2028 || k == 0x2029 || k == 0x202F || k == 0x205F || k == 0x3000
  }

  /** The code points Python counts as white space, one by one. */
  const PYTHON_SPACE: set<int> := {
    0x9, 0xA, 0xB, 0xC, 0xD, 0x1C, 0x1D, 0x1E, 0x1F, 0x20, 0x85, 0xA0, 0x1680,
    0x2000, 0x2001, 0x2002, 0x2003, 0x2004, 0x2005, 0x2006, 0x2007, 0x2008, 0x2009, 0x200A,
    0x2028, 0x2029, 0x202F, 0x205F, 0x3000}

  lemma {:induction false} SpacesAreExactly(c: char)
    ensures IsSpace(c) <==> c as int in PYTHON_SPACE
  {
  }

  predicate IsDigit(c: char) { '0' <= c <= '9' }

  predicate AllDigits(s: string) {
    forall i :: 0 <= i < |s| ==> IsDigit(s[i])
  }

  predicate AllSpace(s: string) {
    forall i :: 0 <= i < |s| ==> IsSpace(s[i])
  }

  predicate NoSpace(s: string) {
    forall i :: 0 <= i < |s| ==> !IsSpace(s[i])
  }

  // ---- strip ----

  function LStrip(s: string): string {
    if s == "" || !IsSpace(s[0]) then s else LStrip(s[1..])
  }

  function RStrip(s: string): string {
    if s == "" || !IsSpace(s[|s| - 1]) then s else RStrip(s[..|s| - 1])
  }

  function Strip(s: string): string {
    RStrip(LStrip(s))
  }

  lemma {:induction false} LStripSpaces(a: string, s: string)
    requires AllSpace(a)
    ensures LStrip(a + s) == LStrip(s)
  {
    if a == "" {
      assert a + s == s;
    } else {
      assert (a + s)[1..] == a[1..] + s;
      LStripSpaces(a[1..], s);
    }
  }

  lemma {:induction false} RStripSpaces(s: string, b: string)
    requires AllSpace(b)
    ensures RStrip(s + b) == RStrip(s)
  {
    if b == "" {
      assert s + b == s;
    } else {
      assert (s + b)[..|s + b| - 1] == s + b[..|b| - 1];
      RStripSpaces(s, b[..|b| - 1]);
    }
  }

  /** Right-stripping leaves a prefix, and only spaces are lost. */
  lemma {:induction false} RStripPrefix(s: string)
    ensures |RStrip(s)| <= |s| && RStrip(s) == s[..|RStrip(s)|] && AllSpace(s[|RStrip(s)|..])
    ensures RStrip(s) != "" ==> !IsSpace(RStrip(s)[|RStrip(s)| - 1])
  {
    if s != "" && IsSpace(s[|s| - 1]) {
      RStripPrefix(s[..|s| - 1]);
      var r := RStrip(s);
      assert s[|r|..] == s[..|s| - 1][|r|..] + [s[|s| - 1]];
    }
  }

  /** A prefix that ends in a non-space is kept whole by right-stripping. */
  lemma {:induction false} RStripKeeps(p: string, s: string)
    requires p != "" && !IsSpace(p[|p| - 1])
    ensures RStrip(p + s) == p + RStrip(s)
  {
    if s == "" || !IsSpace(s[|s| - 1]) {
      if s == "" { assert p + s == p; }
    } else {
      assert (p + s)[..|p + s| - 1] == p + s[..|s| - 1];
      RStripKeeps(p, s[..|s| - 1]);
    }
  }

  // ---- whitespace split ----

  function SpacePrefix(s: string): (n: nat)
    ensures n <= |s|
  {
    if s == "" || !IsSpace(s[0]) then 0 else 1 + SpacePrefix(s[1..])
  }

  function WordPrefix(s: string): (n: nat)
    ensures n <= |s|
    ensures s != "" && !IsSpace(s[0]) ==> n > 0
  {
    if s == "" || IsSpace(s[0]) then 0 else 1 + WordPrefix(s[1..])
  }

  /** `str.split()` with no argument. */
  function Words(s: string): seq<string>
    decreases |s|
  {
    var t := s[SpacePrefix(s)..];
    if t == "" then []
    else if WordPrefix(t) == 0 then []
    else [t[..WordPrefix(t)]] + Words(t[WordPrefix(t)..])
  }

  lemma {:induction false} SpacePrefixStops(s: string)
    ensures AllSpace(s[..SpacePrefix(s)])
    ensures SpacePrefix(s) < |s| ==> !IsSpace(s[SpacePrefix(s)])
  {
    if s != "" && IsSpace(s[0]) {
      SpacePrefixStops(s[1..]);
      assert s[..SpacePrefix(s)] == [s[0]] + s[1..][..SpacePrefix(s[1..])];
    }
  }

  lemma {:induction false} WordPrefixOf(w: string, rest: string)
    requires NoSpace(w) && (rest == "" || IsSpace(rest[0]))
    ensures WordPrefix(w + rest) == |w|
  {
    if w != "" {
      assert (w + rest)[1..] == w[1..] + rest;
      WordPrefixOf(w[1..], rest);
    } else {
      assert w + rest == rest;
    }
  }

  lemma {:induction false} SpacePrefixOf(a: string, rest: string)
    requires AllSpace(a) && (rest == "" || !IsSpace(rest[0]))
    ensures SpacePrefix(a + rest) == |a|
  {
    if a != "" {
      assert (a + rest)[1..] == a[1..] + rest;
      SpacePrefixOf(a[1..], rest);
    } else {
      assert a + rest == rest;
    }
  }

  /** A leading word set off by a space is the first of the split. */
  lemma {:induction false} WordsCons(a: string, w: string, rest: string)
    requires AllSpace(a) && w != "" && NoSpace(w) && (rest == "" || IsSpace(rest[0]))
    ensures Words(a + w + rest) == [w] + Words(rest)
  {
    var s := a + w + rest;
    assert s == a + (w + rest);
    SpacePrefixOf(a, w + rest);
    assert s[SpacePrefix(s)..] == w + rest;
    WordPrefixOf(w, rest);
    assert (w + rest)[..|w|] == w;
    assert (w + rest)[|w|..] == rest;
  }

  lemma WordsBlank(a: string)
    requires AllSpace(a)
    ensures Words(a) == []
  {
    SpacePrefixOf(a, "");
    assert a + "" == a;
  }

  ghost predicate IsWord(w: string) { w != "" && NoSpace(w) }

  /** Splitting yields only non-empty, space-free words. */
  lemma {:induction false} WordsAreWords(s: string)
    ensures forall i :: 0 <= i < |Words(s)| ==> IsWord(Words(s)[i])
    decreases |s|
  {
    var t := s[SpacePrefix(s)..];
    if t != "" && WordPrefix(t) > 0 {
      WordPrefixIsWord(t);
      WordsAreWords(t[WordPrefix(t)..]);
    }
  }

  lemma {:induction false} WordPrefixIsWord(s: string)
    ensures NoSpace(s[..WordPrefix(s)])
  {
    if s != "" && !IsSpace(s[0]) {
      WordPrefixIsWord(s[1..]);
      assert s[..WordPrefix(s)] == [s[0]] + s[1..][..WordPrefix(s[1..])];
    }
  }

  // ---- join ----

  function Join(parts: seq<string>, sep: string): string {
    if parts == [] then ""
    else if |parts| == 1 then parts[0]
    else parts[0] + sep + Join(parts[1..], sep)
  }

  // ---- decimal numerals ----

  function Pow10(k: nat): (p: nat)
    ensures p > 0
  {
    if k == 0 then 1 else 10 * Pow10(k - 1)
  }

  function DigitVal(c: char): nat
    requires IsDigit(c)
  {
    c as int - '0' as int
  }

  function DigitChar(d: nat): char
    requires d < 10
  {
    (d + '0' as int) as char
  }

  function DigitsVal(s: string): nat
    requires AllDigits(s)
  {
    if s == "" then 0 else 10 * DigitsVal(s[..|s| - 1]) + DigitVal(s[|s| - 1])
  }

  /** `str(n)` for a non-negative integer. */
  function NatDigits(n: nat): string {
    if n < 10 then [DigitChar(n)] else NatDigits(n / 10) + [DigitChar(n % 10)]
  }

  function Zeros(k: nat): (s: string)
    ensures |s| == k && AllDigits(s)
  {
    if k == 0 then "" else "0" + Zeros(k - 1)
  }

  function Spaces(k: nat): (s: string)
    ensures |s| == k && AllSpace(s)
  {
    if k == 0 then "" else " " + Spaces(k - 1)
  }

  lemma {:induction false} NatDigitsValue(n: nat)
    ensures NatDigits(n) != "" && AllDigits(NatDigits(n))
    ensures DigitsVal(NatDigits(n)) == n
  {
    if n >= 10 {
      NatDigitsValue(n / 10);
      var p := NatDigits(n / 10);
      assert (p + [DigitChar(n % 10)])[..|p|] == p;
    }
  }

  lemma {:induction false} DigitsValAppend(a: string, b: string)
    requires AllDigits(a) && AllDigits(b)
    ensures DigitsVal(a + b) == DigitsVal(a) * Pow10(|b|) + DigitsVal(b)
  {
    if b == "" {
      assert a + b == a;
    } else {
      var b' := b[..|b| - 1];
      assert (a + b)[..|a + b| - 1] == a + b';
      DigitsValAppend(a, b');
      assert DigitsVal(a) * (10 * Pow10(|b'|)) == 10 * (DigitsVal(a) * Pow10(|b'|));
    }
  }

  lemma {:induction false} ZerosValue(k: nat)
    ensures DigitsVal(Zeros(k)) == 0
  {
    if k > 0 {
      ZerosValue(k - 1);
      DigitsValAppend("0", Zeros(k - 1));
      assert DigitsVal("0") == 0;
    }
  }

  /** Left-padding a numeral with zeros does not change its value. */
  lemma LeadingZeros(k: nat, s: string)
    requires AllDigits(s)
    ensures DigitsVal(Zeros(k) + s) == DigitsVal(s)
  {
    DigitsValAppend(Zeros(k), s);
    ZerosValue(k);
  }

  lemma {:induction false} NatDigitsLength(n: nat, k: nat)
    requires k > 0 && n < Pow10(k)
    ensures |NatDigits(n)| <= k
  {
    if n >= 10 {
      assert Pow10(1) == 10;
      NatDigitsLength(n / 10, k - 1);
    }
  }

  /** Exactly `k` digits, zero padded on the left. */
  function PaddedDigits(n: nat, k: nat): string {
    Zeros(if |NatDigits(n)| < k then k - |NatDigits(n)| else 0) + NatDigits(n)
  }

  lemma PaddedDigitsValue(n: nat, k: nat)
    ensures AllDigits(PaddedDigits(n, k)) && PaddedDigits(n, k) != ""
    ensures DigitsVal(PaddedDigits(n, k)) == n
    ensures k > 0 && n < Pow10(k) ==> |PaddedDigits(n, k)| == k
  {
    NatDigitsValue(n);
    LeadingZeros(if |NatDigits(n)| < k then k - |NatDigits(n)| else 0, NatDigits(n));
    if k > 0 && n < Pow10(k) {
      NatDigitsLength(n, k);
    }
  }

  // ---- fixed-point numbers with six decimals ----

  const MICRO: nat := 1000000

  function Abs(n: int): nat { if n < 0 then -n else n }

  function SignOf(n: int, plus: bool): string {
    if n < 0 then "-" else if plus then "+" else ""
  }

  /** The format specifier `[+][0][width].6f` of a number given in millionths:
      a sign, zeros up to `width`, the integer part, a point and six decimals. */
  function Fixed6(micros: int, plus: bool, width: nat): string {
    var sign := SignOf(micros, plus);
    var tail := "." + PaddedDigits(Abs(micros) % MICRO, 6);
    var used := |sign| + |tail|;
    sign + PaddedDigits(Abs(micros) / MICRO, if width > used then width - used else 0) + tail
  }

  /** The value of `digits` read with its last `scale` digits after the point. */
  function Scaled(negative: bool, digits: nat, scale: nat): real {
    var v := digits as real / Pow10(scale) as real;
    if negative then -v else v
  }

  function MicroReal(micros: int): real { micros as real / 1000000.0 }

  /** The position of the first point, or the length. */
  function PointAt(s: string): (n: nat)
    ensures n <= |s|
  {
    if s == "" || s[0] == '.' then 0 else 1 + PointAt(s[1..])
  }

  /** Digits with at most one point: all the digits, and how many follow the point. */
  function UnsignedFloat(body: string): Option<(nat, nat)> {
    var p := PointAt(body);
    var ip, fp := body[..p], if p < |body| then body[p + 1..] else "";
    if AllDigits(ip + fp) && |ip + fp| > 0 then Some((DigitsVal(ip + fp), |fp|)) else None
  }

  predicate IsSign(c: char) { c == '+' || c == '-' }

  function ScaledIfSome(negative: bool, d: Option<(nat, nat)>): Option<real> {
    if d.Some? then Some(Scaled(negative, d.value.0, d.value.1)) else None
  }

  /** `float()` of an optional sign, digits and at most one point; anything else is an error. */
  function FloatOf(s: string): Option<real> {
    if s != "" && IsSign(s[0]) then ScaledIfSome(s[0] == '-', UnsignedFloat(s[1..]))
    else ScaledIfSome(false, UnsignedFloat(s))
  }

  lemma {:induction false} PointAtOf(ip: string, rest: string)
    requires AllDigits(ip) && (rest == "" || rest[0] == '.')
    ensures PointAt(ip + rest) == |ip|
  {
    if ip != "" {
      assert (ip + rest)[1..] == ip[1..] + rest;
      PointAtOf(ip[1..], rest);
    } else {
      assert ip + rest == rest;
    }
  }

  lemma UnsignedOfParts(ip: string, fp: string)
    requires AllDigits(ip) && AllDigits(fp) && |ip| > 0
    ensures AllDigits(ip + fp)
    ensures UnsignedFloat(ip + "." + fp) == Some((DigitsVal(ip + fp), |fp|))
  {
    var body := ip + "." + fp;
    assert body == ip + ("." + fp);
    PointAtOf(ip, "." + fp);
    assert body[..|ip|] == ip;
    assert body[|ip| + 1..] == fp;
  }

  lemma FloatOfSigned(sign: string, body: string)
    requires sign == "" || sign == "+" || sign == "-"
    requires body != "" && !IsSign(body[0])
    ensures FloatOf(sign + body) == ScaledIfSome(sign == "-", UnsignedFloat(body))
  {
    assert (sign + body)[|sign|..] == body;
    if sign == "" { assert sign + body == body; }
  }

  lemma MicrosSplit(ip: string, fp: string, m: nat)
    requires AllDigits(ip) && AllDigits(fp) && |fp| == 6
    requires DigitsVal(ip) == m / MICRO && DigitsVal(fp) == m % MICRO
    ensures AllDigits(ip + fp) && DigitsVal(ip + fp) == m
  {
    DigitsValAppend(ip, fp);
    Pow10Six();
  }

  lemma Pow10Six()
    ensures Pow10(6) == MICRO
  {
    assert Pow10(0) == 1;
    assert Pow10(1) == 10;
    assert Pow10(2) == 100;
    assert Pow10(3) == 1000;
    assert Pow10(4) == 10000;
    assert Pow10(5) == 100000;
  }

  /** The two numeral parts of a printed number. */
  function IntPart(micros: int, plus: bool, width: nat): string {
    var used := |SignOf(micros, plus)| + |"." + FracPart(micros)|;
    PaddedDigits(Abs(micros) / MICRO, if width > used then width - used else 0)
  }

  function FracPart(micros: int): string {
    PaddedDigits(Abs(micros) % MICRO, 6)
  }

  lemma Fixed6Parts(micros: int, plus: bool, width: nat)
    ensures Fixed6(micros, plus, width) == SignOf(micros, plus) + (IntPart(micros, plus, width) + "." + FracPart(micros))
  {
    var sign, ip, fp := SignOf(micros, plus), IntPart(micros, plus, width), FracPart(micros);
    assert sign + ip + ("." + fp) == sign + (ip + "." + fp);
  }

  lemma PartsValue(micros: int, plus: bool, width: nat)
    ensures var ip, fp := IntPart(micros, plus, width), FracPart(micros);
            AllDigits(ip) && AllDigits(fp) && |ip| > 0 && |fp| == 6
            && AllDigits(ip + fp) && DigitsVal(ip + fp) == Abs(micros)
  {
    var used := |SignOf(micros, plus)| + |"." + FracPart(micros)|;
    Pow10Six();
    PaddedDigitsValue(Abs(micros) % MICRO, 6);
    PaddedDigitsValue(Abs(micros) / MICRO, if width > used then width - used else 0);
    MicrosSplit(IntPart(micros, plus, width), FracPart(micros), Abs(micros));
  }

  lemma ScaledMicros(micros: int, negative: bool)
    requires negative <==> micros < 0
    ensures Scaled(negative, Abs(micros), 6) == MicroReal(micros)
  {
    Pow10Six();
  }

  /** Reading back a number printed with six decimals gives that number,
      whatever the sign option and padding width. */
  lemma {:induction false} Fixed6RoundTrip(micros: int, plus: bool, width: nat)
    ensures FloatOf(Fixed6(micros, plus, width)) == Some(MicroReal(micros))
  {
    var sign, ip, fp := SignOf(micros, plus), IntPart(micros, plus, width), FracPart(micros);
    Fixed6Parts(micros, plus, width);
    PartsValue(micros, plus, width);
    UnsignedOfParts(ip, fp);
    assert (ip + "." + fp)[0] == ip[0];
    FloatOfSigned(sign, ip + "." + fp);
    ScaledMicros(micros, sign == "-");
  }

  predicate DigitOrPoint(c: char) { IsDigit(c) || c == '.' }

  predicate AllDigitOrPoint(s: string) {
    forall i :: 0 <= i < |s| ==> DigitOrPoint(s[i])
  }

  /** A printed number is a sign followed by digits and a point, ends in a digit
      and has no spaces. */
  lemma Fixed6Shape(micros: int, plus: bool, width: nat) returns (body: string)
    ensures Fixed6(micros, plus, width) == SignOf(micros, plus) + body
    ensures |body| > 0 && AllDigitOrPoint(body) && IsDigit(body[|body| - 1])
    ensures NoSpace(Fixed6(micros, plus, width))
  {
    Fixed6Parts(micros, plus, width);
    PartsValue(micros, plus, width);
    body := IntPart(micros, plus, width) + "." + FracPart(micros);
    forall i | 0 <= i < |body| ensures !IsSpace(body[i]) {
      assert DigitOrPoint(body[i]);
    }
  }
}
