/** Parsing a written tool table gives back the sorted tools: exactly those with
    non-negative numbers, and exactly when no remark hides a line break. */
module ToolTableRoundTrip {
  import opened Wrappers
  import opened Text
  import opened StableSort
  import opened ToolTable

  // ---- the characters of a data part ----

  predicate DataChar(c: char) {
    DigitOrPoint(c) || c == '+' || c == '-' || c == ' ' || c == 'T' || c == 'P' || c == 'Z' || c == 'D'
  }

  ghost predicate AllData(s: string) { forall i :: 0 <= i < |s| ==> DataChar(s[i]) }

  lemma AllDataConcat(a: string, b: string)
    requires AllData(a) && AllData(b)
    ensures AllData(a + b)
  {
  }

  lemma {:induction false} SpacesAreSpaces(k: nat)
    ensures AllData(Spaces(k)) && forall i :: 0 <= i < k ==> Spaces(k)[i] == ' '
  {
    if k > 0 { SpacesAreSpaces(k - 1); }
  }

  lemma IntStrData(n: int)
    ensures AllData(IntStr(n)) && IntStr(n) != ""
    ensures n >= 0 ==> AllDigits(IntStr(n)) && DigitsVal(IntStr(n)) == n
    ensures n < 0 ==> IntStr(n)[0] == '-'
  {
    NatDigitsValue(Abs(n));
    assert AllData(NatDigits(Abs(n)));
  }

  function PadOf(n: int): string {
    Spaces(if |IntStr(n)| < 5 then 5 - |IntStr(n)| else 0)
  }

  function ZText(t: ToolIn): string { Fixed6(MicrosOf(t.Z), true, 13) }
  function DText(t: ToolIn): string { Fixed6(MicrosOf(t.D), true, 12) }

  lemma Assoc(a: string, b: string, c: string)
    ensures (a + b) + c == a + (b + c)
  {
  }

  lemma DataOfTail(tn: string, pn: string, z: string, d: string, tail: string)
    ensures DataOf(tn, pn, z, d) + tail == DataOf(tn, pn, z, d + tail)
  {
    Assoc("  D", d, tail);
    Assoc(z, "  D" + d, tail);
    Assoc(" Z", z + ("  D" + d), tail);
    Assoc(pn, " Z" + (z + ("  D" + d)), tail);
    Assoc(" P", pn + (" Z" + (z + ("  D" + d))), tail);
    Assoc(tn, " P" + (pn + (" Z" + (z + ("  D" + d)))), tail);
    Assoc("T", tn + (" P" + (pn + (" Z" + (z + ("  D" + d))))), tail);
  }

  ghost predicate NoFieldKey(s: string) { forall i :: 0 <= i < |s| ==> !IsFieldKey(s[i]) }

  lemma Left5Data(n: int)
    ensures AllData(Left5(n)) && NoFieldKey(Left5(n))
  {
    IntStrData(n);
    NatDigitsValue(Abs(n));
    SpacesAreSpaces(|PadOf(n)|);
    forall i | 0 <= i < |Left5(n)| ensures DataChar(Left5(n)[i]) && !IsFieldKey(Left5(n)[i]) {
      if i < |IntStr(n)| {
        assert Left5(n)[i] == IntStr(n)[i];
        assert IsDigit(IntStr(n)[i]) || IntStr(n)[i] == '-';
      }
    }
  }

  lemma Fixed6Data(m: int, plus: bool, w: nat)
    ensures AllData(Fixed6(m, plus, w)) && Fixed6(m, plus, w) != ""
    ensures IsDigit(Fixed6(m, plus, w)[|Fixed6(m, plus, w)| - 1])
  {
    var body := Fixed6Shape(m, plus, w);
    forall i | 0 <= i < |Fixed6(m, plus, w)| ensures DataChar(Fixed6(m, plus, w)[i]) {
      if i >= |SignOf(m, plus)| { assert DigitOrPoint(body[i - |SignOf(m, plus)|]); }
    }
  }

  lemma DataOfData(tn: string, pn: string, z: string, d: string)
    requires AllData(tn) && AllData(pn) && AllData(z) && AllData(d)
    requires d != "" && IsDigit(d[|d| - 1])
    ensures var s := DataOf(tn, pn, z, d);
            AllData(s) && |s| > 0 && s[0] == 'T' && IsDigit(s[|s| - 1])
  {
    AllDataConcat("  D", d);
    AllDataConcat(z, "  D" + d);
    AllDataConcat(" Z", z + ("  D" + d));
    AllDataConcat(pn, " Z" + (z + ("  D" + d)));
    AllDataConcat(" P", pn + (" Z" + (z + ("  D" + d))));
    AllDataConcat(tn, " P" + (pn + (" Z" + (z + ("  D" + d)))));
    AllDataConcat("T", tn + (" P" + (pn + (" Z" + (z + ("  D" + d))))));
  }

  lemma DataTextData(t: ToolIn)
    ensures AllData(DataText(t)) && |DataText(t)| > 0 && DataText(t)[0] == 'T'
    ensures IsDigit(DataText(t)[|DataText(t)| - 1])
  {
    Left5Data(t.T);
    Left5Data(PocketOf(t));
    Fixed6Data(MicrosOf(t.Z), true, 13);
    Fixed6Data(MicrosOf(t.D), true, 12);
    DataOfData(Left5(t.T), Left5(PocketOf(t)), ZText(t), DText(t));
  }

  // ---- the regular expressions on written text ----

  lemma {:induction false} DigitRunOf(d: string, rest: string)
    requires AllDigits(d) && (rest == "" || !IsDigit(rest[0]))
    ensures DigitRun(d + rest) == |d|
  {
    if d == "" {
      assert d + rest == rest;
    } else {
      assert (d + rest)[1..] == d[1..] + rest;
      DigitRunOf(d[1..], rest);
    }
  }

  lemma LeadingNatOf(n: nat, rest: string)
    requires rest == "" || !IsDigit(rest[0])
    ensures DigitRun(IntStr(n) + rest) == |IntStr(n)| > 0
    ensures LeadingNat(IntStr(n) + rest) == n
  {
    IntStrData(n);
    DigitRunOf(IntStr(n), rest);
    assert (IntStr(n) + rest)[..|IntStr(n)|] == IntStr(n);
  }

  lemma NegativeRun(n: int, rest: string)
    requires n < 0
    ensures DigitRun(IntStr(n) + rest) == 0
  {
    IntStrData(n);
    assert (IntStr(n) + rest)[0] == '-';
  }

  /** What follows the tool number in a match, down to the pocket number. */
  lemma PocketPart(pad: string, i2: string, rest: string)
    requires AllSpace(pad)
    ensures var b := pad + (" P" + (i2 + rest));
            b[0] != 'P' && !IsDigit(b[0]) && SpacePrefix(b) == |pad| + 1
            && b[SpacePrefix(b)..] == "P" + (i2 + rest)
  {
    var c := "P" + (i2 + rest);
    var b := pad + (" P" + (i2 + rest));
    assert " P" == " " + "P";
    Assoc(" ", "P", i2 + rest);
    Assoc(pad, " ", c);
    assert b == (pad + " ") + c;
    SpacePrefixOf(pad + " ", c);
    assert b[|pad + " "|..] == c;
    assert b[0] == (pad + " ")[0] && IsSpace((pad + " ")[0]);
  }

  /** The header regular expression on a tool number and pocket number as written. */
  lemma MatchNumbers(t: int, p: int, rest: string)
    requires rest == "" || !IsDigit(rest[0])
    ensures MatchTP("T" + (IntStr(t) + (PadOf(t) + (" P" + (IntStr(p) + rest)))))
         == if t >= 0 && p >= 0 then Some((t as nat, p as nat)) else None
  {
    var b := PadOf(t) + (" P" + (IntStr(p) + rest));
    var a := IntStr(t) + b;
    assert ("T" + a)[1..] == a;
    PocketPart(PadOf(t), IntStr(p), rest);
    if t < 0 {
      NegativeRun(t, b);
    } else {
      LeadingNatOf(t, b);
      assert a[|IntStr(t)|..] == b;
      assert ("P" + (IntStr(p) + rest))[1..] == IntStr(p) + rest;
      if p < 0 { NegativeRun(p, rest); } else { LeadingNatOf(p, rest); }
    }
  }

  predicate Numbered(t: ToolIn) { t.T >= 0 && PocketOf(t) >= 0 }

  lemma MatchTool(t: ToolIn, tail: string)
    ensures MatchTP(DataText(t) + tail) == if Numbered(t) then Some((t.T as nat, PocketOf(t) as nat)) else None
  {
    var p := PocketOf(t);
    DataOfTail(Left5(t.T), Left5(p), ZText(t), DText(t), tail);
    var z := " Z" + (ZText(t) + ("  D" + (DText(t) + tail)));
    Assoc(IntStr(p), PadOf(p), z);
    Assoc(IntStr(t.T), PadOf(t.T), " P" + (Left5(p) + z));
    MatchNumbers(t.T, p, PadOf(p) + z);
  }

  lemma {:induction false} ScanSkip(a: string, rest: string)
    requires forall i :: 0 <= i < |a| ==> !IsFieldKey(a[i])
    ensures ScanFields(a + rest) == ScanFields(rest)
  {
    if a == "" {
      assert a + rest == rest;
    } else {
      assert (a + rest)[1..] == a[1..] + rest;
      ScanSkip(a[1..], rest);
    }
  }

  lemma {:induction false} NumberRunOf(d: string, rest: string)
    requires AllDigitOrPoint(d) && (rest == "" || !DigitOrPoint(rest[0]))
    ensures NumberRun(d + rest) == |d|
  {
    if d == "" {
      assert d + rest == rest;
    } else {
      assert (d + rest)[1..] == d[1..] + rest;
      NumberRunOf(d[1..], rest);
    }
  }

  lemma ScanSigned(key: char, sign: string, body: string, rest: string)
    requires IsFieldKey(key) && (rest == "" || !DigitOrPoint(rest[0]))
    requires (sign == "+" || sign == "-") && AllDigitOrPoint(body) && |body| > 0
    ensures ScanFields([key] + ((sign + body) + rest)) == WithField(key, FloatOf(sign + body), ScanFields(rest))
  {
    var num := sign + body;
    var s := [key] + (num + rest);
    assert s[1..] == num + rest;
    assert (num + rest)[1..] == body + rest;
    NumberRunOf(body, rest);
    assert NumberLen(num + rest) == |num|;
    assert s[1..1 + |num|] == num;
    assert s[1 + |num|..] == rest;
  }

  lemma ScanNumber(key: char, m: int, w: nat, rest: string)
    requires IsFieldKey(key) && (rest == "" || !DigitOrPoint(rest[0]))
    ensures ScanFields([key] + (Fixed6(m, true, w) + rest)) == WithField(key, Some(MicroReal(m)), ScanFields(rest))
  {
    var body := Fixed6Shape(m, true, w);
    ScanSigned(key, SignOf(m, true), body, rest);
    Fixed6RoundTrip(m, true, w);
  }

  lemma ScanLast(d: int, pad: string)
    requires AllSpace(pad)
    ensures ScanFields("  D" + (Fixed6(d, true, 12) + pad)) == Ok(map['D' := MicroReal(d)])
  {
    ScanBlank(pad);
    ScanNumber('D', d, 12, pad);
    ScanAfterTwo(Fixed6(d, true, 12) + pad);
  }

  lemma ScanBlank(pad: string)
    requires AllSpace(pad)
    ensures ScanFields(pad) == Ok(map[])
  {
    ScanSkip(pad, "");
    assert pad + "" == pad;
  }

  lemma ScanAfterTwo(rest: string)
    ensures ScanFields("  D" + rest) == ScanFields(['D'] + rest)
  {
    assert "  D" + rest == "  " + (['D'] + rest);
    ScanSkip("  ", ['D'] + rest);
  }

  lemma ScanBoth(z: int, rest: string, d: real)
    requires rest != "" && !DigitOrPoint(rest[0])
    requires ScanFields(rest) == Ok(map['D' := d])
    ensures ScanFields(" Z" + (Fixed6(z, true, 13) + rest)) == Ok(map['D' := d, 'Z' := MicroReal(z)])
  {
    ScanNumber('Z', z, 13, rest);
    var zt := Fixed6(z, true, 13) + rest;
    assert " Z" + zt == " " + (['Z'] + zt);
    ScanSkip(" ", ['Z'] + zt);
  }

  lemma ScanHead(tn: string, pn: string, rest: string)
    requires NoFieldKey(tn) && NoFieldKey(pn)
    ensures ScanFields("T" + (tn + (" P" + (pn + rest)))) == ScanFields(rest)
  {
    ScanSkip(pn, rest);
    ScanSkip(" P", pn + rest);
    ScanSkip(tn, " P" + (pn + rest));
    ScanSkip("T", tn + (" P" + (pn + rest)));
  }

  lemma ScanData(tn: string, pn: string, z: int, d: int, pad: string)
    requires NoFieldKey(tn) && NoFieldKey(pn) && AllSpace(pad)
    ensures ScanFields(DataOf(tn, pn, Fixed6(z, true, 13), Fixed6(d, true, 12) + pad))
         == Ok(map['D' := MicroReal(d), 'Z' := MicroReal(z)])
  {
    var rest := "  D" + (Fixed6(d, true, 12) + pad);
    ScanLast(d, pad);
    ScanBoth(z, rest, MicroReal(d));
    ScanHead(tn, pn, " Z" + (Fixed6(z, true, 13) + rest));
  }

  function FieldsOf(t: ToolIn): Fields {
    map['D' := MicroReal(MicrosOf(t.D)), 'Z' := MicroReal(MicrosOf(t.Z))]
  }

  /** The fields scanned from a written data part and its padding. */
  lemma ScanTool(t: ToolIn, pad: string)
    requires AllSpace(pad)
    ensures ScanFields(DataText(t) + pad) == Ok(FieldsOf(t))
  {
    Left5Data(t.T);
    Left5Data(PocketOf(t));
    DataOfTail(Left5(t.T), Left5(PocketOf(t)), ZText(t), DText(t), pad);
    ScanData(Left5(t.T), Left5(PocketOf(t)), MicrosOf(t.Z), MicrosOf(t.D), pad);
  }

  lemma {:induction false} SemiAtOf(a: string, rest: string)
    requires AllData(a) && (rest == "" || rest[0] == ';')
    ensures SemiAt(a + rest) == |a|
  {
    if a == "" {
      assert a + rest == rest;
    } else {
      assert (a + rest)[1..] == a[1..] + rest;
      SemiAtOf(a[1..], rest);
    }
  }

  // ---- strip algebra ----

  lemma {:induction false} RStripIdempotent(s: string)
    ensures RStrip(RStrip(s)) == RStrip(s)
  {
    RStripPrefix(s);
  }

  lemma {:induction false} LRStripCommute(s: string)
    ensures LStrip(RStrip(s)) == RStrip(LStrip(s))
  {
    if s != "" && IsSpace(s[0]) {
      LRStripCommute(s[1..]);
      assert s == [s[0]] + s[1..];
      if AllSpace(s[1..]) {
        RStripSpaces("", s[1..]);
        assert "" + s[1..] == s[1..];
        RStripSpaces("", s);
        assert "" + s == s;
      } else {
        RStripCons(s[0], s[1..]);
      }
    } else if s != "" {
      RStripKeeps([s[0]], s[1..]);
      assert s == [s[0]] + s[1..];
    }
  }

  lemma {:induction false} RStripCons(c: char, s: string)
    requires !AllSpace(s)
    ensures RStrip([c] + s) == [c] + RStrip(s)
  {
    if IsSpace(s[|s| - 1]) {
      var s' := s[..|s| - 1];
      assert ([c] + s)[..|s|] == [c] + s';
      assert s == s' + [s[|s| - 1]];
      RStripCons(c, s');
    }
  }

  lemma StripOfRStrip(s: string)
    ensures Strip(RStrip(s)) == Strip(s)
  {
    LRStripCommute(s);
    RStripIdempotent(LStrip(s));
  }

  // ---- one written line ----

  function Norm(t: ToolIn, remark: string): Tool
    requires Numbered(t)
  {
    Tool(t.T, if t.P.Some? then t.P.value else t.T, 0.0, 0.0,
         if t.Z.Some? then MicroReal(t.Z.value) else 0.0, if t.D.Some? then MicroReal(t.D.value) else 0.0, remark)
  }

  /** The parser's answer for the line of `t` when its remark text is `remark`. */
  function LineResult(t: ToolIn, remark: string): Result<Option<Tool>> {
    if Numbered(t) then Ok(Some(Norm(t, Strip(remark)))) else Ok(None)
  }

  function NumbersOf(t: ToolIn): Option<(nat, nat)> {
    if Numbered(t) then Some((t.T as nat, PocketOf(t) as nat)) else None
  }

  /** All that matters of a written data part: its characters, and what the
      parser's regular expressions find in it. */
  ghost predicate WrittenData(t: ToolIn, data: string) {
    && AllData(data) && |data| > 0 && data[0] == 'T' && IsDigit(data[|data| - 1])
    && FindsNumbers(t, data) && FindsFields(t, data)
  }

  ghost predicate FindsNumbers(t: ToolIn, data: string) {
    forall tail: string :: MatchTP(data + tail) == NumbersOf(t)
  }

  ghost predicate FindsFields(t: ToolIn, data: string) {
    forall pad: string :: AllSpace(pad) ==> ScanFields(data + pad) == Ok(FieldsOf(t))
  }

  lemma DataTextWritten(t: ToolIn)
    ensures WrittenData(t, DataText(t))
  {
    DataTextData(t);
    forall tail: string ensures MatchTP(DataText(t) + tail) == NumbersOf(t) {
      MatchTool(t, tail);
    }
    forall pad: string | AllSpace(pad) ensures ScanFields(DataText(t) + pad) == Ok(FieldsOf(t)) {
      ScanTool(t, pad);
    }
  }

  /** Stripping a data part followed by any tail touches only the tail. */
  lemma StripData(data: string, tail: string)
    requires |data| > 0 && data[0] == 'T' && IsDigit(data[|data| - 1])
    ensures Strip(data + tail) == data + RStrip(tail)
  {
    var s := data + tail;
    assert s[0] == 'T';
    RStripKeeps(data, tail);
  }

  lemma PlainAtSemi(data: string)
    requires AllData(data)
    ensures data[..SemiAt(data)] == data && RemarkOf(data) == ""
  {
    SemiAtOf(data, "");
    assert data + "" == data;
  }

  lemma StripNothing()
    ensures Strip("") == ""
  {
  }

  lemma StripPlain(data: string, spaces: string)
    requires |data| > 0 && data[0] == 'T' && IsDigit(data[|data| - 1]) && AllSpace(spaces)
    ensures Strip(data + spaces) == data
  {
    StripData(data, spaces);
    RStripSpaces("", spaces);
    assert "" + spaces == spaces;
  }

  /** What the parser makes of a stripped line in which it finds the tool's parts. */
  lemma ParsedFrom(t: ToolIn, raw: string, line: string, remark: string)
    requires Strip(raw) == line && !Skipped(line) && MatchTP(line) == NumbersOf(t)
    requires ScanFields(line[..SemiAt(line)]) == Ok(FieldsOf(t)) && RemarkOf(line) == Strip(remark)
    ensures ParseLine(raw) == LineResult(t, remark)
  {
  }

  lemma PlainParts(t: ToolIn, data: string)
    requires WrittenData(t, data)
    ensures !Skipped(data) && MatchTP(data) == NumbersOf(t)
    ensures ScanFields(data[..SemiAt(data)]) == Ok(FieldsOf(t)) && RemarkOf(data) == Strip("")
  {
    PlainAtSemi(data);
    StripNothing();
    WrittenAlone(t, data);
  }

  lemma ParsePlain(t: ToolIn, data: string, spaces: string)
    requires WrittenData(t, data) && AllSpace(spaces)
    ensures ParseLine(data + spaces) == LineResult(t, "")
  {
    StripPlain(data, spaces);
    PlainParts(t, data);
    ParsedFrom(t, data + spaces, data, "");
  }

  lemma WrittenAlone(t: ToolIn, data: string)
    requires WrittenData(t, data)
    ensures MatchTP(data) == NumbersOf(t) && ScanFields(data) == Ok(FieldsOf(t)) && !Skipped(data)
  {
    assert data + "" == data;
    assert MatchTP(data + "") == NumbersOf(t);
    assert ScanFields(data + "") == Ok(FieldsOf(t));
  }

  /** The stripped line of a tool with a remark: the remark text keeps its left
      padding and loses its right one. */
  lemma StripRemark(data: string, remark: string)
    requires |data| > 0 && data[0] == 'T' && IsDigit(data[|data| - 1])
    ensures Strip(data + ("   ; " + remark)) == (data + "   ") + (";" + RStrip(" " + remark))
  {
    StripData(data, "   ; " + remark);
    assert "   ; " + remark == "   ;" + (" " + remark);
    RStripKeeps("   ;", " " + remark);
    assert "   ;" == "   " + ";";
    Assoc("   ", ";", RStrip(" " + remark));
    Assoc(data, "   ", ";" + RStrip(" " + remark));
  }

  lemma RemarkOfWritten(data: string, remark: string)
    requires AllData(data)
    ensures var line := data + (";" + RStrip(" " + remark));
            RemarkOf(line) == Strip(remark) && line[..SemiAt(line)] == data
  {
    var g := RStrip(" " + remark);
    var line := data + (";" + g);
    SemiAtOf(data, ";" + g);
    assert line[..|data|] == data;
    assert line[|data| + 1..] == g;
    StripOfRStrip(" " + remark);
  }

  lemma WrittenThen(t: ToolIn, data: string, rest: string, line: string)
    requires WrittenData(t, data) && line == (data + "   ") + rest
    ensures MatchTP(line) == NumbersOf(t) && !Skipped(line)
  {
    Assoc(data, "   ", rest);
    assert MatchTP(data + ("   " + rest)) == NumbersOf(t);
  }

  lemma WrittenPadded(t: ToolIn, data: string)
    requires WrittenData(t, data)
    ensures ScanFields(data + "   ") == Ok(FieldsOf(t)) && AllData(data + "   ")
  {
    AllDataConcat(data, "   ");
    assert AllSpace("   ");
  }

  lemma RemarkParts(t: ToolIn, data: string, remark: string, line: string)
    requires WrittenData(t, data) && line == (data + "   ") + (";" + RStrip(" " + remark))
    ensures !Skipped(line) && MatchTP(line) == NumbersOf(t)
    ensures ScanFields(line[..SemiAt(line)]) == Ok(FieldsOf(t)) && RemarkOf(line) == Strip(remark)
  {
    WrittenPadded(t, data);
    RemarkOfWritten(data + "   ", remark);
    WrittenThen(t, data, ";" + RStrip(" " + remark), line);
  }

  lemma ParseRemark(t: ToolIn, data: string, remark: string)
    requires WrittenData(t, data)
    ensures ParseLine(data + ("   ; " + remark)) == LineResult(t, remark)
  {
    var line := (data + "   ") + (";" + RStrip(" " + remark));
    StripRemark(data, remark);
    RemarkParts(t, data, remark, line);
    ParsedFrom(t, data + ("   ; " + remark), line, remark);
  }
}
