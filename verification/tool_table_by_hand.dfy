/** Tool tables as people and the controller write them: any spacing, the fields in any
    order and number, letters without a number, and remarks. */
module ToolTableByHand {
  import opened Wrappers
  import opened Text
  import opened ToolTable
  import opened ToolTableRoundTrip

  /** One field behind some other text: a letter, an optional sign, digits and points. */
  datatype Field = Field(junk: string, key: char, sign: string, body: string)

  predicate Letter(c: char) { c == 'X' || c == 'Y' || c == 'Z' || c == 'D' }
  predicate InNumeral(c: char) { c == '.' || IsDigit(c) }

  /** A digit or point, perhaps behind a sign. */
  predicate StartsNumeral(s: string) {
    s != "" && (InNumeral(s[0]) || ((s[0] == '+' || s[0] == '-') && |s| > 1 && InNumeral(s[1])))
  }

  /** Text with no field in it: each of the four letters stands without a number. */
  ghost predicate Bare(s: string) {
    && (forall i :: 0 <= i < |s| ==> s[i] != ';')
    && forall i :: 0 <= i < |s| && Letter(s[i]) ==> !StartsNumeral(s[i + 1..])
  }

  /** Does not go on with the number in front. */
  predicate Ends(s: string) { s == "" || !(IsDigit(s[0]) || s[0] == '.') }

  function NumOf(f: Field): string { f.sign + f.body }

  ghost predicate ValidField(f: Field) {
    && Bare(f.junk) && Ends(f.junk) && Letter(f.key) && (f.sign == "" || f.sign == "+" || f.sign == "-")
    && f.body != "" && forall i :: 0 <= i < |f.body| ==> IsDigit(f.body[i]) || f.body[i] == '.'
  }

  ghost predicate AllFields(fields: seq<Field>) { forall i :: 0 <= i < |fields| ==> ValidField(fields[i]) }

  function FieldsText(fields: seq<Field>, tail: string): string {
    if fields == [] then tail
    else fields[0].junk + ([fields[0].key] + (NumOf(fields[0]) + FieldsText(fields[1..], tail)))
  }

  /** The last number given for a letter. */
  function LastOf(fields: seq<Field>, key: char): Option<string> {
    if fields == [] then None
    else
      var f := fields[|fields| - 1];
      if f.key == key then Some(NumOf(f)) else LastOf(fields[..|fields| - 1], key)
  }

  ghost predicate AllRead(fields: seq<Field>) { forall i :: 0 <= i < |fields| ==> FloatOf(NumOf(fields[i])).Some? }

  // ---- the field regular expression ----

  lemma NoNumeral(s: string)
    requires !StartsNumeral(s)
    ensures NumberLen(s) == 0
  {
  }

  lemma BareTail(junk: string)
    requires Bare(junk) && junk != ""
    ensures Bare(junk[1..]) && (Letter(junk[0]) ==> !StartsNumeral(junk[1..]))
  {
    forall i | 0 <= i < |junk| - 1 && Letter(junk[1..][i]) ensures !StartsNumeral(junk[1..][i + 1..]) {
      assert junk[1..][i + 1..] == junk[i + 2..] && Letter(junk[i + 1]);
    }
  }

  lemma {:induction false} ScanBare(junk: string, rest: string)
    requires Bare(junk) && (rest == "" || Letter(rest[0]))
    ensures ScanFields(junk + rest) == ScanFields(rest)
  {
    if junk == "" {
      assert junk + rest == rest;
    } else {
      assert (junk + rest)[1..] == junk[1..] + rest;
      BareTail(junk);
      if Letter(junk[0]) {
        NoNumeral(junk[1..] + rest);
      }
      ScanBare(junk[1..], rest);
    }
  }

  lemma UnsignedLen(body: string, rest: string)
    requires Ends(rest) && AllDigitOrPoint(body) && |body| > 0
    ensures NumberLen(body + rest) == |body|
  {
    NumberRunOf(body, rest);
    assert (body + rest)[0..] == body + rest && (body + rest)[0] == body[0];
  }

  lemma KeyThen(key: char, body: string, rest: string)
    ensures var s := [key] + (body + rest);
            s[0] == key && s[1..] == body + rest && s[1..1 + |body|] == body && s[1 + |body|..] == rest
  {
  }

  lemma FieldAtFront(s: string, n: nat)
    requires s != "" && IsFieldKey(s[0]) && n == NumberLen(s[1..]) > 0
    ensures ScanFields(s) == WithField(s[0], FloatOf(s[1..1 + n]), ScanFields(s[1 + n..]))
  {
  }

  lemma ScanUnsigned(key: char, body: string, rest: string)
    requires IsFieldKey(key) && Ends(rest) && AllDigitOrPoint(body) && |body| > 0
    ensures ScanFields([key] + (body + rest)) == WithField(key, FloatOf(body), ScanFields(rest))
  {
    UnsignedLen(body, rest);
    KeyThen(key, body, rest);
    FieldAtFront([key] + (body + rest), |body|);
  }

  lemma ScanNum(key: char, sign: string, body: string, rest: string)
    requires IsFieldKey(key) && Ends(rest) && (sign == "" || sign == "+" || sign == "-")
    requires AllDigitOrPoint(body) && |body| > 0
    ensures ScanFields([key] + ((sign + body) + rest)) == WithField(key, FloatOf(sign + body), ScanFields(rest))
  {
    if sign == "" {
      assert sign + body == body;
      ScanUnsigned(key, body, rest);
    } else {
      ScanSigned(key, sign, body, rest);
    }
  }

  lemma ScanField(f: Field, rest: string)
    requires ValidField(f) && Ends(rest)
    ensures ScanFields(f.junk + ([f.key] + (NumOf(f) + rest))) == WithField(f.key, FloatOf(NumOf(f)), ScanFields(rest))
  {
    ScanNum(f.key, f.sign, f.body, rest);
    ScanBare(f.junk, [f.key] + (NumOf(f) + rest));
  }

  lemma {:induction false} LastOfCons(f: Field, rest: seq<Field>, key: char)
    ensures LastOf([f] + rest, key) ==
            if LastOf(rest, key).Some? then LastOf(rest, key) else if f.key == key then Some(NumOf(f)) else None
  {
    if rest == [] {
      assert [f] + rest == [f] && [f][..0] == [];
    } else {
      assert ([f] + rest)[..|rest|] == [f] + rest[..|rest| - 1];
      LastOfCons(f, rest[..|rest| - 1], key);
    }
  }

  lemma FieldsTextEnds(fields: seq<Field>, tail: string)
    requires AllFields(fields) && Ends(tail)
    ensures Ends(FieldsText(fields, tail))
  {
    if fields != [] {
      var f := fields[0];
      assert ValidField(f);
      assert f.junk == "" ==> FieldsText(fields, tail)[0] == f.key;
      assert f.junk != "" ==> FieldsText(fields, tail)[0] == f.junk[0];
    }
  }

  /** The fields found: for each letter its last number. */
  ghost predicate Finds(r: Result<Fields>, fields: seq<Field>) {
    && (r.Ok? <==> AllRead(fields))
    && (r.Ok? ==> forall k :: k in r.value <==> LastOf(fields, k).Some?)
    && (r.Ok? ==> forall k :: k in r.value ==> FloatOf(LastOf(fields, k).value) == Some(r.value[k]))
  }

  lemma AllReadCons(f: Field, rest: seq<Field>)
    ensures AllRead([f] + rest) <==> FloatOf(NumOf(f)).Some? && AllRead(rest)
  {
    var all := [f] + rest;
    if AllRead(all) {
      assert FloatOf(NumOf(all[0])).Some?;
      forall i | 0 <= i < |rest| ensures FloatOf(NumOf(rest[i])).Some? {
        assert all[i + 1] == rest[i];
      }
    }
  }

  lemma FindsCons(f: Field, rest: seq<Field>, later: Result<Fields>)
    requires Finds(later, rest)
    ensures Finds(WithField(f.key, FloatOf(NumOf(f)), later), [f] + rest)
  {
    var all := [f] + rest;
    forall k ensures LastOf(all, k) == if LastOf(rest, k).Some? then LastOf(rest, k) else if f.key == k then Some(NumOf(f)) else None {
      LastOfCons(f, rest, k);
    }
    AllReadCons(f, rest);
  }

  lemma NoneFound(tail: string)
    requires Bare(tail)
    ensures ScanFields(tail) == Ok(map[])
  {
    ScanBare(tail, "");
    assert tail + "" == tail;
  }

  lemma FieldsTextCons(f: Field, rest: seq<Field>, tail: string)
    ensures FieldsText([f] + rest, tail) == f.junk + ([f.key] + (NumOf(f) + FieldsText(rest, tail)))
  {
    assert ([f] + rest)[1..] == rest;
  }

  lemma OneMoreFound(f: Field, rest: seq<Field>, tail: string)
    requires ValidField(f) && Ends(FieldsText(rest, tail)) && Finds(ScanFields(FieldsText(rest, tail)), rest)
    ensures Finds(ScanFields(FieldsText([f] + rest, tail)), [f] + rest)
  {
    FieldsTextCons(f, rest, tail);
    ScanField(f, FieldsText(rest, tail));
    FindsCons(f, rest, ScanFields(FieldsText(rest, tail)));
  }

  lemma {:induction false} FieldsFound(fields: seq<Field>, tail: string)
    requires AllFields(fields) && Bare(tail) && Ends(tail)
    ensures Finds(ScanFields(FieldsText(fields, tail)), fields)
  {
    if fields == [] {
      NoneFound(tail);
    } else {
      FieldsFound(fields[1..], tail);
      FieldsTextEnds(fields[1..], tail);
      OneMoreFound(fields[0], fields[1..], tail);
      assert fields == [fields[0]] + fields[1..];
    }
  }

  // ---- whole lines ----

  function Head(tn: string, gap: string, pn: string, rest: string): string { "T" + (tn + (gap + ("P" + (pn + rest)))) }

  ghost predicate ValidHead(tn: string, gap: string, pn: string) {
    AllDigits(tn) && tn != "" && AllSpace(gap) && gap != "" && AllDigits(pn) && pn != ""
  }

  lemma HeadMatches(tn: string, gap: string, pn: string, rest: string)
    requires ValidHead(tn, gap, pn) && (rest == "" || !IsDigit(rest[0]))
    ensures MatchTP(Head(tn, gap, pn, rest)) == Some((DigitsVal(tn), DigitsVal(pn)))
  {
    var c := "P" + (pn + rest);
    var b := gap + c;
    assert Head(tn, gap, pn, rest)[1..] == tn + b;
    DigitRunOf(tn, b);
    assert (tn + b)[..|tn|] == tn && (tn + b)[|tn|..] == b;
    SpacePrefixOf(gap, c);
    assert b[|gap|..] == c && c[1..] == pn + rest;
    DigitRunOf(pn, rest);
    assert (pn + rest)[..|pn|] == pn;
  }

  lemma HeadHasNoField(tn: string, gap: string, pn: string, rest: string)
    requires ValidHead(tn, gap, pn)
    ensures ScanFields(Head(tn, gap, pn, rest)) == ScanFields(rest)
  {
    ScanSkip(pn, rest);
    ScanSkip("P", pn + rest);
    ScanSkip(gap, "P" + (pn + rest));
    ScanSkip(tn, gap + ("P" + (pn + rest)));
    ScanSkip("T", tn + (gap + ("P" + (pn + rest))));
  }

  lemma {:induction false} SemiBehind(a: string, rest: string)
    requires (forall i :: 0 <= i < |a| ==> a[i] != ';') && (rest == "" || rest[0] == ';')
    ensures SemiAt(a + rest) == |a|
  {
    if a == "" {
      assert a + rest == rest;
    } else {
      assert (a + rest)[1..] == a[1..] + rest;
      SemiBehind(a[1..], rest);
    }
  }

  lemma {:induction false} FieldsTextPlain(fields: seq<Field>, tail: string)
    requires AllFields(fields) && Bare(tail)
    ensures forall i :: 0 <= i < |FieldsText(fields, tail)| ==> FieldsText(fields, tail)[i] != ';'
  {
    if fields != [] {
      FieldsTextPlain(fields[1..], tail);
      assert ValidField(fields[0]);
      NumPlain(fields[0]);
    }
  }

  lemma NumPlain(f: Field)
    requires ValidField(f)
    ensures forall i :: 0 <= i < |NumOf(f)| ==> NumOf(f)[i] != ';'
  {
  }

  function Given(fields: seq<Field>, key: char): real {
    if LastOf(fields, key).Some? && FloatOf(LastOf(fields, key).value).Some? then FloatOf(LastOf(fields, key).value).value else 0.0
  }

  /** What a line is read as: its numbers, for each letter the last one given or 0, and the
      stripped remark. */
  function ToolOfLine(tn: string, pn: string, fields: seq<Field>, remark: string): Tool
    requires AllDigits(tn) && AllDigits(pn)
  {
    Tool(DigitsVal(tn), DigitsVal(pn), Given(fields, 'X'), Given(fields, 'Y'), Given(fields, 'Z'), Given(fields, 'D'), remark)
  }

  lemma FoundFields(r: Result<Fields>, fields: seq<Field>, key: char)
    requires Finds(r, fields) && r.Ok?
    ensures FieldOr0(r.value, key) == Given(fields, key)
  {
  }

  lemma LineParts(data: string, remark: Option<string>, line: string)
    requires (forall i :: 0 <= i < |data| ==> data[i] != ';')
    requires line == data + (if remark.Some? then ";" + remark.value else "")
    ensures line[..SemiAt(line)] == data && RemarkOf(line) == if remark.Some? then Strip(remark.value) else ""
  {
    var rest := if remark.Some? then ";" + remark.value else "";
    SemiBehind(data, rest);
    assert line[..|data|] == data;
    if remark.Some? {
      assert line[|data| + 1..] == remark.value;
    }
  }

  lemma HeadPlain(tn: string, gap: string, pn: string, rest: string)
    requires ValidHead(tn, gap, pn) && (forall i :: 0 <= i < |rest| ==> rest[i] != ';')
    ensures forall i :: 0 <= i < |Head(tn, gap, pn, rest)| ==> Head(tn, gap, pn, rest)[i] != ';'
  {
    assert !IsSpace(';');
  }

  lemma HeadAgain(tn: string, gap: string, pn: string, a: string, b: string)
    ensures Head(tn, gap, pn, a) + b == Head(tn, gap, pn, a + b)
  {
  }

  /** What the parser finds in such a line. */
  ghost predicate LineFinds(line: string, tn: string, pn: string, fields: seq<Field>, remark: string)
    requires AllDigits(tn) && AllDigits(pn)
  {
    && line != "" && line[0] == 'T' && MatchTP(line) == Some((DigitsVal(tn), DigitsVal(pn)))
    && Finds(ScanFields(line[..SemiAt(line)]), fields) && RemarkOf(line) == remark
  }

  lemma LineFound(tn: string, gap: string, pn: string, fields: seq<Field>, tail: string, remark: Option<string>, line: string)
    requires ValidHead(tn, gap, pn) && AllFields(fields) && Bare(tail) && Ends(tail)
    requires line == Head(tn, gap, pn, FieldsText(fields, tail)) + (if remark.Some? then ";" + remark.value else "")
    ensures LineFinds(line, tn, pn, fields, if remark.Some? then Strip(remark.value) else "")
  {
    var text, rest := FieldsText(fields, tail), if remark.Some? then ";" + remark.value else "";
    FieldsTextEnds(fields, tail);
    FieldsTextPlain(fields, tail);
    HeadPlain(tn, gap, pn, text);
    LineParts(Head(tn, gap, pn, text), remark, line);
    HeadAgain(tn, gap, pn, text, rest);
    HeadMatches(tn, gap, pn, text + rest);
    HeadHasNoField(tn, gap, pn, text);
    FieldsFound(fields, tail);
  }

  lemma FoundIsRead(line: string, tn: string, pn: string, fields: seq<Field>, remark: string)
    requires AllDigits(tn) && AllDigits(pn) && LineFinds(line, tn, pn, fields, remark)
    ensures ParseStripped(line) == if AllRead(fields) then Ok(Some(ToolOfLine(tn, pn, fields, remark))) else Err
  {
    var r := ScanFields(line[..SemiAt(line)]);
    if r.Ok? {
      FoundFields(r, fields, 'X');
      FoundFields(r, fields, 'Y');
      FoundFields(r, fields, 'Z');
      FoundFields(r, fields, 'D');
    }
  }

  /** A tool line however written: any blanks between the numbers, fields in any order and
      number with other text around them, and perhaps a remark.  Each letter gets its last
      number, 0 if it has none, and the read fails exactly when some number is none. */
  lemma {:induction false} LineParses(tn: string, gap: string, pn: string, fields: seq<Field>, tail: string, remark: Option<string>)
    requires ValidHead(tn, gap, pn) && AllFields(fields) && Bare(tail) && Ends(tail)
    ensures var line := Head(tn, gap, pn, FieldsText(fields, tail)) + (if remark.Some? then ";" + remark.value else "");
            ParseStripped(line) ==
              if AllRead(fields) then Ok(Some(ToolOfLine(tn, pn, fields, if remark.Some? then Strip(remark.value) else "")))
              else Err
  {
    var line := Head(tn, gap, pn, FieldsText(fields, tail)) + (if remark.Some? then ";" + remark.value else "");
    LineFound(tn, gap, pn, fields, tail, remark, line);
    FoundIsRead(line, tn, pn, fields, if remark.Some? then Strip(remark.value) else "");
  }

  lemma {:induction false} LastOfAppend(a: seq<Field>, b: seq<Field>, key: char)
    ensures LastOf(a + b, key) == if LastOf(b, key).Some? then LastOf(b, key) else LastOf(a, key)
  {
    if b == [] {
      assert a + b == a;
    } else {
      assert (a + b)[..|a + b| - 1] == a + b[..|b| - 1];
      LastOfAppend(a, b[..|b| - 1], key);
    }
  }

  /** The column order does not matter: swapping two neighbouring fields of different letters
      leaves the tool as it is. */
  lemma {:induction false} ColumnOrderIsIrrelevant(tn: string, pn: string, a: seq<Field>, f: Field, g: Field, b: seq<Field>, remark: string)
    requires AllDigits(tn) && AllDigits(pn) && f.key != g.key
    ensures ToolOfLine(tn, pn, a + [f, g] + b, remark) == ToolOfLine(tn, pn, a + [g, f] + b, remark)
  {
    forall k ensures LastOf(a + [f, g] + b, k) == LastOf(a + [g, f] + b, k) {
      assert [f, g][..1] == [f] && [f][..0] == [] && [g, f][..1] == [g] && [g][..0] == [];
      LastOfAppend(a + [f, g], b, k);
      LastOfAppend(a + [g, f], b, k);
      LastOfAppend(a, [f, g], k);
      LastOfAppend(a, [g, f], k);
    }
  }
}
