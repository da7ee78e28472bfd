/** LinuxCNC tool.tbl: the writer's exact line format and the parser's line
    filter, regular expressions and remark split, at character level.  Numbers
    are exact: a tool's Z and D are given in millionths. */
module ToolTable {
  import opened Wrappers
  import opened Text
  import opened StableSort

  /** A tool as callers hand it over; a missing field takes the writer's default. */
  datatype ToolIn = ToolIn(T: int, P: Option<int>, Z: Option<int>, D: Option<int>, remark: string)

  /** A tool as the parser returns it. */
  datatype Tool = Tool(T: nat, P: nat, X: real, Y: real, Z: real, D: real, remark: string)

  function PocketOf(t: ToolIn): int { if t.P.Some? then t.P.value else t.T }
  function MicrosOf(m: Option<int>): int { if m.Some? then m.value else 0 }

  function ByNumber(tools: seq<ToolIn>): seq<ToolIn> {
    Sort(tools, (t: ToolIn) => t.T)
  }

  // ---- writing ----

  function HeaderText(): string { ";Tool  Pocket " + ("Z Offset     " + ("Diameter     " + "Remark")) }

  function IntStr(n: int): string {
    if n < 0 then "-" + NatDigits(-n) else NatDigits(n)
  }

  /** The format specifier `<5d`. */
  function Left5(n: int): string {
    IntStr(n) + Spaces(if |IntStr(n)| < 5 then 5 - |IntStr(n)| else 0)
  }

  /** The fixed parts of a line around its four numbers. */
  function DataOf(tn: string, pn: string, z: string, d: string): string {
    "T" + (tn + (" P" + (pn + (" Z" + (z + ("  D" + d))))))
  }

  function DataText(t: ToolIn): string {
    DataOf(Left5(t.T), Left5(PocketOf(t)), Fixed6(MicrosOf(t.Z), true, 13), Fixed6(MicrosOf(t.D), true, 12))
  }

  function LineText(t: ToolIn): string {
    if t.remark != "" then DataText(t) + ("   ; " + t.remark) else DataText(t)
  }

  function RowText(t: ToolIn): string { LineText(t) + "\n" }

  function MapRows(tools: seq<ToolIn>, row: ToolIn -> string): seq<string> {
    if tools == [] then [] else [row(tools[0])] + MapRows(tools[1..], row)
  }

  lemma {:induction false} MapRowsSnoc(tools: seq<ToolIn>, t: ToolIn, row: ToolIn -> string)
    ensures MapRows(tools + [t], row) == MapRows(tools, row) + [row(t)]
  {
    if tools != [] {
      assert (tools + [t])[1..] == tools[1..] + [t];
      MapRowsSnoc(tools[1..], t, row);
    }
  }

  function Rows(tools: seq<ToolIn>): seq<string> { MapRows(tools, RowText) }

  /** `"".join(lines)` */
  function Glue(lines: seq<string>): string {
    if lines == [] then "" else lines[0] + Glue(lines[1..])
  }

  function FileText(tools: seq<ToolIn>): string {
    Glue([HeaderText() + "\n"] + Rows(ByNumber(tools)))
  }

  method FormatRows(sorted: seq<ToolIn>, row: ToolIn -> string) returns (rows: seq<string>)
    ensures rows == MapRows(sorted, row)
  {
    rows := [];
    for i := 0 to |sorted|
      invariant rows == MapRows(sorted[..i], row)
    {
      MapRowsSnoc(sorted[..i], sorted[i], row);
      assert sorted[..i + 1] == sorted[..i] + [sorted[i]];
      rows := rows + [row(sorted[i])];
    }
    assert sorted[..|sorted|] == sorted;
  }

  method WriteToolTable(tools: seq<ToolIn>) returns (text: string)
    ensures text == FileText(tools)
  {
    var rows := FormatRows(ByNumber(tools), RowText);
    text := Glue([HeaderText() + "\n"] + rows);
  }

  // ---- parsing ----

  predicate IsBreak(c: char) { c == '\n' || c == '\r' }

  function BreakAt(s: string): (n: nat)
    ensures n <= |s|
  {
    if s == "" || IsBreak(s[0]) then 0 else 1 + BreakAt(s[1..])
  }

  /** The lines of a text file, each line break ending one. */
  function FileLines(s: string): seq<string>
    decreases |s|
  {
    if s == "" then []
    else if BreakAt(s) == |s| then [s]
    else [s[..BreakAt(s)]] + FileLines(s[BreakAt(s) + 1..])
  }

  function DigitRun(s: string): (n: nat)
    ensures n <= |s|
  {
    if s == "" || !IsDigit(s[0]) then 0 else 1 + DigitRun(s[1..])
  }

  lemma {:induction false} DigitRunDigits(s: string)
    ensures AllDigits(s[..DigitRun(s)])
  {
    if s != "" && IsDigit(s[0]) {
      DigitRunDigits(s[1..]);
      assert s[..DigitRun(s)] == [s[0]] + s[1..][..DigitRun(s[1..])];
    }
  }

  function LeadingNat(s: string): nat {
    DigitRunDigits(s);
    DigitsVal(s[..DigitRun(s)])
  }

  /** The regular expression `T(\d+)\s+P(\d+)` at the start of a line. */
  function MatchTP(s: string): Option<(nat, nat)> {
    if s == "" || s[0] != 'T' || DigitRun(s[1..]) == 0 then None
    else
      var a := s[1..];
      var b := a[DigitRun(a)..];
      var c := b[SpacePrefix(b)..];
      if SpacePrefix(b) == 0 || c == "" || c[0] != 'P' || DigitRun(c[1..]) == 0 then None
      else Some((LeadingNat(a), LeadingNat(c[1..])))
  }

  function SemiAt(s: string): (n: nat)
    ensures n <= |s|
  {
    if s == "" || s[0] == ';' then 0 else 1 + SemiAt(s[1..])
  }

  predicate IsFieldKey(c: char) { c == 'X' || c == 'Y' || c == 'Z' || c == 'D' }

  function NumberRun(s: string): (n: nat)
    ensures n <= |s|
  {
    if s == "" || !DigitOrPoint(s[0]) then 0 else 1 + NumberRun(s[1..])
  }

  /** Length of `[+-]?[\d.]+` at the start, 0 when it does not match. */
  function NumberLen(s: string): (n: nat)
    ensures n <= |s|
  {
    var sign := if s != "" && IsSign(s[0]) then 1 else 0;
    if NumberRun(s[sign..]) == 0 then 0 else sign + NumberRun(s[sign..])
  }

  type Fields = map<char, real>

  /** A field read before `later` ones: the last occurrence of a letter wins. */
  function WithField(key: char, value: Option<real>, later: Result<Fields>): Result<Fields> {
    if value.None? || later.Err? then Err
    else Ok(if key in later.value then later.value else later.value[key := value.value])
  }

  /** The dictionary built from every match of `([XYZD])([+-]?[\d.]+)`; a numeral
      `float()` rejects raises. */
  function ScanFields(s: string): Result<Fields>
    decreases |s|
  {
    if s == "" then Ok(map[])
    else if IsFieldKey(s[0]) && NumberLen(s[1..]) > 0 then
      WithField(s[0], FloatOf(s[1..1 + NumberLen(s[1..])]), ScanFields(s[1 + NumberLen(s[1..])..]))
    else ScanFields(s[1..])
  }

  function FieldOr0(f: Fields, key: char): real {
    if key in f then f[key] else 0.0
  }

  function RemarkOf(line: string): string {
    if SemiAt(line) < |line| then Strip(line[SemiAt(line) + 1..]) else ""
  }

  /** The tool a header match, scanned fields and a remark make. */
  function ToolFrom(tp: Option<(nat, nat)>, fields: Result<Fields>, remark: string): Result<Option<Tool>> {
    if tp.None? then Ok(None)
    else if fields.Err? then Err
    else
      var f := fields.value;
      Ok(Some(Tool(tp.value.0, tp.value.1, FieldOr0(f, 'X'), FieldOr0(f, 'Y'), FieldOr0(f, 'Z'), FieldOr0(f, 'D'), remark)))
  }

  predicate Skipped(line: string) {
    line == "" || line[0] == ';' || line[0] == '#'
  }

  function ParseStripped(line: string): Result<Option<Tool>> {
    if Skipped(line) then Ok(None)
    else ToolFrom(MatchTP(line), ScanFields(line[..SemiAt(line)]), RemarkOf(line))
  }

  /** One line: skipped, a tool, or an error raised. */
  function ParseLine(raw: string): Result<Option<Tool>> {
    ParseStripped(Strip(raw))
  }

  type LineParser = string -> Result<Option<Tool>>

  function Prepend(head: Result<Option<Tool>>, tail: Result<seq<Tool>>): Result<seq<Tool>> {
    if head.Err? || tail.Err? then Err
    else if head.value.Some? then Ok([head.value.value] + tail.value)
    else tail
  }

  function ParseLines(lines: seq<string>, one: LineParser): Result<seq<Tool>> {
    if lines == [] then Ok([]) else Prepend(one(lines[0]), ParseLines(lines[1..], one))
  }

  function ParseText(s: string): Result<seq<Tool>> {
    ParseLines(FileLines(s), ParseLine)
  }

  function Concat(a: Result<seq<Tool>>, b: Result<seq<Tool>>): Result<seq<Tool>> {
    if a.Err? || b.Err? then Err else Ok(a.value + b.value)
  }

  lemma PrependConcat(h: Result<Option<Tool>>, a: Result<seq<Tool>>, b: Result<seq<Tool>>)
    ensures Prepend(h, Concat(a, b)) == Concat(Prepend(h, a), b)
  {
    if h.Ok? && h.value.Some? && a.Ok? && b.Ok? {
      var t := [h.value.value];
      assert t + (a.value + b.value) == t + a.value + b.value;
    }
  }

  lemma ConcatNothing(b: Result<seq<Tool>>)
    ensures Concat(Ok([]), b) == b
  {
    if b.Ok? { assert [] + b.value == b.value; }
  }

  lemma {:induction false} ParseLinesConcat(a: seq<string>, b: seq<string>, one: LineParser)
    ensures ParseLines(a + b, one) == Concat(ParseLines(a, one), ParseLines(b, one))
  {
    if a == [] {
      assert a + b == b;
      ConcatNothing(ParseLines(b, one));
    } else {
      assert (a + b)[1..] == a[1..] + b;
      ParseLinesConcat(a[1..], b, one);
      PrependConcat(one(a[0]), ParseLines(a[1..], one), ParseLines(b, one));
    }
  }

  lemma PrependStep(tools: seq<Tool>, head: Result<Option<Tool>>, tail: Result<seq<Tool>>)
    requires head.Ok?
    ensures Concat(Ok(tools), Prepend(head, tail))
         == Concat(Ok(if head.value.Some? then tools + [head.value.value] else tools), tail)
  {
    if head.value.Some? && tail.Ok? {
      var t := head.value.value;
      assert tools + ([t] + tail.value) == tools + [t] + tail.value;
    }
  }

  method ParseToolTable(text: string) returns (r: Result<seq<Tool>>)
    ensures r == ParseText(text)
  {
    var lines := FileLines(text);
    var tools: seq<Tool> := [];
    assert lines[0..] == lines;
    ConcatNothing(ParseLines(lines, ParseLine));
    for i := 0 to |lines|
      invariant ParseLines(lines, ParseLine) == Concat(Ok(tools), ParseLines(lines[i..], ParseLine))
    {
      var one := ParseLine(lines[i]);
      assert lines[i..][1..] == lines[i + 1..];
      if one.Err? {
        return Err;
      }
      PrependStep(tools, one, ParseLines(lines[i + 1..], ParseLine));
      if one.value.Some? {
        tools := tools + [one.value.value];
      }
    }
    assert tools + [] == tools;
    r := Ok(tools);
  }
}
