/** LinuxCNC parameter files: last-wins reads, updates that replace or insert lines and
    keep the file sorted, and the unsorted patching of the parse worker's copy. */
module VarFile {
  import opened Wrappers
  import opened Text
  import opened StableSort

  /** One update, with its value as it is written; a list of them stands for a dict in
      insertion order. */
  datatype Entry = Entry(key: string, value: string)

  ghost predicate Distinct(u: seq<Entry>) { forall i, j :: 0 <= i < j < |u| ==> u[i].key != u[j].key }

  function Lookup(u: seq<Entry>, k: string): Option<string> {
    if u == [] then None else if u[0].key == k then Some(u[0].value) else Lookup(u[1..], k)
  }

  // ---- lines ----

  /** Text-mode reading turns every carriage return, with or without a newline behind it,
      into a newline. */
  function Universal(t: string): string {
    if t == "" then ""
    else if t[0] == '\r' then "\n" + Universal(if |t| > 1 && t[1] == '\n' then t[2..] else t[1..])
    else [t[0]] + Universal(t[1..])
  }

  /** `readlines`: each line with its newline, the last one possibly without. */
  function SplitLines(t: string): seq<string> {
    if t == "" then [] else [t[..LineEnd(t)]] + SplitLines(t[LineEnd(t)..])
  }

  function LineEnd(t: string): (n: nat)
    requires t != ""
    ensures 0 < n <= |t|
  {
    if t[0] == '\n' || |t| == 1 then 1 else 1 + LineEnd(t[1..])
  }

  function ReadLines(t: string): seq<string> { SplitLines(Universal(t)) }

  function Concat(lines: seq<string>): string { if lines == [] then "" else lines[0] + Concat(lines[1..]) }

  /** The key of a line with at least two words. */
  function KeyOf(line: string): Option<string> {
    var w := Words(line);
    if |w| >= 2 then Some(w[0]) else None
  }

  /** The value the last line for k carries. */
  function LastValue(lines: seq<string>, k: string): Option<string> {
    if lines == [] then None
    else
      var line := lines[|lines| - 1];
      if KeyOf(line) == Some(k) then Some(Words(line)[1]) else LastValue(lines[..|lines| - 1], k)
  }

  // ---- reading ----

  lemma LastValueSnoc(lines: seq<string>, line: string, k: string)
    ensures LastValue(lines + [line], k) == if KeyOf(line) == Some(k) then Some(Words(line)[1]) else LastValue(lines, k)
  {
    assert (lines + [line])[..|lines|] == lines;
  }

  function LastOf(lines: seq<string>): string -> Option<string> { (k: string) => LastValue(lines, k) }

  /** The result holds the last value of every wanted key that has one. */
  ghost predicate HoldsLast(last: string -> Option<string>, wanted: set<string>, parse: string -> Option<real>, result: map<string, real>) {
    && (forall k :: k in result <==> k in wanted && last(k).Some?)
    && (forall k :: k in result ==> parse(last(k).value) == Some(result[k]))
  }

  /** The last values once a line of key `key` has come. */
  ghost predicate Comes(before: string -> Option<string>, after: string -> Option<string>, key: Option<string>, value: string) {
    forall k :: after(k) == if key == Some(k) then Some(value) else before(k)
  }

  lemma ReadStep(before: string -> Option<string>, after: string -> Option<string>, key: Option<string>, value: string,
                 wanted: set<string>, parse: string -> Option<real>, result: map<string, real>)
    requires HoldsLast(before, wanted, parse, result) && Comes(before, after, key, value)
    requires key.Some? && key.value in wanted ==> parse(value).Some?
    ensures HoldsLast(after, wanted, parse,
                      if key.Some? && key.value in wanted then result[key.value := parse(value).value] else result)
  {
  }

  lemma LineComes(lines: seq<string>, line: string)
    ensures Comes(LastOf(lines), LastOf(lines + [line]), KeyOf(line), if KeyOf(line).Some? then Words(line)[1] else "")
  {
    forall k ensures LastOf(lines + [line])(k) == if KeyOf(line) == Some(k) then Some(Words(line)[1]) else LastOf(lines)(k) {
      LastValueSnoc(lines, line, k);
    }
  }

  /** What one line adds to the result; None when it raises. */
  function ReadLine(line: string, wanted: set<string>, parse: string -> Option<real>, result: map<string, real>): Option<map<string, real>> {
    var parts := Words(line);
    if |parts| >= 2 && parts[0] in wanted then
      if parse(parts[1]).None? then None else Some(result[parts[0] := parse(parts[1]).value])
    else Some(result)
  }

  lemma ReadLineStep(lines: seq<string>, line: string, wanted: set<string>, parse: string -> Option<real>, result: map<string, real>)
    requires HoldsLast(LastOf(lines), wanted, parse, result)
    ensures var n := ReadLine(line, wanted, parse, result);
            (n.None? <==> Unreadable(line, wanted, parse)) && (n.Some? ==> HoldsLast(LastOf(lines + [line]), wanted, parse, n.value))
  {
    LineComes(lines, line);
    if !Unreadable(line, wanted, parse) {
      var value := if KeyOf(line).Some? then Words(line)[1] else "";
      ReadStep(LastOf(lines), LastOf(lines + [line]), KeyOf(line), value, wanted, parse, result);
    }
  }

  /** A line gives its first word the value of its second, whatever follows; with fewer than
      two words it gives nothing. */
  lemma {:induction false} LineGivesSecondWord(line: string, k: string)
    ensures LastValue([line], k) ==
            if |Words(line)| >= 2 && Words(line)[0] == k then Some(Words(line)[1]) else None
  {
    assert [line][..0] == [];
  }

  /** `parse` is `float()`; a wanted line it rejects makes the whole read raise. */
  method ReadVarFile(lines: seq<string>, wanted: set<string>, parse: string -> Option<real>)
    returns (r: Result<map<string, real>>)
    ensures r.Err? <==> exists i :: 0 <= i < |lines| && Unreadable(lines[i], wanted, parse)
    ensures r.Ok? ==> HoldsLast(LastOf(lines), wanted, parse, r.value)
  {
    var result: map<string, real> := map[];
    for i := 0 to |lines|
      invariant forall j :: 0 <= j < i ==> !Unreadable(lines[j], wanted, parse)
      invariant HoldsLast(LastOf(lines[..i]), wanted, parse, result)
    {
      ReadLineStep(lines[..i], lines[i], wanted, parse, result);
      assert lines[..i + 1] == lines[..i] + [lines[i]];
      var parts := Words(lines[i]);
      if |parts| >= 2 && parts[0] in wanted {
        var v := parse(parts[1]);
        if v.None? { return Err; }
        result := result[parts[0] := v.value];
      }
    }
    assert lines[..|lines|] == lines;
    return Ok(result);
  }

  predicate Unreadable(line: string, wanted: set<string>, parse: string -> Option<real>) {
    KeyOf(line).Some? && KeyOf(line).value in wanted && parse(Words(line)[1]).None?
  }

  // ---- writing ----

  function LineOf(k: string, v: string): string { k + "\t" + v + "\n" }

  function ReplaceLine(line: string, u: seq<Entry>): string {
    if KeyOf(line).Some? && Lookup(u, KeyOf(line).value).Some?
    then LineOf(KeyOf(line).value, Lookup(u, KeyOf(line).value).value) else line
  }

  function ReplaceAll(lines: seq<string>, u: seq<Entry>): seq<string> {
    if lines == [] then []
    else ReplaceAll(lines[..|lines| - 1], u) + [ReplaceLine(lines[|lines| - 1], u)]
  }

  function IfMissing(e: Entry, lines: seq<string>): seq<Entry> {
    if LastValue(lines, e.key).None? then [e] else []
  }

  /** The updates no line matched. */
  function Missing(u: seq<Entry>, lines: seq<string>): seq<Entry> {
    if u == [] then [] else Missing(u[..|u| - 1], lines) + IfMissing(u[|u| - 1], lines)
  }

  function LinesOf(u: seq<Entry>): seq<string> {
    if u == [] then [] else LinesOf(u[..|u| - 1]) + [LineOf(u[|u| - 1].key, u[|u| - 1].value)]
  }

  const LAST := 999999

  /** The sort key; `intOf` is `int()` of the first word. */
  function VarKey(line: string, intOf: string -> Option<int>): int {
    var w := Words(line);
    if w == [] || intOf(w[0]).None? then LAST else intOf(w[0]).value
  }

  function Patched(lines: seq<string>, u: seq<Entry>): seq<string> { ReplaceAll(lines, u) + LinesOf(Missing(u, lines)) }

  function Written(lines: seq<string>, u: seq<Entry>, intOf: string -> Option<int>): seq<string> {
    if Missing(u, lines) == [] then Patched(lines, u)
    else Sort(Patched(lines, u), (line: string) => VarKey(line, intOf))
  }

  /** Replaces every matching line; `found` collects the keys that had one. */
  method ReplaceMatching(lines: seq<string>, u: seq<Entry>) returns (out: seq<string>, found: set<string>)
    ensures out == ReplaceAll(lines, u)
    ensures forall k :: k in found <==> Lookup(u, k).Some? && LastValue(lines, k).Some?
  {
    out, found := [], {};
    for i := 0 to |lines|
      invariant out == ReplaceAll(lines[..i], u)
      invariant forall k :: k in found <==> Lookup(u, k).Some? && LastValue(lines[..i], k).Some?
    {
      assert lines[..i + 1][..i] == lines[..i];
      var parts := Words(lines[i]);
      if |parts| >= 2 && Lookup(u, parts[0]).Some? {
        out := out + [LineOf(parts[0], Lookup(u, parts[0]).value)];
        found := found + {parts[0]};
      } else {
        out := out + [lines[i]];
      }
    }
    assert lines[..|lines|] == lines;
  }

  lemma {:induction false} LookupOfMember(u: seq<Entry>, i: nat)
    requires i < |u|
    ensures Lookup(u, u[i].key).Some?
  {
    if i > 0 {
      LookupOfMember(u[1..], i - 1);
    }
  }

  /** Appends a line for each update that replaced nothing. */
  method AppendMissing(lines: seq<string>, replaced: seq<string>, found: set<string>, u: seq<Entry>)
    returns (out: seq<string>)
    requires forall k :: k in found <==> Lookup(u, k).Some? && LastValue(lines, k).Some?
    ensures out == replaced + LinesOf(Missing(u, lines))
  {
    out := replaced;
    ghost var todo: seq<Entry> := [];
    for i := 0 to |u|
      invariant todo == Missing(u[..i], lines)
      invariant out == replaced + LinesOf(todo)
    {
      assert u[..i + 1][..i] == u[..i];
      LookupOfMember(u, i);
      if u[i].key !in found {
        assert (todo + [u[i]])[..|todo|] == todo;
        out := out + [LineOf(u[i].key, u[i].value)];
        todo := todo + [u[i]];
      }
    }
    assert u[..|u|] == u;
  }

  /** Rewrites the lines of a var file; it is sorted only when a line was inserted. */
  method WriteVarFileUpdates(lines: seq<string>, u: seq<Entry>, intOf: string -> Option<int>) returns (out: seq<string>)
    ensures out == Written(lines, u, intOf)
  {
    var replaced, found := ReplaceMatching(lines, u);
    out := AppendMissing(lines, replaced, found, u);
    if |out| > |replaced| {
      out := Sort(out, (line: string) => VarKey(line, intOf));
    } else {
      LinesOfLength(Missing(u, lines));
    }
  }

  method ApplyVarPatches(lines: seq<string>, u: seq<Entry>) returns (out: seq<string>)
    ensures out == Patched(lines, u)
  {
    var replaced, found := ReplaceMatching(lines, u);
    out := AppendMissing(lines, replaced, found, u);
  }

  lemma {:induction false} LinesOfLength(u: seq<Entry>)
    ensures |LinesOf(u)| == |u|
  {
    if u != [] {
      LinesOfLength(u[..|u| - 1]);
    }
  }

  // ---- the overlay on lines ----

  ghost predicate GoodValues(u: seq<Entry>) { forall i :: 0 <= i < |u| ==> IsWord(u[i].value) }
  ghost predicate GoodKeys(u: seq<Entry>) { forall i :: 0 <= i < |u| ==> IsWord(u[i].key) }

  /** What a read must give for k after the update. */
  function Overlay(lines: seq<string>, u: seq<Entry>, k: string): Option<string> {
    if Lookup(u, k).Some? then Lookup(u, k) else LastValue(lines, k)
  }

  lemma {:induction false} WordsFirst(a: string, r: string, s: string)
    requires IsWord(a) && (r == "" || IsSpace(r[0])) && s == a + r
    ensures Words(s) == [a] + Words(r)
  {
    assert "" + a + r == s;
    WordsCons("", a, r);
  }

  lemma {:induction false} WordsTabbed(b: string, rest: string, r: string)
    requires IsWord(b) && (rest == "" || IsSpace(rest[0])) && r == "\t" + (b + rest)
    ensures Words(r) == [b] + Words(rest)
  {
    assert "\t" + b + rest == r;
    WordsCons("\t", b, rest);
  }

  lemma {:induction false} TwoWords(a: string, b: string, rest: string, s: string)
    requires IsWord(a) && IsWord(b) && (rest == "" || IsSpace(rest[0])) && s == a + ("\t" + (b + rest))
    ensures Words(s) == [a] + ([b] + Words(rest))
  {
    WordsTabbed(b, rest, "\t" + (b + rest));
    WordsFirst(a, "\t" + (b + rest), s);
  }

  lemma {:induction false} WordsOfLine(k: string, v: string)
    requires IsWord(k) && IsWord(v)
    ensures Words(LineOf(k, v)) == [k, v] && KeyOf(LineOf(k, v)) == Some(k)
  {
    assert LineOf(k, v) == k + ("\t" + (v + "\n"));
    TwoWords(k, v, "\n", LineOf(k, v));
    WordsBlank("\n");
  }

  lemma {:induction false} LookupIsMember(u: seq<Entry>, k: string) returns (i: nat)
    requires Lookup(u, k).Some?
    ensures i < |u| && u[i] == Entry(k, Lookup(u, k).value)
  {
    if u[0].key == k {
      i := 0;
    } else {
      var j := LookupIsMember(u[1..], k);
      i := j + 1;
    }
  }

  lemma {:induction false} ReplacedValue(lines: seq<string>, u: seq<Entry>, k: string)
    requires GoodValues(u)
    ensures LastValue(ReplaceAll(lines, u), k) ==
            if LastValue(lines, k).Some? && Lookup(u, k).Some? then Lookup(u, k) else LastValue(lines, k)
  {
    if lines != [] {
      var before, line := lines[..|lines| - 1], lines[|lines| - 1];
      ReplacedValue(before, u, k);
      assert ReplaceAll(lines, u)[..|ReplaceAll(lines, u)| - 1] == ReplaceAll(before, u);
      if KeyOf(line).Some? && Lookup(u, KeyOf(line).value).Some? {
        var i := LookupIsMember(u, KeyOf(line).value);
        WordsAreWords(line);
        WordsOfLine(KeyOf(line).value, Lookup(u, KeyOf(line).value).value);
      }
    }
  }

  lemma {:induction false} LastValueAppend(a: seq<string>, b: seq<string>, k: string)
    ensures LastValue(a + b, k) == if LastValue(b, k).Some? then LastValue(b, k) else LastValue(a, k)
  {
    if b == [] {
      assert a + b == a;
    } else {
      LastValueAppend(a, b[..|b| - 1], k);
      assert (a + b)[..|a + b| - 1] == a + b[..|b| - 1];
    }
  }

  lemma {:induction false} LookupSnoc(u: seq<Entry>, e: Entry, k: string)
    ensures Lookup(u + [e], k) == if Lookup(u, k).Some? then Lookup(u, k) else if e.key == k then Some(e.value) else None
  {
    if u != [] {
      assert (u + [e])[1..] == u[1..] + [e];
      LookupSnoc(u[1..], e, k);
    } else {
      assert u + [e] == [e] && Lookup([e][1..], k) == None;
    }
  }

  lemma {:induction false} LookupAbsent(u: seq<Entry>, k: string)
    requires forall i :: 0 <= i < |u| ==> u[i].key != k
    ensures Lookup(u, k) == None
  {
    if u != [] {
      LookupAbsent(u[1..], k);
    }
  }

  lemma LinesOfSnoc(u: seq<Entry>, e: Entry)
    ensures LinesOf(u + [e]) == LinesOf(u) + [LineOf(e.key, e.value)]
  {
    assert (u + [e])[..|u|] == u;
  }

  lemma AppendedStep(u: seq<Entry>, e: Entry, k: string)
    requires IsWord(e.key) && IsWord(e.value) && LastValue(LinesOf(u), k) == Lookup(u, k)
    requires e.key == k ==> Lookup(u, k) == None
    ensures LastValue(LinesOf(u + [e]), k) == Lookup(u + [e], k)
  {
    LinesOfSnoc(u, e);
    LookupSnoc(u, e, k);
    WordsOfLine(e.key, e.value);
    LastValueSnoc(LinesOf(u), LineOf(e.key, e.value), k);
  }

  lemma {:induction false} AppendedValue(u: seq<Entry>, k: string)
    requires GoodKeys(u) && GoodValues(u) && Distinct(u)
    ensures LastValue(LinesOf(u), k) == Lookup(u, k)
  {
    if u != [] {
      var before, e := u[..|u| - 1], u[|u| - 1];
      AppendedValue(before, k);
      LookupAbsent(before, e.key);
      AppendedStep(before, e, k);
      assert u == before + [e];
    }
  }

  /** The updates left over are distinct updates of the list. */
  lemma {:induction false} MissingIs(u: seq<Entry>, lines: seq<string>)
    requires Distinct(u)
    ensures Distinct(Missing(u, lines))
    ensures forall e :: e in Missing(u, lines) ==> e in u
  {
    if u != [] {
      var before, e := u[..|u| - 1], u[|u| - 1];
      MissingIs(before, lines);
      var m := Missing(before, lines);
      forall j | 0 <= j < |m| ensures m[j].key != e.key {
        assert m[j] in before;
        var i :| 0 <= i < |before| && before[i] == m[j];
        assert u[i] == m[j] && u[i].key != u[|u| - 1].key;
      }
    }
  }

  lemma MissingSnoc(u: seq<Entry>, e: Entry, lines: seq<string>)
    ensures Missing(u + [e], lines) == if LastValue(lines, e.key).None? then Missing(u, lines) + [e] else Missing(u, lines)
  {
    assert (u + [e])[..|u|] == u;
    assert Missing(u, lines) + [] == Missing(u, lines);
  }

  lemma MissingLookupStep(u: seq<Entry>, e: Entry, lines: seq<string>, k: string)
    requires Lookup(Missing(u, lines), k) == if LastValue(lines, k).Some? then None else Lookup(u, k)
    ensures Lookup(Missing(u + [e], lines), k) == if LastValue(lines, k).Some? then None else Lookup(u + [e], k)
  {
    MissingSnoc(u, e, lines);
    LookupSnoc(u, e, k);
    LookupSnoc(Missing(u, lines), e, k);
  }

  lemma {:induction false} MissingLookup(u: seq<Entry>, lines: seq<string>, k: string)
    ensures Lookup(Missing(u, lines), k) == if LastValue(lines, k).Some? then None else Lookup(u, k)
  {
    if u != [] {
      MissingLookup(u[..|u| - 1], lines, k);
      MissingLookupStep(u[..|u| - 1], u[|u| - 1], lines, k);
      assert u == u[..|u| - 1] + [u[|u| - 1]];
    }
  }

  /** Patching is an overlay: the new value for updated keys, the old last-wins value for
      every other key. */
  lemma {:induction false} PatchIsOverlay(lines: seq<string>, u: seq<Entry>, k: string)
    requires GoodKeys(u) && GoodValues(u) && Distinct(u)
    ensures LastValue(Patched(lines, u), k) == Overlay(lines, u, k)
  {
    var m := Missing(u, lines);
    MissingIs(u, lines);
    forall i | 0 <= i < |m| ensures IsWord(m[i].key) && IsWord(m[i].value) {
      assert m[i] in u;
    }
    ReplacedValue(lines, u, k);
    AppendedValue(m, k);
    MissingLookup(u, lines, k);
    LastValueAppend(ReplaceAll(lines, u), LinesOf(m), k);
  }

  lemma {:induction false} ReplacedLines(lines: seq<string>, u: seq<Entry>)
    ensures |ReplaceAll(lines, u)| == |lines|
    ensures forall i :: 0 <= i < |lines| ==> ReplaceAll(lines, u)[i] == ReplaceLine(lines[i], u)
  {
    if lines != [] {
      ReplacedLines(lines[..|lines| - 1], u);
    }
  }

  /** Line by line, patching changes only the lines of updated keys and puts one line for each
      key that had none behind them: comments, blank lines and other keys stay as they
      are, where they are. */
  lemma {:induction false} PatchedLineByLine(lines: seq<string>, u: seq<Entry>, i: nat)
    requires i < |lines| && GoodValues(u)
    ensures |Patched(lines, u)| == |lines| + |Missing(u, lines)|
    ensures var k, out := KeyOf(lines[i]), Patched(lines, u)[i];
            if k.Some? && Lookup(u, k.value).Some? then Words(out) == [k.value, Lookup(u, k.value).value]
            else out == lines[i]
  {
    ReplacedLines(lines, u);
    LinesOfLength(Missing(u, lines));
    if KeyOf(lines[i]).Some? && Lookup(u, KeyOf(lines[i]).value).Some? {
      var k := KeyOf(lines[i]).value;
      var j := LookupIsMember(u, k);
      WordsAreWords(lines[i]);
      WordsOfLine(k, Lookup(u, k).value);
    }
  }

  /** The sorting writer writes the very lines patching would, at most in another order. */
  lemma {:induction false} WrittenSameLines(lines: seq<string>, u: seq<Entry>, intOf: string -> Option<int>)
    ensures multiset(Written(lines, u, intOf)) == multiset(Patched(lines, u))
    ensures Missing(u, lines) == [] ==> Written(lines, u, intOf) == Patched(lines, u)
  {
    SortMultiset(Patched(lines, u), (line: string) => VarKey(line, intOf));
  }

  function ForKey(k: string): string -> bool { (line: string) => KeyOf(line) == Some(k) }

  lemma FilterSnoc(lines: seq<string>, line: string, k: string)
    ensures Filter(lines + [line], ForKey(k)) == Filter(lines, ForKey(k)) + if KeyOf(line) == Some(k) then [line] else []
  {
    FilterAppend(lines, [line], ForKey(k));
    FilterOne(line, ForKey(k));
  }

  lemma FilterStep(lines: seq<string>, line: string, k: string)
    requires LastValue(Filter(lines, ForKey(k)), k) == LastValue(lines, k)
    ensures LastValue(Filter(lines + [line], ForKey(k)), k) == LastValue(lines + [line], k)
  {
    var f := Filter(lines, ForKey(k));
    FilterSnoc(lines, line, k);
    LastValueSnoc(lines, line, k);
    if KeyOf(line) == Some(k) {
      LastValueSnoc(f, line, k);
    } else {
      assert f + [] == f;
    }
  }

  lemma {:induction false} LastValueOfFilter(lines: seq<string>, k: string)
    ensures LastValue(Filter(lines, ForKey(k)), k) == LastValue(lines, k)
  {
    if lines != [] {
      var before, line := lines[..|lines| - 1], lines[|lines| - 1];
      assert lines == before + [line];
      LastValueOfFilter(before, k);
      FilterStep(before, line, k);
    }
  }

  lemma {:induction false} LastOne(line: string, k: string)
    ensures LastValue([line], k) == if KeyOf(line) == Some(k) then Some(Words(line)[1]) else None
  {
    assert [line][..0] == [];
  }

  /** Stability is what keeps last-wins reads: sorting by key number never swaps two
      lines of the same key. */
  lemma {:induction false} SortKeepsLastValue(lines: seq<string>, intOf: string -> Option<int>, k: string)
    ensures LastValue(Sort(lines, (line: string) => VarKey(line, intOf)), k) == LastValue(lines, k)
  {
    var key := (line: string) => VarKey(line, intOf);
    var n := if intOf(k).None? then LAST else intOf(k).value;
    assert OneKey(ForKey(k), key, n);
    SortIsStable(lines, key, ForKey(k), n);
    LastValueOfFilter(Sort(lines, key), k);
    LastValueOfFilter(lines, k);
  }

  /** The number a line starts with; a line without one counts as 999999. */
  ghost predicate HasNumber(line: string, intOf: string -> Option<int>, n: int) {
    if Words(line) != [] && intOf(Words(line)[0]).Some? then intOf(Words(line)[0]) == Some(n) else n == 999999
  }

  /** After an insertion the numbers of the written lines never decrease. */
  lemma {:induction false} InsertedFileIsSorted(lines: seq<string>, u: seq<Entry>, intOf: string -> Option<int>,
                                                i: nat, j: nat, a: int, b: int)
    requires (exists e :: e in u && LastValue(lines, e.key) == None) && i < j < |Written(lines, u, intOf)|
    requires HasNumber(Written(lines, u, intOf)[i], intOf, a) && HasNumber(Written(lines, u, intOf)[j], intOf, b)
    ensures a <= b
  {
    var e :| e in u && LastValue(lines, e.key) == None;
    UnreadIsMissing(u, lines, e);
    SortIsSorted(Patched(lines, u), (line: string) => VarKey(line, intOf));
  }

  lemma {:induction false} UnreadIsMissing(u: seq<Entry>, lines: seq<string>, e: Entry)
    requires e in u && LastValue(lines, e.key) == None
    ensures Missing(u, lines) != []
  {
    var before, last := u[..|u| - 1], u[|u| - 1];
    assert u == before + [last];
    if e in before {
      UnreadIsMissing(before, lines, e);
    }
  }

  lemma {:induction false} WriteIsOverlay(lines: seq<string>, u: seq<Entry>, intOf: string -> Option<int>, k: string)
    requires GoodKeys(u) && GoodValues(u) && Distinct(u)
    ensures LastValue(Written(lines, u, intOf), k) == Overlay(lines, u, k)
  {
    PatchIsOverlay(lines, u, k);
    SortKeepsLastValue(Patched(lines, u), intOf, k);
  }

  // ---- the overlay on file contents ----

  ghost predicate Terminated(line: string) {
    && line != "" && line[|line| - 1] == '\n'
    && (forall i :: 0 <= i < |line| - 1 ==> line[i] != '\n')
    && '\r' !in line
  }

  ghost predicate AllTerminated(lines: seq<string>) { forall i :: 0 <= i < |lines| ==> Terminated(lines[i]) }

  lemma {:induction false} LineEndOf(line: string, rest: string)
    requires Terminated(line)
    ensures LineEnd(line + rest) == |line|
  {
    if |line| > 1 {
      assert (line + rest)[1..] == line[1..] + rest;
      LineEndOf(line[1..], rest);
    }
  }

  lemma {:induction false} SplitOfConcat(lines: seq<string>)
    requires AllTerminated(lines)
    ensures SplitLines(Concat(lines)) == lines
  {
    if lines != [] {
      LineEndOf(lines[0], Concat(lines[1..]));
      SplitOfConcat(lines[1..]);
      assert (lines[0] + Concat(lines[1..]))[|lines[0]|..] == Concat(lines[1..]);
    }
  }

  lemma {:induction false} LineEndTerminates(t: string)
    requires t != "" && t[|t| - 1] == '\n' && '\r' !in t
    ensures Terminated(t[..LineEnd(t)])
  {
    if t[0] != '\n' && |t| > 1 {
      LineEndTerminates(t[1..]);
      assert t[..LineEnd(t)] == [t[0]] + t[1..][..LineEnd(t[1..])];
    }
  }

  lemma {:induction false} SplitTerminates(t: string)
    requires (t == "" || t[|t| - 1] == '\n') && '\r' !in t
    ensures AllTerminated(SplitLines(t))
    decreases |t|
  {
    if t != "" {
      LineEndTerminates(t);
      var rest := t[LineEnd(t)..];
      assert rest != "" ==> rest[|rest| - 1] == t[|t| - 1];
      SplitTerminates(rest);
    }
  }

  lemma {:induction false} LineOfTerminated(k: string, v: string)
    requires NoSpace(k) && NoSpace(v)
    ensures Terminated(LineOf(k, v))
  {
    assert IsSpace('\n') && IsSpace('\r');
  }

  lemma {:induction false} LinesOfTerminated(u: seq<Entry>)
    requires GoodKeys(u) && GoodValues(u)
    ensures AllTerminated(LinesOf(u))
  {
    if u != [] {
      LinesOfTerminated(u[..|u| - 1]);
      LineOfTerminated(u[|u| - 1].key, u[|u| - 1].value);
    }
  }

  lemma {:induction false} ReplacedTerminated(lines: seq<string>, u: seq<Entry>)
    requires AllTerminated(lines) && GoodValues(u)
    ensures AllTerminated(ReplaceAll(lines, u))
  {
    if lines != [] {
      ReplacedTerminated(lines[..|lines| - 1], u);
      var line := lines[|lines| - 1];
      if KeyOf(line).Some? && Lookup(u, KeyOf(line).value).Some? {
        var i := LookupIsMember(u, KeyOf(line).value);
        WordsAreWords(line);
        LineOfTerminated(KeyOf(line).value, Lookup(u, KeyOf(line).value).value);
      }
    }
  }

  lemma {:induction false} WrittenTerminated(lines: seq<string>, u: seq<Entry>, intOf: string -> Option<int>)
    requires AllTerminated(lines) && GoodKeys(u) && GoodValues(u) && Distinct(u)
    ensures AllTerminated(Patched(lines, u)) && AllTerminated(Written(lines, u, intOf))
  {
    var m := Missing(u, lines);
    MissingIs(u, lines);
    forall i | 0 <= i < |m| ensures IsWord(m[i].key) && IsWord(m[i].value) {
      assert m[i] in u;
    }
    ReplacedTerminated(lines, u);
    LinesOfTerminated(m);
    var p := Patched(lines, u);
    var w := Written(lines, u, intOf);
    SortMultiset(p, (line: string) => VarKey(line, intOf));
    forall i | 0 <= i < |w| ensures Terminated(w[i]) {
      assert w[i] in multiset(w);
      assert w[i] in multiset(p);
    }
  }

  function WriteText(t: string, u: seq<Entry>, intOf: string -> Option<int>): string {
    Concat(Written(ReadLines(t), u, intOf))
  }

  function PatchText(t: string, u: seq<Entry>): string { Concat(Patched(ReadLines(t), u)) }

  /** Reading `n` as a file gives the overlay of the updates on what `t` gave. */
  ghost predicate IsOverlay(t: string, n: string, u: seq<Entry>) {
    forall k :: LastValue(ReadLines(n), k) == Overlay(ReadLines(t), u, k)
  }

  lemma {:induction false} NonWordsReadNothing(lines: seq<string>, k: string)
    requires !IsWord(k)
    ensures LastValue(lines, k) == None
  {
    if lines != [] {
      WordsAreWords(lines[|lines| - 1]);
      NonWordsReadNothing(lines[..|lines| - 1], k);
    }
  }

  function UniversalRest(t: string): string
    requires t != ""
  {
    if t[0] == '\r' && |t| > 1 && t[1] == '\n' then t[2..] else t[1..]
  }

  lemma {:induction false} UniversalKeeps(t: string)
    requires '\r' !in t
    ensures Universal(t) == t
  {
    if t != "" {
      UniversalKeeps(t[1..]);
    }
  }

  lemma {:induction false} UniversalEnds(t: string)
    requires t != ""
    ensures Universal(t) != ""
    ensures Universal(t)[|Universal(t)| - 1] == '\n' <==> t[|t| - 1] == '\n' || t[|t| - 1] == '\r'
    decreases |t|
  {
    var rest := UniversalRest(t);
    if rest != "" {
      UniversalEnds(rest);
    }
  }

  lemma {:induction false} UniversalIsPlain(t: string)
    ensures '\r' !in Universal(t)
    decreases |t|
  {
    if t != "" {
      UniversalIsPlain(UniversalRest(t));
    }
  }

  lemma {:induction false} ConcatIsPlain(lines: seq<string>)
    requires AllTerminated(lines)
    ensures '\r' !in Concat(lines)
  {
    if lines != [] {
      ConcatIsPlain(lines[1..]);
    }
  }

  lemma {:induction false} ReadsBack(lines: seq<string>)
    requires AllTerminated(lines)
    ensures ReadLines(Concat(lines)) == lines
  {
    ConcatIsPlain(lines);
    UniversalKeeps(Concat(lines));
    SplitOfConcat(lines);
  }

  /** The file is empty or its last line is ended. */
  predicate Ended(t: string) { t == "" || t[|t| - 1] == '\n' || t[|t| - 1] == '\r' }

  lemma {:induction false} EndedLines(t: string)
    requires Ended(t)
    ensures AllTerminated(ReadLines(t))
  {
    UniversalIsPlain(t);
    if t != "" { UniversalEnds(t); }
    SplitTerminates(Universal(t));
  }

  /** For every newline-terminated file, with duplicate keys and junk lines, writing and
      patching are overlays exactly when every updated key is a word. */
  lemma {:induction false} OverlayExactlyWhenKeysAreWords(t: string, u: seq<Entry>, intOf: string -> Option<int>)
    requires Ended(t)
    requires GoodValues(u) && Distinct(u)
    ensures IsOverlay(t, WriteText(t, u, intOf), u) <==> GoodKeys(u)
    ensures IsOverlay(t, PatchText(t, u), u) <==> GoodKeys(u)
  {
    var lines := ReadLines(t);
    if GoodKeys(u) {
      EndedLines(t);
      WrittenTerminated(lines, u, intOf);
      ReadsBack(Written(lines, u, intOf));
      ReadsBack(Patched(lines, u));
      forall k ensures LastValue(Written(lines, u, intOf), k) == Overlay(lines, u, k)
                    && LastValue(Patched(lines, u), k) == Overlay(lines, u, k) {
        WriteIsOverlay(lines, u, intOf, k);
        PatchIsOverlay(lines, u, k);
      }
    } else {
      var i :| 0 <= i < |u| && !IsWord(u[i].key);
      var k := u[i].key;
      LookupOfMember(u, i);
      NonWordsReadNothing(ReadLines(WriteText(t, u, intOf)), k);
      NonWordsReadNothing(ReadLines(PatchText(t, u)), k);
      assert Overlay(lines, u, k).Some?;
    }
  }

  // ---- numbers ----

  /** The gateway's updates: each value printed with six decimals. */
  function Printed(vars: seq<(string, int)>): seq<Entry> {
    if vars == [] then [] else [Entry(vars[0].0, Fixed6(vars[0].1, false, 0))] + Printed(vars[1..])
  }

  lemma {:induction false} PrintedAt(vars: seq<(string, int)>)
    ensures |Printed(vars)| == |vars| && GoodValues(Printed(vars))
    ensures forall i :: 0 <= i < |vars| ==> Printed(vars)[i] == Entry(vars[i].0, Fixed6(vars[i].1, false, 0))
  {
    if vars != [] {
      PrintedAt(vars[1..]);
      PrintedIsWord(vars[0].1);
    }
  }

  lemma PrintedIsWord(micros: int)
    ensures IsWord(Fixed6(micros, false, 0))
  {
    var body := Fixed6Shape(micros, false, 0);
  }

  /** A value written is the value read, for any parser that agrees with plain decimals. */
  lemma {:induction false} WrittenValueReadsBack(t: string, vars: seq<(string, int)>, intOf: string -> Option<int>,
                              parse: string -> Option<real>, i: nat)
    requires Ended(t)
    requires i < |vars| && GoodKeys(Printed(vars)) && Distinct(Printed(vars))
    requires forall s :: FloatOf(s).Some? ==> parse(s) == FloatOf(s)
    ensures var v := LastValue(ReadLines(WriteText(t, Printed(vars), intOf)), vars[i].0);
            v.Some? && parse(v.value) == Some(MicroReal(vars[i].1))
  {
    var u := Printed(vars);
    PrintedAt(vars);
    OverlayExactlyWhenKeysAreWords(t, u, intOf);
    LookupOfMember(u, i);
    var j := LookupIsMember(u, vars[i].0);
    assert u[j].key == u[i].key;
    assert i == j;
    Fixed6RoundTrip(vars[i].1, false, 0);
  }
}
