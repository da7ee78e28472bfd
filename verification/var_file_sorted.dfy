/** The sorting writer on a parameter file whose last line has no newline: where that line
    sorts, what it is joined to there, and exactly when the write is still an overlay. */
module VarFileSorted {
  import opened Wrappers
  import opened Text
  import opened StableSort
  import opened VarFile
  import opened VarFileUnterminated

  // ---- joining two lines, in their words ----

  function ReadOf(ws: seq<string>, k: string): Option<string> { if |ws| >= 2 && ws[0] == k then Some(ws[1]) else None }

  function Or(x: Option<string>, y: Option<string>): Option<string> { if x.Some? then x else y }

  predicate ReadIn(lines: seq<string>, k: string) { LastValue(lines, k).Some? }

  /** The key k reads the same with the words apart and joined. */
  predicate SameRead(front: seq<string>, wl: seq<string>, wn: seq<string>, wj: seq<string>, rest: seq<string>, k: string) {
    ReadIn(rest, k) || Or(Or(ReadOf(wn, k), ReadOf(wl, k)), LastValue(front, k)) == Or(ReadOf(wj, k), LastValue(front, k))
  }

  predicate SameForWords(front: seq<string>, wl: seq<string>, wn: seq<string>, wj: seq<string>, rest: seq<string>, ws: seq<string>) {
    |ws| >= 2 ==> SameRead(front, wl, wn, wj, rest, ws[0])
  }

  predicate WordsUndisturbed(front: seq<string>, wl: seq<string>, wn: seq<string>, wj: seq<string>, rest: seq<string>) {
    && SameForWords(front, wl, wn, wj, rest, wl)
    && SameForWords(front, wl, wn, wj, rest, wn)
    && SameForWords(front, wl, wn, wj, rest, wj)
  }

  lemma SameForIsSameRead(front: seq<string>, l: string, n: string, rest: seq<string>, k: string)
    ensures SameFor(front, l, n, rest, k) <==> SameRead(front, Words(l), Words(n), Words(l + n), rest, k)
  {
    SameForIs(front, l, n, rest, k);
    LastOfTwo(l, n, k);
    LastOne(l + n, k);
  }

  lemma UndisturbedInWords(front: seq<string>, l: string, n: string, rest: seq<string>)
    ensures Undisturbed(front, l, n, rest) <==> WordsUndisturbed(front, Words(l), Words(n), Words(l + n), rest)
  {
    forall k ensures SameFor(front, l, n, rest, k) <==> SameRead(front, Words(l), Words(n), Words(l + n), rest, k) {
      SameForIsSameRead(front, l, n, rest, k);
    }
  }

  /** What the sort sees to: the last line's key is read neither behind it nor from the
      next line, and the next line's key not in front. */
  ghost predicate KeysApart(front: seq<string>, wl: seq<string>, wn: seq<string>, rest: seq<string>) {
    && (|wl| >= 2 ==> !ReadIn(rest, wl[0]) && (|wn| >= 2 ==> wn[0] != wl[0]))
    && (|wn| >= 2 ==> !ReadIn(front, wn[0]))
  }

  /** The next line has no value to lose, or its key is read again further behind. */
  predicate MayGo(wn: seq<string>, rest: seq<string>) { |wn| < 2 || ReadIn(rest, wn[0]) }

  /** When joining a last line of the words wl to the next one of the words wn, with or
      without a blank at the seam, does no harm: one of them is blank; or the last line
      keeps its value and the next may go; or the last line is a bare word, and what it
      becomes the key of is read anyway. */
  predicate HarmlessJoin(front: seq<string>, wl: seq<string>, blankAtSeam: bool, wn: seq<string>, rest: seq<string>) {
    if wl == [] || wn == [] then true
    else if |wl| >= 3 || (|wl| == 2 && blankAtSeam) then MayGo(wn, rest)
    else if |wl| == 2 then false
    else if blankAtSeam then
      && (wn[0] == wl[0] || MayGo(wn, rest))
      && (ReadIn(rest, wl[0]) ||
          (if |wn| >= 2 && wn[0] == wl[0] then wn[1] == wn[0] else LastValue(front, wl[0]) == Some(wn[0])))
    else
      |wn| == 1 || (ReadIn(rest, wn[0]) && (ReadIn(rest, wl[0] + wn[0]) || LastValue(front, wl[0] + wn[0]) == Some(wn[1])))
  }

  lemma ApartWords(front: seq<string>, wl: seq<string>, wn: seq<string>, rest: seq<string>)
    requires KeysApart(front, wl, wn, rest)
    ensures WordsUndisturbed(front, wl, wn, wl + wn, rest) <==> HarmlessJoin(front, wl, true, wn, rest)
  {
    if wl == [] {
      assert wl + wn == wn;
    } else if wn == [] {
      assert wl + wn == wl;
    } else {
      assert (wl + wn)[0] == wl[0];
      assert (wl + wn)[1] == if |wl| >= 2 then wl[1] else wn[0];
    }
  }

  lemma GluedLong(front: seq<string>, wl: seq<string>, wn: seq<string>, wj: seq<string>, rest: seq<string>)
    requires KeysApart(front, wl, wn, rest) && Glued(wj, wl, wn) && |wl| >= 3
    ensures WordsUndisturbed(front, wl, wn, wj, rest) <==> HarmlessJoin(front, wl, false, wn, rest)
  {
    assert wj[0] == wl[0] && wj[1] == wl[1];
  }

  lemma GluedTwo(front: seq<string>, wl: seq<string>, wn: seq<string>, wj: seq<string>, rest: seq<string>)
    requires KeysApart(front, wl, wn, rest) && Glued(wj, wl, wn) && |wl| == 2 && wn[0] != ""
    ensures !WordsUndisturbed(front, wl, wn, wj, rest)
  {
    assert wj[0] == wl[0] && wj[1] == wl[1] + wn[0] && |wj[1]| > |wl[1]|;
  }

  lemma GluedBare(front: seq<string>, wl: seq<string>, wn: seq<string>, wj: seq<string>, rest: seq<string>)
    requires KeysApart(front, wl, wn, rest) && Glued(wj, wl, wn) && |wl| == 1 && wl[0] != ""
    ensures WordsUndisturbed(front, wl, wn, wj, rest) <==> HarmlessJoin(front, wl, false, wn, rest)
  {
    assert wj == [wl[0] + wn[0]] + wn[1..];
    if |wn| >= 2 {
      assert wj[1] == wn[1] && |wj[0]| > |wn[0]|;
    }
  }

  lemma GluedJoin(front: seq<string>, wl: seq<string>, wn: seq<string>, wj: seq<string>, rest: seq<string>)
    requires KeysApart(front, wl, wn, rest) && Glued(wj, wl, wn) && wl[0] != "" && wn[0] != ""
    ensures WordsUndisturbed(front, wl, wn, wj, rest) <==> HarmlessJoin(front, wl, false, wn, rest)
  {
    if |wl| >= 3 {
      GluedLong(front, wl, wn, wj, rest);
    } else if |wl| == 2 {
      GluedTwo(front, wl, wn, wj, rest);
    } else {
      GluedBare(front, wl, wn, wj, rest);
    }
  }

  predicate BlankAtSeam(l: string, n: string) { EndsInSpace(l) || StartsWithSpace(n) }

  lemma JoinInWords(front: seq<string>, l: string, n: string, rest: seq<string>)
    requires l != "" && n != "" && KeysApart(front, Words(l), Words(n), rest)
    ensures Undisturbed(front, l, n, rest) <==> HarmlessJoin(front, Words(l), BlankAtSeam(l, n), Words(n), rest)
  {
    UndisturbedInWords(front, l, n, rest);
    if BlankAtSeam(l, n) {
      WordsApart(l, n);
      ApartWords(front, Words(l), Words(n), rest);
    } else {
      WordsGlued(l, n);
      WordsAreWords(l);
      WordsAreWords(n);
      GluedJoin(front, Words(l), Words(n), Words(l + n), rest);
    }
  }

  // ---- which lines sort in front and which behind ----

  /** `int()` of a key, as the sort takes it. */
  function NumberOf(k: string, intOf: string -> Option<int>): int { if intOf(k).None? then LAST else intOf(k).value }

  function ByNumber(intOf: string -> Option<int>): string -> int { (line: string) => VarKey(line, intOf) }

  lemma NumberOfKey(line: string, k: string, intOf: string -> Option<int>)
    requires KeyOf(line) == Some(k)
    ensures VarKey(line, intOf) == NumberOf(k, intOf)
  {
  }

  /** The sorted lines in front of the last line and behind it, from the lines before it,
      replaced, and the lines to insert. */
  function Front(lines: seq<string>, last: string, u: seq<Entry>, intOf: string -> Option<int>): seq<string> {
    SortedFront(ReplaceAll(lines, u), LinesOf(Missing(u, lines + [last])), ByNumber(intOf), VarKey(last, intOf))
  }

  function Behind(lines: seq<string>, last: string, u: seq<Entry>, intOf: string -> Option<int>): seq<string> {
    SortedBack(ReplaceAll(lines, u), LinesOf(Missing(u, lines + [last])), ByNumber(intOf), VarKey(last, intOf))
  }

  lemma WrittenSides(lines: seq<string>, last: string, u: seq<Entry>, intOf: string -> Option<int>)
    requires Missing(u, lines + [last]) != [] && !Replaced(last, u)
    ensures Written(lines + [last], u, intOf) == Front(lines, last, u, intOf) + [last] + Behind(lines, last, u, intOf)
  {
    var all := lines + [last];
    ReplacedSnoc(lines, last, u);
    SortAroundOne(ReplaceAll(lines, u), last, LinesOf(Missing(u, all)), ByNumber(intOf));
    assert ByNumber(intOf) == ((line: string) => VarKey(line, intOf));
  }

  // ---- keys on both sides ----

  lemma {:induction false} LineIsRead(lines: seq<string>, line: string, k: string)
    requires line in lines && KeyOf(line) == Some(k)
    ensures ReadIn(lines, k)
  {
    var before := lines[..|lines| - 1];
    if KeyOf(lines[|lines| - 1]) != Some(k) {
      assert lines == before + [lines[|lines| - 1]];
      LineIsRead(before, line, k);
    }
  }

  lemma {:induction false} ReadFromLine(lines: seq<string>, k: string) returns (line: string)
    requires ReadIn(lines, k)
    ensures line in lines && KeyOf(line) == Some(k)
  {
    line := lines[|lines| - 1];
    if KeyOf(line) != Some(k) {
      line := ReadFromLine(lines[..|lines| - 1], k);
    }
  }

  lemma {:induction false} LinesOfAt(u: seq<Entry>)
    ensures |LinesOf(u)| == |u|
    ensures forall i :: 0 <= i < |u| ==> LinesOf(u)[i] == LineOf(u[i].key, u[i].value)
  {
    if u != [] {
      LinesOfAt(u[..|u| - 1]);
    }
  }

  /** The key of an inserted line was read nowhere. */
  lemma InsertedKey(u: seq<Entry>, lines: seq<string>, line: string, k: string)
    requires GoodKeys(u) && GoodValues(u) && Distinct(u)
    requires line in LinesOf(Missing(u, lines)) && KeyOf(line) == Some(k)
    ensures !ReadIn(lines, k)
  {
    var m := Missing(u, lines);
    LinesOfAt(m);
    var i :| 0 <= i < |m| && LinesOf(m)[i] == line;
    MissingTerminated(u, lines);
    WordsOfLine(m[i].key, m[i].value);
    MissingIsUnread(u, lines, i);
  }

  lemma LastKeyNotBehind(lines: seq<string>, last: string, u: seq<Entry>, intOf: string -> Option<int>, k: string)
    requires GoodKeys(u) && GoodValues(u) && Distinct(u) && KeyOf(last) == Some(k)
    ensures !ReadIn(Behind(lines, last, u, intOf), k)
  {
    var all := lines + [last];
    if ReadIn(Behind(lines, last, u, intOf), k) {
      var x := ReadFromLine(Behind(lines, last, u, intOf), k);
      SidesMember(ReplaceAll(lines, u), LinesOf(Missing(u, all)), ByNumber(intOf), VarKey(last, intOf), x);
      NumberOfKey(x, k, intOf);
      NumberOfKey(last, k, intOf);
      InsertedKey(u, all, x, k);
      assert last in all;
      LineIsRead(all, last, k);
    }
  }

  lemma NotOnBothSides(lines: seq<string>, last: string, u: seq<Entry>, intOf: string -> Option<int>, n: string, k: string)
    requires GoodKeys(u) && GoodValues(u) && Distinct(u)
    requires n in Behind(lines, last, u, intOf) && KeyOf(n) == Some(k)
    ensures !ReadIn(Front(lines, last, u, intOf), k)
  {
    var all := lines + [last];
    if ReadIn(Front(lines, last, u, intOf), k) {
      var x := ReadFromLine(Front(lines, last, u, intOf), k);
      SidesMember(ReplaceAll(lines, u), LinesOf(Missing(u, all)), ByNumber(intOf), VarKey(last, intOf), x);
      SidesMember(ReplaceAll(lines, u), LinesOf(Missing(u, all)), ByNumber(intOf), VarKey(last, intOf), n);
      NumberOfKey(x, k, intOf);
      NumberOfKey(n, k, intOf);
      assert x in ReplaceAll(lines, u) && n in LinesOf(Missing(u, all));
      InsertedKey(u, all, n, k);
      LastValueAppend(lines, [last], k);
      ReplacedValue(lines, u, k);
      LineIsRead(ReplaceAll(lines, u), x, k);
    }
  }

  lemma SidesKeysApart(lines: seq<string>, last: string, u: seq<Entry>, intOf: string -> Option<int>)
    requires GoodKeys(u) && GoodValues(u) && Distinct(u) && Behind(lines, last, u, intOf) != []
    ensures var r := Behind(lines, last, u, intOf);
            KeysApart(Front(lines, last, u, intOf), Words(last), Words(r[0]), r[1..])
  {
    var r, wl, wn := Behind(lines, last, u, intOf), Words(last), Words(Behind(lines, last, u, intOf)[0]);
    if |wl| >= 2 {
      LastKeyNotBehind(lines, last, u, intOf, wl[0]);
      if ReadIn(r[1..], wl[0]) {
        var x := ReadFromLine(r[1..], wl[0]);
        LineIsRead(r, x, wl[0]);
      }
      if |wn| >= 2 && wn[0] == wl[0] {
        LineIsRead(r, r[0], wl[0]);
      }
    }
    if |wn| >= 2 {
      NotOnBothSides(lines, last, u, intOf, r[0], wn[0]);
    }
  }

  // ---- sorting last ----

  /** No other line's number is above the last line's, and no inserted one's is at or
      above it. */
  ghost predicate SortsLast(lines: seq<string>, last: string, inserted: seq<Entry>, intOf: string -> Option<int>) {
    && (forall i :: 0 <= i < |lines| ==> VarKey(lines[i], intOf) <= VarKey(last, intOf))
    && (forall i :: 0 <= i < |inserted| ==> NumberOf(inserted[i].key, intOf) < VarKey(last, intOf))
  }

  lemma ReplaceKeepsNumber(line: string, u: seq<Entry>, intOf: string -> Option<int>)
    requires GoodValues(u)
    ensures VarKey(ReplaceLine(line, u), intOf) == VarKey(line, intOf)
  {
    if Replaced(line, u) {
      var k := KeyOf(line).value;
      var i := LookupIsMember(u, k);
      WordsAreWords(line);
      WordsOfLine(k, Lookup(u, k).value);
    }
  }

  lemma EntryNumber(e: Entry, intOf: string -> Option<int>)
    requires IsWord(e.key) && IsWord(e.value)
    ensures VarKey(LineOf(e.key, e.value), intOf) == NumberOf(e.key, intOf)
  {
    WordsOfLine(e.key, e.value);
  }

  lemma NothingBehindExactlyWhenSortsLast(lines: seq<string>, last: string, u: seq<Entry>, intOf: string -> Option<int>)
    requires GoodKeys(u) && GoodValues(u) && Distinct(u)
    ensures Behind(lines, last, u, intOf) == [] <==> SortsLast(lines, last, Missing(u, lines + [last]), intOf)
  {
    var m, key := Missing(u, lines + [last]), ByNumber(intOf);
    var before, added := ReplaceAll(lines, u), LinesOf(m);
    ReplacedLines(lines, u);
    LinesOfAt(m);
    MissingTerminated(u, lines + [last]);
    forall i | 0 <= i < |lines| ensures key(before[i]) == VarKey(lines[i], intOf) {
      ReplaceKeepsNumber(lines[i], u, intOf);
    }
    forall i | 0 <= i < |m| ensures key(added[i]) == NumberOf(m[i].key, intOf) {
      EntryNumber(m[i], intOf);
    }
    NothingBack(before, added, key, VarKey(last, intOf));
  }

  lemma SidesTerminated(lines: seq<string>, last: string, u: seq<Entry>, intOf: string -> Option<int>)
    requires GoodKeys(u) && GoodValues(u) && Distinct(u) && AllTerminated(lines)
    ensures AllTerminated(Front(lines, last, u, intOf)) && AllTerminated(Behind(lines, last, u, intOf))
  {
    var before, added := ReplaceAll(lines, u), LinesOf(Missing(u, lines + [last]));
    ReplacedTerminated(lines, u);
    MissingTerminated(u, lines + [last]);
    forall x | x in Front(lines, last, u, intOf) || x in Behind(lines, last, u, intOf) ensures Terminated(x) {
      SidesMember(before, added, ByNumber(intOf), VarKey(last, intOf), x);
    }
  }

  // ---- writing ----

  /** Output around the unterminated line, read back. */
  lemma LastOrJoined(lines: seq<string>, u: seq<Entry>, out: seq<string>, last: string, a: seq<string>, r: seq<string>)
    requires OverlayLines(lines, out, u) && out == a + [last] + r && AllTerminated(a) && AllTerminated(r)
    requires last != "" && '\n' !in last && '\r' !in last
    ensures OverlayLines(lines, ReadLines(Concat(out)), u) <==> r == [] || Undisturbed(a, last, r[0], r[1..])
  {
    if r == [] {
      assert out == a + [last];
      ReadsBackOpen(a, last);
    } else {
      var n, b := r[0], r[1..];
      assert out == a + [last, n] + b;
      ReadsBackJoined(a, last, n, b);
      JoinedOverlay(lines, u, a, last, n, b);
    }
  }

  lemma ReplacedAllEnded(lines: seq<string>, last: string, u: seq<Entry>, intOf: string -> Option<int>)
    requires AllTerminated(lines) && Replaced(last, u) && GoodKeys(u) && GoodValues(u) && Distinct(u)
    ensures AllTerminated(Written(lines + [last], u, intOf))
  {
    PatchReplaces(lines, last, u);
    SortedTerminated(Patched(lines + [last], u), intOf);
  }

  /** When the last line is replaced, or nothing is inserted, writing is an overlay. */
  lemma {:induction false} WriteIsOverlayWithoutInsert(t: string, p: string, last: string, u: seq<Entry>, intOf: string -> Option<int>)
    requires EndsWith(t, p, last) && GoodKeys(u) && GoodValues(u) && Distinct(u)
    requires Replaced(last, u) || Missing(u, ReadLines(t)) == []
    ensures IsOverlay(t, WriteText(t, u, intOf), u)
  {
    ReadsAs(t, p, last);
    PatchedOverlay(ReadLines(t), u, intOf);
    OverlayAsLines(t, WriteText(t, u, intOf), u);
    if Replaced(last, u) {
      ReplacedAllEnded(SplitLines(p), last, u, intOf);
      ReadsBack(Written(ReadLines(t), u, intOf));
    } else {
      PatchKeepsLast(SplitLines(p), last, u);
      ReadsBackOpen(ReplaceAll(SplitLines(p), u), last);
    }
  }

  lemma SortedTerminated(lines: seq<string>, intOf: string -> Option<int>)
    requires AllTerminated(lines)
    ensures AllTerminated(Sort(lines, (line: string) => VarKey(line, intOf)))
  {
    var w := Sort(lines, (line: string) => VarKey(line, intOf));
    SortMultiset(lines, (line: string) => VarKey(line, intOf));
    forall i | 0 <= i < |w| ensures Terminated(w[i]) {
      assert w[i] in multiset(w);
      assert w[i] in multiset(lines);
    }
  }

  /** The next line's join does no harm. */
  ghost predicate HarmlessBehind(lines: seq<string>, last: string, u: seq<Entry>, intOf: string -> Option<int>) {
    var r := Behind(lines, last, u, intOf);
    r != [] && HarmlessJoin(Front(lines, last, u, intOf), Words(last), BlankAtSeam(last, r[0]), Words(r[0]), r[1..])
  }

  /** With an insert, and the last line not replaced. */
  lemma InsertingWrite(t: string, p: string, last: string, u: seq<Entry>, intOf: string -> Option<int>)
    requires EndsWith(t, p, last) && GoodKeys(u) && GoodValues(u) && Distinct(u)
    requires !Replaced(last, u) && Missing(u, ReadLines(t)) != []
    ensures var r := Behind(SplitLines(p), last, u, intOf);
            && AllTerminated(r)
            && (IsOverlay(t, WriteText(t, u, intOf), u) <==>
                  r == [] || Undisturbed(Front(SplitLines(p), last, u, intOf), last, r[0], r[1..]))
  {
    ReadsAs(t, p, last);
    PatchedOverlay(ReadLines(t), u, intOf);
    OverlayAsLines(t, WriteText(t, u, intOf), u);
    WrittenSides(SplitLines(p), last, u, intOf);
    SidesTerminated(SplitLines(p), last, u, intOf);
    LastOrJoined(ReadLines(t), u, Written(ReadLines(t), u, intOf), last,
                 Front(SplitLines(p), last, u, intOf), Behind(SplitLines(p), last, u, intOf));
  }

  lemma BehindInWords(lines: seq<string>, last: string, u: seq<Entry>, intOf: string -> Option<int>)
    requires GoodKeys(u) && GoodValues(u) && Distinct(u) && last != ""
    requires Behind(lines, last, u, intOf) != [] && AllTerminated(Behind(lines, last, u, intOf))
    ensures var r := Behind(lines, last, u, intOf);
            Undisturbed(Front(lines, last, u, intOf), last, r[0], r[1..]) <==> HarmlessBehind(lines, last, u, intOf)
  {
    var r := Behind(lines, last, u, intOf);
    SidesKeysApart(lines, last, u, intOf);
    JoinInWords(Front(lines, last, u, intOf), last, r[0], r[1..]);
  }

  /** The sorting writer, for every file whose last line has no newline: the output is an
      overlay if and only if nothing is inserted, or the last line is itself replaced, or it
      sorts last, or the join with the line that sorts next does no harm. */
  lemma {:induction false} WriteIsOverlayExactlyWhen(t: string, p: string, last: string, u: seq<Entry>, intOf: string -> Option<int>)
    requires EndsWith(t, p, last) && GoodKeys(u) && GoodValues(u) && Distinct(u)
    ensures var m := Missing(u, ReadLines(t));
            IsOverlay(t, WriteText(t, u, intOf), u) <==>
              || m == [] || Replaced(last, u)
              || SortsLast(SplitLines(p), last, m, intOf)
              || HarmlessBehind(SplitLines(p), last, u, intOf)
  {
    if Missing(u, ReadLines(t)) == [] || Replaced(last, u) {
      WriteIsOverlayWithoutInsert(t, p, last, u, intOf);
    } else {
      ReadsAs(t, p, last);
      InsertingWrite(t, p, last, u, intOf);
      NothingBehindExactlyWhenSortsLast(SplitLines(p), last, u, intOf);
      if Behind(SplitLines(p), last, u, intOf) != [] {
        BehindInWords(SplitLines(p), last, u, intOf);
      }
    }
  }

  // ---- ordinary files ----

  predicate StartsInk(line: string) { line != "" && !IsSpace(line[0]) }

  lemma InkHasWords(line: string)
    requires StartsInk(line)
    ensures Words(line) != []
  {
    var w, r := WordsStart(line);
  }

  lemma EntryStartsInk(k: string, v: string)
    requires IsWord(k)
    ensures StartsInk(LineOf(k, v))
  {
    assert LineOf(k, v)[0] == k[0];
  }

  lemma ReplacedStartsInk(line: string, u: seq<Entry>)
    requires StartsInk(line)
    ensures StartsInk(ReplaceLine(line, u))
  {
    if Replaced(line, u) {
      WordsAreWords(line);
      EntryStartsInk(KeyOf(line).value, Lookup(u, KeyOf(line).value).value);
    }
  }

  lemma BehindStartsInk(lines: seq<string>, last: string, u: seq<Entry>, intOf: string -> Option<int>, x: string)
    requires GoodKeys(u) && GoodValues(u) && Distinct(u) && x in Behind(lines, last, u, intOf)
    requires forall i :: 0 <= i < |lines| ==> StartsInk(lines[i])
    ensures StartsInk(x)
  {
    var m := Missing(u, lines + [last]);
    SidesMember(ReplaceAll(lines, u), LinesOf(m), ByNumber(intOf), VarKey(last, intOf), x);
    if x in ReplaceAll(lines, u) {
      ReplacedLines(lines, u);
      var i :| 0 <= i < |lines| && ReplaceAll(lines, u)[i] == x;
      ReplacedStartsInk(lines[i], u);
    } else {
      MissingTerminated(u, lines + [last]);
      LinesOfAt(m);
      var i :| 0 <= i < |m| && LinesOf(m)[i] == x;
      EntryStartsInk(m[i].key, m[i].value);
    }
  }

  /** For an ordinary file, every line starting with a word and the last one holding a key
      and a value with no blank behind, the write is an overlay if and only if nothing is
      inserted, or the last line is replaced or sorts last. */
  lemma {:induction false} OrdinaryWriteExactlyWhenSortsLast(t: string, p: string, last: string, u: seq<Entry>,
                                                            intOf: string -> Option<int>)
    requires EndsWith(t, p, last) && GoodKeys(u) && GoodValues(u) && Distinct(u)
    requires |Words(last)| == 2 && !EndsInSpace(last)
    requires forall i :: 0 <= i < |SplitLines(p)| ==> StartsInk(SplitLines(p)[i])
    ensures var m := Missing(u, ReadLines(t));
            IsOverlay(t, WriteText(t, u, intOf), u) <==>
              m == [] || Replaced(last, u) || SortsLast(SplitLines(p), last, m, intOf)
  {
    WriteIsOverlayExactlyWhen(t, p, last, u, intOf);
    var r := Behind(SplitLines(p), last, u, intOf);
    if r != [] {
      BehindStartsInk(SplitLines(p), last, u, intOf, r[0]);
      InkHasWords(r[0]);
    }
  }

  // ---- an inserted line next ----

  /** When the line that sorts next is an inserted one, the write is an overlay exactly
      when the last line is blank (or in the odd case). */
  lemma {:induction false} InsertBehindExactlyWhenBlank(t: string, p: string, last: string, u: seq<Entry>, i: nat,
                                                        intOf: string -> Option<int>)
    requires EndsWith(t, p, last) && GoodKeys(u) && GoodValues(u) && Distinct(u) && !Replaced(last, u)
    requires var m, r := Missing(u, ReadLines(t)), Behind(SplitLines(p), last, u, intOf);
             i < |m| && r != [] && r[0] == LineOf(m[i].key, m[i].value)
    ensures IsOverlay(t, WriteText(t, u, intOf), u) <==> Harmless(last, Missing(u, ReadLines(t))[i])
  {
    ReadsAs(t, p, last);
    InsertingWrite(t, p, last, u, intOf);
    WrittenSides(SplitLines(p), last, u, intOf);
    MissingTerminated(u, ReadLines(t));
    var a, r := Front(SplitLines(p), last, u, intOf), Behind(SplitLines(p), last, u, intOf);
    InsertedOnce(ReadLines(t), last, u, i, intOf, a, r);
    InsertedJoin(a, last, Missing(u, ReadLines(t))[i], r[1..]);
  }

  lemma FilterAround(a: seq<string>, last: string, r: seq<string>, k: string)
    requires r != [] && KeyOf(r[0]) == Some(k)
    ensures |Filter(a + [last] + r, ForKey(k))| ==
            |Filter(a, ForKey(k))| + (if KeyOf(last) == Some(k) then 1 else 0) + 1 + |Filter(r[1..], ForKey(k))|
  {
    assert r == [r[0]] + r[1..];
    FilterAppend(a + [last], r, ForKey(k));
    FilterSnoc(a, last, k);
    FilterAppend([r[0]], r[1..], ForKey(k));
    FilterOne(r[0], ForKey(k));
  }

  /** The only line of a key among others. */
  lemma OnlyLine(a: seq<string>, last: string, r: seq<string>, k: string)
    requires |Filter(a + [last] + r, ForKey(k))| == 1 && r != [] && KeyOf(r[0]) == Some(k)
    ensures LastValue(a, k) == None && LastValue(r[1..], k) == None && KeyOf(last) != Some(k)
  {
    FilterAround(a, last, r, k);
    assert Filter(a, ForKey(k)) == [] && Filter(r[1..], ForKey(k)) == [];
    LastValueOfFilter(a, k);
    LastValueOfFilter(r[1..], k);
  }

  lemma SortKeepsFilter(lines: seq<string>, u: seq<Entry>, intOf: string -> Option<int>, k: string)
    ensures Filter(Written(lines, u, intOf), ForKey(k)) == Filter(Patched(lines, u), ForKey(k))
  {
    var key := (line: string) => VarKey(line, intOf);
    var num := if intOf(k).None? then LAST else intOf(k).value;
    assert OneKey(ForKey(k), key, num);
    SortIsStable(Patched(lines, u), key, ForKey(k), num);
  }

  /** An inserted key is read from its own line only. */
  lemma InsertedOnce(lines: seq<string>, last: string, u: seq<Entry>, i: nat, intOf: string -> Option<int>, a: seq<string>, r: seq<string>)
    requires GoodKeys(u) && GoodValues(u) && Distinct(u)
    requires i < |Missing(u, lines)| && Written(lines, u, intOf) == a + [last] + r
    requires r != [] && r[0] == LineOf(Missing(u, lines)[i].key, Missing(u, lines)[i].value)
    ensures var k := Missing(u, lines)[i].key;
            LastValue(a, k) == None && LastValue(r[1..], k) == None && KeyOf(last) != Some(k)
  {
    var m := Missing(u, lines);
    var k := m[i].key;
    MissingTerminated(u, lines);
    WordsOfLine(k, m[i].value);
    InsertedFilter(lines, u, i);
    SortKeepsFilter(lines, u, intOf, k);
    OnlyLine(a, last, r, k);
  }

  lemma InsertedFilter(lines: seq<string>, u: seq<Entry>, i: nat)
    requires GoodKeys(u) && GoodValues(u) && Distinct(u) && i < |Missing(u, lines)|
    ensures |Filter(Patched(lines, u), ForKey(Missing(u, lines)[i].key))| == 1
  {
    var m := Missing(u, lines);
    var k := m[i].key;
    MissingTerminated(u, lines);
    MissingIsUnread(u, lines, i);
    ReplacedValue(lines, u, k);
    NoneForKey(ReplaceAll(lines, u), k);
    OneForKey(m, i);
    FilterAppend(ReplaceAll(lines, u), LinesOf(m), ForKey(k));
  }

  lemma {:induction false} NoneForKey(lines: seq<string>, k: string)
    requires LastValue(lines, k) == None
    ensures Filter(lines, ForKey(k)) == []
  {
    if lines != [] {
      var before, line := lines[..|lines| - 1], lines[|lines| - 1];
      assert lines == before + [line];
      LastValueSnoc(before, line, k);
      NoneForKey(before, k);
      FilterSnoc(before, line, k);
    }
  }

  lemma OneForNewKey(u: seq<Entry>, e: Entry)
    requires GoodKeys(u) && GoodValues(u) && Distinct(u) && IsWord(e.key) && IsWord(e.value)
    requires forall i :: 0 <= i < |u| ==> u[i].key != e.key
    ensures |Filter(LinesOf(u + [e]), ForKey(e.key))| == 1
  {
    LinesOfSnoc(u, e);
    WordsOfLine(e.key, e.value);
    FilterSnoc(LinesOf(u), LineOf(e.key, e.value), e.key);
    LookupAbsent(u, e.key);
    AppendedValue(u, e.key);
    NoneForKey(LinesOf(u), e.key);
  }

  lemma SameForOldKey(u: seq<Entry>, e: Entry, k: string)
    requires IsWord(e.key) && IsWord(e.value) && e.key != k
    ensures |Filter(LinesOf(u + [e]), ForKey(k))| == |Filter(LinesOf(u), ForKey(k))|
  {
    LinesOfSnoc(u, e);
    WordsOfLine(e.key, e.value);
    FilterSnoc(LinesOf(u), LineOf(e.key, e.value), k);
  }

  lemma {:induction false} OneForKey(u: seq<Entry>, i: nat)
    requires GoodKeys(u) && GoodValues(u) && Distinct(u) && i < |u|
    ensures |Filter(LinesOf(u), ForKey(u[i].key))| == 1
  {
    var before, e := u[..|u| - 1], u[|u| - 1];
    assert u == before + [e];
    if i == |before| {
      OneForNewKey(before, e);
    } else {
      OneForKey(before, i);
      SameForOldKey(before, e, u[i].key);
    }
  }
}
