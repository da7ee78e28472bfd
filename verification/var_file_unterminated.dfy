/** Parameter files whose last line has no newline: what follows that line in the output is
    joined to it.  Exactly when patching is still an overlay. */
module VarFileUnterminated {
  import opened Wrappers
  import opened Text
  import opened StableSort
  import opened VarFile

  // ---- splitting a joined line into words ----

  /** Leading blanks, the first word, and the rest that starts with a blank. */
  lemma FirstWord(s: string) returns (sp: string, w: string, r: string)
    ensures s == sp + (w + r) && AllSpace(sp) && NoSpace(w) && (r == "" || IsSpace(r[0])) && (w == "" ==> r == "")
    ensures Words(s) == if w == "" then [] else [w] + Words(r)
    ensures w != "" ==> |r| < |s|
  {
    SpacePrefixStops(s);
    sp := s[..SpacePrefix(s)];
    w, r := WordAtFront(s[SpacePrefix(s)..]);
    assert s == sp + s[SpacePrefix(s)..];
    if w != "" {
      WordsAfter(sp, w, r);
    }
  }

  lemma WordAtFront(t: string) returns (w: string, r: string)
    ensures t == w + r && NoSpace(w) && (r == "" || IsSpace(r[0]))
    ensures w == "" <==> t == "" || IsSpace(t[0])
  {
    WordPrefixIsWord(t);
    WordPrefixStops(t);
    w, r := t[..WordPrefix(t)], t[WordPrefix(t)..];
    assert t == w + r;
  }

  lemma {:induction false} WordPrefixStops(t: string)
    ensures WordPrefix(t) < |t| ==> IsSpace(t[WordPrefix(t)])
  {
    if t != "" && !IsSpace(t[0]) {
      WordPrefixStops(t[1..]);
    }
  }

  lemma WordsAfter(sp: string, w: string, r: string)
    requires AllSpace(sp) && IsWord(w) && (r == "" || IsSpace(r[0]))
    ensures Words(sp + (w + r)) == [w] + Words(r)
  {
    assert sp + (w + r) == sp + w + r;
    WordsCons(sp, w, r);
  }

  lemma Concat3(a: string, b: string, c: string)
    ensures a + (b + c) == (a + b) + c
  {
  }

  lemma WordsSkip(sp: string, b: string)
    requires AllSpace(sp)
    ensures Words(sp + b) == Words(b)
  {
    var sp2, w, r := FirstWord(b);
    Concat3(sp, sp2, w + r);
    if w == "" {
      assert (sp + sp2) + (w + r) == sp + sp2;
      WordsBlank(sp + sp2);
    } else {
      WordsAfter(sp + sp2, w, r);
    }
  }

  predicate EndsInSpace(a: string) { a != "" && IsSpace(a[|a| - 1]) }
  predicate StartsWithSpace(b: string) { b != "" && IsSpace(b[0]) }

  lemma Assoc3(x: seq<string>, y: seq<string>, z: seq<string>)
    ensures (x + y) + z == x + (y + z)
  {
  }

  lemma Reassoc(sp: string, w: string, r: string, a: string, b: string)
    requires a == sp + (w + r)
    ensures a + b == sp + (w + (r + b))
    ensures r != "" ==> r[|r| - 1] == a[|a| - 1]
    ensures r == "" && w != "" ==> w[|w| - 1] == a[|a| - 1]
  {
  }

  lemma WordThenRest(sp: string, w: string, rb: string, ab: string, more: seq<string>, rest: seq<string>)
    requires ab == sp + (w + rb) && AllSpace(sp) && IsWord(w) && (rb == "" || IsSpace(rb[0]))
    requires Words(rb) == more + rest
    ensures Words(ab) == ([w] + more) + rest
  {
    WordsAfter(sp, w, rb);
    Assoc3([w], more, rest);
  }

  /** With a blank at the seam the words of both sides stay apart. */
  lemma {:induction false} WordsApart(a: string, b: string)
    requires b == "" || StartsWithSpace(b) || EndsInSpace(a) || a == ""
    ensures Words(a + b) == Words(a) + Words(b)
    decreases |a|
  {
    var sp, w, r := FirstWord(a);
    if w == "" {
      assert a == sp;
      WordsSkip(sp, b);
      assert [] + Words(b) == Words(b);
    } else {
      Reassoc(sp, w, r, a, b);
      assert r + b == "" || IsSpace((r + b)[0]);
      WordsApart(r, b);
      WordThenRest(sp, w, r + b, a + b, Words(r), Words(b));
    }
  }

  /** Without one the last word of the left side is glued to the first of the right. */
  ghost predicate Glued(ws: seq<string>, wa: seq<string>, wb: seq<string>) {
    && wa != [] && wb != []
    && ws == wa[..|wa| - 1] + ([wa[|wa| - 1] + wb[0]] + wb[1..])
  }

  lemma {:induction false} WordsGlued(a: string, b: string)
    requires a != "" && b != "" && !EndsInSpace(a) && !StartsWithSpace(b)
    ensures Glued(Words(a + b), Words(a), Words(b))
    decreases |a|
  {
    var sp, w, r := FirstWord(a);
    Reassoc(sp, w, r, a, b);
    assert w != "" by {
      assert w == "" ==> a == sp;
    }
    if r == "" {
      LastWordGlued(sp, w, a, b);
    } else {
      WordsGlued(r, b);
      WordsAfter(sp, w, r + b);
      GluedCons(w, Words(r + b), Words(r), Words(b));
    }
  }

  lemma WordsStart(b: string) returns (wb: string, rb: string)
    requires b != "" && !StartsWithSpace(b)
    ensures b == wb + rb && IsWord(wb) && (rb == "" || IsSpace(rb[0])) && Words(b) == [wb] + Words(rb)
  {
    wb, rb := b[..WordPrefix(b)], b[WordPrefix(b)..];
    WordPrefixIsWord(b);
    WordPrefixStops(b);
    assert b == "" + (wb + rb);
    WordsAfter("", wb, rb);
  }

  lemma LastWordGlued(sp: string, w: string, a: string, b: string)
    requires AllSpace(sp) && IsWord(w) && a == sp + (w + "") && b != "" && !StartsWithSpace(b)
    ensures Glued(Words(a + b), Words(a), Words(b))
  {
    var wb, rb := WordsStart(b);
    WordsAfter(sp, w, "");
    GluedSeam(sp, w, wb, rb, a + b, Words(a), Words(b));
  }

  lemma GluedSeam(sp: string, w: string, wb: string, rb: string, ab: string, wa: seq<string>, ws: seq<string>)
    requires AllSpace(sp) && IsWord(w) && IsWord(wb) && (rb == "" || IsSpace(rb[0]))
    requires ab == (sp + (w + "")) + (wb + rb) && wa == [w] + Words("") && ws == [wb] + Words(rb)
    ensures Glued(Words(ab), wa, ws)
  {
    assert ab == sp + ((w + wb) + rb);
    WordsAfter(sp, w + wb, rb);
    GluedOne(w, wb, Words(rb));
  }

  lemma GluedOne(w: string, wb: string, rest: seq<string>)
    ensures Words("") == [] && Glued([w + wb] + rest, [w] + [], [wb] + rest)
  {
    assert [w] + [] == [w] && [w][..0] == [];
    assert ([wb] + rest)[1..] == rest;
    assert [] + ([w + wb] + rest) == [w + wb] + rest;
  }

  lemma GluedCons(w: string, ws: seq<string>, wa: seq<string>, wb: seq<string>)
    requires Glued(ws, wa, wb)
    ensures Glued([w] + ws, [w] + wa, wb)
  {
    assert ([w] + wa)[..|wa|] == [w] + wa[..|wa| - 1];
  }

  // ---- reading two lines apart and joined ----

  /** What the key k reads from the lines apart, and with l joined to the next. */
  ghost predicate SameFor(a: seq<string>, l: string, n: string, b: seq<string>, k: string) {
    LastValue(a + [l, n] + b, k) == LastValue(a + [l + n] + b, k)
  }

  ghost predicate SameForKeyOf(a: seq<string>, l: string, n: string, b: seq<string>, line: string) {
    KeyOf(line).Some? ==> SameFor(a, l, n, b, KeyOf(line).value)
  }

  /** Joining l to the line n behind it changes no reading of the at most three keys
      involved: l's, n's and the joined line's. */
  ghost predicate Undisturbed(a: seq<string>, l: string, n: string, b: seq<string>) {
    SameForKeyOf(a, l, n, b, l) && SameForKeyOf(a, l, n, b, n) && SameForKeyOf(a, l, n, b, l + n)
  }

  lemma LastOfTwo(l: string, n: string, k: string)
    ensures LastValue([l, n], k) ==
            if KeyOf(n) == Some(k) then Some(Words(n)[1]) else if KeyOf(l) == Some(k) then Some(Words(l)[1]) else None
  {
    assert [l, n][..1] == [l];
    LastOne(l, k);
  }

  lemma LastValueAround(a: seq<string>, m: seq<string>, b: seq<string>, k: string)
    ensures LastValue(a + m + b, k) ==
            if LastValue(b, k).Some? then LastValue(b, k)
            else if LastValue(m, k).Some? then LastValue(m, k) else LastValue(a, k)
  {
    LastValueAppend(a + m, b, k);
    LastValueAppend(a, m, k);
  }

  lemma SameForIs(a: seq<string>, l: string, n: string, b: seq<string>, k: string)
    ensures SameFor(a, l, n, b, k) <==>
              || LastValue(b, k).Some?
              || (if LastValue([l, n], k).Some? then LastValue([l, n], k) else LastValue(a, k)) ==
                 (if LastValue([l + n], k).Some? then LastValue([l + n], k) else LastValue(a, k))
  {
    LastValueAround(a, [l, n], b, k);
    LastValueAround(a, [l + n], b, k);
  }

  lemma UndisturbedReadsSame(a: seq<string>, l: string, n: string, b: seq<string>, k: string)
    requires Undisturbed(a, l, n, b)
    ensures SameFor(a, l, n, b, k)
  {
    SameForIs(a, l, n, b, k);
    LastOfTwo(l, n, k);
    LastOne(l + n, k);
  }

  /** These lines read as the overlay of the updates on those. */
  ghost predicate OverlayLines(lines: seq<string>, out: seq<string>, u: seq<Entry>) {
    forall k :: LastValue(out, k) == Overlay(lines, u, k)
  }

  lemma JoinedOverlay(lines: seq<string>, u: seq<Entry>, a: seq<string>, l: string, n: string, b: seq<string>)
    requires OverlayLines(lines, a + [l, n] + b, u)
    ensures OverlayLines(lines, a + [l + n] + b, u) <==> Undisturbed(a, l, n, b)
  {
    if Undisturbed(a, l, n, b) {
      forall k ensures LastValue(a + [l + n] + b, k) == Overlay(lines, u, k) {
        UndisturbedReadsSame(a, l, n, b, k);
      }
    }
  }

  // ---- joining with an inserted line ----

  /** The one odd case: a line of the bare key and a blank, and an update whose value is
      its own key. */
  predicate SelfNamed(l: string, e: Entry) { Words(l) == [e.key] && EndsInSpace(l) && e.value == e.key }

  predicate Harmless(l: string, e: Entry) { AllSpace(l) || SelfNamed(l, e) }

  lemma WordsNonEmpty(l: string)
    ensures Words(l) == [] ==> AllSpace(l)
  {
    var sp, w, r := FirstWord(l);
    if w == "" {
      assert l == sp;
    }
  }

  lemma JoinedWithEntry(l: string, e: Entry)
    requires IsWord(e.key) && IsWord(e.value) && l != "" && !AllSpace(l)
    ensures var ws, m := Words(l), Words(l + LineOf(e.key, e.value));
            && ws != []
            && m == if EndsInSpace(l) then ws + [e.key, e.value]
                    else ws[..|ws| - 1] + ([ws[|ws| - 1] + e.key] + [e.value])
  {
    var n := LineOf(e.key, e.value);
    WordsOfLine(e.key, e.value);
    WordsNonEmpty(l);
    assert n[0] == e.key[0];
    if EndsInSpace(l) {
      WordsApart(l, n);
    } else {
      WordsGlued(l, n);
      assert [e.key, e.value][1..] == [e.value];
    }
  }

  ghost predicate ReadsEntry(ws: seq<string>, e: Entry) { |ws| >= 2 && ws[0] == e.key && ws[1] == e.value }

  /** An entry behind words whose key is not its own. */
  lemma EntryBehindWords(ws: seq<string>, spaced: bool, m: seq<string>, e: Entry)
    requires ws != [] && ws[0] != "" && !(|ws| >= 2 && ws[0] == e.key)
    requires m == if spaced then ws + [e.key, e.value] else ws[..|ws| - 1] + ([ws[|ws| - 1] + e.key] + [e.value])
    ensures ReadsEntry(m, e) <==> ws == [e.key] && spaced && e.value == e.key
  {
    if |ws| == 1 && !spaced {
      assert m[0] == ws[0] + e.key && |m[0]| > |e.key|;
    }
  }

  lemma EntryStillReads(l: string, e: Entry)
    requires IsWord(e.key) && IsWord(e.value) && l != "" && KeyOf(l) != Some(e.key)
    ensures ReadsEntry(Words(l + LineOf(e.key, e.value)), e) <==> Harmless(l, e)
  {
    var n := LineOf(e.key, e.value);
    if AllSpace(l) {
      WordsOfLine(e.key, e.value);
      WordsSkip(l, n);
    } else {
      JoinedWithEntry(l, e);
      WordsAreWords(l);
      EntryBehindWords(Words(l), EndsInSpace(l), Words(l + n), e);
    }
  }

  lemma EntryKeySame(a: seq<string>, l: string, e: Entry, b: seq<string>)
    requires IsWord(e.key) && IsWord(e.value) && l != "" && KeyOf(l) != Some(e.key)
    requires LastValue(a, e.key) == None && LastValue(b, e.key) == None
    ensures SameFor(a, l, LineOf(e.key, e.value), b, e.key) <==> Harmless(l, e)
  {
    var n := LineOf(e.key, e.value);
    WordsOfLine(e.key, e.value);
    EntryStillReads(l, e);
    SameForIs(a, l, n, b, e.key);
    LastOfTwo(l, n, e.key);
    LastOne(l + n, e.key);
  }

  lemma HarmlessHasNoKey(l: string, e: Entry)
    requires Harmless(l, e)
    ensures KeyOf(l) == None
  {
    if AllSpace(l) {
      WordsBlank(l);
    }
  }

  /** Joining to an inserted line, whose key is read nowhere else, is undisturbed exactly
      when the line in front is blank, or in the odd case. */
  lemma InsertedJoin(a: seq<string>, l: string, e: Entry, b: seq<string>)
    requires IsWord(e.key) && IsWord(e.value) && l != "" && KeyOf(l) != Some(e.key)
    requires LastValue(a, e.key) == None && LastValue(b, e.key) == None
    ensures Undisturbed(a, l, LineOf(e.key, e.value), b) <==> Harmless(l, e)
  {
    EntryKeySame(a, l, e, b);
    assert KeyOf(LineOf(e.key, e.value)) == Some(e.key) by { WordsOfLine(e.key, e.value); }
    if Harmless(l, e) {
      HarmlessHasNoKey(l, e);
      assert KeyOf(l + LineOf(e.key, e.value)) == Some(e.key) by { EntryStillReads(l, e); }
    }
  }

  // ---- the file around the unterminated line ----

  /** A text that reads as p, which is ended, and an unterminated last line. */
  ghost predicate EndsWith(t: string, p: string, last: string) {
    && Universal(t) == p + last
    && (p == "" || p[|p| - 1] == '\n') && last != "" && '\n' !in last
  }

  lemma {:induction false} LineEndWithoutNewline(t: string)
    requires t != "" && '\n' !in t
    ensures LineEnd(t) == |t|
  {
    if |t| > 1 {
      LineEndWithoutNewline(t[1..]);
    }
  }

  lemma SplitUnterminated(t: string)
    requires t != "" && '\n' !in t
    ensures SplitLines(t) == [t]
  {
    LineEndWithoutNewline(t);
    assert t[..|t|] == t && t[|t|..] == "";
  }

  lemma {:induction false} SplitLast(lines: seq<string>, last: string)
    requires AllTerminated(lines) && last != "" && '\n' !in last
    ensures SplitLines(Concat(lines) + last) == lines + [last]
  {
    if lines == [] {
      SplitUnterminated(last);
      assert "" + last == last;
    } else {
      var rest := Concat(lines[1..]) + last;
      assert Concat(lines) + last == lines[0] + rest;
      LineEndOf(lines[0], rest);
      SplitLast(lines[1..], last);
      assert (lines[0] + rest)[|lines[0]|..] == rest;
    }
  }

  lemma {:induction false} ConcatOfSplit(t: string)
    ensures Concat(SplitLines(t)) == t
    decreases |t|
  {
    if t != "" {
      ConcatOfSplit(t[LineEnd(t)..]);
    }
  }

  lemma {:induction false} ConcatAppend(a: seq<string>, b: seq<string>)
    ensures Concat(a + b) == Concat(a) + Concat(b)
  {
    if a == [] {
      assert a + b == b && "" + Concat(b) == Concat(b);
    } else {
      assert (a + b)[1..] == a[1..] + b;
      ConcatAppend(a[1..], b);
    }
  }

  lemma ReadsAs(t: string, p: string, last: string)
    requires EndsWith(t, p, last)
    ensures AllTerminated(SplitLines(p)) && '\r' !in last
    ensures ReadLines(t) == SplitLines(p) + [last]
  {
    UniversalIsPlain(t);
    assert forall i :: 0 <= i < |p| ==> Universal(t)[i] == p[i];
    assert forall i :: 0 <= i < |last| ==> Universal(t)[|p| + i] == last[i];
    SplitTerminates(p);
    ConcatOfSplit(p);
    SplitLast(SplitLines(p), last);
  }

  /** Output that ends in the unterminated line reads as its lines. */
  lemma ReadsBackOpen(lines: seq<string>, last: string)
    requires AllTerminated(lines) && last != "" && '\n' !in last && '\r' !in last
    ensures ReadLines(Concat(lines + [last])) == lines + [last]
  {
    ConcatAppend(lines, [last]);
    assert [last][1..] == [] && Concat([last]) == last + "" == last;
    ConcatIsPlain(lines);
    UniversalKeeps(Concat(lines) + last);
    SplitLast(lines, last);
  }

  /** In the middle of the output it is joined to the next line. */
  lemma ReadsBackJoined(a: seq<string>, l: string, n: string, b: seq<string>)
    requires AllTerminated(a) && AllTerminated(b) && Terminated(n) && '\n' !in l && '\r' !in l
    ensures ReadLines(Concat(a + [l, n] + b)) == a + [l + n] + b
  {
    var joined := a + [l + n] + b;
    assert Terminated(l + n);
    assert AllTerminated(joined);
    ReadsBack(joined);
    ConcatAppend(a + [l, n], b);
    ConcatAppend(a, [l, n]);
    ConcatAppend(a + [l + n], b);
    ConcatAppend(a, [l + n]);
    assert [l, n][1..] == [n] && [n][1..] == [] && [l + n][1..] == [];
    assert Concat([n]) == n + "" == n && Concat([l, n]) == l + n && Concat([l + n]) == (l + n) + "" == l + n;
  }

  predicate Replaced(line: string, u: seq<Entry>) { KeyOf(line).Some? && Lookup(u, KeyOf(line).value).Some? }

  lemma ReplacedSnoc(lines: seq<string>, last: string, u: seq<Entry>)
    ensures ReplaceAll(lines + [last], u) == ReplaceAll(lines, u) + [ReplaceLine(last, u)]
  {
    assert (lines + [last])[..|lines|] == lines;
  }

  lemma ReplacedLineTerminated(line: string, u: seq<Entry>)
    requires GoodValues(u) && Replaced(line, u)
    ensures Terminated(ReplaceLine(line, u))
  {
    var i := LookupIsMember(u, KeyOf(line).value);
    WordsAreWords(line);
    LineOfTerminated(KeyOf(line).value, Lookup(u, KeyOf(line).value).value);
  }

  lemma MissingTerminated(u: seq<Entry>, lines: seq<string>)
    requires GoodKeys(u) && GoodValues(u) && Distinct(u)
    ensures var m := Missing(u, lines);
            AllTerminated(LinesOf(m)) && GoodKeys(m) && GoodValues(m) && Distinct(m)
  {
    var m := Missing(u, lines);
    MissingIs(u, lines);
    forall i | 0 <= i < |m| ensures IsWord(m[i].key) && IsWord(m[i].value) {
      assert m[i] in u;
    }
    LinesOfTerminated(m);
  }

  lemma OverlayAsLines(t: string, n: string, u: seq<Entry>)
    ensures IsOverlay(t, n, u) <==> OverlayLines(ReadLines(t), ReadLines(n), u)
  {
  }

  lemma PatchedOverlay(lines: seq<string>, u: seq<Entry>, intOf: string -> Option<int>)
    requires GoodKeys(u) && GoodValues(u) && Distinct(u)
    ensures OverlayLines(lines, Patched(lines, u), u) && OverlayLines(lines, Written(lines, u, intOf), u)
  {
    forall k ensures LastValue(Patched(lines, u), k) == Overlay(lines, u, k)
                  && LastValue(Written(lines, u, intOf), k) == Overlay(lines, u, k) {
      PatchIsOverlay(lines, u, k);
      WriteIsOverlay(lines, u, intOf, k);
    }
  }

  lemma {:induction false} LinesOfCons(u: seq<Entry>)
    requires u != []
    ensures LinesOf(u) == [LineOf(u[0].key, u[0].value)] + LinesOf(u[1..])
  {
    if |u| > 1 {
      LinesOfCons(u[..|u| - 1]);
      assert u[..|u| - 1][1..] == u[1..][..|u[1..]| - 1];
    } else {
      assert u[..0] == [] && u[1..] == [];
    }
  }

  lemma MissingIsUnread(u: seq<Entry>, lines: seq<string>, i: nat)
    requires i < |Missing(u, lines)|
    ensures LastValue(lines, Missing(u, lines)[i].key) == None
  {
    LookupOfMember(Missing(u, lines), i);
    MissingLookup(u, lines, Missing(u, lines)[i].key);
  }

  // ---- patching ----

  lemma FirstMissingUnread(lines: seq<string>, last: string, u: seq<Entry>)
    requires GoodKeys(u) && GoodValues(u) && Distinct(u) && Missing(u, lines + [last]) != []
    ensures var m := Missing(u, lines + [last]);
            && LastValue(ReplaceAll(lines, u), m[0].key) == None && KeyOf(last) != Some(m[0].key)
            && LastValue(LinesOf(m[1..]), m[0].key) == None
  {
    var m := Missing(u, lines + [last]);
    var k := m[0].key;
    MissingIsUnread(u, lines + [last], 0);
    LastValueSnoc(lines, last, k);
    ReplacedValue(lines, u, k);
    MissingTerminated(u, lines + [last]);
    AppendedValue(m[1..], k);
    LookupAbsent(m[1..], k);
  }

  lemma Regroup(before: seq<string>, last: string, n: string, b: seq<string>)
    ensures (before + [last]) + ([n] + b) == before + [last, n] + b
  {
  }

  /** A patch with an insert: the last line, the first inserted one, and the others. */
  lemma PatchedShape(lines: seq<string>, last: string, u: seq<Entry>)
    requires GoodKeys(u) && GoodValues(u) && Distinct(u) && AllTerminated(lines)
    requires !Replaced(last, u) && Missing(u, lines + [last]) != []
    ensures var m := Missing(u, lines + [last]);
            var n, b := LineOf(m[0].key, m[0].value), LinesOf(m[1..]);
            && Patched(lines + [last], u) == ReplaceAll(lines, u) + [last, n] + b
            && AllTerminated(ReplaceAll(lines, u)) && Terminated(n) && AllTerminated(b)
  {
    var m := Missing(u, lines + [last]);
    ReplacedSnoc(lines, last, u);
    ReplacedTerminated(lines, u);
    MissingTerminated(u, lines + [last]);
    LinesOfCons(m);
    Regroup(ReplaceAll(lines, u), last, LineOf(m[0].key, m[0].value), LinesOf(m[1..]));
    LinesOfTerminated(m[1..]);
    LineOfTerminated(m[0].key, m[0].value);
  }

  lemma PatchInserts(lines: seq<string>, last: string, u: seq<Entry>)
    requires GoodKeys(u) && GoodValues(u) && Distinct(u) && AllTerminated(lines)
    requires last != "" && '\n' !in last && '\r' !in last
    requires !Replaced(last, u) && Missing(u, lines + [last]) != []
    ensures var all := lines + [last];
            OverlayLines(all, ReadLines(Concat(Patched(all, u))), u) <==> Harmless(last, Missing(u, all)[0])
  {
    var all, m := lines + [last], Missing(u, lines + [last]);
    var before, e, b := ReplaceAll(lines, u), m[0], LinesOf(m[1..]);
    MissingTerminated(u, all);
    PatchedShape(lines, last, u);
    PatchedOverlay(all, u, _ => None);
    ReadsBackJoined(before, last, LineOf(e.key, e.value), b);
    JoinedOverlay(all, u, before, last, LineOf(e.key, e.value), b);
    FirstMissingUnread(lines, last, u);
    InsertedJoin(before, last, e, b);
  }

  lemma PatchReplaces(lines: seq<string>, last: string, u: seq<Entry>)
    requires GoodKeys(u) && GoodValues(u) && Distinct(u) && AllTerminated(lines) && Replaced(last, u)
    ensures AllTerminated(Patched(lines + [last], u))
  {
    ReplacedSnoc(lines, last, u);
    ReplacedTerminated(lines, u);
    ReplacedLineTerminated(last, u);
    MissingTerminated(u, lines + [last]);
  }

  lemma PatchKeepsLast(lines: seq<string>, last: string, u: seq<Entry>)
    requires GoodValues(u) && AllTerminated(lines) && !Replaced(last, u) && Missing(u, lines + [last]) == []
    ensures Patched(lines + [last], u) == ReplaceAll(lines, u) + [last] && AllTerminated(ReplaceAll(lines, u))
  {
    ReplacedSnoc(lines, last, u);
    ReplacedTerminated(lines, u);
    assert (ReplaceAll(lines, u) + [last]) + [] == ReplaceAll(lines, u) + [last];
  }

  /** With nothing inserted, or the last line replaced, the patch is read as written. */
  lemma PatchReadsBack(lines: seq<string>, last: string, u: seq<Entry>)
    requires GoodKeys(u) && GoodValues(u) && Distinct(u) && AllTerminated(lines)
    requires last != "" && '\n' !in last && '\r' !in last
    requires Replaced(last, u) || Missing(u, lines + [last]) == []
    ensures ReadLines(Concat(Patched(lines + [last], u))) == Patched(lines + [last], u)
  {
    if Replaced(last, u) {
      PatchReplaces(lines, last, u);
      ReadsBack(Patched(lines + [last], u));
    } else {
      PatchKeepsLast(lines, last, u);
      ReadsBackOpen(ReplaceAll(lines, u), last);
    }
  }

  /** The patched file is an overlay exactly when nothing is inserted, or the last line is
      itself replaced, or it is blank (or in the odd case). */
  lemma {:induction false} PatchIsOverlayExactlyWhen(t: string, p: string, last: string, u: seq<Entry>)
    requires EndsWith(t, p, last) && GoodKeys(u) && GoodValues(u) && Distinct(u)
    ensures var m := Missing(u, ReadLines(t));
            IsOverlay(t, PatchText(t, u), u) <==> m == [] || Replaced(last, u) || Harmless(last, m[0])
  {
    ReadsAs(t, p, last);
    OverlayAsLines(t, PatchText(t, u), u);
    if Replaced(last, u) || Missing(u, ReadLines(t)) == [] {
      PatchReadsBack(SplitLines(p), last, u);
      PatchedOverlay(ReadLines(t), u, _ => None);
    } else {
      PatchInserts(SplitLines(p), last, u);
    }
  }
}
