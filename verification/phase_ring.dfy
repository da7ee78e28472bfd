/** The event-loop phase ring, the window it is clipped to, and the phase that
    dominated the window.  Times are exact reals, durations not yet rounded. */
module PhaseRing {
  import opened Wrappers

  const RING_LEN: nat := 256

  datatype Marker = Marker(at: real, name: string)

  // ---- the ring ----

  datatype Ring = Ring(slots: seq<Marker>, idx: nat)

  function Push(r: Ring, m: Marker): Ring {
    if |r.slots| < RING_LEN then r.(slots := r.slots + [m])
    else if r.idx < |r.slots| then Ring(r.slots[r.idx := m], (r.idx + 1) % RING_LEN)
    else r
  }

  function Snapshot(r: Ring): seq<Marker> {
    if |r.slots| < RING_LEN || r.idx > |r.slots| then r.slots else r.slots[r.idx..] + r.slots[..r.idx]
  }

  class PhaseLog {
    var ring: seq<Marker>
    var ringIdx: nat

    constructor ()
      ensures View() == Ring([], 0)
    {
      ring, ringIdx := [], 0;
    }

    function View(): Ring
      reads this
    {
      Ring(ring, ringIdx)
    }

    method SetPhase(now: real, name: string)
      requires |ring| <= RING_LEN && ringIdx < RING_LEN
      modifies this
      ensures View() == Push(old(View()), Marker(now, name))
      ensures |ring| <= RING_LEN && ringIdx < RING_LEN
    {
      if |ring| < RING_LEN {
        ring := ring + [Marker(now, name)];
      } else {
        ring := ring[ringIdx := Marker(now, name)];
        ringIdx := (ringIdx + 1) % RING_LEN;
      }
    }

    method RingSnapshot() returns (r: seq<Marker>)
      requires |ring| <= RING_LEN && ringIdx < RING_LEN
      ensures r == Snapshot(View())
    {
      if |ring| < RING_LEN { return ring; }
      return ring[ringIdx..] + ring[..ringIdx];
    }
  }

  function RingAfter(history: seq<Marker>): Ring {
    if history == [] then Ring([], 0) else Push(RingAfter(history[..|history| - 1]), history[|history| - 1])
  }

  function LastOf(history: seq<Marker>): seq<Marker> {
    if |history| <= RING_LEN then history else history[|history| - RING_LEN..]
  }

  /** Marker i of the history is in slot i modulo the length, until it is overwritten. */
  ghost predicate Holds(r: Ring, history: seq<Marker>) {
    && |r.slots| == (if |history| < RING_LEN then |history| else RING_LEN)
    && r.idx == (if |history| < RING_LEN then 0 else |history| % RING_LEN)
    && forall i :: 0 <= i < |history| && |history| - RING_LEN <= i ==> r.slots[i % RING_LEN] == history[i]
  }

  lemma OtherSlot(i: nat, n: nat)
    requires i < n < i + RING_LEN
    ensures i % RING_LEN != n % RING_LEN
  {
  }

  lemma PushFull(r: Ring, history: seq<Marker>, m: Marker)
    requires Holds(r, history) && |history| >= RING_LEN
    ensures Holds(Push(r, m), history + [m])
  {
    var h, n := history + [m], |history|;
    forall i | n + 1 - RING_LEN <= i < n + 1 ensures Push(r, m).slots[i % RING_LEN] == h[i] {
      if i < n {
        OtherSlot(i, n);
        assert h[i] == history[i];
      }
    }
  }

  lemma PushFilling(r: Ring, history: seq<Marker>, m: Marker)
    requires Holds(r, history) && |history| < RING_LEN
    ensures Holds(Push(r, m), history + [m])
  {
    var h := history + [m];
    forall i | 0 <= i < |h| ensures Push(r, m).slots[i % RING_LEN] == h[i] {
      assert i % RING_LEN == i;
      if i < |history| { assert h[i] == history[i]; }
    }
  }

  lemma PushHolds(r: Ring, history: seq<Marker>, m: Marker)
    requires Holds(r, history)
    ensures Holds(Push(r, m), history + [m])
  {
    if |history| >= RING_LEN {
      PushFull(r, history, m);
    } else {
      PushFilling(r, history, m);
    }
  }

  /** Slot k of the snapshot, from the oldest. */
  lemma SlotFromOldest(n: nat, k: nat)
    requires k < RING_LEN <= n
    ensures (n - RING_LEN + k) % RING_LEN ==
            if n % RING_LEN + k < RING_LEN then n % RING_LEN + k else n % RING_LEN + k - RING_LEN
  {
  }

  lemma SnapshotAt(r: Ring, history: seq<Marker>, k: nat)
    requires Holds(r, history) && k < RING_LEN <= |history|
    ensures r.idx < RING_LEN == |r.slots|
    ensures r.slots[if r.idx + k < RING_LEN then r.idx + k else r.idx + k - RING_LEN] == history[|history| - RING_LEN + k]
  {
    SlotFromOldest(|history|, k);
    assert r.slots[(|history| - RING_LEN + k) % RING_LEN] == history[|history| - RING_LEN + k];
  }

  lemma SnapshotWhenFull(r: Ring, history: seq<Marker>)
    requires Holds(r, history) && |history| >= RING_LEN
    ensures Snapshot(r) == history[|history| - RING_LEN..]
  {
    var from := |history| - RING_LEN;
    forall k | 0 <= k < RING_LEN ensures r.idx < |r.slots| && (r.slots[r.idx..] + r.slots[..r.idx])[k] == history[from..][k] {
      SnapshotAt(r, history, k);
    }
  }

  lemma SnapshotWhenFilling(r: Ring, history: seq<Marker>)
    requires Holds(r, history) && |history| < RING_LEN
    ensures Snapshot(r) == history
  {
    forall i | 0 <= i < |history| ensures r.slots[i] == history[i] { assert i % RING_LEN == i; }
  }

  lemma SnapshotOfHolds(r: Ring, history: seq<Marker>)
    requires Holds(r, history)
    ensures Snapshot(r) == LastOf(history)
  {
    if |history| < RING_LEN {
      SnapshotWhenFilling(r, history);
    } else {
      SnapshotWhenFull(r, history);
      assert |history| == RING_LEN ==> history[0..] == history;
    }
  }

  lemma RingAfterSnoc(history: seq<Marker>, m: Marker)
    ensures RingAfter(history + [m]) == Push(RingAfter(history), m)
  {
    assert (history + [m])[..|history|] == history;
  }

  lemma RingSnocHolds(history: seq<Marker>, m: Marker)
    requires Holds(RingAfter(history), history)
    ensures Holds(RingAfter(history + [m]), history + [m])
  {
    RingAfterSnoc(history, m);
    PushHolds(RingAfter(history), history, m);
  }

  lemma {:induction false} RingHolds(history: seq<Marker>)
    ensures Holds(RingAfter(history), history)
  {
    if history != [] {
      var before, m := history[..|history| - 1], history[|history| - 1];
      RingHolds(before);
      RingSnocHolds(before, m);
      assert before + [m] == history;
    }
  }

  /** After any number of markers the snapshot is exactly the last 256, in order. */
  lemma {:induction false} SnapshotIsLast(history: seq<Marker>)
    ensures Snapshot(RingAfter(history)) == LastOf(history)
    ensures Snapshot(RingAfter(history)) == if |history| <= 256 then history else history[|history| - 256..]
  {
    RingHolds(history);
    SnapshotOfHolds(RingAfter(history), history);
  }

  // ---- the window ----

  datatype Entry = Entry(startMs: real, durMs: real, name: string)

  function EndOf(snap: seq<Marker>, i: nat, end: real): real
    requires i < |snap|
  {
    if i + 1 < |snap| then snap[i + 1].at else end
  }

  function Later(a: real, b: real): real { if a < b then b else a }
  function Earlier(a: real, b: real): real { if b < a then b else a }

  /** The entry of one phase, unless it lies wholly outside the window. */
  function Clip(m: Marker, tEnd: real, start: real, end: real): seq<Entry> {
    if tEnd <= start || m.at >= end then []
    else
      var b, e := Later(m.at, start), Earlier(tEnd, end);
      [Entry(Ms(b - start), Ms(e - b), m.name)]
  }

  function Ms(seconds: real): real { seconds * 1000.0 }

  function WindowFrom(snap: seq<Marker>, i: nat, start: real, end: real): seq<Entry>
    requires i <= |snap|
    decreases |snap| - i
  {
    if i == |snap| then [] else Clip(snap[i], EndOf(snap, i, end), start, end) + WindowFrom(snap, i + 1, start, end)
  }

  /** What is out, and what the phases from i on still add, make up the window. */
  ghost predicate Done(out: seq<Entry>, snap: seq<Marker>, i: nat, start: real, end: real)
    requires i <= |snap|
  {
    out + WindowFrom(snap, i, start, end) == WindowFrom(snap, 0, start, end)
  }

  lemma AppendStep(out: seq<Entry>, snap: seq<Marker>, i: nat, start: real, end: real)
    requires i < |snap| && Done(out, snap, i, start, end)
    ensures Done(out + Clip(snap[i], EndOf(snap, i, end), start, end), snap, i + 1, start, end)
  {
    var c, rest := Clip(snap[i], EndOf(snap, i, end), start, end), WindowFrom(snap, i + 1, start, end);
    assert out + (c + rest) == (out + c) + rest;
  }

  lemma SkipStep(out: seq<Entry>, snap: seq<Marker>, i: nat, start: real, end: real)
    requires i < |snap| && Done(out, snap, i, start, end) && (EndOf(snap, i, end) <= start || snap[i].at >= end)
    ensures Done(out, snap, i + 1, start, end)
  {
    AppendStep(out, snap, i, start, end);
    assert out + [] == out;
  }

  lemma KeepStep(out: seq<Entry>, snap: seq<Marker>, i: nat, start: real, end: real, b: real, e: real)
    requires i < |snap| && Done(out, snap, i, start, end) && !(EndOf(snap, i, end) <= start || snap[i].at >= end)
    requires b == (if snap[i].at < start then start else snap[i].at)
    requires e == if end < EndOf(snap, i, end) then end else EndOf(snap, i, end)
    ensures Done(out + [Entry(Ms(b - start), Ms(e - b), snap[i].name)], snap, i + 1, start, end)
  {
    AppendStep(out, snap, i, start, end);
  }

  lemma DoneAtStart(snap: seq<Marker>, start: real, end: real)
    ensures Done([], snap, 0, start, end)
  {
  }

  lemma DoneAtEnd(out: seq<Entry>, snap: seq<Marker>, start: real, end: real)
    requires Done(out, snap, |snap|, start, end)
    ensures out == WindowFrom(snap, 0, start, end)
  {
    assert out + [] == out;
  }

  method PhaseWindow(snap: seq<Marker>, start: real, end: real) returns (out: seq<Entry>)
    ensures out == WindowFrom(snap, 0, start, end)
  {
    out := [];
    DoneAtStart(snap, start, end);
    for i := 0 to |snap|
      invariant Done(out, snap, i, start, end)
    {
      var tEnd := if i + 1 < |snap| then snap[i + 1].at else end;
      if tEnd <= start || snap[i].at >= end {
        SkipStep(out, snap, i, start, end);
        continue;
      }
      var b := if snap[i].at < start then start else snap[i].at;
      var e := if end < tEnd then end else tEnd;
      KeepStep(out, snap, i, start, end, b, e);
      out := out + [Entry(Ms(b - start), Ms(e - b), snap[i].name)];
    }
    DoneAtEnd(out, snap, start, end);
  }

  ghost predicate Chronological(snap: seq<Marker>) {
    forall i, j :: 0 <= i < j < |snap| ==> snap[i].at <= snap[j].at
  }

  /** The entries follow each other without gap or overlap from `a` to `b`. */
  ghost predicate Tiles(entries: seq<Entry>, a: real, b: real) {
    if entries == [] then a == b
    else entries[0].startMs == a && entries[0].durMs >= 0.0 && Tiles(entries[1..], a + entries[0].durMs, b)
  }

  function Clamp(t: real, start: real, end: real): real {
    if t < start then start else if t > end then end else t
  }

  function PhaseStart(snap: seq<Marker>, i: nat, end: real): real
    requires i <= |snap|
  {
    if i < |snap| then snap[i].at else end
  }

  /** One phase covers the stretch between its clamped ends. */
  lemma ClipTiles(m: Marker, tEnd: real, start: real, end: real, rest: seq<Entry>, to: real)
    requires start <= end && (m.at <= tEnd || m.at >= end == tEnd)
    requires Tiles(rest, Ms(Clamp(tEnd, start, end) - start), to)
    ensures Tiles(Clip(m, tEnd, start, end) + rest, Ms(Clamp(m.at, start, end) - start), to)
  {
    var c := Clip(m, tEnd, start, end);
    if c == [] {
      assert Clamp(m.at, start, end) == Clamp(tEnd, start, end);
      assert [] + rest == rest;
    } else {
      assert (c + rest)[1..] == rest;
    }
  }

  lemma {:induction false} WindowTilesFrom(snap: seq<Marker>, i: nat, start: real, end: real)
    requires Chronological(snap) && i <= |snap| && start <= end
    ensures Tiles(WindowFrom(snap, i, start, end), Ms(Clamp(PhaseStart(snap, i, end), start, end) - start), Ms(end - start))
    decreases |snap| - i
  {
    if i < |snap| {
      WindowTilesFrom(snap, i + 1, start, end);
      ClipTiles(snap[i], EndOf(snap, i, end), start, end, WindowFrom(snap, i + 1, start, end), Ms(end - start));
    }
  }

  function SumDur(entries: seq<Entry>): real {
    if entries == [] then 0.0 else entries[0].durMs + SumDur(entries[1..])
  }

  lemma {:induction false} TilesSum(entries: seq<Entry>, a: real, b: real)
    requires Tiles(entries, a, b)
    ensures SumDur(entries) == b - a
  {
    if entries != [] {
      TilesSum(entries[1..], a + entries[0].durMs, b);
    }
  }

  /** When the oldest marker is no later than the window's start, the clipped phases
      tile the window in order and their durations sum to its length. */
  lemma {:induction false} WindowTiles(snap: seq<Marker>, start: real, end: real)
    requires Chronological(snap) && start <= end
    requires snap != [] && snap[0].at <= start
    ensures var w := WindowFrom(snap, 0, start, end);
            Tiles(w, 0.0, 1000.0 * (end - start)) && SumDur(w) == 1000.0 * (end - start)
  {
    WindowTilesFrom(snap, 0, start, end);
    TilesSum(WindowFrom(snap, 0, start, end), 0.0, Ms(end - start));
  }

  /** The phases account for the whole window exactly when it is empty or the oldest
      marker is no later than its start. */
  lemma {:induction false} WindowCoveredExactlyWhen(snap: seq<Marker>, start: real, end: real)
    requires Chronological(snap) && start <= end
    ensures SumDur(WindowFrom(snap, 0, start, end)) == 1000.0 * (end - start)
            <==> start == end || (snap != [] && snap[0].at <= start)
  {
    var from := Ms(Clamp(PhaseStart(snap, 0, end), start, end) - start);
    WindowTilesFrom(snap, 0, start, end);
    TilesSum(WindowFrom(snap, 0, start, end), from, Ms(end - start));
  }

  /** The same for the ring's own snapshot, however many markers came before: the oldest
      one is then the 256th last. */
  lemma {:induction false} RingCoversExactlyWhen(history: seq<Marker>, start: real, end: real)
    requires Chronological(history) && start <= end && history != []
    ensures SumDur(WindowFrom(Snapshot(RingAfter(history)), 0, start, end)) == 1000.0 * (end - start)
            <==> start == end || LastOf(history)[0].at <= start
  {
    SnapshotIsLast(history);
    WindowCoveredExactlyWhen(LastOf(history), start, end);
  }

  // ---- which phase an entry shows ----

  /** The entry is the part of phase i inside the window, in milliseconds from its start. */
  ghost predicate PartOf(e: Entry, snap: seq<Marker>, i: nat, start: real, end: real)
    requires i < |snap|
  {
    var b, f := Later(snap[i].at, start), Earlier(if i + 1 < |snap| then snap[i + 1].at else end, end);
    e.name == snap[i].name && e.startMs == 1000.0 * (b - start) && e.durMs == 1000.0 * (f - b)
  }

  /** Phase i ends after the window's start and begins before its end. */
  ghost predicate Overlaps(snap: seq<Marker>, i: nat, start: real, end: real)
    requires i < |snap|
  {
    (if i + 1 < |snap| then snap[i + 1].at else end) > start && snap[i].at < end
  }

  /** Every phase that overlaps the window has its entry. */
  lemma {:induction false} OverlappingPhaseIsShown(snap: seq<Marker>, from: nat, start: real, end: real, i: nat) returns (k: nat)
    requires from <= i < |snap| && Overlaps(snap, i, start, end)
    ensures k < |WindowFrom(snap, from, start, end)| && PartOf(WindowFrom(snap, from, start, end)[k], snap, i, start, end)
    decreases |snap| - from
  {
    var c := Clip(snap[from], EndOf(snap, from, end), start, end);
    if from == i {
      k := 0;
      assert WindowFrom(snap, from, start, end)[0] == c[0];
    } else {
      var j := OverlappingPhaseIsShown(snap, from + 1, start, end, i);
      k := |c| + j;
    }
  }

  /** Every entry is that of a phase that overlaps the window. */
  lemma {:induction false} EntryShows(snap: seq<Marker>, from: nat, start: real, end: real, k: nat) returns (i: nat)
    requires from <= |snap| && k < |WindowFrom(snap, from, start, end)|
    ensures from <= i < |snap| && PartOf(WindowFrom(snap, from, start, end)[k], snap, i, start, end)
    ensures Overlaps(snap, i, start, end)
    decreases |snap| - from
  {
    var c := Clip(snap[from], EndOf(snap, from, end), start, end);
    if k < |c| {
      i := from;
    } else {
      i := EntryShows(snap, from + 1, start, end, k - |c|);
    }
  }

  /** Marker i is the phase the loop was in at time t. */
  ghost predicate InPhase(snap: seq<Marker>, i: nat, t: real) {
    i < |snap| && snap[i].at <= t && (i + 1 < |snap| ==> t < snap[i + 1].at)
  }

  /** At every time of the window an entry covers, it names the phase the loop was in then. */
  lemma {:induction false} EntriesNameThePhase(snap: seq<Marker>, start: real, end: real, k: nat, t: real) returns (i: nat)
    requires Chronological(snap) && k < |WindowFrom(snap, 0, start, end)|
    requires var e := WindowFrom(snap, 0, start, end)[k]; e.startMs <= 1000.0 * (t - start) < e.startMs + e.durMs
    ensures InPhase(snap, i, t) && WindowFrom(snap, 0, start, end)[k].name == snap[i].name && start <= t < end
  {
    i := EntryShows(snap, 0, start, end, k);
  }

  // ---- the dominant phase ----

  function Total(window: seq<Entry>, name: string): real {
    if window == [] then 0.0
    else Total(window[..|window| - 1], name) + if window[|window| - 1].name == name then window[|window| - 1].durMs else 0.0
  }

  /** Names in order of first appearance: the insertion order of the totals. */
  function Names(window: seq<Entry>): seq<string> {
    if window == [] then []
    else
      var before := Names(window[..|window| - 1]);
      if window[|window| - 1].name in before then before else before + [window[|window| - 1].name]
  }

  /** `best` has the largest total, and is the first to reach it. */
  ghost predicate Dominates(window: seq<Entry>, names: seq<string>, best: string) {
    && best in names
    && exists b :: 0 <= b < |names| && names[b] == best
         && (forall i :: 0 <= i < |names| ==> Total(window, names[i]) <= Total(window, best))
         && (forall i :: 0 <= i < b ==> Total(window, names[i]) < Total(window, best))
  }

  ghost predicate Totalled(window: seq<Entry>, order: seq<string>, totals: map<string, real>) {
    && (forall n :: n in totals <==> n in order)
    && (forall n :: n in totals ==> totals[n] == Total(window, n))
    && (forall n :: n !in totals ==> Total(window, n) == 0.0)
  }

  lemma TotalSnoc(window: seq<Entry>, ph: Entry, n: string)
    ensures Total(window + [ph], n) == Total(window, n) + if ph.name == n then ph.durMs else 0.0
  {
    assert (window + [ph])[..|window|] == window;
  }

  lemma TotalledStep(window: seq<Entry>, order: seq<string>, totals: map<string, real>, ph: Entry)
    requires Totalled(window, order, totals)
    ensures Totalled(window + [ph], if ph.name in totals then order else order + [ph.name],
                     totals[ph.name := (if ph.name in totals then totals[ph.name] else 0.0) + ph.durMs])
  {
    forall n ensures Total(window + [ph], n) == Total(window, n) + if ph.name == n then ph.durMs else 0.0 {
      TotalSnoc(window, ph, n);
    }
  }

  /** The names and their totals, in order of first appearance. */
  method SumPhases(window: seq<Entry>) returns (order: seq<string>, totals: map<string, real>)
    ensures order == Names(window) && Totalled(window, order, totals)
  {
    order, totals := [], map[];
    for i := 0 to |window|
      invariant order == Names(window[..i])
      invariant Totalled(window[..i], order, totals)
    {
      var ph := window[i];
      assert window[..i + 1] == window[..i] + [ph] && window[..i + 1][..i] == window[..i];
      TotalledStep(window[..i], order, totals, ph);
      if ph.name !in totals {
        order := order + [ph.name];
      }
      totals := totals[ph.name := (if ph.name in totals then totals[ph.name] else 0.0) + ph.durMs];
    }
    assert window[..|window|] == window;
  }

  /** The first of the largest. */
  method DominantPhase(window: seq<Entry>) returns (name: Option<string>)
    ensures window == [] ==> name == None
    ensures window != [] ==> name.Some? && Dominates(window, Names(window), name.value)
  {
    if window == [] { return None; }
    var order, totals := SumPhases(window);
    var b := 0;
    for i := 1 to |order|
      invariant 0 <= b < i
      invariant forall j :: 0 <= j < i ==> Total(window, order[j]) <= Total(window, order[b])
      invariant forall j :: 0 <= j < b ==> Total(window, order[j]) < Total(window, order[b])
    {
      assert order[i] in totals && order[b] in totals;
      if totals[order[i]] > totals[order[b]] {
        b := i;
      }
    }
    name := Some(order[b]);
  }

  /** The entries of one name. */
  function Only(window: seq<Entry>, name: string): seq<Entry> {
    if window == [] then []
    else (if window[0].name == name then [window[0]] else []) + Only(window[1..], name)
  }

  lemma {:induction false} OnlyAppend(a: seq<Entry>, b: seq<Entry>, name: string)
    ensures Only(a + b, name) == Only(a, name) + Only(b, name)
  {
    if a == [] {
      assert a + b == b;
    } else {
      var first := if a[0].name == name then [a[0]] else [];
      assert (a + b)[1..] == a[1..] + b && (a + b)[0] == a[0];
      OnlyAppend(a[1..], b, name);
      assert first + (Only(a[1..], name) + Only(b, name)) == (first + Only(a[1..], name)) + Only(b, name);
    }
  }

  lemma {:induction false} SumDurAppend(a: seq<Entry>, b: seq<Entry>)
    ensures SumDur(a + b) == SumDur(a) + SumDur(b)
  {
    if a == [] {
      assert a + b == b;
    } else {
      assert (a + b)[1..] == a[1..] + b;
      SumDurAppend(a[1..], b);
    }
  }

  lemma OnlyOne(ph: Entry, name: string)
    ensures SumDur(Only([ph], name)) == if ph.name == name then ph.durMs else 0.0
  {
    assert [ph][1..] == [];
  }

  lemma {:induction false} TotalIsSum(window: seq<Entry>, name: string)
    ensures Total(window, name) == SumDur(Only(window, name))
  {
    if window != [] {
      var before, ph := window[..|window| - 1], window[|window| - 1];
      assert window == before + [ph];
      TotalIsSum(before, name);
      OnlyAppend(before, [ph], name);
      SumDurAppend(Only(before, name), Only([ph], name));
      OnlyOne(ph, name);
    }
  }

  lemma {:induction false} NamesDistinct(window: seq<Entry>)
    ensures forall i, j :: 0 <= i < j < |Names(window)| ==> Names(window)[i] != Names(window)[j]
  {
    if window != [] {
      NamesDistinct(window[..|window| - 1]);
    }
  }

  lemma {:induction false} NamesOccur(window: seq<Entry>, name: string)
    ensures name in Names(window) <==> exists i :: 0 <= i < |window| && window[i].name == name
  {
    if window != [] {
      var before, ph := window[..|window| - 1], window[|window| - 1];
      NamesOccur(before, name);
      assert forall i :: 0 <= i < |before| ==> before[i] == window[i];
    }
  }

  /** The name a window is summed up by: it occurs there, and the durations of its entries add
      up to at least those of any other name's. */
  lemma {:induction false} DominatesMeans(window: seq<Entry>, best: string, other: string)
    requires Dominates(window, Names(window), best)
    ensures exists i :: 0 <= i < |window| && window[i].name == best
    ensures forall i, j :: 0 <= i < j < |Names(window)| ==> Names(window)[i] != Names(window)[j]
    ensures (exists i :: 0 <= i < |window| && window[i].name == other) ==>
              SumDur(Only(window, other)) <= SumDur(Only(window, best))
  {
    NamesDistinct(window);
    NamesOccur(window, best);
    NamesOccur(window, other);
    TotalIsSum(window, best);
    TotalIsSum(window, other);
  }
}
