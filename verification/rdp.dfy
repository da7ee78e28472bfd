/** Anchored Ramer-Douglas-Peucker decimation: the explicit-stack loop, the
    recursive definition it refines, and the error bound it guarantees.
    The algorithm sees the geometry only through a chord distance
    `dist(i0, i1, k)`, the squared distance of point k from the chord i0-i1;
    `Decimation.ChordsOf` supplies the real one. */
module Rdp {

  type Span = (nat, nat)
  type ChordDist = (nat, nat, nat) -> real

  // ---- index sequences ----

  ghost predicate Increasing(s: seq<nat>) {
    forall i, j :: 0 <= i < j < |s| ==> s[i] < s[j]
  }

  /** The members of `marks` below `n`, in increasing order. */
  function Indices(n: nat, marks: set<nat>): seq<nat> {
    if n == 0 then []
    else if n - 1 in marks then Indices(n - 1, marks) + [n - 1]
    else Indices(n - 1, marks)
  }

  lemma {:induction false} IndicesOrdered(n: nat, marks: set<nat>)
    ensures Increasing(Indices(n, marks))
    ensures forall i :: 0 <= i < |Indices(n, marks)| ==> Indices(n, marks)[i] < n
  {
    if n > 0 {
      IndicesOrdered(n - 1, marks);
    }
  }

  lemma {:induction false} MemberOfIndices(n: nat, marks: set<nat>, k: nat)
    ensures k in Indices(n, marks) <==> k < n && k in marks
  {
    if n > 0 {
      MemberOfIndices(n - 1, marks, k);
    }
  }

  /** Index `k` falls strictly between the consecutive listed indices j and j+1. */
  ghost predicate Brackets(kept: seq<nat>, j: nat, k: nat) {
    j + 1 < |kept| && kept[j] < k < kept[j + 1]
  }

  /** The gap an index falls into when it is not itself listed. */
  lemma {:induction false} FindGap(idx: seq<nat>, k: nat, len: nat) returns (g: nat)
    requires Increasing(idx) && 1 < len <= |idx|
    requires idx[0] < k < idx[len - 1] && k !in idx
    ensures Brackets(idx, g, k)
    decreases len
  {
    if idx[len - 2] < k {
      g := len - 2;
    } else {
      assert idx[len - 2] in idx;
      g := FindGap(idx, k, len - 1);
    }
  }

  /** Within one gap there is no listed index. */
  lemma NoneBetween(idx: seq<nat>, g: nat, m: nat)
    requires Increasing(idx) && Brackets(idx, g, m)
    ensures m !in idx
  {
  }

  // ---- the recursive definition ----

  ghost predicate LeftmostFarthest(dist: ChordDist, i0: nat, i1: nat, upTo: nat, m: nat) {
    && i0 < m < upTo
    && (forall k :: i0 < k < upTo ==> dist(i0, i1, k) <= dist(i0, i1, m))
    && (forall k :: i0 < k < m ==> dist(i0, i1, k) < dist(i0, i1, m))
  }

  /** The interior index farthest from the chord; the leftmost one on ties. */
  function Farthest(dist: ChordDist, i0: nat, i1: nat, upTo: nat): (m: nat)
    requires i0 + 1 < upTo
    ensures LeftmostFarthest(dist, i0, i1, upTo, m)
  {
    if upTo == i0 + 2 then i0 + 1
    else
      var m := Farthest(dist, i0, i1, upTo - 1);
      if dist(i0, i1, upTo - 1) > dist(i0, i1, m) then upTo - 1 else m
  }

  /** What recursive leftmost-farthest decimation keeps strictly inside a span. */
  function RdpSet(dist: ChordDist, lo: nat, hi: nat, epsSq: real): (r: set<nat>)
    ensures forall k :: k in r ==> lo < k < hi
    decreases hi - lo
  {
    if hi - lo < 2 then {}
    else
      var p := Farthest(dist, lo, hi, hi);
      if dist(lo, hi, p) > epsSq
      then {p} + RdpSet(dist, lo, p, epsSq) + RdpSet(dist, p, hi, epsSq)
      else {}
  }

  /** Both ends and every anchor that is a valid index. */
  function Anchored(n: nat, anchors: seq<int>): (r: set<nat>)
    requires n > 0
    ensures forall k: nat :: k in r <==> k == 0 || k == n - 1 || (k < n && k in anchors)
  {
    if anchors == [] then {0, n - 1}
    else
      var a := anchors[|anchors| - 1];
      var rest := Anchored(n, anchors[..|anchors| - 1]);
      assert anchors == anchors[..|anchors| - 1] + [a];
      if 0 <= a < n then rest + {a} else rest
  }

  /** Everything kept inside the first `g` gaps between consecutive anchors. */
  function GapSets(dist: ChordDist, idx: seq<nat>, g: nat, epsSq: real): set<nat> {
    if g == 0 || g >= |idx| then {}
    else GapSets(dist, idx, g - 1, epsSq) + RdpSet(dist, idx[g - 1], idx[g], epsSq)
  }

  function AnchorIndices(n: nat, anchors: seq<int>): seq<nat>
    requires n > 0
  {
    Indices(n, Anchored(n, anchors))
  }

  function KeptSet(dist: ChordDist, n: nat, anchors: seq<int>, epsSq: real): set<nat>
    requires n > 0
  {
    var idx := AnchorIndices(n, anchors);
    Anchored(n, anchors) + if |idx| > 0 then GapSets(dist, idx, |idx| - 1, epsSq) else {}
  }

  function AllBelow(n: nat): (r: set<nat>)
    ensures forall k: nat :: k in r <==> k < n
  {
    if n == 0 then {} else AllBelow(n - 1) + {n - 1}
  }

  /** The decimation result: recursive RDP on every gap between anchors. */
  function Kept(dist: ChordDist, n: nat, anchors: seq<int>, epsSq: real): seq<nat> {
    if n <= 2 then Indices(n, AllBelow(n)) else Indices(n, KeptSet(dist, n, anchors, epsSq))
  }

  // ---- the explicit-stack loop ----

  ghost predicate ValidStack(stack: seq<Span>, n: nat) {
    forall i :: 0 <= i < |stack| ==> stack[i].0 < stack[i].1 < n
  }

  /** What the spans still on the stack will add. */
  ghost function Pending(dist: ChordDist, stack: seq<Span>, n: nat, epsSq: real): set<nat>
    requires ValidStack(stack, n)
  {
    if stack == [] then {}
    else
      var top := stack[|stack| - 1];
      Pending(dist, stack[..|stack| - 1], n, epsSq) + RdpSet(dist, top.0, top.1, epsSq)
  }

  /** Termination measure: splitting a span of length L leaves spans whose measures sum to one less. */
  ghost function Weight(stack: seq<Span>, n: nat): nat
    requires ValidStack(stack, n)
  {
    if stack == [] then 0
    else
      var top := stack[|stack| - 1];
      Weight(stack[..|stack| - 1], n) + 2 * (top.1 - top.0) - 1
  }

  lemma Pushed(dist: ChordDist, stack: seq<Span>, s: Span, n: nat, epsSq: real)
    requires ValidStack(stack, n) && s.0 < s.1 < n
    ensures ValidStack(stack + [s], n)
    ensures Pending(dist, stack + [s], n, epsSq) == Pending(dist, stack, n, epsSq) + RdpSet(dist, s.0, s.1, epsSq)
    ensures Weight(stack + [s], n) == Weight(stack, n) + 2 * (s.1 - s.0) - 1
  {
    assert (stack + [s])[..|stack|] == stack;
  }

  /** The order in which pending spans are taken does not matter. */
  lemma {:induction false} PendingIsOrderFree(dist: ChordDist, stack: seq<Span>, n: nat, epsSq: real, k: nat)
    requires ValidStack(stack, n)
    ensures k in Pending(dist, stack, n, epsSq)
        <==> exists i :: 0 <= i < |stack| && k in RdpSet(dist, stack[i].0, stack[i].1, epsSq)
  {
    if stack != [] {
      var rest := stack[..|stack| - 1];
      PendingIsOrderFree(dist, rest, n, epsSq, k);
      assert forall i :: 0 <= i < |rest| ==> rest[i] == stack[i];
    }
  }

  /** Replacing a span by its two halves moves exactly the pivot from pending to found. */
  lemma SplitStep(dist: ChordDist, rest: seq<Span>, i0: nat, i1: nat, n: nat, epsSq: real, found: set<nat>)
    requires ValidStack(rest, n) && i0 + 1 < i1 < n
    requires dist(i0, i1, Farthest(dist, i0, i1, i1)) > epsSq
    ensures var p := Farthest(dist, i0, i1, i1);
            var next := rest + [(i0, p)] + [(p, i1)];
            && ValidStack(next, n)
            && found + {p} + Pending(dist, next, n, epsSq)
               == found + (Pending(dist, rest, n, epsSq) + RdpSet(dist, i0, i1, epsSq))
            && Weight(next, n) == Weight(rest, n) + 2 * (i1 - i0) - 2
  {
    var p := Farthest(dist, i0, i1, i1);
    Pushed(dist, rest, (i0, p), n, epsSq);
    Pushed(dist, rest + [(i0, p)], (p, i1), n, epsSq);
    SetsRegroup(found, p, Pending(dist, rest, n, epsSq), RdpSet(dist, i0, p, epsSq), RdpSet(dist, p, i1, epsSq));
  }

  lemma SetsRegroup(found: set<nat>, p: nat, rest: set<nat>, left: set<nat>, right: set<nat>)
    ensures found + {p} + (rest + left + right) == found + (rest + ({p} + left + right))
  {
  }

  ghost predicate Marks(keep: array<bool>, marks: set<nat>)
    reads keep
  {
    forall k :: 0 <= k < keep.Length ==> (keep[k] <==> k in marks)
  }

  method FlatNonZero(keep: array<bool>, ghost marks: set<nat>) returns (idx: seq<nat>)
    requires Marks(keep, marks)
    ensures idx == Indices(keep.Length, marks)
  {
    idx := [];
    for k := 0 to keep.Length
      invariant idx == Indices(k, marks)
    {
      if keep[k] {
        idx := idx + [k];
      }
    }
  }

  /** Decimates one gap: pops spans, keeps the farthest point when it is too far. */
  method RdpGap(dist: ChordDist, lo: nat, hi: nat, epsSq: real, keep: array<bool>, ghost marks: set<nat>)
    requires lo < hi < keep.Length
    requires Marks(keep, marks)
    modifies keep
    ensures Marks(keep, marks + RdpSet(dist, lo, hi, epsSq))
  {
    ghost var n := keep.Length;
    var stack: seq<Span> := [(lo, hi)];
    ghost var found: set<nat> := {};
    while stack != []
      invariant ValidStack(stack, n)
      invariant found + Pending(dist, stack, n, epsSq) == RdpSet(dist, lo, hi, epsSq)
      invariant Marks(keep, marks + found)
      decreases if ValidStack(stack, n) then Weight(stack, n) else 0
    {
      var (i0, i1) := stack[|stack| - 1];
      stack := stack[..|stack| - 1];
      if i1 - i0 < 2 {
        continue;
      }
      var pivot := Farthest(dist, i0, i1, i1);
      if dist(i0, i1, pivot) > epsSq {
        keep[pivot] := true;
        SplitStep(dist, stack, i0, i1, n, epsSq, found);
        found := found + {pivot};
        stack := stack + [(i0, pivot)];
        stack := stack + [(pivot, i1)];
      }
    }
  }

  lemma ShortGap(dist: ChordDist, idx: seq<nat>, g: nat, epsSq: real)
    requires Increasing(idx) && g + 1 < |idx| && idx[g + 1] - idx[g] < 2
    ensures GapSets(dist, idx, g + 1, epsSq) == GapSets(dist, idx, g, epsSq)
  {
    assert RdpSet(dist, idx[g], idx[g + 1], epsSq) == {};
  }

  /** Decimates every gap between consecutive anchors. */
  method MarkGaps(dist: ChordDist, idx: seq<nat>, epsSq: real, keep: array<bool>, ghost marks: set<nat>)
    requires Increasing(idx) && idx != [] && forall i :: 0 <= i < |idx| ==> idx[i] < keep.Length
    requires Marks(keep, marks)
    modifies keep
    ensures Marks(keep, marks + GapSets(dist, idx, |idx| - 1, epsSq))
  {
    for g := 0 to |idx| - 1
      invariant Marks(keep, marks + GapSets(dist, idx, g, epsSq))
    {
      var lo, hi := idx[g], idx[g + 1];
      if hi - lo < 2 {
        ShortGap(dist, idx, g, epsSq);
        continue;
      }
      RdpGap(dist, lo, hi, epsSq, keep, marks + GapSets(dist, idx, g, epsSq));
    }
  }

  /** The stack loop refines the recursive definition exactly. */
  method RdpKeep(dist: ChordDist, n: nat, anchors: seq<int>, epsSq: real) returns (kept: seq<nat>)
    ensures kept == Kept(dist, n, anchors, epsSq)
  {
    if n <= 2 {
      return Indices(n, AllBelow(n));
    }
    var keep := new bool[n](_ => false);
    keep[0] := true;
    keep[n - 1] := true;
    for a := 0 to |anchors|
      invariant Marks(keep, Anchored(n, anchors[..a]))
    {
      if 0 <= anchors[a] < n {
        keep[anchors[a]] := true;
      }
      assert anchors[..a + 1] == anchors[..a] + [anchors[a]];
    }
    assert anchors[..|anchors|] == anchors;
    var idx := FlatNonZero(keep, Anchored(n, anchors));
    AnchorIndicesEnds(n, anchors);
    IndicesOrdered(n, Anchored(n, anchors));
    MarkGaps(dist, idx, epsSq, keep, Anchored(n, anchors));
    kept := FlatNonZero(keep, KeptSet(dist, n, anchors, epsSq));
  }

  // ---- what the result guarantees ----

  /** Inside one span, a dropped point lies within tolerance of the chord of its
      nearest kept neighbours. */
  lemma {:induction false} SpanBound(dist: ChordDist, lo: nat, hi: nat, epsSq: real, k: nat) returns (i: nat, j: nat)
    requires lo < k < hi && k !in RdpSet(dist, lo, hi, epsSq)
    ensures lo <= i < k < j <= hi
    ensures i == lo || i in RdpSet(dist, lo, hi, epsSq)
    ensures j == hi || j in RdpSet(dist, lo, hi, epsSq)
    ensures forall m :: i < m < j ==> m !in RdpSet(dist, lo, hi, epsSq)
    ensures dist(i, j, k) <= epsSq
    decreases hi - lo
  {
    var p := Farthest(dist, lo, hi, hi);
    if dist(lo, hi, p) <= epsSq {
      i, j := lo, hi;
    } else if k < p {
      i, j := SpanBound(dist, lo, p, epsSq, k);
    } else {
      i, j := SpanBound(dist, p, hi, epsSq, k);
    }
  }

  lemma {:induction false} GapMember(dist: ChordDist, idx: seq<nat>, upTo: nat, epsSq: real, g: nat, k: nat)
    requires Increasing(idx) && upTo < |idx| && Brackets(idx, g, k) && g < upTo
    ensures k in GapSets(dist, idx, upTo, epsSq) <==> k in RdpSet(dist, idx[g], idx[g + 1], epsSq)
  {
    if g < upTo - 1 {
      GapMember(dist, idx, upTo - 1, epsSq, g, k);
    } else {
      EarlierGapsLower(dist, idx, g, epsSq);
    }
  }

  lemma {:induction false} EarlierGapsLower(dist: ChordDist, idx: seq<nat>, g: nat, epsSq: real)
    requires Increasing(idx) && g < |idx|
    ensures forall k :: k in GapSets(dist, idx, g, epsSq) ==> k < idx[g]
  {
    if g > 0 {
      EarlierGapsLower(dist, idx, g - 1, epsSq);
    }
  }

  /** The ends of an index list that contains 0 and n - 1. */
  lemma EndsOfList(idx: seq<nat>, n: nat)
    requires n > 0 && Increasing(idx) && 0 in idx && n - 1 in idx
    requires forall i :: 0 <= i < |idx| ==> idx[i] < n
    ensures 0 < |idx| && idx[0] == 0 && idx[|idx| - 1] == n - 1
  {
  }

  lemma AnchorIndicesEnds(n: nat, anchors: seq<int>)
    requires n > 0
    ensures var idx := AnchorIndices(n, anchors);
            Increasing(idx) && 0 < |idx| && idx[0] == 0 && idx[|idx| - 1] == n - 1
  {
    var marks := Anchored(n, anchors);
    IndicesOrdered(n, marks);
    MemberOfIndices(n, marks, 0);
    MemberOfIndices(n, marks, n - 1);
    EndsOfList(Indices(n, marks), n);
  }

  /** The kept indices are strictly increasing. */
  lemma {:induction false} KeptOrdered(dist: ChordDist, n: nat, anchors: seq<int>, epsSq: real)
    ensures Increasing(Kept(dist, n, anchors, epsSq))
    ensures forall i :: 0 <= i < |Kept(dist, n, anchors, epsSq)| ==> Kept(dist, n, anchors, epsSq)[i] < n
  {
    IndicesOrdered(n, if n <= 2 then AllBelow(n) else KeptSet(dist, n, anchors, epsSq));
  }

  lemma KeptMember(dist: ChordDist, n: nat, anchors: seq<int>, epsSq: real, k: nat)
    requires n > 2 && k < n
    ensures var idx := AnchorIndices(n, anchors);
            |idx| > 0 &&
            (k in Kept(dist, n, anchors, epsSq)
             <==> k in idx || k in GapSets(dist, idx, |idx| - 1, epsSq))
  {
    AnchorIndicesEnds(n, anchors);
    MemberOfIndices(n, KeptSet(dist, n, anchors, epsSq), k);
    MemberOfIndices(n, Anchored(n, anchors), k);
  }

  /** Every anchor that names a point survives. */
  lemma {:induction false} AnchorKept(dist: ChordDist, n: nat, anchors: seq<int>, epsSq: real, a: nat)
    requires a < n && (a in anchors || a == 0 || a == n - 1)
    ensures a in Kept(dist, n, anchors, epsSq)
  {
    MemberOfIndices(n, if n <= 2 then AllBelow(n) else KeptSet(dist, n, anchors, epsSq), a);
  }

  /** Both ends survive, as the first and the last kept index. */
  lemma {:induction false} EndsKept(dist: ChordDist, n: nat, anchors: seq<int>, epsSq: real)
    requires n > 0
    ensures var kept := Kept(dist, n, anchors, epsSq);
            0 < |kept| && kept[0] == 0 && kept[|kept| - 1] == n - 1
  {
    AnchorKept(dist, n, anchors, epsSq, 0);
    AnchorKept(dist, n, anchors, epsSq, n - 1);
    KeptOrdered(dist, n, anchors, epsSq);
    EndsOfList(Kept(dist, n, anchors, epsSq), n);
  }

  /** Inside an anchor gap, an index is kept exactly when recursive RDP keeps it. */
  lemma {:induction false} KeptInGap(dist: ChordDist, n: nat, anchors: seq<int>, epsSq: real, idx: seq<nat>, g: nat, k: nat)
    requires n > 2 && k < n && idx == AnchorIndices(n, anchors) && Brackets(idx, g, k)
    ensures k in Kept(dist, n, anchors, epsSq) <==> k in RdpSet(dist, idx[g], idx[g + 1], epsSq)
  {
    AnchorIndicesEnds(n, anchors);
    KeptMember(dist, n, anchors, epsSq, k);
    NoneBetween(idx, g, k);
    GapMember(dist, idx, |idx| - 1, epsSq, g, k);
  }

  lemma KeptOfSpan(dist: ChordDist, n: nat, anchors: seq<int>, epsSq: real, idx: seq<nat>, g: nat, k: nat)
    requires n > 2 && k < n && idx == AnchorIndices(n, anchors) && g + 1 < |idx|
    requires k == idx[g] || k == idx[g + 1] || k in RdpSet(dist, idx[g], idx[g + 1], epsSq)
    ensures k in Kept(dist, n, anchors, epsSq)
  {
    if k == idx[g] || k == idx[g + 1] {
      KeptMember(dist, n, anchors, epsSq, k);
    } else {
      KeptInGap(dist, n, anchors, epsSq, idx, g, k);
    }
  }

  /** The kept indices around a dropped one bound it within tolerance, in its anchor gap. */
  lemma NearestKept(dist: ChordDist, n: nat, anchors: seq<int>, epsSq: real, idx: seq<nat>, g: nat, k: nat)
    returns (a: nat, b: nat)
    requires n > 2 && k < n && idx == AnchorIndices(n, anchors) && Brackets(idx, g, k)
    requires k !in Kept(dist, n, anchors, epsSq)
    ensures a < k < b && a in Kept(dist, n, anchors, epsSq) && b in Kept(dist, n, anchors, epsSq)
    ensures forall m: nat :: a < m < b ==> m !in Kept(dist, n, anchors, epsSq)
    ensures dist(a, b, k) <= epsSq
  {
    IndicesOrdered(n, Anchored(n, anchors));
    KeptInGap(dist, n, anchors, epsSq, idx, g, k);
    a, b := SpanBound(dist, idx[g], idx[g + 1], epsSq, k);
    KeptOfSpan(dist, n, anchors, epsSq, idx, g, a);
    KeptOfSpan(dist, n, anchors, epsSq, idx, g, b);
    forall m: nat | a < m < b ensures m !in Kept(dist, n, anchors, epsSq) {
      KeptInGap(dist, n, anchors, epsSq, idx, g, m);
    }
  }

  /** Error bound: every dropped point is within tolerance of the chord between
      its two neighbouring kept points. */
  lemma {:induction false} DroppedWithinTolerance(dist: ChordDist, n: nat, anchors: seq<int>, epsSq: real, k: nat) returns (j: nat)
    requires k < n && k !in Kept(dist, n, anchors, epsSq)
    ensures var kept := Kept(dist, n, anchors, epsSq);
            Brackets(kept, j, k) && dist(kept[j], kept[j + 1], k) <= epsSq
  {
    var kept := Kept(dist, n, anchors, epsSq);
    if n <= 2 { MemberOfIndices(n, AllBelow(n), k); }
    var idx := AnchorIndices(n, anchors);
    AnchorIndicesEnds(n, anchors);
    KeptMember(dist, n, anchors, epsSq, k);
    AnchorKept(dist, n, anchors, epsSq, 0);
    AnchorKept(dist, n, anchors, epsSq, n - 1);
    var g := FindGap(idx, k, |idx|);
    var a, b := NearestKept(dist, n, anchors, epsSq, idx, g, k);
    EndsKept(dist, n, anchors, epsSq);
    KeptOrdered(dist, n, anchors, epsSq);
    j := FindGap(kept, k, |kept|);
    Neighbours(kept, a, b, j, k);
  }

  /** The only neighbours around an index are the listed values with none between them. */
  lemma Neighbours(kept: seq<nat>, a: nat, b: nat, j: nat, k: nat)
    requires Increasing(kept) && Brackets(kept, j, k)
    requires a in kept && b in kept && a < k < b
    requires forall m :: a < m < b ==> m !in kept
    ensures kept[j] == a && kept[j + 1] == b
  {
    var ja :| 0 <= ja < |kept| && kept[ja] == a;
    var jb :| 0 <= jb < |kept| && kept[jb] == b;
    assert kept[j] in kept && kept[j + 1] in kept;
    assert ja <= j && jb >= j + 1;
  }

  // ---- nothing is kept without a reason ----

  /** An index kept inside a span was the leftmost farthest, and too far, of a span
      between two kept ones. */
  lemma {:induction false} SplitReason(dist: ChordDist, lo: nat, hi: nat, epsSq: real, k: nat) returns (i: nat, j: nat)
    requires k in RdpSet(dist, lo, hi, epsSq)
    ensures i == lo || i in RdpSet(dist, lo, hi, epsSq)
    ensures j == hi || j in RdpSet(dist, lo, hi, epsSq)
    ensures LeftmostFarthest(dist, i, j, j, k) && dist(i, j, k) > epsSq
    decreases hi - lo
  {
    var p := Farthest(dist, lo, hi, hi);
    if k == p {
      i, j := lo, hi;
    } else if k < p {
      i, j := SplitReason(dist, lo, p, epsSq, k);
    } else {
      i, j := SplitReason(dist, p, hi, epsSq, k);
    }
  }

  /** The ends and the anchors that name a point. */
  predicate Fixed(n: nat, anchors: seq<int>, k: nat) { k < n && (k == 0 || k == n - 1 || k in anchors) }

  lemma FixedIsIndex(n: nat, anchors: seq<int>, k: nat)
    requires n > 0
    ensures Fixed(n, anchors, k) <==> k in AnchorIndices(n, anchors)
  {
    MemberOfIndices(n, Anchored(n, anchors), k);
  }

  /** Thinning really thins: a kept index that is no end and no anchor lies between two
      kept ones of which it is the leftmost farthest and too far away. */
  lemma {:induction false} KeptForAReason(dist: ChordDist, n: nat, anchors: seq<int>, epsSq: real, k: nat) returns (i: nat, j: nat)
    requires k in Kept(dist, n, anchors, epsSq) && !Fixed(n, anchors, k)
    ensures i in Kept(dist, n, anchors, epsSq) && j in Kept(dist, n, anchors, epsSq)
    ensures i < k < j && LeftmostFarthest(dist, i, j, j, k) && dist(i, j, k) > epsSq
  {
    MemberOfIndices(n, if n <= 2 then AllBelow(n) else KeptSet(dist, n, anchors, epsSq), k);
    var idx := AnchorIndices(n, anchors);
    AnchorIndicesEnds(n, anchors);
    IndicesOrdered(n, Anchored(n, anchors));
    FixedIsIndex(n, anchors, k);
    var g := FindGap(idx, k, |idx|);
    KeptInGap(dist, n, anchors, epsSq, idx, g, k);
    i, j := SplitReason(dist, idx[g], idx[g + 1], epsSq, k);
    KeptOfSpan(dist, n, anchors, epsSq, idx, g, i);
    KeptOfSpan(dist, n, anchors, epsSq, idx, g, j);
  }

  /** Two ends or anchors with none between. */
  ghost predicate AnchorGap(n: nat, anchors: seq<int>, a: nat, b: nat) {
    a < b && Fixed(n, anchors, a) && Fixed(n, anchors, b) && forall m: nat | a < m < b :: !Fixed(n, anchors, m)
  }

  lemma GapIsListed(n: nat, anchors: seq<int>, a: nat, b: nat) returns (g: nat)
    requires AnchorGap(n, anchors, a, b)
    ensures var idx := AnchorIndices(n, anchors); g + 1 < |idx| && idx[g] == a && idx[g + 1] == b
  {
    var idx := AnchorIndices(n, anchors);
    AnchorIndicesEnds(n, anchors);
    IndicesOrdered(n, Anchored(n, anchors));
    FixedIsIndex(n, anchors, a);
    FixedIsIndex(n, anchors, b);
    g :| 0 <= g < |idx| && idx[g] == a;
    var h :| 0 <= h < |idx| && idx[h] == b;
    FixedIsIndex(n, anchors, idx[g + 1]);
    assert idx[g + 1] in idx;
  }

  lemma FlatSpan(dist: ChordDist, lo: nat, hi: nat, epsSq: real)
    requires lo < hi
    ensures RdpSet(dist, lo, hi, epsSq) == {} <==> forall m: nat | lo < m < hi :: dist(lo, hi, m) <= epsSq
  {
    if hi - lo >= 2 {
      var p := Farthest(dist, lo, hi, hi);
      assert dist(lo, hi, p) > epsSq ==> p in RdpSet(dist, lo, hi, epsSq);
    }
  }

  /** A gap keeps none of its interior points if and only if all of them are within
      tolerance of its own chord. */
  lemma {:induction false} GapEmptiedExactlyWhenFlat(dist: ChordDist, n: nat, anchors: seq<int>, epsSq: real, a: nat, b: nat)
    requires n > 2 && AnchorGap(n, anchors, a, b)
    ensures (forall m: nat | a < m < b :: m !in Kept(dist, n, anchors, epsSq)) <==>
              forall m: nat | a < m < b :: dist(a, b, m) <= epsSq
  {
    var g := GapIsListed(n, anchors, a, b);
    forall m: nat | a < m < b
      ensures m in Kept(dist, n, anchors, epsSq) <==> m in RdpSet(dist, a, b, epsSq)
    {
      KeptInGap(dist, n, anchors, epsSq, AnchorIndices(n, anchors), g, m);
    }
    FlatSpan(dist, a, b, epsSq);
    if m :| m in RdpSet(dist, a, b, epsSq) {
      assert a < m < b;
    }
  }
}
