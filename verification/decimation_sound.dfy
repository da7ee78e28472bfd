/** What decimation leaves of a preview, said of the points alone: nothing that must stay
    is dropped, nothing is dropped that would show, and nothing is kept without need. */
module DecimationSound {
  import opened Geometry
  import opened Rdp
  import opened Decimation

  /** The anchors are exactly the changes of source line. */
  lemma {:induction false} AnchorExactlyWhenChange(lines: seq<int>, i: nat)
    requires i < |lines|
    ensures i in LineAnchors(lines) <==> Changes(lines, i)
  {
    if Changes(lines, i) {
      ChangeIsAnchor(lines, i);
    } else {
      UnchangedIsNoAnchor(lines, i);
    }
  }

  lemma {:induction false} AnchorsInRange(lines: seq<int>, a: int)
    requires a in LineAnchors(lines)
    ensures a == 0 || 0 < a < |lines|
  {
    if |lines| > 1 && a in LineAnchors(lines[..|lines| - 1]) {
      AnchorsInRange(lines[..|lines| - 1], a);
    }
  }

  lemma {:induction false} UnchangedIsNoAnchor(lines: seq<int>, i: nat)
    requires i < |lines| && !Changes(lines, i)
    ensures i !in LineAnchors(lines)
  {
    var before := lines[..|lines| - 1];
    if i < |before| {
      UnchangedIsNoAnchor(before, i);
    } else if i in LineAnchors(before) {
      AnchorsInRange(before, i);
    }
  }

  /** Farther than eps from every point of the chord. */
  ghost predicate OffChord(p0: Vec, p1: Vec, q: Vec, eps: real) {
    forall s :: 0.0 <= s <= 1.0 ==> DistSq(q, Along(p0, p1, s)) > eps * eps
  }

  /** Within eps of some point of the chord. */
  ghost predicate OnChord(p0: Vec, p1: Vec, q: Vec, eps: real) {
    exists s :: 0.0 <= s <= 1.0 && DistSq(q, Along(p0, p1, s)) <= eps * eps
  }

  /** Between two kept points the point k stands out, and no other there more. */
  ghost predicate StandsOut(points: seq<Vec>, idx: seq<nat>, eps: real, k: nat, i: nat, j: nat) {
    && i in idx && j in idx && i < k < j < |points|
    && OffChord(points[i], points[j], points[k], eps)
    && forall m :: i < m < j ==> ChordSq(points[i], points[j], points[m]) <= ChordSq(points[i], points[j], points[k])
  }

  ghost predicate InBounds(idx: seq<nat>, n: nat) { forall i :: 0 <= i < |idx| ==> idx[i] < n }

  ghost predicate CoversDropped(points: seq<Vec>, idx: seq<nat>, eps: real, k: nat, j: nat)
    requires InBounds(idx, |points|)
  {
    Brackets(idx, j, k) && k < |points| && OnChord(points[idx[j]], points[idx[j + 1]], points[k], eps)
  }

  /** idx thins the points: in order, with what must stay; every other kept point stands
      out, and every dropped one is close to the chord drawn in its place. */
  ghost predicate Thinned(points: seq<Vec>, idx: seq<nat>, must: nat -> bool, eps: real) {
    && Increasing(idx) && InBounds(idx, |points|)
    && (forall k: nat | k < |points| && must(k) :: k in idx)
    && (forall k | k in idx && !must(k) :: exists i, j :: StandsOut(points, idx, eps, k, i, j))
    && (forall k: nat | k < |points| && k !in idx :: exists j :: CoversDropped(points, idx, eps, k, j))
  }

  lemma FarIsOff(p0: Vec, p1: Vec, q: Vec, eps: real)
    requires ChordSq(p0, p1, q) > eps * eps
    ensures OffChord(p0, p1, q, eps)
  {
    forall s | 0.0 <= s <= 1.0 ensures DistSq(q, Along(p0, p1, s)) > eps * eps {
      FootIsNearest(p0, p1, q, s);
    }
  }

  lemma KeptStandsOut(points: seq<Vec>, anchors: seq<int>, eps: real, k: nat) returns (i: nat, j: nat)
    requires k in Kept(ChordsOf(points), |points|, anchors, eps * eps) && !Fixed(|points|, anchors, k)
    ensures StandsOut(points, Kept(ChordsOf(points), |points|, anchors, eps * eps), eps, k, i, j)
  {
    i, j := KeptForAReason(ChordsOf(points), |points|, anchors, eps * eps, k);
    KeptOrdered(ChordsOf(points), |points|, anchors, eps * eps);
    FarIsOff(points[i], points[j], points[k], eps);
    forall m | i < m < j ensures ChordSq(points[i], points[j], points[m]) <= ChordSq(points[i], points[j], points[k]) {
      assert ChordsOf(points)(i, j, m) <= ChordsOf(points)(i, j, k);
    }
  }

  /** Every set of anchors thins, whatever the points. */
  lemma {:induction false} KeptThins(points: seq<Vec>, anchors: seq<int>, must: nat -> bool, eps: real)
    requires forall k: nat | k < |points| :: must(k) <==> Fixed(|points|, anchors, k)
    ensures Thinned(points, Kept(ChordsOf(points), |points|, anchors, eps * eps), must, eps)
  {
    var idx := Kept(ChordsOf(points), |points|, anchors, eps * eps);
    KeptOrdered(ChordsOf(points), |points|, anchors, eps * eps);
    forall k: nat | k < |points| && must(k) ensures k in idx {
      AnchorKept(ChordsOf(points), |points|, anchors, eps * eps, k);
    }
    forall k | k in idx && !must(k) ensures exists i, j :: StandsOut(points, idx, eps, k, i, j) {
      var i, j := KeptStandsOut(points, anchors, eps, k);
    }
    forall k: nat | k < |points| && k !in idx ensures exists j :: CoversDropped(points, idx, eps, k, j) {
      var j, t := DroppedNearItsChord(points, anchors, eps, k);
      assert CoversDropped(points, idx, eps, k, j);
    }
  }

  predicate FeedMust(lines: seq<int>, k: nat) { k < |lines| && (k == 0 || k == |lines| - 1 || lines[k] != lines[k - 1]) }
  predicate RapidMust(n: nat, k: nat) { k < n && (k == 0 || k == n - 1) }

  function FeedMusts(lines: seq<int>): nat -> bool { (k: nat) => FeedMust(lines, k) }
  function RapidMusts(n: nat): nat -> bool { (k: nat) => RapidMust(n, k) }

  lemma FeedThins(points: seq<Vec>, lines: seq<int>, eps: real)
    requires |points| == |lines|
    ensures Thinned(points, Kept(ChordsOf(points), |points|, LineAnchors(lines), eps * eps), FeedMusts(lines), eps)
  {
    forall k: nat | k < |lines| ensures FeedMusts(lines)(k) <==> Fixed(|lines|, LineAnchors(lines), k) {
      AnchorExactlyWhenChange(lines, k);
    }
    KeptThins(points, LineAnchors(lines), FeedMusts(lines), eps);
  }

  lemma RapidThins(points: seq<Vec>, eps: real)
    ensures Thinned(points, Kept(ChordsOf(points), |points|, [0, |points| - 1], eps * eps), RapidMusts(|points|), eps)
  {
    KeptThins(points, [0, |points| - 1], RapidMusts(|points|), eps);
  }

  /** What the parse worker sends: the feed thinned by one list of indices, its line numbers
      by the same one, keeping both ends and every change of line; the rapids thinned,
      keeping both ends. */
  lemma {:induction false} DecimationThins(raw: Preview, out: Preview, eps: real) returns (f: seq<nat>, r: seq<nat>)
    requires |raw.feed| == |raw.feedLines| && IsDecimationOf(out, raw, eps)
    ensures Thinned(raw.feed, f, FeedMusts(raw.feedLines), eps)
    ensures Thinned(raw.rapid, r, RapidMusts(|raw.rapid|), eps)
    ensures out.feed == Select(raw.feed, f) && out.feedLines == Select(raw.feedLines, f) && out.rapid == Select(raw.rapid, r)
  {
    FeedThins(raw.feed, raw.feedLines, eps);
    RapidThins(raw.rapid, eps);
    f, r := FeedKept(raw, eps), RapidKept(raw, eps);
  }

  ghost predicate InteriorOnChord(points: seq<Vec>, a: nat, b: nat, m: nat, eps: real)
    requires a < m < b < |points|
  {
    OnChord(points[a], points[b], points[m], eps)
  }

  ghost predicate NoneInside(kept: seq<nat>, a: nat, b: nat) { forall m | a < m < b :: m !in kept }

  /** A straight run between two points that must stay is reduced to them: no interior
      point survives if and only if all are within eps of the chord. */
  lemma {:induction false} StraightRunCollapses(points: seq<Vec>, anchors: seq<int>, eps: real, a: nat, b: nat)
    requires |points| > 2 && AnchorGap(|points|, anchors, a, b)
    ensures NoneInside(Kept(ChordsOf(points), |points|, anchors, eps * eps), a, b) <==>
              forall m: nat | a < m < b :: InteriorOnChord(points, a, b, m, eps)
  {
    GapEmptiedExactlyWhenFlat(ChordsOf(points), |points|, anchors, eps * eps, a, b);
    forall m: nat | a < m < b
      ensures InteriorOnChord(points, a, b, m, eps) <==> ChordsOf(points)(a, b, m) <= eps * eps
    {
      OnChordExactlyWhenNear(points[a], points[b], points[m], eps);
    }
  }

  lemma OnChordExactlyWhenNear(p0: Vec, p1: Vec, q: Vec, eps: real)
    ensures OnChord(p0, p1, q, eps) <==> ChordSq(p0, p1, q) <= eps * eps
  {
    if ChordSq(p0, p1, q) <= eps * eps {
      assert DistSq(q, Along(p0, p1, FootParam(p0, p1, q))) <= eps * eps;
    } else {
      FarIsOff(p0, p1, q, eps);
    }
  }
}
