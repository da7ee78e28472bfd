/** What the parse worker does around the decimator (line-change anchors, the two
    polylines, the bounding box of what is rendered) and the source-line map the
    browser worker rebuilds from the decimated arrays. */
module Decimation {
  import opened Geometry
  import opened Rdp

  /** The decimator's chord distance over actual points. */
  function ChordsOf(points: seq<Vec>): ChordDist {
    (i0: nat, i1: nat, k: nat) =>
      if i0 < |points| && i1 < |points| && k < |points| then ChordSq(points[i0], points[i1], points[k]) else 0.0
  }

  function Select<T>(items: seq<T>, idx: seq<nat>): (r: seq<T>)
    requires forall i :: 0 <= i < |idx| ==> idx[i] < |items|
  {
    seq(|idx|, i requires 0 <= i < |idx| => items[idx[i]])
  }

  // ---- anchors ----

  /** Index 0 and every index at which the source line number changes. */
  function LineAnchors(lines: seq<int>): seq<int> {
    if |lines| <= 1 then [0]
    else
      var n := |lines| - 1;
      LineAnchors(lines[..n]) + if lines[n] != lines[n - 1] then [n] else []
  }

  method CollectAnchors(lines: seq<int>) returns (anchors: seq<int>)
    ensures anchors == LineAnchors(lines)
  {
    anchors := [0];
    if |lines| == 0 {
      return;
    }
    for i := 1 to |lines|
      invariant anchors == LineAnchors(lines[..i])
    {
      if lines[i] != lines[i - 1] {
        anchors := anchors + [i];
      }
      assert lines[..i + 1][..i] == lines[..i];
    }
    assert lines[..|lines|] == lines;
  }

  /** The first index of an unbroken run of one line number. */
  ghost predicate Changes(lines: seq<int>, i: nat)
    requires i < |lines|
  {
    i == 0 || lines[i] != lines[i - 1]
  }

  /** A line-number change is an anchor. */
  lemma {:induction false} ChangeIsAnchor(lines: seq<int>, i: nat)
    requires i < |lines| && Changes(lines, i)
    ensures i in LineAnchors(lines)
  {
    if |lines| > 1 && i < |lines| - 1 {
      ChangeIsAnchor(lines[..|lines| - 1], i);
    }
  }

  // ---- the two polylines ----

  datatype Preview = Preview(feed: seq<Vec>, feedLines: seq<int>, rapid: seq<Vec>)

  function FeedKept(raw: Preview, eps: real): seq<nat> {
    Kept(ChordsOf(raw.feed), |raw.feed|, LineAnchors(raw.feedLines), eps * eps)
  }

  function RapidKept(raw: Preview, eps: real): seq<nat> {
    Kept(ChordsOf(raw.rapid), |raw.rapid|, [0, |raw.rapid| - 1], eps * eps)
  }

  ghost predicate IsDecimationOf(out: Preview, raw: Preview, eps: real)
    requires |raw.feed| == |raw.feedLines|
  {
    KeptOrdered(ChordsOf(raw.feed), |raw.feed|, LineAnchors(raw.feedLines), eps * eps);
    KeptOrdered(ChordsOf(raw.rapid), |raw.rapid|, [0, |raw.rapid| - 1], eps * eps);
    && out.feed == Select(raw.feed, FeedKept(raw, eps))
    && out.feedLines == Select(raw.feedLines, FeedKept(raw, eps))
    && out.rapid == Select(raw.rapid, RapidKept(raw, eps))
  }

  /** Keeping as many indices as there are keeps every one of them. */
  lemma FullSelection<T>(items: seq<T>, idx: seq<nat>)
    requires Increasing(idx) && |idx| >= |items|
    requires forall i :: 0 <= i < |idx| ==> idx[i] < |items|
    ensures Select(items, idx) == items
  {
    if |idx| > 0 {
      AtLeast(idx, |idx| - 1);
      assert |idx| == |items|;
      forall i | 0 <= i < |idx| ensures idx[i] == i {
        AtLeast(idx, i);
        AtMost(idx, i, |items|);
      }
    }
  }

  lemma {:induction false} AtLeast(idx: seq<nat>, i: nat)
    requires Increasing(idx) && i < |idx|
    ensures idx[i] >= i
  {
    if i > 0 { AtLeast(idx, i - 1); }
  }

  lemma {:induction false} AtMost(idx: seq<nat>, i: nat, n: nat)
    requires Increasing(idx) && i < |idx| == n
    requires forall k :: 0 <= k < |idx| ==> idx[k] < n
    ensures idx[i] <= i
    decreases n - i
  {
    if i < n - 1 { AtMost(idx, i + 1, n); }
  }

  lemma SmallKeepsAll<T>(items: seq<T>, dist: ChordDist, anchors: seq<int>, epsSq: real)
    requires |items| <= 2
    ensures forall i :: 0 <= i < |Kept(dist, |items|, anchors, epsSq)| ==> Kept(dist, |items|, anchors, epsSq)[i] < |items|
    ensures Select(items, Kept(dist, |items|, anchors, epsSq)) == items
  {
    var kept := Kept(dist, |items|, anchors, epsSq);
    KeptOrdered(dist, |items|, anchors, epsSq);
    if |items| > 0 {
      EndsKept(dist, |items|, anchors, epsSq);
      FullSelection(items, kept);
    }
  }

  /** Both decimation passes, with the source's length guards. */
  method Decimate(raw: Preview, eps: real) returns (out: Preview)
    requires |raw.feed| == |raw.feedLines|
    ensures IsDecimationOf(out, raw, eps)
  {
    out := raw;
    KeptOrdered(ChordsOf(raw.feed), |raw.feed|, LineAnchors(raw.feedLines), eps * eps);
    KeptOrdered(ChordsOf(raw.rapid), |raw.rapid|, [0, |raw.rapid| - 1], eps * eps);
    if |raw.feed| > 2 {
      var anchors := CollectAnchors(raw.feedLines);
      var keep := RdpKeep(ChordsOf(raw.feed), |raw.feed|, anchors, eps * eps);
      if |keep| < |raw.feed| {
        out := out.(feed := Select(raw.feed, keep), feedLines := Select(raw.feedLines, keep));
      } else {
        FullSelection(raw.feed, keep);
        FullSelection(raw.feedLines, keep);
      }
    } else {
      SmallKeepsAll(raw.feed, ChordsOf(raw.feed), LineAnchors(raw.feedLines), eps * eps);
      SmallKeepsAll(raw.feedLines, ChordsOf(raw.feed), LineAnchors(raw.feedLines), eps * eps);
    }
    if |raw.rapid| > 2 {
      var keep := RdpKeep(ChordsOf(raw.rapid), |raw.rapid|, [0, |raw.rapid| - 1], eps * eps);
      if |keep| < |raw.rapid| {
        out := out.(rapid := Select(raw.rapid, keep));
      } else {
        FullSelection(raw.rapid, keep);
      }
    } else {
      SmallKeepsAll(raw.rapid, ChordsOf(raw.rapid), [0, |raw.rapid| - 1], eps * eps);
    }
  }

  // ---- bounding box ----

  datatype Box = Box(min: Vec, max: Vec)
  datatype Bounds = NoPoints | Bounded(box: Box)

  ghost predicate Inside(p: Vec, b: Box, slack: real) {
    && b.min.x - slack <= p.x <= b.max.x + slack
    && b.min.y - slack <= p.y <= b.max.y + slack
    && b.min.z - slack <= p.z <= b.max.z + slack
  }

  /** `b` is the smallest box around the points: it holds them all and each face touches one. */
  ghost predicate TightBox(b: Box, points: seq<Vec>) {
    && (forall i :: 0 <= i < |points| ==> Inside(points[i], b, 0.0))
    && (exists i :: 0 <= i < |points| && points[i].x == b.min.x)
    && (exists i :: 0 <= i < |points| && points[i].y == b.min.y)
    && (exists i :: 0 <= i < |points| && points[i].z == b.min.z)
    && (exists i :: 0 <= i < |points| && points[i].x == b.max.x)
    && (exists i :: 0 <= i < |points| && points[i].y == b.max.y)
    && (exists i :: 0 <= i < |points| && points[i].z == b.max.z)
  }

  ghost predicate BoundsOf(r: Bounds, points: seq<Vec>) {
    if points == [] then r.NoPoints? else r.Bounded? && TightBox(r.box, points)
  }

  function Widen(b: Box, p: Vec): Box {
    Box(Vec(Least(b.min.x, p.x), Least(b.min.y, p.y), Least(b.min.z, p.z)),
        Vec(Greatest(b.max.x, p.x), Greatest(b.max.y, p.y), Greatest(b.max.z, p.z)))
  }

  lemma WidenIsTight(b: Box, points: seq<Vec>, p: Vec)
    requires TightBox(b, points)
    ensures TightBox(Widen(b, p), points + [p])
  {
    var all := points + [p];
    var w := Widen(b, p);
    assert all[|points|] == p;
    assert forall i :: 0 <= i < |points| ==> all[i] == points[i];
    var ax :| 0 <= ax < |points| && points[ax].x == b.min.x;
    var ay :| 0 <= ay < |points| && points[ay].y == b.min.y;
    var az :| 0 <= az < |points| && points[az].z == b.min.z;
    var bx :| 0 <= bx < |points| && points[bx].x == b.max.x;
    var by' :| 0 <= by' < |points| && points[by'].y == b.max.y;
    var bz :| 0 <= bz < |points| && points[bz].z == b.max.z;
    assert all[ax].x == w.min.x || all[|points|].x == w.min.x;
    assert all[ay].y == w.min.y || all[|points|].y == w.min.y;
    assert all[az].z == w.min.z || all[|points|].z == w.min.z;
    assert all[bx].x == w.max.x || all[|points|].x == w.max.x;
    assert all[by'].y == w.max.y || all[|points|].y == w.max.y;
    assert all[bz].z == w.max.z || all[|points|].z == w.max.z;
  }

  /** The accumulator starts from infinite bounds, which the first point always replaces. */
  method BoundsLoop(poly: seq<Vec>, start: Bounds, ghost before: seq<Vec>) returns (r: Bounds)
    requires BoundsOf(start, before)
    ensures BoundsOf(r, before + poly)
  {
    r := start;
    assert before + poly[..0] == before;
    for i := 0 to |poly|
      invariant BoundsOf(r, before + poly[..i])
    {
      var p := poly[i];
      ghost var sofar := before + poly[..i];
      assert before + poly[..i + 1] == sofar + [p];
      if r.NoPoints? {
        r := Bounded(Box(p, p));
        assert (sofar + [p])[|sofar|] == p;
      } else {
        WidenIsTight(r.box, sofar, p);
        r := Bounded(Widen(r.box, p));
      }
    }
    assert poly[..|poly|] == poly;
  }

  /** The box sent to the browser: over both rendered polylines. */
  method RenderedBounds(p: Preview) returns (r: Bounds)
    ensures BoundsOf(r, p.feed + p.rapid)
  {
    r := BoundsLoop(p.feed, NoPoints, []);
    assert [] + p.feed == p.feed;
    r := BoundsLoop(p.rapid, r, p.feed);
  }

  /** Every point of a polyline is near a chord whose ends are both kept. */
  lemma NearKeptChord(points: seq<Vec>, anchors: seq<int>, eps: real, k: nat) returns (a: nat, b: nat)
    requires k < |points| && eps >= 0.0
    ensures a < |points| && b < |points|
    ensures var kept := Kept(ChordsOf(points), |points|, anchors, eps * eps); a in kept && b in kept
    ensures AxisNear(points[a].x, points[b].x, points[k].x, eps)
    ensures AxisNear(points[a].y, points[b].y, points[k].y, eps)
    ensures AxisNear(points[a].z, points[b].z, points[k].z, eps)
  {
    var kept := Kept(ChordsOf(points), |points|, anchors, eps * eps);
    if k in kept {
      a, b := k, k;
    } else {
      KeptOrdered(ChordsOf(points), |points|, anchors, eps * eps);
      var j := DroppedWithinTolerance(ChordsOf(points), |points|, anchors, eps * eps, k);
      a, b := kept[j], kept[j + 1];
      NearChordNearBox(points[a], points[b], points[k], eps);
    }
  }

  /** The point at parameter `t` is the chord's nearest to `q`. */
  ghost predicate Nearest(p0: Vec, p1: Vec, q: Vec, t: real) {
    0.0 <= t <= 1.0 && forall s :: 0.0 <= s <= 1.0 ==> DistSq(q, Along(p0, p1, t)) <= DistSq(q, Along(p0, p1, s))
  }

  /** Each dropped point is truly within eps of the chord drawn in its place, measured
      to the nearest of all the chord's points. */
  lemma {:induction false} DroppedNearItsChord(points: seq<Vec>, anchors: seq<int>, eps: real, k: nat) returns (j: nat, t: real)
    requires k < |points| && k !in Kept(ChordsOf(points), |points|, anchors, eps * eps)
    ensures var kept := Kept(ChordsOf(points), |points|, anchors, eps * eps);
            && Brackets(kept, j, k) && kept[j + 1] < |points|
            && Nearest(points[kept[j]], points[kept[j + 1]], points[k], t)
            && DistSq(points[k], Along(points[kept[j]], points[kept[j + 1]], t)) <= eps * eps
  {
    j := DroppedWithinTolerance(ChordsOf(points), |points|, anchors, eps * eps, k);
    KeptOrdered(ChordsOf(points), |points|, anchors, eps * eps);
    var kept := Kept(ChordsOf(points), |points|, anchors, eps * eps);
    var p0, p1, q := points[kept[j]], points[kept[j + 1]], points[k];
    t := FootParam(p0, p1, q);
    forall s | 0.0 <= s <= 1.0 ensures DistSq(q, Along(p0, p1, t)) <= DistSq(q, Along(p0, p1, s)) {
      FootIsNearest(p0, p1, q, s);
    }
  }

  lemma PolylineNearBox(points: seq<Vec>, anchors: seq<int>, eps: real, b: Box, k: nat)
    requires k < |points| && eps >= 0.0
    requires var kept := Kept(ChordsOf(points), |points|, anchors, eps * eps);
             forall i :: 0 <= i < |kept| && kept[i] < |points| ==> Inside(points[kept[i]], b, 0.0)
    ensures Inside(points[k], b, eps)
  {
    var p, q := NearKeptChord(points, anchors, eps, k);
  }

  lemma OriginalsNear(points: seq<Vec>, anchors: seq<int>, eps: real, b: Box)
    requires eps >= 0.0
    requires var kept := Kept(ChordsOf(points), |points|, anchors, eps * eps);
             && (forall i :: 0 <= i < |kept| ==> kept[i] < |points|)
             && forall i :: 0 <= i < |kept| ==> Inside(Select(points, kept)[i], b, 0.0)
    ensures forall k :: 0 <= k < |points| ==> Inside(points[k], b, eps)
  {
    var kept := Kept(ChordsOf(points), |points|, anchors, eps * eps);
    forall i | 0 <= i < |kept| ensures Inside(points[kept[i]], b, 0.0) {
      assert Select(points, kept)[i] == points[kept[i]];
    }
    forall k | 0 <= k < |points| ensures Inside(points[k], b, eps) {
      PolylineNearBox(points, anchors, eps, b, k);
    }
  }

  lemma AllOfBoth(p: seq<Vec>, q: seq<Vec>, b: Box, slack: real)
    ensures (forall i :: 0 <= i < |p + q| ==> Inside((p + q)[i], b, slack))
        <==> (forall i :: 0 <= i < |p| ==> Inside(p[i], b, slack)) && (forall i :: 0 <= i < |q| ==> Inside(q[i], b, slack))
  {
    forall i | 0 <= i < |p| ensures p[i] == (p + q)[i] {}
    forall i | 0 <= i < |q| ensures q[i] == (p + q)[|p| + i] {}
  }

  ghost predicate BoxWithin(inner: Box, outer: Box) {
    && outer.min.x <= inner.min.x && outer.min.y <= inner.min.y && outer.min.z <= inner.min.z
    && inner.max.x <= outer.max.x && inner.max.y <= outer.max.y && inner.max.z <= outer.max.z
  }

  lemma TightIsWithin(inner: Box, points: seq<Vec>, outer: Box)
    requires TightBox(inner, points) && forall i :: 0 <= i < |points| ==> Inside(points[i], outer, 0.0)
    ensures BoxWithin(inner, outer)
  {
  }

  lemma SelectedInside(points: seq<Vec>, idx: seq<nat>, b: Box)
    requires forall i :: 0 <= i < |idx| ==> idx[i] < |points|
    requires forall i :: 0 <= i < |points| ==> Inside(points[i], b, 0.0)
    ensures forall i :: 0 <= i < |idx| ==> Inside(Select(points, idx)[i], b, 0.0)
  {
    forall i | 0 <= i < |idx| ensures Inside(Select(points, idx)[i], b, 0.0) {
      assert Select(points, idx)[i] == points[idx[i]];
    }
  }

  /** The rendered box lies inside the box of all original points, and widened by
      `eps` it holds every one of them. */
  ghost predicate RightWithin(rendered: Box, full: Box, points: seq<Vec>, eps: real) {
    BoxWithin(rendered, full) && forall i :: 0 <= i < |points| ==> Inside(points[i], rendered, eps)
  }

  /** The box rendered after decimation is right to within the tolerance. */
  lemma {:induction false} BoxAfterDecimation(raw: Preview, out: Preview, eps: real, full: Box, rendered: Box)
    requires |raw.feed| == |raw.feedLines| && eps >= 0.0
    ensures IsDecimationOf(out, raw, eps) && TightBox(full, raw.feed + raw.rapid) && TightBox(rendered, out.feed + out.rapid)
            ==> RightWithin(rendered, full, raw.feed + raw.rapid, eps)
  {
    if IsDecimationOf(out, raw, eps) && TightBox(full, raw.feed + raw.rapid) && TightBox(rendered, out.feed + out.rapid) {
      KeptOrdered(ChordsOf(raw.feed), |raw.feed|, LineAnchors(raw.feedLines), eps * eps);
      KeptOrdered(ChordsOf(raw.rapid), |raw.rapid|, [0, |raw.rapid| - 1], eps * eps);
      AllOfBoth(raw.feed, raw.rapid, full, 0.0);
      SelectedInside(raw.feed, FeedKept(raw, eps), full);
      SelectedInside(raw.rapid, RapidKept(raw, eps), full);
      AllOfBoth(out.feed, out.rapid, full, 0.0);
      TightIsWithin(rendered, out.feed + out.rapid, full);
      AllOfBoth(out.feed, out.rapid, rendered, 0.0);
      OriginalsNear(raw.feed, LineAnchors(raw.feedLines), eps, rendered);
      OriginalsNear(raw.rapid, [0, |raw.rapid| - 1], eps, rendered);
      AllOfBoth(raw.feed, raw.rapid, rendered, eps);
    }
  }

  // ---- the browser's source-line map ----

  datatype Range = Range(start: nat, end: nat)

  function FeedLineMap(lines: seq<int>): map<int, Range> {
    if lines == [] then map[]
    else
      var n := |lines| - 1;
      var m := FeedLineMap(lines[..n]);
      if lines[n] in m then m[lines[n] := m[lines[n]].(end := n)] else m[lines[n] := Range(n, n)]
  }

  method BuildFeedLineMap(lines: seq<int>) returns (m: map<int, Range>)
    ensures m == FeedLineMap(lines)
  {
    m := map[];
    for i := 0 to |lines|
      invariant m == FeedLineMap(lines[..i])
    {
      var ln := lines[i];
      if ln in m {
        m := m[ln := m[ln].(end := i)];
      } else {
        m := m[ln := Range(i, i)];
      }
      assert lines[..i + 1][..i] == lines[..i];
    }
    assert lines[..|lines|] == lines;
  }

  /** First and last occurrence of a line number. */
  ghost predicate Occupies(lines: seq<int>, ln: int, r: Range) {
    && r.start <= r.end < |lines| && lines[r.start] == ln == lines[r.end]
    && forall i :: 0 <= i < |lines| && lines[i] == ln ==> r.start <= i <= r.end
  }

  lemma {:induction false} FeedLineMapMeaning(lines: seq<int>, ln: int)
    ensures ln in FeedLineMap(lines) <==> ln in lines
    ensures ln in lines ==> Occupies(lines, ln, FeedLineMap(lines)[ln])
  {
    if lines != [] {
      var n := |lines| - 1;
      FeedLineMapMeaning(lines[..n], ln);
      assert lines == lines[..n] + [lines[n]];
    }
  }

  /** The start of the unbroken run of one line number that reaches `last`. */
  lemma {:induction false} RunStart(lines: seq<int>, last: nat) returns (a: nat)
    requires last < |lines|
    ensures a <= last && Changes(lines, a)
    ensures forall k :: a <= k <= last ==> lines[k] == lines[last]
  {
    if Changes(lines, last) {
      a := last;
    } else {
      a := RunStart(lines, last - 1);
    }
  }

  ghost predicate KeepsChanges(lines: seq<int>, kept: seq<nat>) {
    && Increasing(kept)
    && (forall i :: 0 <= i < |kept| ==> kept[i] < |lines|)
    && (forall i: nat :: i < |lines| && Changes(lines, i) ==> i in kept)
  }

  /** What is left of a line's range after selecting `kept`: the same first point,
      and an end short of the old one only by more of the same line. */
  ghost predicate SameLine(lines: seq<int>, kept: seq<nat>, ln: int, was: Range, now: Range) {
    && now.start < |kept| && now.end < |kept| && was.end < |lines|
    && kept[now.start] == was.start
    && kept[now.end] <= was.end
    && forall k :: kept[now.end] <= k <= was.end ==> lines[k] == ln
  }

  lemma SelectedLine(lines: seq<int>, kept: seq<nat>, ln: int, was: Range, now: Range)
    requires KeepsChanges(lines, kept)
    requires Occupies(lines, ln, was) && Occupies(Select(lines, kept), ln, now)
    ensures SameLine(lines, kept, ln, was, now)
  {
    var shown := Select(lines, kept);
    assert Changes(lines, was.start);
    var js :| 0 <= js < |kept| && kept[js] == was.start;
    assert shown[js] == ln;
    assert lines[kept[now.start]] == ln && lines[kept[now.end]] == ln;
    var a := RunStart(lines, was.end);
    var ja :| 0 <= ja < |kept| && kept[ja] == a;
    assert shown[ja] == ln;
  }

  lemma AnchoredKeepsChanges(dist: ChordDist, lines: seq<int>, epsSq: real)
    ensures KeepsChanges(lines, Kept(dist, |lines|, LineAnchors(lines), epsSq))
  {
    KeptOrdered(dist, |lines|, LineAnchors(lines), epsSq);
    forall i: nat | i < |lines| && Changes(lines, i)
      ensures i in Kept(dist, |lines|, LineAnchors(lines), epsSq)
    {
      ChangeIsAnchor(lines, i);
      AnchorKept(dist, |lines|, LineAnchors(lines), epsSq, i);
    }
  }

  /** A selected list mentions a line exactly when the full list does. */
  lemma SameLines(lines: seq<int>, kept: seq<nat>, ln: int)
    requires KeepsChanges(lines, kept)
    ensures ln in Select(lines, kept) <==> ln in lines
  {
    if ln in lines {
      FeedLineMapMeaning(lines, ln);
      var was := FeedLineMap(lines)[ln];
      assert Changes(lines, was.start);
      var js :| 0 <= js < |kept| && kept[js] == was.start;
      assert Select(lines, kept)[js] == ln;
    }
  }

  /** Decimation keeps the line map meaningful, even when line numbers recur: the
      same lines are present, each starts at the very same original point, the
      range encloses every kept occurrence, and all that is cut off its end is
      more of the same line. */
  lemma {:induction false} LineMapSurvives(dist: ChordDist, lines: seq<int>, epsSq: real, kept: seq<nat>)
    requires kept == Kept(dist, |lines|, LineAnchors(lines), epsSq)
    ensures KeepsChanges(lines, kept)
    ensures var was, now := FeedLineMap(lines), FeedLineMap(Select(lines, kept));
            && now.Keys == was.Keys
            && forall ln :: ln in now ==>
                 Occupies(Select(lines, kept), ln, now[ln]) && SameLine(lines, kept, ln, was[ln], now[ln])
  {
    AnchoredKeepsChanges(dist, lines, epsSq);
    var shown := Select(lines, kept);
    var was, now := FeedLineMap(lines), FeedLineMap(shown);
    forall ln
      ensures ln in now <==> ln in was
      ensures ln in now ==> Occupies(shown, ln, now[ln]) && SameLine(lines, kept, ln, was[ln], now[ln])
    {
      SameLines(lines, kept, ln);
      FeedLineMapMeaning(lines, ln);
      FeedLineMapMeaning(shown, ln);
      if ln in now {
        SelectedLine(lines, kept, ln, was[ln], now[ln]);
      }
    }
  }
}
