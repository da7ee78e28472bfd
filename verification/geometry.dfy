/** Real 3-vectors and the clamped projection of a point onto a chord, as the
    toolpath decimator computes it.  Coordinates are exact reals. */
module Geometry {

  datatype Vec = Vec(x: real, y: real, z: real)

  function Sub(a: Vec, b: Vec): Vec {
    Vec(a.x - b.x, a.y - b.y, a.z - b.z)
  }

  function Dot(a: Vec, b: Vec): real {
    a.x * b.x + a.y * b.y + a.z * b.z
  }

  function DistSq(a: Vec, b: Vec): real {
    Dot(Sub(a, b), Sub(a, b))
  }

  /** The point at parameter `t` of the segment from `p0` to `p1`. */
  function Along(p0: Vec, p1: Vec, t: real): Vec {
    Vec(p0.x + t * (p1.x - p0.x), p0.y + t * (p1.y - p0.y), p0.z + t * (p1.z - p0.z))
  }

  function Clip(t: real): real {
    if t < 0.0 then 0.0 else if t > 1.0 then 1.0 else t
  }

  /** Parameter of the foot of `q`: clipped when the chord has a length, the
      chord's start when it is degenerate. */
  function FootParam(p0: Vec, p1: Vec, q: Vec): real {
    var seg := Sub(p1, p0);
    if Dot(seg, seg) > 0.0 then Clip(Dot(Sub(q, p0), seg) / Dot(seg, seg)) else 0.0
  }

  function Foot(p0: Vec, p1: Vec, q: Vec): Vec {
    Along(p0, p1, FootParam(p0, p1, q))
  }

  /** Squared distance of `q` from the chord, as the decimator measures it. */
  function ChordSq(p0: Vec, p1: Vec, q: Vec): real {
    DistSq(q, Foot(p0, p1, q))
  }

  lemma SumOfSquaresPositive(x: real, y: real, z: real, sum: real)
    requires x != 0.0 || y != 0.0 || z != 0.0
    requires sum == x * x + y * y + z * z
    ensures sum > 0.0
  {
    var a, b, c := x * x, y * y, z * z;
    Square(x, a);
    Square(y, b);
    Square(z, c);
    assert sum == a + b + c;
  }

  lemma Square(r: real, s: real)
    requires s == r * r
    ensures s >= 0.0
    ensures r != 0.0 ==> s > 0.0
  {
    if r < 0.0 {
      PositiveProduct(-r, -r, s);
    } else if r > 0.0 {
      PositiveProduct(r, r, s);
    } else {
      assert r == 0.0;
    }
  }

  lemma PositiveProduct(a: real, b: real, p: real)
    requires a > 0.0 && b > 0.0 && p == a * b
    ensures p > 0.0
  {
  }

  /** The squared distance from `q` to a point of the chord is a parabola in the parameter. */
  lemma DistanceIsParabola(p0: Vec, p1: Vec, q: Vec, t: real, a: real, b: real, c: real)
    requires a == Dot(Sub(q, p0), Sub(q, p0))
    requires b == Dot(Sub(q, p0), Sub(p1, p0))
    requires c == Dot(Sub(p1, p0), Sub(p1, p0))
    ensures DistSq(q, Along(p0, p1, t)) == Parabola(a, b, c, t)
  {
    var rx, ry, rz := q.x - p0.x, q.y - p0.y, q.z - p0.z;
    var dx, dy, dz := p1.x - p0.x, p1.y - p0.y, p1.z - p0.z;
    var f := Along(p0, p1, t);
    assert q.x - f.x == rx - t * dx;
    assert q.y - f.y == ry - t * dy;
    assert q.z - f.z == rz - t * dz;
  }

  /** A parabola a - 2tb + t²c over [0,1] is least at the clipped vertex. */
  lemma ClippedVertexIsLeast(b: real, c: real, s: real)
    requires c > 0.0 && 0.0 <= s <= 1.0
    ensures var t := Clip(b / c);
            t * t * c - 2.0 * t * b <= s * s * c - 2.0 * s * b
  {
    var v := b / c;
    var t := Clip(v);
    assert v * c == b;
    assert s * s * c - 2.0 * s * b - (t * t * c - 2.0 * t * b)
        == (s - t) * (c * (s + t) - 2.0 * b);
    assert c * (s + t) - 2.0 * b == c * (s + t - 2.0 * v);
    var w := s + t - 2.0 * v;
    assert (s - t) * w >= 0.0 by {
      if t == v { assert w == s - t; Square(s - t, (s - t) * (s - t)); }
      else if v < 0.0 { assert t == 0.0 && w >= 0.0; }
      else { assert t == 1.0 && w <= 0.0; assert (t - s) * (-w) >= 0.0; }
    }
    assert (s - t) * (c * w) == c * ((s - t) * w);
  }

  /** The quadratic of a segment point, with the vector products abstracted to scalars. */
  function Parabola(a: real, b: real, c: real, t: real): real {
    a - 2.0 * t * b + t * t * c
  }

  lemma ClippedParabolaIsLeast(a: real, b: real, c: real, s: real)
    requires c > 0.0 && 0.0 <= s <= 1.0
    ensures Parabola(a, b, c, Clip(b / c)) <= Parabola(a, b, c, s)
  {
    ClippedVertexIsLeast(b, c, s);
  }

  lemma ProperChord(p0: Vec, p1: Vec)
    requires p1 != p0
    ensures Dot(Sub(p1, p0), Sub(p1, p0)) > 0.0
  {
    assert p0 == Vec(p0.x, p0.y, p0.z) && p1 == Vec(p1.x, p1.y, p1.z);
    var d := Sub(p1, p0);
    assert d.x != 0.0 || d.y != 0.0 || d.z != 0.0;
    SumOfSquaresPositive(d.x, d.y, d.z, Dot(d, d));
  }

  lemma PointChord(p: Vec, t: real)
    ensures Along(p, p, t) == p
  {
  }

  /** The clamped projection is the nearest point of the whole segment. */
  lemma {:induction false} FootIsNearest(p0: Vec, p1: Vec, q: Vec, s: real)
    requires 0.0 <= s <= 1.0
    ensures ChordSq(p0, p1, q) <= DistSq(q, Along(p0, p1, s))
  {
    var t := FootParam(p0, p1, q);
    var a, b, c := Dot(Sub(q, p0), Sub(q, p0)), Dot(Sub(q, p0), Sub(p1, p0)), Dot(Sub(p1, p0), Sub(p1, p0));
    if c > 0.0 {
      ClippedParabolaIsLeast(a, b, c, s);
      DistanceIsParabola(p0, p1, q, s, a, b, c);
      DistanceIsParabola(p0, p1, q, t, a, b, c);
    } else {
      if p1 != p0 { ProperChord(p0, p1); }
      PointChord(p0, s);
      PointChord(p0, t);
    }
  }

  /** A point within `eps` of a chord is, on every axis, within `eps` of the
      interval spanned by the chord's ends. */
  lemma {:induction false} NearChordNearBox(p0: Vec, p1: Vec, q: Vec, eps: real)
    requires eps >= 0.0 && ChordSq(p0, p1, q) <= eps * eps
    ensures AxisNear(p0.x, p1.x, q.x, eps)
    ensures AxisNear(p0.y, p1.y, q.y, eps)
    ensures AxisNear(p0.z, p1.z, q.z, eps)
  {
    NearPointNearBox(p0, p1, q, FootParam(p0, p1, q), eps);
  }

  lemma NearPointNearBox(p0: Vec, p1: Vec, q: Vec, t: real, eps: real)
    requires 0.0 <= t <= 1.0
    requires eps >= 0.0 && DistSq(q, Along(p0, p1, t)) <= eps * eps
    ensures AxisNear(p0.x, p1.x, q.x, eps)
    ensures AxisNear(p0.y, p1.y, q.y, eps)
    ensures AxisNear(p0.z, p1.z, q.z, eps)
  {
    var f := Along(p0, p1, t);
    SumOfSquaresBoundsEach(q.x - f.x, q.y - f.y, q.z - f.z, eps);
    AxisNearFoot(p0.x, p1.x, q.x, t, f.x, eps);
    AxisNearFoot(p0.y, p1.y, q.y, t, f.y, eps);
    AxisNearFoot(p0.z, p1.z, q.z, t, f.z, eps);
  }

  lemma AxisNearFoot(a: real, b: real, q: real, t: real, f: real, eps: real)
    requires 0.0 <= t <= 1.0 && f == a + t * (b - a)
    requires -eps <= q - f <= eps
    ensures AxisNear(a, b, q, eps)
  {
    ConvexBetween(a, b, t, f);
  }

  lemma SumOfSquaresBoundsEach(a: real, b: real, c: real, eps: real)
    requires eps >= 0.0 && a * a + b * b + c * c <= eps * eps
    ensures -eps <= a <= eps && -eps <= b <= eps && -eps <= c <= eps
  {
    Square(a, a * a);
    Square(b, b * b);
    Square(c, c * c);
    WithinOfSquare(a, eps);
    WithinOfSquare(b, eps);
    WithinOfSquare(c, eps);
  }

  function Least(a: real, b: real): real { if b < a then b else a }
  function Greatest(a: real, b: real): real { if b > a then b else a }

  predicate AxisNear(a: real, b: real, q: real, eps: real) {
    Least(a, b) - eps <= q <= Greatest(a, b) + eps
  }

  lemma SquareMonotone(a: real, b: real)
    ensures 0.0 <= a < b ==> a * a < b * b
  {
    if 0.0 <= a < b {
      assert b * b - a * a == (b - a) * (b + a);
      PositiveProduct(b - a, b + a, b * b - a * a);
    }
  }

  lemma WithinOfSquare(d: real, eps: real)
    requires eps >= 0.0 && d * d <= eps * eps
    ensures -eps <= d <= eps
  {
    SquareMonotone(eps, d);
    SquareMonotone(eps, -d);
  }

  lemma ConvexBetween(a: real, b: real, t: real, f: real)
    requires 0.0 <= t <= 1.0 && f == a + t * (b - a)
    ensures Least(a, b) <= f <= Greatest(a, b)
  {
    if b >= a {
      Fraction(t, b - a, f - a);
    } else {
      assert t * (b - a) == -(t * (a - b));
      Fraction(t, a - b, a - f);
    }
  }

  lemma Fraction(t: real, d: real, p: real)
    requires 0.0 <= t <= 1.0 && d >= 0.0 && p == t * d
    ensures 0.0 <= p <= d
  {
    NonNegativeProduct(t, d);
    NonNegativeProduct(1.0 - t, d);
    assert (1.0 - t) * d == d - p;
  }

  lemma NonNegativeProduct(a: real, b: real)
    requires a >= 0.0 && b >= 0.0
    ensures a * b >= 0.0
  {
    if a > 0.0 && b > 0.0 {
      PositiveProduct(a, b, a * b);
    }
  }
}
