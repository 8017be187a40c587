/** Collision testing of one ray segment: the plane broad phase (`SegmentCrossesPlane`),
    the sub-ray count, the sphere sweep (`SweepSegmentHit`) and the subdivided ray cast
    (`SubdividedRayHit`) of RayBeamRenderer.cs. The physics engine is an oracle. */
module Collision {
  import opened Numerics

  /** Godot's `Plane`: a normal and the plane's offset along it. */
  datatype Plane = Plane(normal: Vec3, d: real)

  /** `new Plane(normal, point)`: the plane with that normal through that point. */
  function PlaneThrough(normal: Vec3, point: Vec3): (pl: Plane)
    ensures DistanceTo(pl, point) == 0.0
  {
    Plane(normal, Dot(normal, point))
  }

  /** `Plane.DistanceTo`: signed distance along the normal. */
  function DistanceTo(pl: Plane, p: Vec3): real { Dot(pl.normal, p) - pl.d }

  /** The point a fraction `t` of the way from `p` to `q`. */
  function SegmentPoint(p: Vec3, q: Vec3, t: real): Vec3 { Add(p, Scale(Sub(q, p), t)) }

  /** Broad phase: a segment is kept when either end is within `eps` of the plane or the
      ends lie on opposite sides of it. */
  predicate SegmentCrossesPlane(p: Vec3, q: Vec3, plane: Plane, eps: real) {
    var dp := DistanceTo(plane, p);
    var dq := DistanceTo(plane, q);
    if Abs(dp) <= eps || Abs(dq) <= eps then true
    else (dp > 0.0) != (dq > 0.0)
  }

  /** The broad phase does not depend on the direction of the segment. */
  lemma CrossesPlaneSymmetric(p: Vec3, q: Vec3, plane: Plane, eps: real)
    ensures SegmentCrossesPlane(p, q, plane, eps) == SegmentCrossesPlane(q, p, plane, eps)
  {
  }

  /** The signed distance varies linearly along a segment. */
  lemma DistanceAlongSegment(p: Vec3, q: Vec3, plane: Plane, t: real)
    ensures DistanceTo(plane, SegmentPoint(p, q, t))
            == DistanceTo(plane, p) + Mul(t, DistanceTo(plane, q) - DistanceTo(plane, p))
  {
    var n := plane.normal;
    assert Dot(n, SegmentPoint(p, q, t)) == Dot(n, p) + t * Dot(n, Sub(q, p)) by {
      assert n.x * (p.x + (q.x - p.x) * t) == n.x * p.x + t * (n.x * (q.x - p.x));
      assert n.y * (p.y + (q.y - p.y) * t) == n.y * p.y + t * (n.y * (q.y - p.y));
      assert n.z * (p.z + (q.z - p.z) * t) == n.z * p.z + t * (n.z * (q.z - p.z));
    }
  }

  /** The broad phase never discards a segment that touches the plane: if some point of
      the segment lies on the plane, the segment is kept for every tolerance `eps >= 0`. */
  lemma CrossesPlaneSound(p: Vec3, q: Vec3, plane: Plane, eps: real, t: real)
    requires 0.0 <= eps && 0.0 <= t <= 1.0
    requires DistanceTo(plane, SegmentPoint(p, q, t)) == 0.0
    ensures SegmentCrossesPlane(p, q, plane, eps)
  {
    var dp := DistanceTo(plane, p);
    var dq := DistanceTo(plane, q);
    DistanceAlongSegment(p, q, plane, t);
    assert dp + Mul(t, dq - dp) == Mul(1.0 - t, dp) + Mul(t, dq);
    if 0.0 < dp && 0.0 < dq {
      if t < 1.0 {
        PositiveProduct(1.0 - t, dp);
        NonNegativeProduct(t, dq);
      } else {
        PositiveProduct(t, dq);
      }
    } else if dp <= 0.0 && dq <= 0.0 && eps < Abs(dp) && eps < Abs(dq) {
      if t < 1.0 {
        PositiveProduct(1.0 - t, -dp);
        NonNegativeProduct(t, -dq);
      } else {
        PositiveProduct(t, -dq);
      }
    }
  }

  /** When both ends are farther than `eps` and on opposite sides, the segment really
      meets the plane, at the fraction `dp / (dp - dq)`. */
  lemma CrossingPoint(p: Vec3, q: Vec3, plane: Plane, eps: real)
    requires 0.0 <= eps && SegmentCrossesPlane(p, q, plane, eps)
    requires eps < Abs(DistanceTo(plane, p)) && eps < Abs(DistanceTo(plane, q))
    ensures var t := DistanceTo(plane, p) / (DistanceTo(plane, p) - DistanceTo(plane, q));
            0.0 <= t <= 1.0 && DistanceTo(plane, SegmentPoint(p, q, t)) == 0.0
  {
    var dp := DistanceTo(plane, p);
    var dq := DistanceTo(plane, q);
    var t := dp / (dp - dq);
    DistanceAlongSegment(p, q, plane, t);
    QuotientTimesNegatedDivisor(dp, dp - dq);
    if 0.0 < dp {
      QuotientBounds(dp, dp - dq);
    } else {
      QuotientBounds(-dp, dq - dp);
      assert t == -dp / (dq - dp);
    }
  }

  lemma QuotientTimesNegatedDivisor(n: real, d: real)
    requires d != 0.0
    ensures Mul(n / d, -d) == -n
  {
  }

  /** A part of a positive whole, divided by the whole, lies in `[0, 1]`. */
  lemma QuotientBounds(n: real, d: real)
    requires 0.0 < n <= d
    ensures 0.0 <= n / d <= 1.0
  {
    var q := n / d;
    assert Mul(q, d) == n;
    if q < 0.0 {
      PositiveProduct(-q, d);
    }
    if 1.0 < q {
      PositiveProduct(q - 1.0, d);
    }
  }

  /** How many sub-rays the ray-cast mode uses for a segment of length `segLen`: one when
      the segment is no longer than the threshold, otherwise the ceiling of the ratio,
      clamped to `[1, maxSubsteps]`. A zero threshold makes the ratio infinite, whose
      integer conversion is `int.MinValue`. */
  function SubstepCount(segLen: real, threshold: real, maxSubsteps: int): (sub: int)
    ensures 1 <= maxSubsteps ==> 1 <= sub <= maxSubsteps
    ensures segLen <= threshold && 1 <= maxSubsteps ==> sub == 1
  {
    var raw :=
      if segLen > threshold then
        (if threshold == 0.0 then Int32Min else CeilToInt(segLen / threshold))
      else 1;
    ClampInt(raw, 1, maxSubsteps)
  }

  /** Unless the clamp or the 32-bit conversion cuts it, the sub-ray count is the
      smallest number of pieces of length at most `threshold` that cover the segment. */
  lemma SubstepsCoverSegment(segLen: real, threshold: real, maxSubsteps: int)
    requires 0.0 < threshold < segLen
    requires segLen / threshold <= Int32Max as real
    requires Ceil(segLen / threshold) <= maxSubsteps
    ensures var sub := SubstepCount(segLen, threshold, maxSubsteps);
            segLen <= Mul(sub as real, threshold) && Mul((sub - 1) as real, threshold) < segLen
  {
    var ratio := segLen / threshold;
    var c := Ceil(ratio);
    assert 1.0 < ratio by { QuotientAboveOne(segLen, threshold); }
    assert CeilToInt(ratio) == c;
    assert SubstepCount(segLen, threshold, maxSubsteps) == c;
    assert Mul(ratio, threshold) == segLen;
    NonNegativeProduct(c as real - ratio, threshold);
    assert Mul(c as real, threshold) == Mul(ratio, threshold) + Mul(c as real - ratio, threshold);
    PositiveProduct(ratio - (c - 1) as real, threshold);
    assert Mul((c - 1) as real, threshold) == Mul(ratio, threshold) - Mul(ratio - (c - 1) as real, threshold);
  }

  lemma QuotientAboveOne(n: real, d: real)
    requires 0.0 < d < n
    ensures 1.0 < n / d
  {
    var q := n / d;
    assert Mul(q, d) == n;
    if q <= 1.0 {
      NonNegativeProduct(1.0 - q, d);
    }
  }

  /** The physics engine's queries, as oracles. `castMotion(from, motion, radius, mask)`
      is `CastMotion` for a sphere: its result holds the safe and unsafe fractions of the
      motion. `intersectRay(from, to, mask)` is `IntersectRay` and yields the hit
      position, if any. */
  datatype Space = Space(castMotion: (Vec3, Vec3, real, nat) -> seq<real>,
                         intersectRay: (Vec3, Vec3, nat) -> Option<Vec3>)

  /** The shortest segment the collision tests consider. */
  const MinSegmentLength: real := 0.000001

  /** Sweep a sphere along the segment; a hit is reported at the unsafe fraction of the
      motion when that fraction is below 1. */
  function SweepSegmentHit(m: Math, space: Space, a: Vec3, b: Vec3, mask: nat, radius: real)
    : (hit: Option<Vec3>)
    ensures Length(m, Sub(b, a)) <= MinSegmentLength ==> hit == None
    ensures hit.Some? ==>
              exists t {:trigger SegmentPoint(a, b, t)} :: t < 1.0 && hit.value == SegmentPoint(a, b, t)
  {
    var motion := Sub(b, a);
    if Length(m, motion) <= MinSegmentLength then None
    else
      var res := space.castMotion(a, motion, MaxReal(0.0005, radius), mask);
      if |res| >= 2 && res[1] < 1.0 then
        assert Add(a, Scale(motion, res[1])) == SegmentPoint(a, b, res[1]);
        Some(Add(a, Scale(motion, res[1])))
      else None
  }

  /** The sweep radius is never below 0.0005, and an engine reporting a full, unobstructed
      motion yields no hit. */
  lemma SweepUnobstructed(m: Math, space: Space, a: Vec3, b: Vec3, mask: nat, radius: real)
    requires space.castMotion(a, Sub(b, a), MaxReal(0.0005, radius), mask) == [1.0, 1.0]
    ensures SweepSegmentHit(m, space, a, b, mask, radius) == None
  {
  }

  /** The `i`-th subdivision point of the segment `a`, `a + d` cut into `steps` pieces. */
  function SubPoint(a: Vec3, d: Vec3, i: int, steps: int): Vec3
    requires 1 <= steps
  {
    Add(a, Scale(d, i as real / steps as real))
  }

  /** The subdivision points start at `a`, end at `a + d`, and consecutive points are
      one piece `d / steps` apart. */
  lemma SubPointsSpanSegment(a: Vec3, b: Vec3, steps: int, i: int)
    requires 1 <= steps
    ensures SubPoint(a, Sub(b, a), 0, steps) == a
    ensures SubPoint(a, Sub(b, a), steps, steps) == b
    ensures Sub(SubPoint(a, Sub(b, a), i + 1, steps), SubPoint(a, Sub(b, a), i, steps))
            == Scale(Sub(b, a), 1.0 / steps as real)
  {
    var d := Sub(b, a);
    var k := steps as real;
    assert (i + 1) as real / k - i as real / k == 1.0 / k;
    var u := (i + 1) as real / k;
    var w := i as real / k;
    assert d.x * u - d.x * w == d.x * (u - w);
    assert d.y * u - d.y * w == d.y * (u - w);
    assert d.z * u - d.z * w == d.z * (u - w);
  }

  /** The ray cast along the `j`-th sub-ray, from point `j - 1` to point `j`. */
  function SubrayHit(space: Space, a: Vec3, d: Vec3, mask: nat, steps: int, j: int): Option<Vec3>
    requires 1 <= steps
  {
    space.intersectRay(SubPoint(a, d, j - 1, steps), SubPoint(a, d, j, steps), mask)
  }

  /** The hit of the first sub-ray from the `i`-th on that hits anything. */
  function FirstSubrayHit(space: Space, a: Vec3, d: Vec3, mask: nat, steps: int, i: int)
    : (hit: Option<Vec3>)
    requires 1 <= steps && 1 <= i
    decreases steps + 1 - i
    ensures hit.None? ==> forall j :: i <= j <= steps ==> SubrayHit(space, a, d, mask, steps, j).None?
    ensures hit.Some? ==>
              exists j :: i <= j <= steps && SubrayHit(space, a, d, mask, steps, j) == hit
                          && forall k :: i <= k < j ==> SubrayHit(space, a, d, mask, steps, k).None?
  {
    if i > steps then None
    else
      match SubrayHit(space, a, d, mask, steps, i)
      case Some(h) => Some(h)
      case None => FirstSubrayHit(space, a, d, mask, steps, i + 1)
  }

  /** The number of sub-rays `SubdividedRayHit` casts: its request, clamped to [1, 64]. */
  function SubrayCount(maxSubsteps: int): (steps: int)
    ensures 1 <= steps <= 64
    ensures 1 <= maxSubsteps <= 64 ==> steps == maxSubsteps
  {
    ClampInt(maxSubsteps, 1, 64)
  }

  /** What `SubdividedRayHit` reports: nothing for a degenerate segment, otherwise the
      first sub-ray hit. */
  function SubdividedHit(m: Math, space: Space, a: Vec3, b: Vec3, mask: nat, maxSubsteps: int)
    : Option<Vec3>
  {
    if Length(m, Sub(b, a)) <= MinSegmentLength then None
    else FirstSubrayHit(space, a, Sub(b, a), mask, SubrayCount(maxSubsteps), 1)
  }

  /** Cast the segment as consecutive sub-rays and stop at the first one that hits. */
  method SubdividedRayHit(m: Math, space: Space, a: Vec3, b: Vec3, mask: nat, maxSubsteps: int)
    returns (hit: Option<Vec3>)
    ensures hit == SubdividedHit(m, space, a, b, mask, maxSubsteps)
  {
    var d := Sub(b, a);
    var len := Length(m, d);
    if len <= MinSegmentLength {
      return None;
    }
    var steps := ClampInt(maxSubsteps, 1, 64);
    var prev := a;
    SubPointsSpanSegment(a, b, steps, 0);
    var i := 1;
    while i <= steps
      invariant 1 <= i <= steps + 1
      invariant prev == SubPoint(a, d, i - 1, steps)
      invariant FirstSubrayHit(space, a, d, mask, steps, 1) == FirstSubrayHit(space, a, d, mask, steps, i)
      decreases steps + 1 - i
    {
      var t := i as real / steps as real;
      var cur := Add(a, Scale(d, t));
      hit := space.intersectRay(prev, cur, mask);
      if hit.Some? {
        return;
      }
      prev := cur;
      i := i + 1;
    }
    hit := None;
  }
}
