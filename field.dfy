/** The field accumulator: the net acceleration that a snapshot of field sources
    exerts on a point (`ComputeAccelerationAtPoint` and `SmoothStep` of
    RayBeamRenderer.cs). */
module Field {
  import opened Numerics

  /** The magnitude profiles a source can use. */
  datatype Profile = Power | InversePower | Gaussian | Shell

  /** A field source with the fields the renderer reads from it. */
  datatype FieldSource = FieldSource(
    position: Vec3,
    enabled: bool,
    attract: bool,
    strength: real,
    softening: real,
    minRadius: real,
    maxRadius: real,
    overrideGamma: bool,
    gamma: real,
    overrideBetaScale: bool,
    betaScale: real,
    falloff: Falloff)

  /** The fields of a source that shape its magnitude over distance: the profile, the
      Gaussian width and the Shell band. */
  datatype Falloff = Falloff(
    profile: Profile,
    sigma: real,
    innerRadius: real,
    outerRadius: real,
    edgeSoftness: real)

  /** A member of a scene group: a node of the expected class, or some other node. */
  datatype GroupNode<T> = Typed(node: T) | Other

  /** The renderer-wide amplitude multipliers `BendScale` and `FieldStrength`. */
  datatype Gains = Gains(bendScale: real, fieldStrength: real)

  /** The Hermite polynomial `t^2 (3 - 2t)` of the smooth step. */
  function Hermite(t: real): real { t * t * (3.0 - 2.0 * t) }

  /** On `[0, 1]` the Hermite polynomial lies in `[0, 1]`, is positive away from 0 and
      below 1 away from 1. */
  lemma HermiteBounds(t: real)
    requires 0.0 <= t <= 1.0
    ensures 0.0 <= Hermite(t) <= 1.0
    ensures 0.0 < t ==> 0.0 < Hermite(t)
    ensures t < 1.0 ==> Hermite(t) < 1.0
  {
    var u := 1.0 - t;
    assert Hermite(t) == Mul(Mul(t, t), 3.0 - 2.0 * t);
    assert Hermite(t) == 1.0 - Mul(Mul(u, u), 1.0 + 2.0 * t);
    NonNegativeProduct(t, t);
    NonNegativeProduct(Mul(t, t), 3.0 - 2.0 * t);
    NonNegativeProduct(u, u);
    NonNegativeProduct(Mul(u, u), 1.0 + 2.0 * t);
    if 0.0 < t {
      PositiveProduct(t, t);
      PositiveProduct(Mul(t, t), 3.0 - 2.0 * t);
    }
    if t < 1.0 {
      PositiveProduct(u, u);
      PositiveProduct(Mul(u, u), 1.0 + 2.0 * t);
    }
  }

  /** Comparing a quotient by a positive divisor with 0 and 1. */
  lemma QuotientCompare(n: real, d: real)
    requires 0.0 < d
    ensures n / d <= 0.0 <==> n <= 0.0
    ensures 1.0 <= n / d <==> d <= n
  {
    var q := n / d;
    assert Mul(q, d) == n;
    assert Mul(q - 1.0, d) == n - d;
    if q <= 0.0 { NonNegativeProduct(-q, d); }
    if 0.0 < q { PositiveProduct(q, d); }
    if 1.0 <= q { NonNegativeProduct(q - 1.0, d); }
    if q < 1.0 { PositiveProduct(1.0 - q, d); }
  }

  /** Cubic Hermite step from 0 at `a` to 1 at `b`. */
  function SmoothStep(a: real, b: real, x: real): (r: real)
    requires a != b
    ensures 0.0 <= r <= 1.0
    ensures a < b && x <= a ==> r == 0.0
    ensures a < b && b <= x ==> r == 1.0
    ensures a < b && a < x ==> 0.0 < r
    ensures a < b && x < b ==> r < 1.0
  {
    var t := ClampReal((x - a) / (b - a), 0.0, 1.0);
    HermiteBounds(t);
    if a < b then QuotientCompare(x - a, b - a); Hermite(t)
    else Hermite(t)
  }

  /** The inner radius of a shell, never negative. */
  function ShellInner(f: Falloff): real { MaxReal(0.0, f.innerRadius) }

  /** The outer radius of a shell, at least 0.0001 beyond the inner one. */
  function ShellOuter(f: Falloff): (outer: real)
    ensures outer >= ShellInner(f) + 0.0001
  {
    MaxReal(ShellInner(f) + 0.0001, f.outerRadius)
  }

  /** The half-width of a shell's soft edges, at least 0.0001. */
  function ShellEdge(f: Falloff): (edge: real)
    ensures edge >= 0.0001
  {
    MaxReal(0.0001, f.edgeSoftness)
  }

  /** True when radius `r` lies strictly inside the shell band including its soft edges. */
  predicate InShellBand(f: Falloff, r: real) {
    ShellInner(f) - ShellEdge(f) < r < ShellOuter(f) + ShellEdge(f)
  }

  /** The Shell profile's weight: rises across the inner edge, falls across the outer one. */
  function ShellWeight(f: Falloff, r: real): (w: real)
    ensures 0.0 <= w <= 1.0
    ensures 0.0 < w <==> InShellBand(f, r)
  {
    var inner := ShellInner(f);
    var outer := ShellOuter(f);
    var edge := ShellEdge(f);
    var wIn := SmoothStep(inner - edge, inner + edge, r);
    var wOut := 1.0 - SmoothStep(outer - edge, outer + edge, r);
    assert 0.0 < wIn * wOut <==> InShellBand(f, r) by {
      if InShellBand(f, r) {
        assert 0.0 < wIn && 0.0 < wOut;
      }
    }
    assert wIn * wOut <= 1.0 by {
      assert wIn * wOut <= wIn * 1.0;
    }
    ClampReal(wIn * wOut, 0.0, 1.0)
  }

  /** The magnitude a source of the given profile produces at softened radius `r`. */
  function Magnitude(m: Math, f: Falloff, r: real, amp: real, gamma: real): real
    requires 0.0 < r
  {
    match f.profile
    case Power => amp * Pow(m, r, gamma)
    case InversePower => amp / Pow(m, r, MaxReal(0.0001, gamma))
    case Gaussian =>
      var sigma := MaxReal(0.0001, f.sigma);
      var x := r / sigma;
      amp * Exp(m, -Mul(x, x))
    case Shell => amp * ShellWeight(f, r) * Pow(m, r, gamma)
  }

  /** The distance to the source, softened so that it is never zero. */
  function SoftenedRadius(m: Math, fs: FieldSource, p: Vec3): (r: real)
    ensures 0.0 < r
  {
    var rRaw := Length(m, Sub(p, fs.position));
    var soft := MaxReal(0.00001, fs.softening);
    NonNegativeProduct(rRaw, rRaw);
    PositiveProduct(soft, soft);
    Sqrt(m, Mul(rRaw, rRaw) + Mul(soft, soft))
  }

  /** A source is skipped when disabled or when its softened radius falls outside the
      zone `[minRadius, maxRadius]` (a bound of zero or less means no bound). */
  predicate Gated(m: Math, fs: FieldSource, p: Vec3) {
    || !fs.enabled
    || (fs.minRadius > 0.0 && SoftenedRadius(m, fs, p) < fs.minRadius)
    || (fs.maxRadius > 0.0 && SoftenedRadius(m, fs, p) > fs.maxRadius)
  }

  /** The base amplitude of a source: the global beta times the source's scale, the two
      renderer gains and the source's strength. */
  function Amplitude(gains: Gains, fs: FieldSource, globalBeta: real): real {
    var betaScale := if fs.overrideBetaScale then fs.betaScale else 1.0;
    globalBeta * betaScale * gains.bendScale * gains.fieldStrength * fs.strength
  }

  function EffectiveGamma(fs: FieldSource, globalGamma: real): real {
    if fs.overrideGamma then fs.gamma else globalGamma
  }

  /** The unit vector from `p` toward the source, reversed for a repelling source. */
  function Direction(m: Math, fs: FieldSource, p: Vec3): Vec3 {
    var dir := Scale(Neg(Sub(p, fs.position)), 1.0 / SoftenedRadius(m, fs, p));
    if !fs.attract then Neg(dir) else dir
  }

  /** What one source adds to the acceleration at `p`. */
  function Contribution(m: Math, gains: Gains, fs: FieldSource, p: Vec3,
                        globalBeta: real, globalGamma: real): (a: Vec3)
    ensures Gated(m, fs, p) ==> a == Zero
  {
    if Gated(m, fs, p) then Zero
    else
      var r := SoftenedRadius(m, fs, p);
      var mag := Magnitude(m, fs.falloff, r, Amplitude(gains, fs, globalBeta), EffectiveGamma(fs, globalGamma));
      Scale(Direction(m, fs, p), mag)
  }

  function NodeContribution(m: Math, gains: Gains, n: GroupNode<FieldSource>, p: Vec3,
                            globalBeta: real, globalGamma: real): Vec3 {
    match n
    case Other => Zero
    case Typed(fs) => Contribution(m, gains, fs, p, globalBeta, globalGamma)
  }

  /** The superposition of the contributions of all sources, in group order. */
  function AccelSum(m: Math, gains: Gains, sources: seq<GroupNode<FieldSource>>, p: Vec3,
                    globalBeta: real, globalGamma: real): Vec3
  {
    if sources == [] then Zero
    else
      Add(AccelSum(m, gains, sources[..|sources| - 1], p, globalBeta, globalGamma),
          NodeContribution(m, gains, sources[|sources| - 1], p, globalBeta, globalGamma))
  }

  /** One more source adds its contribution to the running sum. */
  lemma AccelSumStep(m: Math, gains: Gains, sources: seq<GroupNode<FieldSource>>, i: nat, p: Vec3,
                     globalBeta: real, globalGamma: real)
    requires i < |sources|
    ensures AccelSum(m, gains, sources[..i + 1], p, globalBeta, globalGamma)
            == Add(AccelSum(m, gains, sources[..i], p, globalBeta, globalGamma),
                   NodeContribution(m, gains, sources[i], p, globalBeta, globalGamma))
  {
    var prefix := sources[..i + 1];
    assert prefix[..|prefix| - 1] == sources[..i];
    assert prefix[|prefix| - 1] == sources[i];
  }

  /** Sums, source by source, the acceleration the field sources exert on `p`. */
  method ComputeAccelerationAtPoint(m: Math, gains: Gains, p: Vec3,
                                    sources: seq<GroupNode<FieldSource>>,
                                    globalBeta: real, globalGamma: real)
    returns (aSum: Vec3)
    ensures aSum == AccelSum(m, gains, sources, p, globalBeta, globalGamma)
  {
    aSum := Zero;
    for i := 0 to |sources|
      invariant aSum == AccelSum(m, gains, sources[..i], p, globalBeta, globalGamma)
    {
      AccelSumStep(m, gains, sources, i, p, globalBeta, globalGamma);
      if sources[i].Other? {
        continue;
      }
      var fs := sources[i].node;
      if !fs.enabled {
        continue;
      }
      var center := fs.position;
      var rvec := Sub(p, center);
      var rRaw := Length(m, rvec);
      var soft := MaxReal(0.00001, fs.softening);
      var r := Sqrt(m, Mul(rRaw, rRaw) + Mul(soft, soft));
      assert r == SoftenedRadius(m, fs, p);
      if fs.minRadius > 0.0 && r < fs.minRadius {
        continue;
      }
      if fs.maxRadius > 0.0 && r > fs.maxRadius {
        continue;
      }
      var dir := Scale(Neg(rvec), 1.0 / r);
      if !fs.attract {
        dir := Neg(dir);
      }
      assert dir == Direction(m, fs, p);
      var gamma := EffectiveGamma(fs, globalGamma);
      var amp := Amplitude(gains, fs, globalBeta);
      var mag := Magnitude(m, fs.falloff, r, amp, gamma);
      assert Scale(dir, mag) == NodeContribution(m, gains, sources[i], p, globalBeta, globalGamma);
      aSum := Add(aSum, Scale(dir, mag));
    }
    assert sources[..|sources|] == sources;
  }

  /** Flipping `Attract` exactly negates a source's contribution and keeps its length. */
  lemma AttractFlipNegates(m: Math, gains: Gains, fs: FieldSource, p: Vec3,
                           globalBeta: real, globalGamma: real)
    ensures Contribution(m, gains, fs.(attract := !fs.attract), p, globalBeta, globalGamma)
            == Neg(Contribution(m, gains, fs, p, globalBeta, globalGamma))
    ensures Length(m, Contribution(m, gains, fs.(attract := !fs.attract), p, globalBeta, globalGamma))
            == Length(m, Contribution(m, gains, fs, p, globalBeta, globalGamma))
  {
    var c := Contribution(m, gains, fs, p, globalBeta, globalGamma);
    GatingIgnoresAttract(m, fs, p);
    if Gated(m, fs, p) {
      assert Neg(Zero) == Zero;
    } else {
      UngatedFlipNegates(m, gains, fs, p, globalBeta, globalGamma);
    }
    NegatedLength(m, c);
  }

  lemma GatingIgnoresAttract(m: Math, fs: FieldSource, p: Vec3)
    ensures Gated(m, fs.(attract := !fs.attract), p) == Gated(m, fs, p)
  {
    assert SoftenedRadius(m, fs.(attract := !fs.attract), p) == SoftenedRadius(m, fs, p);
  }

  lemma UngatedFlipNegates(m: Math, gains: Gains, fs: FieldSource, p: Vec3,
                           globalBeta: real, globalGamma: real)
    requires !Gated(m, fs, p)
    ensures Contribution(m, gains, fs.(attract := !fs.attract), p, globalBeta, globalGamma)
            == Neg(Contribution(m, gains, fs, p, globalBeta, globalGamma))
  {
    var flipped := fs.(attract := !fs.attract);
    var r := SoftenedRadius(m, fs, p);
    assert SoftenedRadius(m, flipped, p) == r;
    var amp := Amplitude(gains, fs, globalBeta);
    var gamma := EffectiveGamma(fs, globalGamma);
    var mag := Magnitude(m, fs.falloff, r, amp, gamma);
    var d := Direction(m, fs, p);
    assert !Gated(m, flipped, p);
    assert Amplitude(gains, flipped, globalBeta) == amp;
    assert EffectiveGamma(flipped, globalGamma) == gamma;
    assert Contribution(m, gains, fs, p, globalBeta, globalGamma) == Scale(d, mag);
    assert Contribution(m, gains, flipped, p, globalBeta, globalGamma)
           == Scale(Direction(m, flipped, p), mag);
    assert Direction(m, flipped, p) == Neg(d);
    ScaleNeg(d, mag);
  }

  lemma ScaleNeg(v: Vec3, k: real)
    ensures Scale(Neg(v), k) == Neg(Scale(v, k))
  {
  }

  lemma NegatedLength(m: Math, v: Vec3)
    ensures Length(m, Neg(v)) == Length(m, v)
  {
    NegatedLengthSquared(v);
  }

  lemma NegatedLengthSquared(v: Vec3)
    ensures LengthSquared(Neg(v)) == LengthSquared(v)
  {
    assert (-v.x) * (-v.x) == v.x * v.x;
    assert (-v.y) * (-v.y) == v.y * v.y;
    assert (-v.z) * (-v.z) == v.z * v.z;
  }

  /** An attracting source with a positive magnitude pulls `p` toward itself: the
      contribution has a positive component along the direction from `p` to the source. */
  lemma AttractingPullsTowardSource(m: Math, gains: Gains, fs: FieldSource, p: Vec3,
                                    globalBeta: real, globalGamma: real)
    requires fs.attract && !Gated(m, fs, p) && p != fs.position
    requires 0.0 < Magnitude(m, fs.falloff, SoftenedRadius(m, fs, p),
                             Amplitude(gains, fs, globalBeta), EffectiveGamma(fs, globalGamma))
    ensures 0.0 < Dot(Contribution(m, gains, fs, p, globalBeta, globalGamma), Sub(fs.position, p))
  {
    var r := SoftenedRadius(m, fs, p);
    var mag := Magnitude(m, fs.falloff, r, Amplitude(gains, fs, globalBeta), EffectiveGamma(fs, globalGamma));
    var toSource := Sub(fs.position, p);
    assert Neg(Sub(p, fs.position)) == toSource;
    var u := Scale(toSource, 1.0 / r);
    assert Contribution(m, gains, fs, p, globalBeta, globalGamma) == Scale(u, mag);
    ScaledDot(toSource, 1.0 / r, mag);
    PositiveProduct(1.0 / r, mag);
    SquaresNonNegative(toSource);
    PositiveProduct(Mul(1.0 / r, mag), LengthSquared(toSource));
  }

  /** Scaling a vector twice and projecting it on itself multiplies its squared length. */
  lemma ScaledDot(v: Vec3, a: real, b: real)
    ensures Dot(Scale(Scale(v, a), b), v) == Mul(Mul(a, b), LengthSquared(v))
  {
    assert v.x * a * b * v.x == a * b * (v.x * v.x);
    assert v.y * a * b * v.y == a * b * (v.y * v.y);
    assert v.z * a * b * v.z == a * b * (v.z * v.z);
  }

  /** Inside its band (soft edges included) a Shell source of non-zero amplitude has a
      non-zero magnitude; outside it the magnitude is zero. */
  lemma ShellMagnitudeBand(m: Math, f: Falloff, r: real, amp: real, gamma: real)
    requires f.profile == Shell && 0.0 < r && amp != 0.0
    ensures Magnitude(m, f, r, amp, gamma) != 0.0 <==> InShellBand(f, r)
  {
    var w := ShellWeight(f, r);
    var pw := Pow(m, r, gamma);
    assert 0.0 < pw;
    if InShellBand(f, r) {
      assert amp * w != 0.0;
      assert amp * w * pw != 0.0;
    } else {
      assert w == 0.0;
    }
  }

  /** The accumulated field is a linear superposition: the sources of two groups add up. */
  lemma {:induction false} Superposition(m: Math, gains: Gains, s1: seq<GroupNode<FieldSource>>,
                                         s2: seq<GroupNode<FieldSource>>, p: Vec3,
                                         globalBeta: real, globalGamma: real)
    ensures AccelSum(m, gains, s1 + s2, p, globalBeta, globalGamma)
            == Add(AccelSum(m, gains, s1, p, globalBeta, globalGamma),
                   AccelSum(m, gains, s2, p, globalBeta, globalGamma))
  {
    if s2 == [] {
      assert s1 + s2 == s1;
      assert AccelSum(m, gains, s2, p, globalBeta, globalGamma) == Zero;
    } else {
      var s := s1 + s2;
      var init := s2[..|s2| - 1];
      var last := NodeContribution(m, gains, s2[|s2| - 1], p, globalBeta, globalGamma);
      assert s[..|s| - 1] == s1 + init;
      assert s[|s| - 1] == s2[|s2| - 1];
      assert AccelSum(m, gains, s, p, globalBeta, globalGamma)
             == Add(AccelSum(m, gains, s1 + init, p, globalBeta, globalGamma), last);
      assert AccelSum(m, gains, s2, p, globalBeta, globalGamma)
             == Add(AccelSum(m, gains, init, p, globalBeta, globalGamma), last);
      Superposition(m, gains, s1, init, p, globalBeta, globalGamma);
      AddAssociative(AccelSum(m, gains, s1, p, globalBeta, globalGamma),
                     AccelSum(m, gains, init, p, globalBeta, globalGamma), last);
    }
  }

  /** Disabled sources and nodes of other classes contribute nothing. */
  lemma {:induction false} InactiveSourcesContributeNothing(m: Math, gains: Gains,
                                                           sources: seq<GroupNode<FieldSource>>,
                                                           p: Vec3, globalBeta: real, globalGamma: real)
    requires forall i :: 0 <= i < |sources| ==> sources[i].Other? || !sources[i].node.enabled
    ensures AccelSum(m, gains, sources, p, globalBeta, globalGamma) == Zero
  {
    if sources != [] {
      InactiveSourcesContributeNothing(m, gains, sources[..|sources| - 1], p, globalBeta, globalGamma);
    }
  }
}
