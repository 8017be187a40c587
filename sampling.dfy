/** What one rebuild of RayBeamRenderer.cs stamps: the renderer's settings, the emitters,
    the step of a ray (field integration or the analytic bend), the collision test on a
    stride, and the samples each ray, each emitter and the whole scene produce, in the
    order `Rebuild` writes them (emitter-major, then ray-major, then step-major). */
module Sampling {
  import opened Numerics
  import opened Field
  import opened Collision

  /** A Godot `Color`. */
  datatype Color = Color(r: real, g: real, b: real, a: real)

  /** `Color.Lerp`: every channel, alpha included, moves by the same weight. */
  function ColorLerp(from: Color, to: Color, weight: real): Color {
    Color(Lerp(from.r, to.r, weight), Lerp(from.g, to.g, weight),
          Lerp(from.b, to.b, weight), Lerp(from.a, to.a, weight))
  }

  /** One multimesh instance: a transform (basis and origin) and a color. */
  datatype Instance = Instance(basis: Basis, origin: Vec3, color: Color)

  /** The contents of an instance slot the engine has just allocated: all zeros. */
  const Cleared: Instance :=
    Instance(Basis(Zero, Zero, Zero), Zero, Color(0.0, 0.0, 0.0, 0.0))

  /** The renderer's exported settings. */
  datatype Config = Config(
    updateEveryFrame: bool,
    stepsPerRay: Int32,
    stepLength: real,
    quadSize: real,
    bendScale: real,
    alpha: real,
    stopOnHit: bool,
    collisionMask: nat,
    useIntegratedField: bool,
    fieldCenter: Vec3,
    fieldCenterIsCamera: bool,
    fieldStrength: real,
    colorByField: bool,
    fieldColorGain: real,
    hotColor: Color,
    renderEveryNSteps: Int32,
    minStepLength: real,
    maxStepLength: real,
    stepAdaptGain: real,
    collisionEveryNSteps: Int32,
    collisionRadius: real,
    useSphereSweepCollision: bool,
    useInsightPlaneFilter: bool,
    collisionRaySubdivideThreshold: real,
    maxCollisionSubsteps: Int32)

  /** A ray emitter with the fields the renderer reads; `origin` and `basis` are its
      global transform. */
  datatype Emitter = Emitter(
    origin: Vec3,
    basis: Basis,
    rayColor: Color,
    rays: Int32,
    spreadDegrees: real,
    maxDistance: real,
    intensity: real,
    useFan: bool,
    fanYawDegrees: real,
    fanPitchDegrees: real)

  /** What the host provides besides arithmetic: `Vector3.Rotated(axis, angle)`, the
      physics space, and the values `NextDouble` returns, in order, from the renderer's
      seeded random generator. */
  datatype Host = Host(math: Math, rotated: (Vec3, Vec3, real) -> Vec3, space: Space,
                       draw: nat -> real)

  /** Everything one rebuild fixes before it traces rays: settings, host, the normalized
      camera axes, the field sources (the group, in order), the fallback field center,
      beta and gamma, and the broad-phase plane when that filter is active. */
  datatype Frame = Frame(
    cfg: Config,
    host: Host,
    camRight: Vec3,
    camUp: Vec3,
    camForward: Vec3,
    sources: seq<GroupNode<FieldSource>>,
    center: Vec3,
    beta: real,
    gamma: real,
    filterPlane: Option<Plane>)

  /** The settings the model needs to stay within real arithmetic: with a non-negative
      adaptation gain the adaptive step never divides by zero. */
  predicate ValidConfig(cfg: Config) {
    0.0 <= cfg.stepAdaptGain
  }

  /** The integrator's state between steps. */
  datatype StepState = StepState(p: Vec3, v: Vec3, traveled: real)

  /** Where one ray starts and how it is drawn. */
  datatype RayStart = RayStart(origin: Vec3, dir: Vec3, bendDir: Vec3, baseColor: Color,
                               maxDistance: real, intensity: real)

  // ---------------------------------------------------------------------------
  // Ray directions

  /** `Mathf.Tau`. */
  const Tau: real := 2.0 * Pi

  /** The number of rays an emitter casts: at least one. */
  function RayCount(e: Emitter): (n: int)
    ensures 1 <= n && e.rays <= n
  {
    MaxInt(1, e.rays)
  }

  /** The yaw of ray `r` of a fan of `rays` rays spanning `yawTotal`. A single ray gets
      weight 0 and so the left edge of the fan, not its centre. */
  function FanYaw(yawTotal: real, rays: int, r: int): real
    requires 1 <= rays
  {
    var u := if rays == 1 then 0.0 else r as real / (rays - 1) as real;
    Lerp(-yawTotal * 0.5, yawTotal * 0.5, u)
  }

  /** A one-ray fan points at `-yawTotal / 2`. */
  lemma FanSingleRayAtLeftEdge(yawTotal: real)
    ensures FanYaw(yawTotal, 1, 0) == -yawTotal / 2.0
  {
  }

  /** A fan of two or more rays starts at `-yawTotal / 2` and ends at `+yawTotal / 2`. */
  lemma FanEndpoints(yawTotal: real, rays: int)
    requires 2 <= rays
    ensures FanYaw(yawTotal, rays, 0) == -yawTotal / 2.0
    ensures FanYaw(yawTotal, rays, rays - 1) == yawTotal / 2.0
  {
  }

  /** Consecutive rays of a fan are `yawTotal / (rays - 1)` apart. */
  lemma FanEvenSpacing(yawTotal: real, rays: int, r: int)
    requires 2 <= rays
    ensures FanYaw(yawTotal, rays, r + 1) - FanYaw(yawTotal, rays, r) == yawTotal / (rays - 1) as real
  {
    var n := (rays - 1) as real;
    var w0 := r as real / n;
    var w1 := (r + 1) as real / n;
    assert w1 - w0 == 1.0 / n;
    assert yawTotal * w1 - yawTotal * w0 == yawTotal * (w1 - w0);
    assert yawTotal * (1.0 / n) == yawTotal / n;
  }

  /** Rays `r` and `rays - 1 - r` of a fan mirror each other. */
  lemma FanSymmetric(yawTotal: real, rays: int, r: int)
    requires 2 <= rays
    ensures FanYaw(yawTotal, rays, rays - 1 - r) == -FanYaw(yawTotal, rays, r)
  {
    var n := (rays - 1) as real;
    var w := r as real / n;
    ComplementQuotient(n, r as real);
    assert yawTotal * (1.0 - w) == yawTotal - yawTotal * w;
  }

  lemma ComplementQuotient(n: real, x: real)
    requires n != 0.0
    ensures (n - x) / n == 1.0 - x / n
  {
    assert Mul((n - x) / n, n) == n - x;
    assert Mul(x / n, n) == x;
    assert Mul(1.0 - x / n, n) == n - Mul(x / n, n);
    CancelFactor((n - x) / n, 1.0 - x / n, n);
  }

  /** A non-zero factor cancels. */
  lemma CancelFactor(a: real, b: real, n: real)
    requires n != 0.0 && Mul(a, n) == Mul(b, n)
    ensures a == b
  {
    assert Mul(a - b, n) == Mul(a, n) - Mul(b, n);
  }

  /** The fan direction of ray `r`: forward (-Z) turned by the yaw about up, then by the
      pitch about right. */
  function FanDirection(host: Host, e: Emitter, r: int): Vec3 {
    var yaw := FanYaw(DegToRad(e.fanYawDegrees), RayCount(e), r);
    var forward := Vec3(0.0, 0.0, -1.0);
    host.rotated(host.rotated(forward, Vec3(0.0, 1.0, 0.0), yaw),
                 Vec3(1.0, 0.0, 0.0), DegToRad(e.fanPitchDegrees))
  }

  /** `RandomInCone`: a direction around -Z within the cone, from two uniform draws. */
  function RandomInCone(m: Math, u: real, v: real, coneAngle: real): Vec3 {
    var cosTheta := Lerp(1.0, m.cos(coneAngle), u);
    SquareNonNegative(cosTheta);
    var sinTheta := Sqrt(m, MaxReal(0.0, 1.0 - Mul(cosTheta, cosTheta)));
    var phi := Tau * v;
    Normalized(m, Vec3(sinTheta * m.cos(phi), sinTheta * m.sin(phi), -cosTheta))
  }

  /** How many random draws the whole emitter consumes. */
  function DrawsUsed(e: Emitter): nat { if e.useFan then 0 else 2 * RayCount(e) }

  /** Ray `r`'s direction in the emitter's local frame; a cone ray uses draws `k`, `k+1`. */
  function LocalDirection(host: Host, e: Emitter, r: int, k: nat): Vec3 {
    if e.useFan then FanDirection(host, e, r)
    else RandomInCone(host.math, host.draw(k), host.draw(k + 1), DegToRad(e.spreadDegrees))
  }

  /** The bend direction of the analytic mode: the ray's screen-space direction, turned
      back into the camera plane; straight right when the ray points at the camera axis. */
  function BendDirection(fr: Frame, dir: Vec3): Vec3 {
    var m := fr.host.math;
    var dx := Dot(dir, fr.camRight);
    var dy := Dot(dir, fr.camUp);
    SquareNonNegative(dx);
    SquareNonNegative(-dy);
    var len := Sqrt(m, Mul(dx, dx) + Mul(-dy, -dy));
    var nx := if len > 0.000001 then dx / len else 1.0;
    var ny := if len > 0.000001 then -dy / len else 0.0;
    Normalized(m, Add(Scale(fr.camRight, nx), Scale(fr.camUp, -ny)))
  }

  /** Where ray `r` of the emitter starts, `k` being the next unused random draw. */
  function RayStartFor(fr: Frame, e: Emitter, r: int, k: nat): RayStart {
    var dir := Normalized(fr.host.math, Transform(e.basis, LocalDirection(fr.host, e, r, k)));
    RayStart(e.origin, dir, BendDirection(fr, dir), e.rayColor, e.maxDistance, e.intensity)
  }

  // ---------------------------------------------------------------------------
  // One step of a ray

  /** The field at `p`: the field sources when the group has any member, otherwise the
      single-center fallback pulling toward the field center. */
  function FieldAcceleration(fr: Frame, p: Vec3): Vec3 {
    var m := fr.host.math;
    if |fr.sources| > 0 then
      AccelSum(m, Gains(fr.cfg.bendScale, fr.cfg.fieldStrength), fr.sources, p, fr.beta, fr.gamma)
    else
      var rvec := Sub(p, fr.center);
      var rr := MaxReal(0.001, Length(m, rvec));
      var k := fr.beta * Pow(m, rr, fr.gamma) * fr.cfg.bendScale * fr.cfg.fieldStrength;
      Scale(Vec3(-rvec.x / rr, -rvec.y / rr, -rvec.z / rr), k)
  }

  /** The largest acceleration the integrator uses. */
  const MaxAcceleration: real := 50.0

  /** An acceleration longer than 50 is rescaled to length 50; others pass unchanged. */
  function CapAcceleration(m: Math, a: Vec3): (c: Vec3)
    ensures Length(m, a) <= MaxAcceleration ==> c == a
  {
    var aLen := Length(m, a);
    if aLen > MaxAcceleration then
      Scale(Vec3(a.x / aLen, a.y / aLen, a.z / aLen), MaxAcceleration)
    else a
  }

  /** With an exact square root, the square root of a square is the base. */
  lemma SqrtOfSquare(m: Math, y: real)
    requires ExactSqrt(m) && 0.0 <= y
    ensures Sqrt(m, Mul(y, y)) == y
  {
    NonNegativeProduct(y, y);
    var s := Sqrt(m, Mul(y, y));
    assert Mul(s, s) == Mul(y, y);
    assert Mul(s - y, s + y) == Mul(s, s) - Mul(y, y);
    if s != y {
      assert 0.0 < s + y;
      CancelFactor(s - y, 0.0, s + y);
    }
  }

  /** With an exact square root, the acceleration the integrator uses is at most 50 long;
      a capped one is exactly 50 long. */
  lemma CappedAccelerationBound(m: Math, a: Vec3)
    requires ExactSqrt(m)
    ensures Length(m, CapAcceleration(m, a)) <= MaxAcceleration
    ensures Length(m, a) > MaxAcceleration ==> Length(m, CapAcceleration(m, a)) == MaxAcceleration
  {
    var aLen := Length(m, a);
    if aLen > MaxAcceleration {
      var c := CapAcceleration(m, a);
      var k := MaxAcceleration / aLen;
      SquaresNonNegative(a);
      assert Mul(aLen, aLen) == LengthSquared(a);
      assert c == Scale(a, k) by {
        assert a.x / aLen * MaxAcceleration == a.x * k;
        assert a.y / aLen * MaxAcceleration == a.y * k;
        assert a.z / aLen * MaxAcceleration == a.z * k;
      }
      ScaledLengthSquared(a, k);
      assert Mul(k, aLen) == MaxAcceleration;
      assert Mul(Mul(k, k), Mul(aLen, aLen)) == Mul(Mul(k, aLen), Mul(k, aLen));
      assert LengthSquared(c) == Mul(MaxAcceleration, MaxAcceleration);
      SqrtOfSquare(m, MaxAcceleration);
    }
  }

  lemma ScaledLengthSquared(v: Vec3, k: real)
    ensures LengthSquared(Scale(v, k)) == Mul(Mul(k, k), LengthSquared(v))
  {
    assert v.x * k * (v.x * k) == k * k * (v.x * v.x);
    assert v.y * k * (v.y * k) == k * k * (v.y * v.y);
    assert v.z * k * (v.z * k) == k * k * (v.z * v.z);
  }

  /** The adaptive step: the base step shrunk by the acceleration's magnitude, clamped
      to `[MinStepLength, MaxStepLength]`. */
  function AdaptiveStep(cfg: Config, aMag: real): (step: real)
    requires ValidConfig(cfg) && 0.0 <= aMag
    ensures cfg.minStepLength <= cfg.maxStepLength ==>
              cfg.minStepLength <= step <= cfg.maxStepLength
    ensures aMag == 0.0 && cfg.minStepLength <= cfg.stepLength <= cfg.maxStepLength ==>
              step == cfg.stepLength
  {
    NonNegativeProduct(aMag, cfg.stepAdaptGain);
    ClampReal(cfg.stepLength / (1.0 + Mul(aMag, cfg.stepAdaptGain)),
              cfg.minStepLength, cfg.maxStepLength)
  }

  /** A stronger field never lengthens the step (for a non-negative base step and an
      ordered clamp range). */
  lemma AdaptiveStepMonotone(cfg: Config, a1: real, a2: real)
    requires ValidConfig(cfg) && 0.0 <= a1 <= a2
    requires 0.0 <= cfg.stepLength && cfg.minStepLength <= cfg.maxStepLength
    ensures AdaptiveStep(cfg, a2) <= AdaptiveStep(cfg, a1)
  {
    var g := cfg.stepAdaptGain;
    var d1 := 1.0 + Mul(a1, g);
    var d2 := 1.0 + Mul(a2, g);
    NonNegativeProduct(a1, g);
    NonNegativeProduct(a2 - a1, g);
    assert Mul(a2, g) == Mul(a1, g) + Mul(a2 - a1, g);
    assert 1.0 <= d1 <= d2;
    var q1 := cfg.stepLength / d1;
    var q2 := cfg.stepLength / d2;
    assert Mul(q1, d1) == cfg.stepLength;
    assert Mul(q2, d2) == cfg.stepLength;
    assert 0.0 <= q2;
    NonNegativeProduct(q2, d2 - d1);
    assert Mul(q1 - q2, d1) == Mul(q2, d2 - d1);
    NonNegativeFactor(q1 - q2, d1);
  }

  /** A product with a positive factor keeps the other factor's sign. */
  lemma NonNegativeFactor(x: real, d: real)
    requires 0.0 < d && 0.0 <= Mul(x, d)
    ensures 0.0 <= x
  {
    if x < 0.0 {
      PositiveProduct(-x, d);
    }
  }

  /** The outcome of moving a ray by one step: the acceleration used, the new point, the
      new velocity and the distance travelled so far. */
  datatype Move = Move(a: Vec3, next: Vec3, v: Vec3, traveled: real)

  /** Integrated mode, given the field at the current point: cap the field, pick the
      adaptive step, turn the velocity by the field over that step and advance along the
      new velocity by the same step. The distance travelled never decreases, which the
      distance budget relies on. */
  function MoveInField(fr: Frame, st: StepState, field: Vec3): (mv: Move)
    requires ValidConfig(fr.cfg)
    ensures mv.a == CapAcceleration(fr.host.math, field)
    ensures st.traveled <= mv.traveled
    ensures fr.cfg.minStepLength <= fr.cfg.maxStepLength ==>
              exists step :: fr.cfg.minStepLength <= step <= fr.cfg.maxStepLength
                             && mv.v == Normalized(fr.host.math, Add(st.v, Scale(mv.a, step)))
                             && mv.next == Add(st.p, Scale(mv.v, step))
  {
    var m := fr.host.math;
    var a := CapAcceleration(m, field);
    var step := AdaptiveStep(fr.cfg, Length(m, a));
    var v := Normalized(m, Add(st.v, Scale(a, step)));
    var next := Add(st.p, Scale(v, step));
    Move(a, next, v, st.traveled + Length(m, Sub(next, st.p)))
  }

  /** Analytic mode: the point at distance `s * StepLength` along the ray, displaced
      along the bend direction by `beta * t^gamma * BendScale`. */
  function AnalyticMove(fr: Frame, ray: RayStart, s: int, st: StepState): Move {
    var t := s as real * fr.cfg.stepLength;
    var bend := fr.beta * Pow(fr.host.math, t, fr.gamma) * fr.cfg.bendScale;
    Move(Zero, Add(Add(ray.origin, Scale(ray.dir, t)), Scale(ray.bendDir, bend)), st.v, st.traveled)
  }

  function StepMove(fr: Frame, ray: RayStart, s: int, st: StepState): Move
    requires ValidConfig(fr.cfg)
  {
    if fr.cfg.useIntegratedField then MoveInField(fr, st, FieldAcceleration(fr, st.p)) else AnalyticMove(fr, ray, s, st)
  }

  /** Alpha fades quadratically from the full alpha at the first step to zero at the last. */
  function SampleAlpha(cfg: Config, ray: RayStart, s: int): real {
    var step01 := if cfg.stepsPerRay <= 0 then 0.0 else s as real / cfg.stepsPerRay as real;
    var fade := (1.0 - step01) * (1.0 - step01);
    cfg.alpha * ray.intensity * fade
  }

  /** The sample color: the ray color, heated toward `HotColor` by the field strength. */
  function SampleColor(fr: Frame, ray: RayStart, a: Vec3): Color {
    if fr.cfg.colorByField then
      ColorLerp(ray.baseColor, fr.cfg.hotColor,
                ClampReal(Length(fr.host.math, a) * fr.cfg.fieldColorGain, 0.0, 1.0))
    else ray.baseColor
  }

  /** The camera-facing quad transform every sample uses. */
  function BillboardBasis(fr: Frame): Basis {
    Basis(Scale(fr.camRight, fr.cfg.quadSize), Scale(fr.camUp, fr.cfg.quadSize), fr.camForward)
  }

  /** The instance `SetBillboardInstance` writes: the camera-facing quad at `pos`, its
      color with the alpha replaced by the clamped alpha. */
  function Billboard(fr: Frame, pos: Vec3, c: Color, alpha: real): (inst: Instance)
    ensures 0.0 <= inst.color.a <= 1.0
    ensures inst.origin == pos && inst.basis == BillboardBasis(fr)
  {
    Instance(BillboardBasis(fr), pos, c.(a := ClampReal(alpha, 0.0, 1.0)))
  }

  /** Whether step `s` runs the collision test: only with StopOnHit, never on the first
      step, and then every `max(1, CollisionEveryNSteps)` steps. */
  predicate CollisionStep(cfg: Config, s: int) {
    cfg.stopOnHit && s > 0 && s % MaxInt(1, cfg.collisionEveryNSteps) == 0
  }

  /** Whether step `s` stamps a sample: every `max(1, RenderEveryNSteps)` steps. */
  predicate StampStep(cfg: Config, s: int) {
    s % MaxInt(1, cfg.renderEveryNSteps) == 0
  }

  /** The narrow phase on a segment that passed the plane filter: nothing for a
      degenerate segment, otherwise the sphere sweep or the subdivided ray cast. */
  function SegmentHit(fr: Frame, p: Vec3, next: Vec3): Option<Vec3> {
    var cfg := fr.cfg;
    var m := fr.host.math;
    var segLen := Length(m, Sub(next, p));
    if segLen > MinSegmentLength then
      if cfg.useSphereSweepCollision then
        SweepSegmentHit(m, fr.host.space, p, next, cfg.collisionMask, cfg.collisionRadius)
      else
        SubdividedHit(m, fr.host.space, p, next, cfg.collisionMask,
                      SubstepCount(segLen, cfg.collisionRaySubdivideThreshold, cfg.maxCollisionSubsteps))
    else None
  }

  /** The collision test of step `s` on the segment from `p` to `next`. */
  function CollisionHit(fr: Frame, s: int, p: Vec3, next: Vec3): (hit: Option<Vec3>)
    ensures !CollisionStep(fr.cfg, s) ==> hit == None
    ensures fr.filterPlane.Some? && !SegmentCrossesPlane(p, next, fr.filterPlane.value, fr.cfg.collisionRadius)
            ==> hit == None
  {
    if !CollisionStep(fr.cfg, s) then None
    else if fr.filterPlane.Some? && !SegmentCrossesPlane(p, next, fr.filterPlane.value, fr.cfg.collisionRadius) then None
    else SegmentHit(fr, p, next)
  }

  /** What `SetBillboardInstance` is given for one sample: where, which color, which alpha. */
  datatype Stamp = Stamp(pos: Vec3, color: Color, alpha: real)

  /** The instance a stamp becomes. */
  function Sample(fr: Frame, x: Stamp): Instance {
    Billboard(fr, x.pos, x.color, x.alpha)
  }

  /** How step `s` of a ray ends: the ray runs out of distance, hits something (one sample
      at the hit point), or goes on, stamping a sample at the new point on stamp steps. */
  datatype Outcome = OutOfRange | Hit(at: Stamp) | Advance(stamp: Option<Stamp>, next: StepState)

  function StepOutcome(fr: Frame, ray: RayStart, s: int, st: StepState): Outcome
    requires ValidConfig(fr.cfg)
  {
    var mv := StepMove(fr, ray, s, st);
    if fr.cfg.useIntegratedField && mv.traveled > ray.maxDistance then OutOfRange
    else
      var c := SampleColor(fr, ray, mv.a);
      var alpha := SampleAlpha(fr.cfg, ray, s);
      match CollisionHit(fr, s, st.p, mv.next)
      case Some(hp) => Hit(Stamp(hp, c, alpha))
      case None =>
        Advance(if StampStep(fr.cfg, s) then Some(Stamp(mv.next, c, alpha)) else None,
                StepState(mv.next, mv.v, mv.traveled))
  }

  /** A step that goes on stamps exactly on the stamp cadence. */
  lemma AdvanceStampsOnCadence(fr: Frame, ray: RayStart, s: int, st: StepState)
    requires ValidConfig(fr.cfg)
    ensures StepOutcome(fr, ray, s, st).Advance? ==>
              (StepOutcome(fr, ray, s, st).stamp.Some? <==> StampStep(fr.cfg, s))
  {
  }

  /** The samples one step's outcome stamps: the hit point, the stamp, or nothing. */
  function Emitted(fr: Frame, o: Outcome): (samples: seq<Instance>)
    ensures |samples| <= 1
    ensures forall i :: 0 <= i < |samples| ==> WellFormed(fr, samples[i])
  {
    match o
    case OutOfRange => []
    case Hit(x) => [Sample(fr, x)]
    case Advance(stamp, _) => if stamp.Some? then [Sample(fr, stamp.value)] else []
  }

  /** The samples a ray stamps from step `s` on, in order, with room to spare: each step's
      samples, and the rest of the ray unless the step ended it. */
  function RaySamples(fr: Frame, ray: RayStart, s: int, st: StepState): seq<Instance>
    requires ValidConfig(fr.cfg)
    decreases fr.cfg.stepsPerRay + 1 - s, 1
  {
    if s > fr.cfg.stepsPerRay then [] else StepSamples(fr, ray, s, st)
  }

  /** The samples of step `s` (which the ray takes) and of the steps after it. */
  function StepSamples(fr: Frame, ray: RayStart, s: int, st: StepState): seq<Instance>
    requires ValidConfig(fr.cfg) && s <= fr.cfg.stepsPerRay
    decreases fr.cfg.stepsPerRay + 1 - s, 0
  {
    var o := StepOutcome(fr, ray, s, st);
    Emitted(fr, o) + if o.Advance? then RaySamples(fr, ray, s + 1, o.next) else []
  }

  /** Step `s` of a ray that takes it: its samples, then the rest of the ray unless the
      step ended it. */
  lemma RaySamplesStep(fr: Frame, ray: RayStart, s: int, st: StepState)
    requires ValidConfig(fr.cfg) && s <= fr.cfg.stepsPerRay
    ensures var o := StepOutcome(fr, ray, s, st);
            RaySamples(fr, ray, s, st)
            == Emitted(fr, o) + if o.Advance? then RaySamples(fr, ray, s + 1, o.next) else []
  {
  }

  /** The state a ray starts in. */
  function Initial(ray: RayStart): StepState { StepState(ray.origin, ray.dir, 0.0) }

  /** A ray stamps at most one sample per remaining step. */
  lemma {:induction false} RaySamplesBound(fr: Frame, ray: RayStart, s: int, st: StepState)
    requires ValidConfig(fr.cfg) && 0 <= s
    ensures |RaySamples(fr, ray, s, st)| <= MaxInt(0, fr.cfg.stepsPerRay + 1 - s)
    decreases fr.cfg.stepsPerRay + 1 - s
  {
    if s <= fr.cfg.stepsPerRay {
      match StepOutcome(fr, ray, s, st)
      case OutOfRange =>
      case Hit(x) =>
      case Advance(stamp, st') =>
        RaySamplesBound(fr, ray, s + 1, st');
    }
  }

  /** Every sample is a camera-facing quad with an alpha in [0, 1]. */
  predicate WellFormed(fr: Frame, x: Instance) {
    x.basis == BillboardBasis(fr) && 0.0 <= x.color.a <= 1.0
  }

  lemma {:induction false} RaySamplesWellFormed(fr: Frame, ray: RayStart, s: int, st: StepState)
    requires ValidConfig(fr.cfg)
    ensures forall i :: 0 <= i < |RaySamples(fr, ray, s, st)| ==> WellFormed(fr, RaySamples(fr, ray, s, st)[i])
    decreases fr.cfg.stepsPerRay + 1 - s
  {
    if s <= fr.cfg.stepsPerRay {
      var o := StepOutcome(fr, ray, s, st);
      var here := Emitted(fr, o);
      var rest := if o.Advance? then RaySamples(fr, ray, s + 1, o.next) else [];
      RaySamplesStep(fr, ray, s, st);
      if o.Advance? {
        RaySamplesWellFormed(fr, ray, s + 1, o.next);
      }
      forall i | |here| <= i < |here + rest|
        ensures WellFormed(fr, (here + rest)[i])
      {
        assert (here + rest)[i] == rest[i - |here|];
      }
    }
  }

  /** The number of stamp steps among steps `s` to `last`. */
  function StampSteps(cfg: Config, s: int, last: int): nat
    decreases last + 1 - s
  {
    if s > last then 0 else (if StampStep(cfg, s) then 1 else 0) + StampSteps(cfg, s + 1, last)
  }

  /** Without collisions and in analytic mode a ray never ends early: it stamps exactly one
      sample per stamp step. */
  lemma {:induction false} AnalyticCadence(fr: Frame, ray: RayStart, s: int, st: StepState)
    requires ValidConfig(fr.cfg) && !fr.cfg.stopOnHit && !fr.cfg.useIntegratedField
    ensures |RaySamples(fr, ray, s, st)| == StampSteps(fr.cfg, s, fr.cfg.stepsPerRay)
    decreases fr.cfg.stepsPerRay + 1 - s
  {
    if s <= fr.cfg.stepsPerRay {
      var mv := StepMove(fr, ray, s, st);
      assert CollisionHit(fr, s, st.p, mv.next) == None;
      RaySamplesUnfold(fr, ray, s, st);
      AnalyticCadence(fr, ray, s + 1, StepState(mv.next, mv.v, mv.traveled));
    }
  }

  lemma RaySamplesUnfold(fr: Frame, ray: RayStart, s: int, st: StepState)
    requires ValidConfig(fr.cfg) && s <= fr.cfg.stepsPerRay
    requires !fr.cfg.stopOnHit && !fr.cfg.useIntegratedField
    ensures var mv := StepMove(fr, ray, s, st);
            |RaySamples(fr, ray, s, st)|
            == (if StampStep(fr.cfg, s) then 1 else 0)
               + |RaySamples(fr, ray, s + 1, StepState(mv.next, mv.v, mv.traveled))|
  {
  }

  /** Stamping on every step, steps `0` to `last` hold `last + 1` stamp steps. */
  lemma {:induction false} EveryStepStamps(cfg: Config, s: int, last: int)
    requires cfg.renderEveryNSteps <= 1 && s <= last + 1
    ensures StampSteps(cfg, s, last) == last + 1 - s
    decreases last + 1 - s
  {
    if s <= last {
      EveryStepStamps(cfg, s + 1, last);
    }
  }

  // ---------------------------------------------------------------------------
  // Emitters and the whole scene

  /** The first random draw ray `r` of the emitter uses, `k` being the emitter's first
      draw: fan rays draw nothing, cone rays two each. */
  function ConeDraw(e: Emitter, k: nat, r: nat): nat {
    if e.useFan then k else k + 2 * r
  }

  /** Where each of the emitter's rays starts, in ray order, `k` being the next unused
      draw when the emitter's turn comes. */
  function RayStarts(fr: Frame, e: Emitter, k: nat): (rays: seq<RayStart>)
    ensures |rays| == RayCount(e)
  {
    seq(RayCount(e), r requires 0 <= r => RayStartFor(fr, e, r, ConeDraw(e, k, r)))
  }

  /** Ray starts computed one by one, in ray order, are the emitter's ray starts. */
  lemma StartsInOrder(fr: Frame, e: Emitter, k: nat, rays: seq<RayStart>)
    requires |rays| == RayCount(e)
    requires forall j :: 0 <= j < |rays| ==> rays[j] == RayStartFor(fr, e, j, ConeDraw(e, k, j))
    ensures rays == RayStarts(fr, e, k)
  {
  }

  /** The samples of rays `r` onward, one ray after the other. */
  function RaysFrom(fr: Frame, rays: seq<RayStart>, r: nat): seq<Instance>
    requires ValidConfig(fr.cfg)
    decreases |rays| - r
  {
    if r >= |rays| then []
    else RaySamples(fr, rays[r], 0, Initial(rays[r])) + RaysFrom(fr, rays, r + 1)
  }

  /** The ray starts of each emitter of the list, in order, `k` being the next unused
      draw when the first emitter's turn comes. */
  function EmitterStarts(fr: Frame, emitters: seq<Emitter>, k: nat): (starts: seq<seq<RayStart>>)
    ensures |starts| == |emitters|
    decreases |emitters|
  {
    if emitters == [] then []
    else [RayStarts(fr, emitters[0], k)] + EmitterStarts(fr, emitters[1..], k + DrawsUsed(emitters[0]))
  }

  /** The samples of each emitter's rays, emitter after emitter. */
  function SamplesFrom(fr: Frame, starts: seq<seq<RayStart>>): seq<Instance>
    requires ValidConfig(fr.cfg)
    decreases |starts|
  {
    if starts == [] then [] else RaysFrom(fr, starts[0], 0) + SamplesFrom(fr, starts[1..])
  }

  /** One more emitter's rays come after the samples of the emitters before it. */
  lemma {:induction false} SamplesFromSnoc(fr: Frame, starts: seq<seq<RayStart>>, rays: seq<RayStart>)
    requires ValidConfig(fr.cfg)
    ensures SamplesFrom(fr, starts + [rays]) == SamplesFrom(fr, starts) + RaysFrom(fr, rays, 0)
    decreases |starts|
  {
    if starts == [] {
      assert [] + [rays] == [rays];
      assert [rays][1..] == [];
    } else {
      assert (starts + [rays])[1..] == starts[1..] + [rays];
      SamplesFromSnoc(fr, starts[1..], rays);
    }
  }

  lemma StartsAssociate(done: seq<seq<RayStart>>, rays: seq<RayStart>, later: seq<seq<RayStart>>)
    ensures done + ([rays] + later) == done + [rays] + later
  {
  }

  /** Everything one rebuild stamps, with room to spare. */
  function AllSamples(fr: Frame, emitters: seq<Emitter>): seq<Instance>
    requires ValidConfig(fr.cfg)
  {
    SamplesFrom(fr, EmitterStarts(fr, emitters, 0))
  }

  /** The emitters of the `ray_emitters` group, in group order. */
  function EmitterList(nodes: seq<GroupNode<Emitter>>): (list: seq<Emitter>)
    ensures |list| <= |nodes|
    ensures forall i :: 0 <= i < |list| ==> Typed(list[i]) in nodes
    ensures forall i :: 0 <= i < |nodes| && nodes[i].Typed? ==> nodes[i].node in list
  {
    if nodes == [] then []
    else
      var init := EmitterList(nodes[..|nodes| - 1]);
      match nodes[|nodes| - 1]
      case Typed(e) => init + [e]
      case Other => init
  }

  /** The filter keeps the group's order: the emitters of two consecutive runs of nodes
      are those of the first run followed by those of the second. */
  lemma {:induction false} EmitterListConcat(first: seq<GroupNode<Emitter>>, second: seq<GroupNode<Emitter>>)
    ensures EmitterList(first + second) == EmitterList(first) + EmitterList(second)
    decreases |second|
  {
    if second == [] {
      assert first + second == first;
    } else {
      var init := second[..|second| - 1];
      assert (first + second)[..|first + second| - 1] == first + init;
      assert (first + second)[|first + second| - 1] == second[|second| - 1];
      EmitterListConcat(first, init);
    }
  }

  /** The samples one emitter's rays can stamp, as the renderer counts them. */
  function EmitterCapacity(cfg: Config, e: Emitter): int {
    RayCount(e) * (cfg.stepsPerRay + 1)
  }

  /** The exact sum of the emitters' capacities. */
  function Capacity(cfg: Config, emitters: seq<Emitter>): int {
    if emitters == [] then 0
    else Capacity(cfg, emitters[..|emitters| - 1]) + EmitterCapacity(cfg, emitters[|emitters| - 1])
  }

  /** The capacity as `Rebuild` computes it, in wrapping 32-bit `int` arithmetic. */
  function Capacity32(cfg: Config, emitters: seq<Emitter>): Int32 {
    if emitters == [] then 0
    else
      var e := emitters[|emitters| - 1];
      Wrap32(Capacity32(cfg, emitters[..|emitters| - 1])
             + Wrap32(RayCount(e) * Wrap32(cfg.stepsPerRay as int + 1)))
  }

  /** Rays `r` onward stamp at most one sample per step each. */
  lemma {:induction false} RaysFromBound(fr: Frame, rays: seq<RayStart>, r: nat)
    requires ValidConfig(fr.cfg) && r <= |rays|
    ensures |RaysFrom(fr, rays, r)| <= Times(|rays| - r, MaxInt(0, fr.cfg.stepsPerRay + 1))
    decreases |rays| - r
  {
    if r < |rays| {
      RaysFromBound(fr, rays, r + 1);
      RaySamplesBound(fr, rays[r], 0, Initial(rays[r]));
    }
  }

  /** `c * n` by repeated addition. */
  function Times(c: nat, n: int): int {
    if c == 0 then 0 else n + Times(c - 1, n)
  }

  lemma {:induction false} TimesIsProduct(c: nat, n: int)
    ensures Times(c, n) == c * n
  {
    if c > 0 {
      TimesIsProduct(c - 1, n);
      MulSucc(c - 1, n);
    }
  }

  /** At most `n` samples for each ray of each emitter, summed from the front. */
  function Budget(starts: seq<seq<RayStart>>, n: int): int
    decreases |starts|
  {
    if starts == [] then 0 else Times(|starts[0]|, n) + Budget(starts[1..], n)
  }

  /** The emitters' rays never stamp more samples than their budget. */
  lemma {:induction false} SamplesFromBound(fr: Frame, starts: seq<seq<RayStart>>)
    requires ValidConfig(fr.cfg)
    ensures |SamplesFrom(fr, starts)| <= Budget(starts, MaxInt(0, fr.cfg.stepsPerRay + 1))
    decreases |starts|
  {
    if starts != [] {
      SamplesFromBound(fr, starts[1..]);
      RaysFromBound(fr, starts[0], 0);
    }
  }

  /** The capacities of the emitters, summed from the front. */
  function CapacityFrom(cfg: Config, emitters: seq<Emitter>): int
    decreases |emitters|
  {
    if emitters == [] then 0 else EmitterCapacity(cfg, emitters[0]) + CapacityFrom(cfg, emitters[1..])
  }

  /** The budget of the emitters' ray starts is their capacity. */
  lemma {:induction false} StartsBudget(fr: Frame, emitters: seq<Emitter>, k: nat)
    requires -1 <= fr.cfg.stepsPerRay
    ensures Budget(EmitterStarts(fr, emitters, k), MaxInt(0, fr.cfg.stepsPerRay + 1))
            == CapacityFrom(fr.cfg, emitters)
    decreases |emitters|
  {
    if emitters != [] {
      var starts := EmitterStarts(fr, emitters, k);
      StartsBudget(fr, emitters[1..], k + DrawsUsed(emitters[0]));
      assert starts[1..] == EmitterStarts(fr, emitters[1..], k + DrawsUsed(emitters[0]));
      TimesIsProduct(RayCount(emitters[0]), fr.cfg.stepsPerRay + 1);
    }
  }

  /** Summing the capacities from the front or from the back gives the same total. */
  lemma {:induction false} CapacitySums(cfg: Config, emitters: seq<Emitter>)
    ensures CapacityFrom(cfg, emitters) == Capacity(cfg, emitters)
    decreases |emitters|
  {
    if emitters != [] {
      var init := emitters[..|emitters| - 1];
      var e := emitters[|emitters| - 1];
      CapacitySums(cfg, init);
      CapacityFromSnoc(cfg, init, e);
      assert init + [e] == emitters;
    }
  }

  lemma {:induction false} CapacityFromSnoc(cfg: Config, init: seq<Emitter>, e: Emitter)
    ensures CapacityFrom(cfg, init + [e]) == CapacityFrom(cfg, init) + EmitterCapacity(cfg, e)
    decreases |init|
  {
    if init == [] {
      assert ([] + [e])[1..] == [];
    } else {
      assert (init + [e])[1..] == init[1..] + [e];
      CapacityFromSnoc(cfg, init[1..], e);
    }
  }

  /** The whole scene stamps at most the exact capacity. */
  lemma AllSamplesBound(fr: Frame, emitters: seq<Emitter>)
    requires ValidConfig(fr.cfg) && -1 <= fr.cfg.stepsPerRay
    ensures |AllSamples(fr, emitters)| <= Capacity(fr.cfg, emitters)
  {
    SamplesFromBound(fr, EmitterStarts(fr, emitters, 0));
    StartsBudget(fr, emitters, 0);
    CapacitySums(fr.cfg, emitters);
  }

  /** Without overflow the 32-bit capacity is the exact capacity. */
  lemma {:induction false} Capacity32Exact(cfg: Config, emitters: seq<Emitter>)
    requires -1 <= cfg.stepsPerRay && Capacity(cfg, emitters) <= Int32Max
    ensures Capacity32(cfg, emitters) == Capacity(cfg, emitters)
    ensures 0 <= Capacity(cfg, emitters)
    decreases |emitters|
  {
    if emitters != [] {
      var init := emitters[..|emitters| - 1];
      var e := emitters[|emitters| - 1];
      var n := cfg.stepsPerRay as int + 1;
      NonNegativeCapacity(RayCount(e), n);
      Capacity32Exact(cfg, init);
      assert n <= Int32Max;
      assert Wrap32(n) == n;
      assert Wrap32(RayCount(e) * n) == RayCount(e) * n;
    }
  }

  lemma NonNegativeCapacity(rays: int, n: int)
    requires 1 <= rays && 0 <= n
    ensures n <= rays * n
  {
    MulSucc(rays - 1, n);
  }

  lemma MulSucc(a: int, n: int)
    ensures (a + 1) * n == n + a * n
  {
  }

  /** The buffer `Rebuild` sizes never runs out: unless the 32-bit sum overflows, the
      capacity it computes holds every sample. */
  lemma BufferNeverFills(fr: Frame, emitters: seq<Emitter>)
    requires ValidConfig(fr.cfg) && -1 <= fr.cfg.stepsPerRay
    requires Capacity(fr.cfg, emitters) <= Int32Max
    ensures |AllSamples(fr, emitters)| <= Capacity32(fr.cfg, emitters)
  {
    AllSamplesBound(fr, emitters);
    Capacity32Exact(fr.cfg, emitters);
  }
}
