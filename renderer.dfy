/** `RayBeamRenderer`: the node that owns the multimesh, decides each frame whether to
    rebuild, and on a rebuild traces every emitter's rays and stamps their samples into
    the multimesh. */
module Renderer {
  import opened Numerics
  import opened Field
  import opened Collision
  import opened Sampling
  import opened Buffer

  /** A property value as `Node.Get` returns it. */
  datatype Variant = FloatValue(f: real) | IntValue(i: int) | OtherValue

  /** A node's readable properties by name. */
  type Properties = map<string, Variant>

  /** `ReadFloat`: a float property as is; an integer property (a 64-bit value in the
      engine) cast to a 32-bit `int` with wrap-around, then converted; anything else (no
      node, no such property, another type) the fallback. */
  function ReadFloat(obj: Option<Properties>, prop: string, fallback: real): (r: real)
    ensures obj.Some? && prop in obj.value && obj.value[prop].FloatValue? ==> r == obj.value[prop].f
    ensures obj.Some? && prop in obj.value && obj.value[prop].IntValue? ==> r == Wrap32(obj.value[prop].i) as real
    ensures obj.None? || prop !in obj.value || obj.value[prop].OtherValue? ==> r == fallback
  {
    if obj.None? || prop !in obj.value then fallback
    else match obj.value[prop]
      case FloatValue(f) => f
      case IntValue(i) => Wrap32(i) as real
      case OtherValue => fallback
  }

  /** The camera as the renderer sees it: its global position, its global basis and its
      properties (where `Beta` and `Gamma` live). */
  datatype Camera = Camera(position: Vec3, basis: Basis, properties: Properties)

  function CameraBeta(cam: Camera): real { ReadFloat(Some(cam.properties), "Beta", 0.0) }

  function CameraGamma(cam: Camera): real { ReadFloat(Some(cam.properties), "Gamma", 2.0) }

  /** A node's global basis and position. */
  datatype Pose = Pose(basis: Basis, position: Vec3)

  /** What the scene tree offers the renderer: the camera (if any), the `field_sources`
      and `ray_emitters` groups in tree order, and the insight plane node (if the path is
      set and resolves). */
  datatype Scene = Scene(camera: Option<Camera>,
                         fieldSources: seq<GroupNode<FieldSource>>,
                         emitters: seq<GroupNode<Emitter>>,
                         insightNode: Option<Pose>)

  /** The insight plane through the node's position, with the node's normalized +Y as
      normal. */
  function InsightPlane(m: Math, node: Pose): Plane {
    PlaneThrough(Normalized(m, node.basis.y), node.position)
  }

  /** The frame a rebuild traces under: normalized camera axes (right, up, and -Z as
      forward), the field center (the camera's position or the exported center), and
      beta and gamma read from the camera. */
  function FrameOf(cfg: Config, host: Host, cam: Camera, sources: seq<GroupNode<FieldSource>>,
                   filterPlane: Option<Plane>): Frame
  {
    var m := host.math;
    Frame(cfg, host,
          Normalized(m, cam.basis.x), Normalized(m, cam.basis.y), Normalized(m, Neg(cam.basis.z)),
          sources,
          if cfg.fieldCenterIsCamera then cam.position else cfg.fieldCenter,
          CameraBeta(cam), CameraGamma(cam), filterPlane)
  }

  /** The `_Process` gate: rebuild only when updating every frame and a camera exists,
      and then always while field sources exist, otherwise only when beta or gamma moved
      away from the values of the last rebuild (never-set values are NaN and compare
      unequal to everything). */
  predicate ShouldRebuild(cfg: Config, lastBeta: Option<real>, lastGamma: Option<real>, scene: Scene) {
    cfg.updateEveryFrame && scene.camera.Some?
    && (|scene.fieldSources| > 0
        || !(IsEqualApprox(CameraBeta(scene.camera.value), lastBeta)
             && IsEqualApprox(CameraGamma(scene.camera.value), lastGamma)))
  }

  /** Before any rebuild the cached values are NaN, so the first frame with a camera
      rebuilds. */
  lemma FirstFrameRebuilds(cfg: Config, scene: Scene)
    requires cfg.updateEveryFrame && scene.camera.Some?
    ensures ShouldRebuild(cfg, None, None, scene)
  {
  }

  /** Right after a rebuild, a frame with the same camera values and no field sources
      skips the rebuild. */
  lemma SettledFrameSkips(cfg: Config, scene: Scene)
    requires scene.camera.Some? && |scene.fieldSources| == 0
    ensures !ShouldRebuild(cfg, Some(CameraBeta(scene.camera.value)), Some(CameraGamma(scene.camera.value)), scene)
  {
  }

  /** With field sources every frame with a camera rebuilds, whatever was cached. */
  lemma SourcesForceRebuild(cfg: Config, lastBeta: Option<real>, lastGamma: Option<real>, scene: Scene)
    requires cfg.updateEveryFrame && scene.camera.Some? && |scene.fieldSources| > 0
    ensures ShouldRebuild(cfg, lastBeta, lastGamma, scene)
  {
  }

  /** Without field sources a tiny drift of beta (below the relative tolerance) does not
      trigger a rebuild, and a large one does. */
  lemma ApproximateGate(cfg: Config, scene: Scene, lastBeta: real)
    requires cfg.updateEveryFrame && scene.camera.Some? && |scene.fieldSources| == 0
    requires Abs(CameraBeta(scene.camera.value) - lastBeta) < Epsilon
    ensures !ShouldRebuild(cfg, Some(lastBeta), Some(CameraGamma(scene.camera.value)), scene)
  {
  }

  /** The rebuild's sizing stays within 32 bits: each emitter's capacity and their sum. */
  predicate NoOverflow(cfg: Config, emitters: seq<Emitter>) {
    -1 <= cfg.stepsPerRay && Capacity(cfg, emitters) <= Int32Max
  }

  /** The frame a rebuild traces under once it has re-read the insight plane. */
  function TracingFrame(cfg: Config, host: Host, scene: Scene): Frame
    requires scene.camera.Some?
  {
    var plane := if cfg.useInsightPlaneFilter && scene.insightNode.Some?
                 then Some(InsightPlane(host.math, scene.insightNode.value)) else None;
    FrameOf(cfg, host, scene.camera.value, scene.fieldSources, plane)
  }

  /** A scene whose rays all end early leaves the rebuild with fewer samples than slots;
      trimming then reallocates the buffer and the samples are lost. One emitter with one
      ray, two steps and a stamp every second step is such a scene: one sample, two
      slots, and the one slot left after the trim is cleared, not the sample. */
  lemma TrimDiscardsSamples(fr: Frame, e: Emitter)
    requires ValidConfig(fr.cfg) && !fr.cfg.stopOnHit && !fr.cfg.useIntegratedField
    requires fr.cfg.stepsPerRay == 1 && fr.cfg.renderEveryNSteps == 2 && e.rays == 1
    requires fr.camForward != Zero
    ensures 0 < |AllSamples(fr, [e])| < Capacity(fr.cfg, [e])
    ensures Allocated(|AllSamples(fr, [e])|) != AllSamples(fr, [e])
  {
    assert EmitterStarts(fr, [e], 0) == [RayStarts(fr, e, 0)];
    SingleRayLoss(fr, RayStarts(fr, e, 0));
    assert [e][..0] == [];
  }

  /** One ray, two steps and a stamp every second step: one sample, and a camera-facing
      one, so not a cleared slot. */
  lemma SingleRayLoss(fr: Frame, rays: seq<RayStart>)
    requires ValidConfig(fr.cfg) && !fr.cfg.stopOnHit && !fr.cfg.useIntegratedField
    requires fr.cfg.stepsPerRay == 1 && fr.cfg.renderEveryNSteps == 2 && |rays| == 1
    requires fr.camForward != Zero
    ensures |SamplesFrom(fr, [rays])| == 1
    ensures Allocated(1) != SamplesFrom(fr, [rays])
  {
    var samples := RaySamples(fr, rays[0], 0, Initial(rays[0]));
    OneEmitterSamples(fr, rays);
    SingleStampRay(fr, rays[0]);
    RaySamplesWellFormed(fr, rays[0], 0, Initial(rays[0]));
    assert WellFormed(fr, samples[0]);
    assert Allocated(1)[0] == Cleared;
  }

  /** The samples of a single emitter with a single ray are that ray's samples. */
  lemma OneEmitterSamples(fr: Frame, rays: seq<RayStart>)
    requires ValidConfig(fr.cfg) && |rays| == 1
    ensures SamplesFrom(fr, [rays]) == RaySamples(fr, rays[0], 0, Initial(rays[0]))
  {
    assert [rays][1..] == [];
    assert RaysFrom(fr, rays, 1) == [];
    assert RaysFrom(fr, rays, 0) == RaySamples(fr, rays[0], 0, Initial(rays[0])) + RaysFrom(fr, rays, 1);
  }

  /** Two steps stamping every second step leave one sample when nothing ends the ray. */
  lemma SingleStampRay(fr: Frame, ray: RayStart)
    requires ValidConfig(fr.cfg) && !fr.cfg.stopOnHit && !fr.cfg.useIntegratedField
    requires fr.cfg.stepsPerRay == 1 && fr.cfg.renderEveryNSteps == 2
    ensures |RaySamples(fr, ray, 0, Initial(ray))| == 1
  {
    AnalyticCadence(fr, ray, 0, Initial(ray));
    assert StampSteps(fr.cfg, 2, 1) == 0;
  }

  // ---------------------------------------------------------------------------
  // The per-step computations, as methods

  /** The collision test of one step, running the sub-ray loop in ray-cast mode. */
  method CollisionTest(fr: Frame, s: int, p: Vec3, next: Vec3) returns (hit: Option<Vec3>)
    ensures hit == CollisionHit(fr, s, p, next)
  {
    var cfg := fr.cfg;
    var m := fr.host.math;
    if !CollisionStep(cfg, s) {
      return None;
    }
    if fr.filterPlane.Some? && !SegmentCrossesPlane(p, next, fr.filterPlane.value, cfg.collisionRadius) {
      return None;
    }
    var segLen := Length(m, Sub(next, p));
    if segLen > MinSegmentLength {
      if cfg.useSphereSweepCollision {
        hit := SweepSegmentHit(m, fr.host.space, p, next, cfg.collisionMask, cfg.collisionRadius);
      } else {
        var sub := SubstepCount(segLen, cfg.collisionRaySubdivideThreshold, cfg.maxCollisionSubsteps);
        hit := SubdividedRayHit(m, fr.host.space, p, next, cfg.collisionMask, sub);
      }
    } else {
      hit := None;
    }
  }

  /** The field at `p`, summing the sources with the accumulation loop when there are any. */
  method FieldAt(fr: Frame, p: Vec3) returns (a: Vec3)
    ensures a == FieldAcceleration(fr, p)
  {
    if |fr.sources| > 0 {
      a := ComputeAccelerationAtPoint(fr.host.math, Gains(fr.cfg.bendScale, fr.cfg.fieldStrength),
                                      p, fr.sources, fr.beta, fr.gamma);
    } else {
      a := FieldAcceleration(fr, p);
    }
  }

  /** One step of a ray: move, then test for a hit, then decide what to stamp. In terms of
      the samples the ray stamps: the step's own samples, then those of the steps after it
      unless the step ended the ray. */
  method TraceStep(fr: Frame, ray: RayStart, s: int, st: StepState) returns (o: Outcome)
    requires ValidConfig(fr.cfg)
    ensures o == StepOutcome(fr, ray, s, st)
    ensures s <= fr.cfg.stepsPerRay ==>
              RaySamples(fr, ray, s, st)
              == Emitted(fr, o) + if o.Advance? then RaySamples(fr, ray, s + 1, o.next) else []
    ensures o.Advance? ==> (o.stamp.Some? <==> StampStep(fr.cfg, s))
  {
    AdvanceStampsOnCadence(fr, ray, s, st);
    if s <= fr.cfg.stepsPerRay {
      RaySamplesStep(fr, ray, s, st);
    }
    var mv: Move;
    if fr.cfg.useIntegratedField {
      var a := FieldAt(fr, st.p);
      mv := MoveInField(fr, st, a);
      if mv.traveled > ray.maxDistance {
        return OutOfRange;
      }
    } else {
      mv := AnalyticMove(fr, ray, s, st);
    }
    var c := SampleColor(fr, ray, mv.a);
    var alpha := SampleAlpha(fr.cfg, ray, s);
    var hit := CollisionTest(fr, s, st.p, mv.next);
    if hit.Some? {
      return Hit(Stamp(hit.value, c, alpha));
    }
    var stamp := if StampStep(fr.cfg, s) then Some(Stamp(mv.next, c, alpha)) else None;
    o := Advance(stamp, StepState(mv.next, mv.v, mv.traveled));
  }

  /** A ray that stops has written everything it will: either nothing follows, or the
      buffer is full. */
  lemma FinishRay(slots0: seq<Instance>, idx0: int, written: seq<Instance>, rest: seq<Instance>)
    requires 0 <= idx0 <= |slots0|
    requires rest == [] || |slots0| <= idx0 + |written|
    ensures Overwrite(slots0, idx0, written + rest) == Overwrite(slots0, idx0, written)
    ensures Fitting(|slots0|, idx0, written + rest) == Fitting(|slots0|, idx0, written)
  {
    if rest == [] {
      assert written + rest == written;
    } else {
      OverwriteFull(slots0, idx0, written, rest);
    }
  }

  // ---------------------------------------------------------------------------
  // The renderer node

  class RayBeamRenderer {
    const cfg: Config
    const mm: MultiMesh
    var lastBeta: Option<real>
    var lastGamma: Option<real>
    var hasInsightPlane: bool
    var insightPlane: Plane

    ghost predicate Valid()
      reads this, mm
    {
      mm.Valid() && ValidConfig(cfg)
    }

    /** The broad-phase plane the collision test uses, if any. */
    function FilterPlane(): Option<Plane>
      reads this
    {
      if cfg.useInsightPlaneFilter && hasInsightPlane then Some(insightPlane) else None
    }

    /** A renderer with an empty multimesh and no cached beta or gamma (NaN). */
    constructor (cfg: Config)
      requires ValidConfig(cfg)
      ensures Valid() && fresh(mm) && this.cfg == cfg
      ensures lastBeta == None && lastGamma == None && !hasInsightPlane
      ensures mm.instanceCount == 0 && mm.visibleInstanceCount == -1
    {
      this.cfg := cfg;
      mm := new MultiMesh();
      lastBeta := None;
      lastGamma := None;
      hasInsightPlane := false;
      insightPlane := Plane(Zero, 0.0);
    }

    /** Re-reads the insight plane: cleared first, then set from the node if it resolves. */
    method RefreshInsightPlane(m: Math, node: Option<Pose>)
      modifies this
      ensures hasInsightPlane == node.Some?
      ensures node.Some? ==> insightPlane == InsightPlane(m, node.value)
      ensures node.None? ==> insightPlane == old(insightPlane)
      ensures lastBeta == old(lastBeta) && lastGamma == old(lastGamma)
    {
      hasInsightPlane := false;
      if node.None? {
        return;
      }
      insightPlane := InsightPlane(m, node.value);
      hasInsightPlane := true;
    }

    /** Writes one sample: an index outside the buffer is ignored; otherwise the slot gets
        the camera-facing quad at `x.pos` and the stamp's color with its alpha clamped. */
    method SetBillboardInstance(fr: Frame, index: int, x: Stamp)
      requires Valid() && fr.cfg == cfg
      modifies mm
      ensures Valid()
      ensures mm.instanceCount == old(mm.instanceCount)
      ensures mm.visibleInstanceCount == old(mm.visibleInstanceCount)
      ensures mm.slots == if 0 <= index < old(mm.instanceCount) then old(mm.slots)[index := Sample(fr, x)]
                          else old(mm.slots)
    {
      if index < 0 || index >= mm.instanceCount {
        return;
      }
      var q := cfg.quadSize;
      mm.SetInstanceTransform(index, Basis(Scale(fr.camRight, q), Scale(fr.camUp, q), fr.camForward), x.pos);
      mm.SetInstanceColor(index, x.color.(a := ClampReal(x.alpha, 0.0, 1.0)));
    }

    /** What one step's outcome writes: on a hit, the hit sample if there is room, and the
        ray stops; on a stamp step, the stamp, or the ray stops when the buffer is full;
        out of range, nothing, and the ray stops. */
    method ApplyOutcome(fr: Frame, o: Outcome, s: int, idx: int, ghost slots0: seq<Instance>,
                        ghost idx0: int, ghost written: seq<Instance>)
      returns (idx': int, stop: bool)
      requires Valid() && fr.cfg == cfg && mm.instanceCount == |slots0|
      requires 0 <= idx0 && idx == idx0 + |written| <= mm.instanceCount
      requires mm.slots == Overwrite(slots0, idx0, written)
      requires o.Advance? ==> (o.stamp.Some? <==> StampStep(cfg, s))
      modifies mm
      ensures Valid()
      ensures mm.instanceCount == old(mm.instanceCount)
      ensures mm.visibleInstanceCount == old(mm.visibleInstanceCount)
      ensures mm.slots == Overwrite(slots0, idx0, written + Emitted(fr, o))
      ensures idx' == idx0 + Fitting(|slots0|, idx0, written + Emitted(fr, o))
      ensures stop <==> !o.Advance? || (o.stamp.Some? && idx == |slots0|)
    {
      idx' := idx;
      match o
      case OutOfRange =>
        assert written + Emitted(fr, o) == written;
        return idx', true;
      case Hit(x) =>
        if idx < mm.instanceCount {
          SetBillboardInstance(fr, idx, x);
          OverwriteOneMore(slots0, idx0, written, Sample(fr, x));
          idx' := idx + 1;
        } else {
          OverwriteFull(slots0, idx0, written, [Sample(fr, x)]);
        }
        return idx', true;
      case Advance(stamp, _) =>
        if StampStep(cfg, s) {
          if idx >= mm.instanceCount {
            OverwriteFull(slots0, idx0, written, [Sample(fr, stamp.value)]);
            return idx', true;
          }
          SetBillboardInstance(fr, idx, stamp.value);
          OverwriteOneMore(slots0, idx0, written, Sample(fr, stamp.value));
          idx' := idx + 1;
        } else {
          assert written + Emitted(fr, o) == written;
        }
        stop := false;
    }

    /** One iteration of the per-ray loop: step, then write what the step stamps. `all`
        is everything the ray stamps and `written` what the earlier steps stamped; when
        the ray goes on, the rest of `all` is what the later steps stamp; when it stops,
        the buffer holds every sample of `all` that fits. */
    method RayStep(fr: Frame, ray: RayStart, s: int, st: StepState, idx: int,
                   ghost slots0: seq<Instance>, ghost idx0: int, ghost all: seq<Instance>,
                   ghost written: seq<Instance>)
      returns (idx': int, stop: bool, next: StepState, ghost written': seq<Instance>)
      requires Valid() && fr.cfg == cfg && mm.instanceCount == |slots0|
      requires 0 <= s <= cfg.stepsPerRay
      requires 0 <= idx0 && idx == idx0 + |written| <= mm.instanceCount
      requires mm.slots == Overwrite(slots0, idx0, written)
      requires all == written + RaySamples(fr, ray, s, st)
      modifies mm
      ensures Valid()
      ensures mm.instanceCount == old(mm.instanceCount)
      ensures mm.visibleInstanceCount == old(mm.visibleInstanceCount)
      ensures stop ==> mm.slots == Overwrite(slots0, idx0, all)
                       && idx' == idx0 + Fitting(|slots0|, idx0, all)
      ensures !stop ==> mm.slots == Overwrite(slots0, idx0, written')
                        && idx' == idx0 + |written'| <= mm.instanceCount
                        && all == written' + RaySamples(fr, ray, s + 1, next)
    {
      var o := TraceStep(fr, ray, s, st);
      idx', stop := ApplyOutcome(fr, o, s, idx, slots0, idx0, written);
      ghost var rest := if o.Advance? then RaySamples(fr, ray, s + 1, o.next) else [];
      InstancesAssociate(written, Emitted(fr, o), rest);
      written' := written + Emitted(fr, o);
      next := if o.Advance? then o.next else st;
      if stop {
        FinishRay(slots0, idx0, written', rest);
      }
    }

    /** Traces one ray, writing its samples from slot `idx0` on until the buffer is full;
        returns the slot after the last one written. */
    method TraceRay(fr: Frame, ray: RayStart, idx0: int) returns (idx: int)
      requires Valid() && fr.cfg == cfg && 0 <= idx0 <= mm.instanceCount
      modifies mm
      ensures Valid()
      ensures mm.instanceCount == old(mm.instanceCount)
      ensures mm.visibleInstanceCount == old(mm.visibleInstanceCount)
      ensures mm.slots == Overwrite(old(mm.slots), idx0, RaySamples(fr, ray, 0, Initial(ray)))
      ensures idx == idx0 + Fitting(mm.instanceCount, idx0, RaySamples(fr, ray, 0, Initial(ray)))
    {
      ghost var slots0 := mm.slots;
      ghost var all := RaySamples(fr, ray, 0, Initial(ray));
      ghost var written: seq<Instance> := [];
      var st := Initial(ray);
      var s := 0;
      idx := idx0;
      OverwriteNothing(slots0, idx0);
      while s <= cfg.stepsPerRay
        invariant Valid() && mm.instanceCount == old(mm.instanceCount) == |slots0|
        invariant mm.visibleInstanceCount == old(mm.visibleInstanceCount)
        invariant 0 <= s
        invariant mm.slots == Overwrite(slots0, idx0, written)
        invariant idx == idx0 + |written| <= mm.instanceCount
        invariant all == written + RaySamples(fr, ray, s, st)
        decreases cfg.stepsPerRay + 1 - s
      {
        var stop;
        idx, stop, st, written := RayStep(fr, ray, s, st, idx, slots0, idx0, all, written);
        if stop {
          return;
        }
        s := s + 1;
      }
      FinishRay(slots0, idx0, written, []);
    }

    /** Traces the rays in order, writing their samples from slot `idx0` on. */
    method TraceRays(fr: Frame, rays: seq<RayStart>, idx0: int) returns (idx: int)
      requires Valid() && fr.cfg == cfg && 0 <= idx0 <= mm.instanceCount
      modifies mm
      ensures Valid()
      ensures mm.instanceCount == old(mm.instanceCount)
      ensures mm.visibleInstanceCount == old(mm.visibleInstanceCount)
      ensures mm.slots == Overwrite(old(mm.slots), idx0, RaysFrom(fr, rays, 0))
      ensures idx == idx0 + Fitting(mm.instanceCount, idx0, RaysFrom(fr, rays, 0))
    {
      ghost var slots0 := mm.slots;
      ghost var written: seq<Instance> := [];
      idx := idx0;
      OverwriteNothing(slots0, idx0);
      for r := 0 to |rays|
        invariant Valid() && mm.instanceCount == old(mm.instanceCount) == |slots0|
        invariant mm.visibleInstanceCount == old(mm.visibleInstanceCount)
        invariant mm.slots == Overwrite(slots0, idx0, written)
        invariant idx == idx0 + Fitting(|slots0|, idx0, written)
        invariant RaysFrom(fr, rays, 0) == written + RaysFrom(fr, rays, r)
      {
        ghost var samples := RaySamples(fr, rays[r], 0, Initial(rays[r]));
        idx := TraceRay(fr, rays[r], idx);
        OverwriteSequence(slots0, idx0, written, samples);
        written := written + samples;
      }
    }

    /** Where each of the emitter's rays starts, `k` being the next unused random draw:
        a fan ray's direction, or a cone ray's from the next two draws. */
    method ComputeRayStarts(fr: Frame, e: Emitter, k: nat) returns (rays: seq<RayStart>)
      ensures rays == RayStarts(fr, e, k)
    {
      var count := MaxInt(1, e.rays);
      var draw := k;
      rays := [];
      for r := 0 to count
        invariant |rays| == r && draw == ConeDraw(e, k, r)
        invariant forall j :: 0 <= j < r ==> rays[j] == RayStartFor(fr, e, j, ConeDraw(e, k, j))
      {
        rays := rays + [RayStartFor(fr, e, r, draw)];
        if !e.useFan {
          draw := draw + 2;
        }
      }
      StartsInOrder(fr, e, k, rays);
    }

    /** One iteration of the emitter loop: compute where each of the emitter's rays starts,
        then trace them, writing on from `idx` where the earlier emitters (whose ray
        starts are `done`) stopped. */
    method TraceEmitter(fr: Frame, e: Emitter, k: nat, idx: int, ghost slots0: seq<Instance>,
                        ghost done: seq<seq<RayStart>>)
      returns (idx': int, ghost rays: seq<RayStart>)
      requires Valid() && fr.cfg == cfg && mm.instanceCount == |slots0|
      requires mm.slots == Overwrite(slots0, 0, SamplesFrom(fr, done))
      requires idx == Fitting(|slots0|, 0, SamplesFrom(fr, done))
      modifies mm
      ensures Valid()
      ensures mm.instanceCount == old(mm.instanceCount)
      ensures mm.visibleInstanceCount == old(mm.visibleInstanceCount)
      ensures rays == RayStarts(fr, e, k)
      ensures mm.slots == Overwrite(slots0, 0, SamplesFrom(fr, done + [rays]))
      ensures idx' == Fitting(|slots0|, 0, SamplesFrom(fr, done + [rays]))
    {
      var starts := ComputeRayStarts(fr, e, k);
      idx' := TraceRays(fr, starts, idx);
      OverwriteSequence(slots0, 0, SamplesFrom(fr, done), RaysFrom(fr, starts, 0));
      SamplesFromSnoc(fr, done, starts);
      rays := starts;
    }

    /** Traces the emitters in list order, writing all their samples from slot 0 on; the
        random draws run on from one emitter to the next. */
    method TraceEmitters(fr: Frame, emitters: seq<Emitter>) returns (idx: int)
      requires Valid() && fr.cfg == cfg
      modifies mm
      ensures Valid()
      ensures mm.instanceCount == old(mm.instanceCount)
      ensures mm.visibleInstanceCount == old(mm.visibleInstanceCount)
      ensures mm.slots == Overwrite(old(mm.slots), 0, AllSamples(fr, emitters))
      ensures idx == Fitting(mm.instanceCount, 0, AllSamples(fr, emitters))
    {
      ghost var slots0 := mm.slots;
      ghost var done: seq<seq<RayStart>> := [];
      var rest := emitters;
      var k: nat := 0;
      idx := 0;
      OverwriteNothing(slots0, 0);
      while rest != []
        invariant Valid() && mm.instanceCount == old(mm.instanceCount) == |slots0|
        invariant mm.visibleInstanceCount == old(mm.visibleInstanceCount)
        invariant mm.slots == Overwrite(slots0, 0, SamplesFrom(fr, done))
        invariant idx == Fitting(|slots0|, 0, SamplesFrom(fr, done))
        invariant EmitterStarts(fr, emitters, 0) == done + EmitterStarts(fr, rest, k)
        decreases |rest|
      {
        ghost var rays;
        idx, rays := TraceEmitter(fr, rest[0], k, idx, slots0, done);
        StartsAssociate(done, rays, EmitterStarts(fr, rest[1..], k + DrawsUsed(rest[0])));
        done := done + [rays];
        k := k + DrawsUsed(rest[0]);
        rest := rest[1..];
      }
      assert done + [] == done;
    }

    /** The emitter nodes of the `ray_emitters` group, in order, and the instance total as
        the rebuild sums it in 32-bit arithmetic: `max(1, rays) * (stepsPerRay + 1)` per
        emitter. */
    method GatherEmitters(nodes: seq<GroupNode<Emitter>>) returns (list: seq<Emitter>, total: Int32)
      ensures list == EmitterList(nodes)
      ensures total == Capacity32(cfg, list)
    {
      list := [];
      total := 0;
      for i := 0 to |nodes|
        invariant list == EmitterList(nodes[..i])
        invariant total == Capacity32(cfg, list)
      {
        assert nodes[..i + 1][..i] == nodes[..i];
        match nodes[i]
        case Typed(e) =>
          assert (list + [e])[..|list|] == list;
          list := list + [e];
          total := Wrap32(total + Wrap32(RayCount(e) * Wrap32(cfg.stepsPerRay as int + 1)));
        case Other =>
      }
      assert nodes[..|nodes|] == nodes;
    }

    /** The common part of a rebuild with emitters: size the buffer to the 32-bit total,
        then trace every emitter; returns the total and the slot after the last one
        written. */
    method FillBuffer(fr: Frame, nodes: seq<GroupNode<Emitter>>) returns (total: Int32, idx: int)
      requires Valid() && fr.cfg == cfg
      modifies mm
      ensures Valid()
      ensures NoOverflow(cfg, EmitterList(nodes)) ==>
                var all := AllSamples(fr, EmitterList(nodes));
                total == Capacity(cfg, EmitterList(nodes)) && idx == |all| <= total
                && mm.instanceCount == total
                && mm.visibleInstanceCount == MinInt(old(mm.visibleInstanceCount), total)
                && mm.slots[..|all|] == all
    {
      var list;
      list, total := GatherEmitters(nodes);
      mm.SetInstanceCount(total);
      idx := TraceEmitters(fr, list);
      if NoOverflow(cfg, list) {
        BufferNeverFills(fr, list);
        Capacity32Exact(cfg, list);
        OverwriteFromStart(Allocated(total), AllSamples(fr, list));
      }
    }

    /** `Rebuild`, as written: with a camera, re-read the insight plane, cache beta and
        gamma, size the buffer to the total, trace every emitter, and, when fewer samples
        than the total were written, set the instance count to the number written. That
        last step reallocates the buffer, so every written sample is cleared. */
    method Rebuild(host: Host, scene: Scene)
      requires Valid()
      modifies this, mm
      ensures Valid()
      ensures scene.camera.None? ==> unchanged(this) && unchanged(mm)
      ensures scene.camera.Some? ==>
                lastBeta == Some(CameraBeta(scene.camera.value))
                && lastGamma == Some(CameraGamma(scene.camera.value))
                && hasInsightPlane == scene.insightNode.Some?
                && (scene.insightNode.Some? ==> insightPlane == InsightPlane(host.math, scene.insightNode.value))
      ensures scene.camera.Some? && |scene.emitters| == 0 ==>
                mm.instanceCount == 0 && mm.slots == []
                && mm.visibleInstanceCount == MinInt(old(mm.visibleInstanceCount), 0)
      ensures scene.camera.Some? && |scene.emitters| > 0 && NoOverflow(cfg, EmitterList(scene.emitters)) ==>
                var all := AllSamples(TracingFrame(cfg, host, scene), EmitterList(scene.emitters));
                mm.instanceCount == |all|
                && mm.visibleInstanceCount == MinInt(old(mm.visibleInstanceCount), |all|)
                && mm.slots == if |all| < Capacity(cfg, EmitterList(scene.emitters)) then Allocated(|all|) else all
    {
      if scene.camera.None? {
        return;
      }
      var cam := scene.camera.value;
      RefreshInsightPlane(host.math, scene.insightNode);
      lastBeta := Some(CameraBeta(cam));
      lastGamma := Some(CameraGamma(cam));
      if |scene.emitters| == 0 {
        mm.SetInstanceCount(0);
        return;
      }
      var fr := FrameOf(cfg, host, cam, scene.fieldSources, FilterPlane());
      assert fr == TracingFrame(cfg, host, scene);
      var total, idx := FillBuffer(fr, scene.emitters);
      if idx < total {
        mm.SetInstanceCount(idx);
      }
    }

    /** `Rebuild` with the trim corrected: after tracing, the visible count is set to the
        number of samples written, so the engine draws exactly the samples, in order. */
    method RebuildKeepingSamples(host: Host, scene: Scene)
      requires Valid()
      modifies this, mm
      ensures Valid()
      ensures scene.camera.None? ==> unchanged(this) && unchanged(mm)
      ensures scene.camera.Some? ==>
                lastBeta == Some(CameraBeta(scene.camera.value))
                && lastGamma == Some(CameraGamma(scene.camera.value))
                && hasInsightPlane == scene.insightNode.Some?
                && (scene.insightNode.Some? ==> insightPlane == InsightPlane(host.math, scene.insightNode.value))
      ensures scene.camera.Some? && |scene.emitters| == 0 ==> mm.instanceCount == 0 && mm.Drawn() == []
      ensures scene.camera.Some? && |scene.emitters| > 0 && NoOverflow(cfg, EmitterList(scene.emitters)) ==>
                mm.instanceCount == Capacity(cfg, EmitterList(scene.emitters))
                && mm.Drawn() == AllSamples(TracingFrame(cfg, host, scene), EmitterList(scene.emitters))
    {
      if scene.camera.None? {
        return;
      }
      var cam := scene.camera.value;
      RefreshInsightPlane(host.math, scene.insightNode);
      lastBeta := Some(CameraBeta(cam));
      lastGamma := Some(CameraGamma(cam));
      if |scene.emitters| == 0 {
        mm.SetInstanceCount(0);
        return;
      }
      var fr := FrameOf(cfg, host, cam, scene.fieldSources, FilterPlane());
      assert fr == TracingFrame(cfg, host, scene);
      var total, idx := FillBuffer(fr, scene.emitters);
      mm.SetVisibleInstanceCount(idx);
    }

    /** `_Process`: rebuilds (with the corrected trim) exactly when the gate says so, and
        otherwise leaves everything as it was. */
    method Process(host: Host, scene: Scene)
      requires Valid()
      modifies this, mm
      ensures Valid()
      ensures !ShouldRebuild(cfg, old(lastBeta), old(lastGamma), scene) ==> unchanged(this) && unchanged(mm)
      ensures ShouldRebuild(cfg, old(lastBeta), old(lastGamma), scene) ==>
                lastBeta == Some(CameraBeta(scene.camera.value))
                && lastGamma == Some(CameraGamma(scene.camera.value))
                && (NoOverflow(cfg, EmitterList(scene.emitters)) ==>
                      mm.Drawn() == AllSamples(TracingFrame(cfg, host, scene), EmitterList(scene.emitters)))
    {
      if !ShouldRebuild(cfg, lastBeta, lastGamma, scene) {
        return;
      }
      RebuildKeepingSamples(host, scene);
    }
  }
}
