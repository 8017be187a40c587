# RayBeamRenderer, modelled in Dafny

`RayBeamRenderer` is a Godot node that draws light rays as camera-facing quads in a
`MultiMesh`. It rebuilds the multimesh when its `_Process` gate says so. A rebuild has
these steps:

- Read `Beta` and `Gamma` from the camera, and cache them.
- Size the instance buffer to `max(1, Rays) * (StepsPerRay + 1)` per emitter.
- Trace every ray of every emitter, step by step. Each step does the following:
  - it bends the ray, either by the summed field of the `field_sources` group (integrated
    mode) or by a closed-form offset (analytic mode);
  - it picks an adaptive step length;
  - it ends the ray once its distance budget is spent;
  - on a collision stride, it tests the segment against the physics world, after an
    optional plane broad phase;
  - on a render stride, it stamps a billboard sample at the write cursor `idx`.
- Trim the buffer when fewer samples than slots were written.

The project models that pipeline:

| file | module | contents |
|---|---|---|
| `numerics.dfy` | `Numerics` | vectors, Godot's `Mathf` clamps, `Lerp`, `IsEqualApprox` with the NaN sentinel as `None`, `CeilToInt`, and 32-bit wrap-around |
| `field.dfy` | `Field` | `ComputeAccelerationAtPoint`, with its specification `AccelSum`, and `SmoothStep` |
| `collision.dfy` | `Collision` | the plane broad phase, the sub-ray count, the sphere sweep and the subdivided ray cast |
| `sampling.dfy` | `Sampling` | the settings, the emitters, ray directions, one step of a ray, and the samples (`RaySamples`, `AllSamples`) that a ray, an emitter and a whole rebuild stamp, in write order; also the buffer capacity and the proof that it is never exceeded |
| `buffer.dfy` | `Buffer` | the `MultiMesh` the renderer writes into, as a class, and the `Overwrite` function that specifies the cursor writes |
| `renderer.dfy` | `Renderer` | the `RayBeamRenderer` class: `_Process`, `Rebuild`, the nested ray loops as methods proved against `AllSamples`, `SetBillboardInstance`, `RefreshInsightPlane` and `ReadFloat` |

Conventions:

- Floats are modelled as `real`.
- `Mathf.Sqrt`, `Pow`, `Exp`, `Cos`, `Sin` and `Vector3.Rotated` are host functions passed
  in as values (`Math`, `Host`). Only the sign facts of real square roots and powers are
  known about them.
- The physics queries `CastMotion` and `IntersectRay` are oracles (`Space`).
- The values `System.Random(12345).NextDouble()` returns are the sequence `Host.draw`. The
  generator is re-seeded on every rebuild, so every rebuild starts again at draw 0.

## Model

| member | source | states |
|---|---|---|
| Numerics.CeilToInt | RayBeamRenderer.cs:309 | the result is a 32-bit int, and it is the ceiling whenever the ceiling fits in 32 bits |
| Field.SmoothStep | RayBeamRenderer.cs:445-449 | the result lies in [0, 1]; for a < b it is 0 at or below a, 1 at or above b, and strictly between 0 and 1 in between |
| Field.HermiteBounds | RayBeamRenderer.cs:448 | on [0, 1] the polynomial t²(3−2t) stays in [0, 1], is positive for t > 0 and is below 1 for t < 1 |
| Field.ShellWeight | RayBeamRenderer.cs:424-431 | the Shell weight lies in [0, 1] and is positive exactly when r lies strictly inside (inner − edge, outer + edge) |
| Field.ShellOuter | RayBeamRenderer.cs:425 | the outer radius is at least the inner radius plus 0.0001 |
| Field.ShellEdge | RayBeamRenderer.cs:426 | the edge softness is at least 0.0001 |
| Field.SoftenedRadius | RayBeamRenderer.cs:378-382 | the softened radius is always positive, so the division at line 389 is defined |
| Field.Contribution | RayBeamRenderer.cs:372-439 | a disabled source, or one whose softened radius lies outside its positive MinRadius/MaxRadius zone, contributes the zero vector |
| Field.ComputeAccelerationAtPoint | RayBeamRenderer.cs:362-443 | the accumulating loop returns the superposition `AccelSum` of the per-source contributions, in group order, skipping nodes that are not field sources |
| Field.AttractFlipNegates | RayBeamRenderer.cs:388-390 | flipping `Attract` exactly negates a source's contribution and keeps its length |
| Field.AttractingPullsTowardSource | RayBeamRenderer.cs:389-439 | an ungated attracting source with positive magnitude pulls toward itself: its contribution has a positive dot product with the vector from p to the source |
| Field.ShellMagnitudeBand | RayBeamRenderer.cs:421-435 | a Shell source with non-zero amplitude has a non-zero magnitude exactly inside its band, soft edges included |
| Field.Superposition | RayBeamRenderer.cs:368-442 | the sum over two concatenated source lists is the sum of the two sums |
| Field.InactiveSourcesContributeNothing | RayBeamRenderer.cs:372-373 | when every node is disabled or not a field source, the acceleration is zero |
| Collision.PlaneThrough | RayBeamRenderer.cs:509 | the plane built from a normal and a point passes through that point |
| Collision.CrossesPlaneSymmetric | RayBeamRenderer.cs:482-492 | the broad phase gives the same answer for the segment p→q as for q→p |
| Collision.CrossesPlaneSound | RayBeamRenderer.cs:482-492 | no segment that touches the plane is discarded, for any eps ≥ 0 |
| Collision.CrossingPoint | RayBeamRenderer.cs:490-491 | when both ends are farther than eps and on opposite sides, the segment meets the plane at the fraction dp/(dp−dq), which lies in [0, 1] |
| Collision.SubstepCount | RayBeamRenderer.cs:307-310 | the count is 1 for a segment no longer than the threshold, and always lies in [1, MaxCollisionSubsteps] when that bound is at least 1 |
| Collision.SubstepsCoverSegment | RayBeamRenderer.cs:307-310 | unless clamped, the count is the least number of pieces no longer than the threshold that cover the segment |
| Collision.SweepSegmentHit | RayBeamRenderer.cs:513-554 | a segment of length at most 1e-6 never hits; any hit lies on the segment's line at a motion fraction below 1 |
| Collision.SweepUnobstructed | RayBeamRenderer.cs:529-553 | when the engine reports the full motion as safe, there is no hit |
| Collision.SubrayCount | RayBeamRenderer.cs:571 | the sub-ray count lies in [1, 64] and equals the request when the request is already in range |
| Collision.SubPointsSpanSegment | RayBeamRenderer.cs:571-577 | the sub-points start at a, end at b, and consecutive ones are d/steps apart |
| Collision.FirstSubrayHit | RayBeamRenderer.cs:574-591 | it reports the first sub-ray that hits (all earlier ones miss), or nothing when every sub-ray misses |
| Collision.SubdividedRayHit | RayBeamRenderer.cs:557-595 | the loop returns the first sub-ray hit, or nothing for a degenerate segment or when nothing is hit |
| Sampling.RayCount | RayBeamRenderer.cs:179 | an emitter casts at least one ray, and at least `Rays` |
| Sampling.FanSingleRayAtLeftEdge | RayBeamRenderer.cs:193-194 | a fan with a single ray points at −yawTotal/2 |
| Sampling.FanEndpoints | RayBeamRenderer.cs:193-194 | a fan of two or more rays runs from −yawTotal/2 to +yawTotal/2 |
| Sampling.FanEvenSpacing | RayBeamRenderer.cs:193-194 | consecutive fan rays are yawTotal/(rays−1) apart |
| Sampling.FanSymmetric | RayBeamRenderer.cs:193-194 | ray r and ray rays−1−r of a fan have opposite yaws |
| Sampling.RayStarts | RayBeamRenderer.cs:179-213 | an emitter's ray starts are max(1, Rays) in number |
| Sampling.CapAcceleration | RayBeamRenderer.cs:241-242 | an acceleration no longer than 50 passes unchanged |
| Sampling.CappedAccelerationBound | RayBeamRenderer.cs:241-242 | the acceleration used is at most 50 long, and exactly 50 long when it was capped |
| Sampling.AdaptiveStep | RayBeamRenderer.cs:245-250 | the step lies in [MinStepLength, MaxStepLength] when Min ≤ Max; in zero field it is StepLength when StepLength is already in range |
| Sampling.AdaptiveStepMonotone | RayBeamRenderer.cs:249 | a stronger field never lengthens the step |
| Sampling.MoveInField | RayBeamRenderer.cs:241-256 | the integrator uses the capped field; when Min ≤ Max, one step length in [MinStepLength, MaxStepLength] both turns the velocity and advances the point along the new velocity; the distance travelled never decreases, which the budget test at line 257 relies on |
| Sampling.Billboard | RayBeamRenderer.cs:351-358 | a sample sits at the given position with the camera-facing basis, and its alpha is clamped to [0, 1] |
| Sampling.CollisionHit | RayBeamRenderer.cs:280-314 | there is no hit off the collision stride (StopOnHit, s > 0, s a multiple of max(1, CollisionEveryNSteps)), and none when the active insight plane filter rejects the segment |
| Sampling.AdvanceStampsOnCadence | RayBeamRenderer.cs:327-333 | a step that continues the ray stamps exactly when s is a multiple of max(1, RenderEveryNSteps) |
| Sampling.Emitted | RayBeamRenderer.cs:316-333 | a step writes at most one sample, and that sample is well formed |
| Sampling.RaySamplesBound | RayBeamRenderer.cs:221-333 | a ray stamps at most one sample per remaining step |
| Sampling.RaySamplesWellFormed | RayBeamRenderer.cs:332-358 | every sample is a camera-facing quad with an alpha in [0, 1] |
| Sampling.AnalyticCadence | RayBeamRenderer.cs:259-333 | in analytic mode without StopOnHit a ray never ends early and stamps exactly one sample per render-stride step |
| Sampling.EveryStepStamps | RayBeamRenderer.cs:328-329 | with RenderEveryNSteps ≤ 1 every step is a stamp step |
| Sampling.SamplesFromSnoc | RayBeamRenderer.cs:174-337 | writes are emitter-major: one more emitter's samples come after all earlier emitters' samples |
| Sampling.EmitterList | RayBeamRenderer.cs:152-159 | the list holds exactly the group's `RayEmitter3D` nodes: each listed emitter is in the group, each emitter of the group is listed, and the list is no longer than the group |
| Sampling.EmitterListConcat | RayBeamRenderer.cs:152-159 | the filter keeps group order: the emitters of two consecutive runs of nodes are those of the first run followed by those of the second |
| Sampling.RaysFromBound | RayBeamRenderer.cs:184-336 | rays r onward stamp at most (StepsPerRay + 1) samples each |
| Sampling.SamplesFromBound | RayBeamRenderer.cs:174-337 | the emitters' rays stamp at most (StepsPerRay + 1) samples per ray |
| Sampling.StartsBudget | RayBeamRenderer.cs:157 | that budget, summed over the emitters' ray starts, is the sum of max(1, Rays) · (StepsPerRay + 1) |
| Sampling.CapacitySums | RayBeamRenderer.cs:149-159 | summing the emitters' capacities from the front or from the back gives the same total |
| Sampling.AllSamplesBound | RayBeamRenderer.cs:149-161 | a rebuild stamps at most Σ max(1, Rays) · (StepsPerRay + 1) samples |
| Sampling.Capacity32Exact | RayBeamRenderer.cs:149-157 | unless the exact sum exceeds int.MaxValue, the wrapping 32-bit total equals it and is not negative |
| Sampling.BufferNeverFills | RayBeamRenderer.cs:149-161 | without 32-bit overflow the buffer `Rebuild` sizes holds every sample, so the full-buffer guards at lines 318 and 331 never trigger |
| Buffer.Allocated | RayBeamRenderer.cs:161 | a reallocated buffer of n slots holds n cleared instances |
| Buffer.Fitting | RayBeamRenderer.cs:318-331 | the guarded writes place all the samples, or stop exactly at the end of the buffer |
| Buffer.Overwrite | RayBeamRenderer.cs:318-332 | the slots before the cursor keep their values, the next slots receive the samples in order while room lasts, and the slots after that keep their values |
| Buffer.OverwriteOneMore | RayBeamRenderer.cs:319-332 | one more write at the cursor extends the written samples by one |
| Buffer.OverwriteFull | RayBeamRenderer.cs:331 | once the buffer is full, later samples change nothing |
| Buffer.OverwriteSequence | RayBeamRenderer.cs:168-338 | writing two runs of samples in turn, with the cursor carried over, is writing their concatenation |
| Buffer.OverwriteFromStart | RayBeamRenderer.cs:168-338 | samples written from slot 0 into a large enough buffer fill its prefix |
| Buffer.MultiMesh.constructor | RayBeamRenderer.cs:50 | a new multimesh has no instances and draws all of them |
| Buffer.MultiMesh.SetInstanceCount | RayBeamRenderer.cs:142-161 | a negative count or the current count changes nothing; any other count gives a buffer of n cleared slots, with the visible count capped at n |
| Buffer.MultiMesh.SetVisibleInstanceCount | RayBeamRenderer.cs:341-342 | a visible count from −1 to the instance count is accepted and the slots are untouched; anything else is ignored |
| Buffer.MultiMesh.SetInstanceTransform | RayBeamRenderer.cs:356 | only slot i's transform changes, and an index outside the buffer is ignored |
| Buffer.MultiMesh.SetInstanceColor | RayBeamRenderer.cs:359 | only slot i's color changes, and an index outside the buffer is ignored |
| Renderer.ReadFloat | RayBeamRenderer.cs:452-463 | a float property is read as is; an int property is cast to a 32-bit `int` with wrap-around and then converted; no node, a missing property or another type gives the fallback |
| Renderer.FirstFrameRebuilds | RayBeamRenderer.cs:44-45 | with the NaN initial cache, the first frame that has a camera rebuilds |
| Renderer.SettledFrameSkips | RayBeamRenderer.cs:101-104 | right after a rebuild, a frame with the same camera values and no field sources skips the rebuild |
| Renderer.SourcesForceRebuild | RayBeamRenderer.cs:100-106 | while field sources exist, every frame with a camera rebuilds |
| Renderer.ApproximateGate | RayBeamRenderer.cs:103 | a beta drift below Mathf.Epsilon does not trigger a rebuild |
| Renderer.TrimDiscardsSamples | RayBeamRenderer.cs:341-342 | a scene that leaves fewer samples than slots exists, and after the trim its buffer holds cleared slots rather than the samples |
| Renderer.CollisionTest | RayBeamRenderer.cs:280-314 | the collision test of one step, running the sub-ray loop in ray-cast mode, agrees with `CollisionHit` |
| Renderer.FieldAt | RayBeamRenderer.cs:227-239 | the field used is the source sum while the `field_sources` group is non-empty, and the single-center fallback otherwise |
| Renderer.TraceStep | RayBeamRenderer.cs:223-333 | one step, run statement by statement, gives the outcome `StepOutcome` specifies: out of range, a hit at the hit point, or a move with a stamp exactly on the render stride; its samples, followed by those of the later steps unless it ended the ray, are the ray's samples from that step on |
| Renderer.FinishRay | RayBeamRenderer.cs:320-331 | a ray that stops after a hit, at its distance budget or on a full buffer has written everything it ever will |
| Renderer.RayBeamRenderer.constructor | RayBeamRenderer.cs:44-45 | a new renderer has NaN (`None`) cached beta and gamma and no insight plane |
| Renderer.RayBeamRenderer.RefreshInsightPlane | RayBeamRenderer.cs:497-511 | the plane flag is cleared, then set exactly when the node resolves, and the plane passes through the node's position with the node's normalized +Y as normal |
| Renderer.RayBeamRenderer.SetBillboardInstance | RayBeamRenderer.cs:345-360 | an index outside the buffer writes nothing; otherwise exactly that slot becomes the billboard sample with its alpha clamped, and nothing else changes |
| Renderer.RayBeamRenderer.ApplyOutcome | RayBeamRenderer.cs:316-333 | the step's sample goes to the cursor slot when there is room; the ray stops on a hit, out of range, or on a stamp step with the buffer full |
| Renderer.RayBeamRenderer.RayStep | RayBeamRenderer.cs:221-336 | one iteration of the step loop keeps "the buffer holds the ray's samples written so far at the cursor"; when the ray stops, it holds all of them that fit |
| Renderer.RayBeamRenderer.TraceRay | RayBeamRenderer.cs:215-336 | the step loop writes the ray's samples `RaySamples` from the cursor on, until the buffer is full, and advances the cursor by the number written |
| Renderer.RayBeamRenderer.TraceRays | RayBeamRenderer.cs:184-337 | the ray loop writes the rays' samples ray after ray from the cursor on |
| Renderer.RayBeamRenderer.ComputeRayStarts | RayBeamRenderer.cs:184-213 | ray r starts along the fan direction, or along the cone direction from the next two random draws; the draws advance by 2 per cone ray |
| Renderer.RayBeamRenderer.TraceEmitter | RayBeamRenderer.cs:174-337 | one emitter's samples are written right after those of the emitters before it |
| Renderer.RayBeamRenderer.TraceEmitters | RayBeamRenderer.cs:168-338 | the emitter loop, with the random draws running on across emitters, writes `AllSamples` from slot 0 |
| Renderer.RayBeamRenderer.GatherEmitters | RayBeamRenderer.cs:149-159 | the list keeps the group's emitters in order, and the total is the wrapping 32-bit sum of max(1, Rays) · (StepsPerRay + 1) |
| Renderer.RayBeamRenderer.FillBuffer | RayBeamRenderer.cs:149-338 | without overflow the buffer is sized to the exact capacity, the cursor ends at the number of samples, and the buffer's prefix is every sample in write order |
| Renderer.RayBeamRenderer.Rebuild | RayBeamRenderer.cs:117-343 | as written: without a camera nothing changes; otherwise beta and gamma are cached before the emitter check; and when fewer samples than slots are written, the trim leaves that many cleared slots |
| Renderer.RayBeamRenderer.RebuildKeepingSamples | RayBeamRenderer.cs:117-343 | the corrected rebuild: the engine draws exactly every sample of the rebuild, in write order |
| Renderer.RayBeamRenderer.Process | RayBeamRenderer.cs:90-107 | when the gate is closed nothing changes; when it is open, beta and gamma are cached and the drawn instances are exactly the rebuild's samples |

## Left out

- Floating point is modelled as `real`: rounding, NaN propagation and infinities are not modelled. The NaN cache sentinel is `None`.
- A zero `CollisionRaySubdivideThreshold` would give an infinite ratio in the source. The model sends it to `int.MinValue`, as the x64 conversion does.
- `Mathf.Sqrt`, `Pow`, `Exp`, `Cos`, `Sin`, `Vector3.Rotated` and the .NET random generator are host functions. Nothing is assumed about them beyond the sign facts of real square roots and powers.
- `Sampling.CappedAccelerationBound`: assumes an exact square root (`ExactSqrt`). With only the sign facts, the length of a rescaled vector cannot be computed.
- `CastMotion` and `IntersectRay` are oracles. Shape and query construction, margins, and areas versus bodies belong to the physics engine.
- `Renderer.RayBeamRenderer.constructor` requires a non-negative `StepAdaptGain`, and every method carries that requirement through `Valid()`. With a negative gain the adaptive step can divide by zero, which real arithmetic cannot represent; the source computes an infinite float there.
- `Sampling.AdaptiveStepMonotone` holds only for a non-negative `StepLength` and `MinStepLength ≤ MaxStepLength`. Outside those ranges the clamp does not preserve the order.
- `Renderer.RayBeamRenderer.Rebuild`: the buffer contents are not stated when the capacity overflows 32 bits (StepsPerRay below −1, or a sum beyond int.MaxValue).
- `Renderer.RayBeamRenderer.RebuildKeepingSamples`: the buffer contents are not stated when the capacity overflows 32 bits.
- `Renderer.RayBeamRenderer.FillBuffer`: the buffer contents are not stated when the capacity overflows 32 bits.
- `Renderer.RayBeamRenderer.Process`: the drawn instances are not stated when the capacity overflows 32 bits.
- The step counter `s` is an unbounded integer, and the model's step loop ends after step `StepsPerRay`. With `StepsPerRay == int.MaxValue` the source's `s++` wraps and `s <= StepsPerRay` stays true. Each ray still ends: on a hit, at its distance budget, or at the full-buffer break at line 331, which comes because the instance count is finite. In that case `StepsPerRay + 1` at line 157 wraps to int.MinValue, and the total wraps to 0 or int.MinValue. So the case is a 32-bit capacity overflow, for which the rebuild contracts above state no buffer contents.
- The source computes each ray's start just before tracing it. The model computes all of an emitter's ray starts first (`ComputeRayStarts`) and then traces them (`TraceRays`). Tracing draws no random numbers, so the draw sequence and every sample are the same.
- `Process` calls the corrected `RebuildKeepingSamples`. `Rebuild` models the trim as written (see Findings).
- `_Ready` is not modelled: it creates the multimesh, mesh and material and does the first rebuild after a frame. A new renderer starts with an empty multimesh (`Renderer.RayBeamRenderer.constructor`).
- `GetCamera` (a node path or the viewport camera), `GetNodesInGroup` and `GetNodeOrNull` are scene-tree lookups. Their results are inputs: `Scene` holds the camera, both groups in tree order, and the insight plane node.
- The camera's global basis and position are inputs; the renderer normalizes the axes itself (`FrameOf`).
- Per-instance custom data, the quad mesh and the material are not modelled; they do not influence the samples.
- RayViz.cs, Camera3D.cs and CurvedCamera.cs are not part of this model. RayEmitter3D.cs and FieldSource3D.cs only declare exported fields. The field-source fields are taken from their uses in RayBeamRenderer.cs, which reads several fields FieldSource3D.cs does not declare.
- With a single ray, a fan points at −yawTotal/2, its left edge, not straight ahead. The model follows the code (`Sampling.FanSingleRayAtLeftEdge`).

## Findings

| source | as written | input that shows it | evidently intended | confidence | as-written member | corrected member |
|---|---|---|---|---|---|---|
| RayBeamRenderer.cs:341-342 | when fewer samples than slots are written, `_mm.InstanceCount = idx` trims the buffer; setting a new instance count makes the engine reallocate the buffer, so every sample just written is cleared and the engine draws `idx` blank instances | one emitter with `Rays = 1`, `StepsPerRay = 1`, `RenderEveryNSteps = 2`, analytic mode, `StopOnHit = false`: 2 slots, 1 sample, and after the trim the one slot is cleared | keep the written samples and draw only them, for example by setting `VisibleInstanceCount = idx` | medium, not executed (it depends on the engine's reallocation on a count change) | Renderer.RayBeamRenderer.Rebuild, Renderer.TrimDiscardsSamples | Renderer.RayBeamRenderer.RebuildKeepingSamples |
