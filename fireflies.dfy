/**
  The firefly motion step of the portrait scene and the frame clock that drives
  it. Three particle groups drift by a fixed shift along their direction each
  frame, are clamped into a fixed box, and all draw new directions on the same
  frame once the simulated clock has run more than ten units past the last draw.
  Coordinates are reals; the source computes in double precision.
*/
module Fireflies {

  // ---------------------------------------------------------------------------
  // Vectors and boxes (the parts of THREE.Vector3 the step uses)
  // ---------------------------------------------------------------------------

  datatype Vec3 = Vec3(x: real, y: real, z: real)

  /** `p.add(d.clone().multiplyScalar(k))`. */
  function AddScaled(p: Vec3, d: Vec3, k: real): Vec3 {
    Vec3(p.x + k * d.x, p.y + k * d.y, p.z + k * d.z)
  }

  function Min(a: real, b: real): real { if a <= b then a else b }
  function Max(a: real, b: real): real { if a >= b then a else b }

  /** One component of `Vector3.clamp`: `Math.max(lo, Math.min(hi, v))`. */
  function ClampScalar(v: real, lo: real, hi: real): (r: real)
    ensures lo <= hi ==> lo <= r <= hi
    ensures lo <= v <= hi ==> r == v
    ensures lo <= hi && v < lo ==> r == lo
    ensures lo <= hi && hi < v ==> r == hi
  {
    Max(lo, Min(hi, v))
  }

  /** An axis-aligned region `[lo, hi]`, component-wise. */
  datatype Box = Box(lo: Vec3, hi: Vec3)

  predicate Ordered(b: Box) {
    b.lo.x <= b.hi.x && b.lo.y <= b.hi.y && b.lo.z <= b.hi.z
  }

  predicate Contains(b: Box, p: Vec3) {
    b.lo.x <= p.x <= b.hi.x && b.lo.y <= p.y <= b.hi.y && b.lo.z <= p.z <= b.hi.z
  }

  /** `p.clamp(b.lo, b.hi)`. */
  function Clamp(p: Vec3, b: Box): (r: Vec3)
    ensures Ordered(b) ==> Contains(b, r)
    ensures Contains(b, p) ==> r == p
  {
    Vec3(ClampScalar(p.x, b.lo.x, b.hi.x), ClampScalar(p.y, b.lo.y, b.hi.y), ClampScalar(p.z, b.lo.z, b.hi.z))
  }

  // ---------------------------------------------------------------------------
  // Constants of the step
  // ---------------------------------------------------------------------------

  const FireflyCount: nat := 3

  /** Distance moved per frame along a direction, whatever the frame's duration. */
  const Speed: real := 0.0005

  /** Simulated time that must pass, strictly, before directions are drawn again. */
  const ResampleInterval: real := 10.0

  /** The plane every firefly is held in: each box is flat in z. */
  const PlaneZ: real := -0.7

  /** The clamp boxes, one per firefly. */
  const Boxes: seq<Box> := [
    Box(Vec3(0.4, 2.2, PlaneZ), Vec3(0.6, 2.4, PlaneZ)),
    Box(Vec3(-2.6, 0.8, PlaneZ), Vec3(-2.4, 1.0, PlaneZ)),
    Box(Vec3(1.0, 4.1, PlaneZ), Vec3(1.2, 4.3, PlaneZ))
  ]

  /** Positions the firefly loader gives the three groups. */
  const Placements: seq<Vec3> := [Vec3(0.5, 2.3, PlaneZ), Vec3(-2.5, 0.9, PlaneZ), Vec3(1.1, 4.2, PlaneZ)]

  /** Starting value of the simulated clock and of the last draw time. */
  const InitialTime: real := 1.0

  /** Starting value of the grain pass's `seed` uniform. */
  const InitialSeed: real := 1.0

  /** A random draw `(x, y)` for a new direction: the step uses it as `(x, y, 0)`. */
  datatype Sample = Sample(x: real, y: real)

  function Heading(s: Sample): Vec3 {
    Vec3(s.x, s.y, 0.0)
  }

  // ---------------------------------------------------------------------------
  // The state and one frame, as values
  // ---------------------------------------------------------------------------

  /** Firefly positions and directions, the clock, the last draw time and the grain seed. */
  datatype SimState = SimState(positions: seq<Vec3>, directions: seq<Vec3>, time: real, lastAni: real, seed: real)

  predicate WellShaped(s: SimState) {
    |s.positions| == FireflyCount && |s.directions| == FireflyCount
  }

  /** Every direction lies in the xy-plane. */
  predicate Planar(s: SimState) {
    forall i :: 0 <= i < |s.directions| ==> s.directions[i].z == 0.0
  }

  /** Every firefly is inside its own box. */
  predicate InBoxes(s: SimState) {
    WellShaped(s) && forall i :: 0 <= i < FireflyCount ==> Contains(Boxes[i], s.positions[i])
  }

  /** Whether this frame draws new directions: more than ResampleInterval since the last draw. */
  predicate Due(s: SimState) {
    s.time - s.lastAni > ResampleInterval
  }

  /** The directions after a frame's draw check. */
  function NextDirections(s: SimState, samples: seq<Sample>): (d: seq<Vec3>)
    requires WellShaped(s) && |samples| == FireflyCount
    ensures |d| == FireflyCount
  {
    if Due(s) then seq(FireflyCount, i requires 0 <= i < FireflyCount => Heading(samples[i])) else s.directions
  }

  /** The motion step: draw (when due), shift, then clamp every firefly into its box. */
  function Step(s: SimState, samples: seq<Sample>): (r: SimState)
    requires WellShaped(s) && |samples| == FireflyCount
    ensures WellShaped(r)
  {
    var dirs := NextDirections(s, samples);
    SimState(
      seq(FireflyCount, i requires 0 <= i < FireflyCount => Clamp(AddScaled(s.positions[i], dirs[i], Speed), Boxes[i])),
      dirs,
      s.time,
      if Due(s) then s.time else s.lastAni,
      s.seed)
  }

  /** The clock advance: `elapsed` real seconds are worth `2 * 5 * elapsed` units; the seed follows the clock. */
  function Advance(s: SimState, elapsed: real): (r: SimState)
    ensures r.time - s.time == 10.0 * elapsed
    ensures r.seed == r.time
    ensures r.positions == s.positions && r.directions == s.directions && r.lastAni == s.lastAni
  {
    var delta := 5.0 * elapsed;
    var t := s.time + 2.0 * delta;
    s.(time := t, seed := t)
  }

  /** One animation frame: the motion step, then the clock advance. */
  datatype FrameInput = FrameInput(samples: seq<Sample>, elapsed: real)

  predicate ValidInput(f: FrameInput) {
    |f.samples| == FireflyCount
  }

  function Frame(s: SimState, f: FrameInput): (r: SimState)
    requires WellShaped(s) && ValidInput(f)
    ensures WellShaped(r)
  {
    Advance(Step(s, f.samples), f.elapsed)
  }

  /** A sequence of frames, in order. */
  function Run(s: SimState, frames: seq<FrameInput>): (r: SimState)
    requires WellShaped(s) && forall i :: 0 <= i < |frames| ==> ValidInput(frames[i])
    decreases |frames|
    ensures WellShaped(r)
  {
    if frames == [] then s else Run(Frame(s, frames[0]), frames[1..])
  }

  /** Real time covered by a sequence of frames. */
  function TotalElapsed(frames: seq<FrameInput>): real
    decreases |frames|
  {
    if frames == [] then 0.0 else frames[0].elapsed + TotalElapsed(frames[1..])
  }

  /** State at start-up: groups at the origin, directions from the first draws, clock and last draw at 1. */
  function Initial(samples: seq<Sample>): (r: SimState)
    requires |samples| == FireflyCount
    ensures WellShaped(r) && Planar(r)
    ensures r.time == r.lastAni && !Due(r)
  {
    SimState(
      seq(FireflyCount, i => Vec3(0.0, 0.0, 0.0)),
      seq(FireflyCount, i requires 0 <= i < FireflyCount => Heading(samples[i])),
      InitialTime, InitialTime, InitialSeed)
  }

  /** The firefly loader's placement: only the positions change. */
  function Placed(s: SimState): (r: SimState)
    requires WellShaped(s)
    ensures InBoxes(r)
    ensures r.directions == s.directions && r.time == s.time && r.lastAni == s.lastAni && r.seed == s.seed
  {
    s.(positions := Placements)
  }

  // ---------------------------------------------------------------------------
  // Properties of one step
  // ---------------------------------------------------------------------------

  lemma BoxesOrdered()
    ensures forall i :: 0 <= i < FireflyCount ==> Ordered(Boxes[i])
  {
  }

  /** After any step every firefly is in its box and in the plane z = -0.7, wherever it was and however it moved. */
  lemma StepContained(s: SimState, samples: seq<Sample>)
    requires WellShaped(s) && |samples| == FireflyCount
    ensures InBoxes(Step(s, samples))
    ensures forall i :: 0 <= i < FireflyCount ==> Step(s, samples).positions[i].z == PlaneZ
  {
    BoxesOrdered();
  }

  /** Not due: directions and the last draw time are left alone. Due: all three are redrawn and the draw time is now. */
  lemma StepCadence(s: SimState, samples: seq<Sample>)
    requires WellShaped(s) && |samples| == FireflyCount
    ensures !Due(s) ==> Step(s, samples).directions == s.directions && Step(s, samples).lastAni == s.lastAni
    ensures Due(s) ==> forall i :: 0 <= i < FireflyCount ==> Step(s, samples).directions[i] == Heading(samples[i])
    ensures Due(s) ==> Step(s, samples).lastAni == s.time
    ensures Step(s, samples).lastAni != s.lastAni <==> Due(s)
  {
  }

  /** Every direction, kept or drawn, stays in the xy-plane. */
  lemma StepPlanar(s: SimState, samples: seq<Sample>)
    requires WellShaped(s) && |samples| == FireflyCount && Planar(s)
    ensures Planar(Step(s, samples))
  {
  }

  /**
    Before the clamp a firefly moves by exactly `Speed` times its direction: when
    that lands inside its box, the new position is the old one plus the shift.
  */
  lemma StepShift(s: SimState, samples: seq<Sample>, i: nat)
    requires WellShaped(s) && |samples| == FireflyCount && i < FireflyCount
    requires Contains(Boxes[i], AddScaled(s.positions[i], Step(s, samples).directions[i], Speed))
    ensures Step(s, samples).positions[i] ==
      Vec3(s.positions[i].x + 0.0005 * Step(s, samples).directions[i].x,
           s.positions[i].y + 0.0005 * Step(s, samples).directions[i].y,
           s.positions[i].z + 0.0005 * Step(s, samples).directions[i].z)
  {
  }

  /** A firefly pushed against its box's x-limit stays at that limit while its direction keeps pushing. */
  lemma StepSticksAtBoundary(s: SimState, samples: seq<Sample>, i: nat)
    requires WellShaped(s) && |samples| == FireflyCount && i < FireflyCount
    requires s.positions[i].x == Boxes[i].hi.x && Step(s, samples).directions[i].x >= 0.0
    ensures Step(s, samples).positions[i].x == Boxes[i].hi.x
  {
  }

  /** The step touches neither the clock nor the seed. */
  lemma StepKeepsClock(s: SimState, samples: seq<Sample>)
    requires WellShaped(s) && |samples| == FireflyCount
    ensures Step(s, samples).time == s.time && Step(s, samples).seed == s.seed
  {
  }

  // ---------------------------------------------------------------------------
  // Properties of a frame
  // ---------------------------------------------------------------------------

  /** The draw check of a frame reads the clock as it was before that frame's advance. */
  lemma FrameDrawsOnPreviousTime(s: SimState, f: FrameInput)
    requires WellShaped(s) && ValidInput(f)
    ensures Frame(s, f).lastAni != s.lastAni <==> s.time - s.lastAni > ResampleInterval
    ensures Frame(s, f).time == s.time + 10.0 * f.elapsed && Frame(s, f).seed == Frame(s, f).time
  {
    StepCadence(s, f.samples);
  }

  /** Concretely: a frame that carries the clock past the interval does not yet draw. */
  lemma FrameDrawLagsClock()
    ensures var s := SimState(Placements, [Vec3(1.0, 0.0, 0.0), Vec3(1.0, 0.0, 0.0), Vec3(1.0, 0.0, 0.0)], 10.5, 1.0, 10.5);
            var r := Frame(s, FrameInput([Sample(0.0, 1.0), Sample(0.0, 1.0), Sample(0.0, 1.0)], 0.1));
            r.time - s.lastAni > ResampleInterval && r.directions == s.directions
  {
  }

  /** How far a firefly moves does not depend on how long the frame took. */
  lemma FrameMotionIgnoresElapsed(s: SimState, samples: seq<Sample>, e1: real, e2: real)
    requires WellShaped(s) && |samples| == FireflyCount
    ensures Frame(s, FrameInput(samples, e1)).positions == Frame(s, FrameInput(samples, e2)).positions
    ensures Frame(s, FrameInput(samples, e1)).directions == Frame(s, FrameInput(samples, e2)).directions
  {
  }

  // ---------------------------------------------------------------------------
  // Properties of a run of frames
  // ---------------------------------------------------------------------------

  lemma {:induction false} TotalElapsedNonNegative(frames: seq<FrameInput>)
    requires forall i :: 0 <= i < |frames| ==> frames[i].elapsed >= 0.0
    ensures TotalElapsed(frames) >= 0.0
    decreases |frames|
  {
    if frames != [] {
      TotalElapsedNonNegative(frames[1..]);
    }
  }

  /** The clock advances by ten units per real second in total, and after any frame the seed equals the clock. */
  lemma {:induction false} RunClock(s: SimState, frames: seq<FrameInput>)
    requires WellShaped(s) && forall i :: 0 <= i < |frames| ==> ValidInput(frames[i])
    ensures Run(s, frames).time == s.time + 10.0 * TotalElapsed(frames)
    ensures frames != [] ==> Run(s, frames).seed == Run(s, frames).time
    decreases |frames|
  {
    if frames != [] {
      RunClock(Frame(s, frames[0]), frames[1..]);
    }
  }

  /** With non-negative frame durations the clock never goes back. */
  lemma RunClockMonotone(s: SimState, frames: seq<FrameInput>)
    requires WellShaped(s) && forall i :: 0 <= i < |frames| ==> ValidInput(frames[i])
    requires forall i :: 0 <= i < |frames| ==> frames[i].elapsed >= 0.0
    ensures Run(s, frames).time >= s.time
  {
    RunClock(s, frames);
    TotalElapsedNonNegative(frames);
  }

  /** After at least one frame every firefly is in its box, whatever the draws and durations. */
  lemma {:induction false} RunContained(s: SimState, frames: seq<FrameInput>)
    requires WellShaped(s) && forall i :: 0 <= i < |frames| ==> ValidInput(frames[i])
    requires frames != []
    ensures InBoxes(Run(s, frames))
    decreases |frames|
  {
    var s' := Frame(s, frames[0]);
    if |frames| == 1 {
      StepContained(s, frames[0].samples);
      assert Run(s', frames[1..]) == s';
    } else {
      RunContained(s', frames[1..]);
    }
  }

  /** Directions stay in the xy-plane for any number of frames. */
  lemma {:induction false} RunPlanar(s: SimState, frames: seq<FrameInput>)
    requires WellShaped(s) && forall i :: 0 <= i < |frames| ==> ValidInput(frames[i])
    requires Planar(s)
    ensures Planar(Run(s, frames))
    decreases |frames|
  {
    if frames != [] {
      StepPlanar(s, frames[0].samples);
      RunPlanar(Frame(s, frames[0]), frames[1..]);
    }
  }

  /**
    Between draws the directions are constant: over frames of non-negative
    duration that keep the clock within ResampleInterval of the last draw,
    neither the directions nor the last draw time change.
  */
  lemma {:induction false} RunHoldsDirections(s: SimState, frames: seq<FrameInput>)
    requires WellShaped(s) && forall i :: 0 <= i < |frames| ==> ValidInput(frames[i])
    requires forall i :: 0 <= i < |frames| ==> frames[i].elapsed >= 0.0
    requires s.time + 10.0 * TotalElapsed(frames) - s.lastAni <= ResampleInterval
    ensures Run(s, frames).directions == s.directions && Run(s, frames).lastAni == s.lastAni
    decreases |frames|
  {
    if frames != [] {
      TotalElapsedNonNegative(frames[1..]);
      StepCadence(s, frames[0].samples);
      RunHoldsDirections(Frame(s, frames[0]), frames[1..]);
    }
  }

  // ---------------------------------------------------------------------------
  // The scene's state as the page keeps it
  // ---------------------------------------------------------------------------

  /**
    The module-level state of the page: each firefly group's position, the
    `directions` array, `time`, `lastAni` and the grain pass's `seed` uniform.
  */
  class FireflyScene {
    const positions: array<Vec3>
    const directions: array<Vec3>
    var time: real
    var lastAni: real
    var seed: real

    ghost predicate Valid()
      reads this
    {
      positions.Length == FireflyCount && directions.Length == FireflyCount && positions != directions
    }

    /** The state as a value. */
    function State(): SimState
      reads this, positions, directions
    {
      SimState(positions[..], directions[..], time, lastAni, seed)
    }

    /** Start-up: `time = lastAni = 1.0`, three groups at the origin, three first draws. */
    constructor (samples: seq<Sample>)
      requires |samples| == FireflyCount
      ensures Valid() && fresh(positions) && fresh(directions)
      ensures State() == Initial(samples)
    {
      positions := new Vec3[FireflyCount](i => Vec3(0.0, 0.0, 0.0));
      directions := new Vec3[FireflyCount](i requires 0 <= i < FireflyCount => Heading(samples[i]));
      time := InitialTime;
      lastAni := InitialTime;
      seed := InitialSeed;
    }

    /** The firefly loader sets the three groups' positions. */
    method Place()
      requires Valid()
      modifies positions
      ensures State() == Placed(old(State()))
    {
      positions[0] := Placements[0];
      positions[1] := Placements[1];
      positions[2] := Placements[2];
    }

    /** The motion part of `animate`: draw when due, shift each group, then clamp each into its box. */
    method Move(samples: seq<Sample>)
      requires Valid() && |samples| == FireflyCount
      modifies this, positions, directions
      ensures State() == Step(old(State()), samples)
    {
      ghost var s0 := State();
      DrawAndShift(samples);
      if time - lastAni > ResampleInterval {
        lastAni := time;
      }
      positions[0] := Clamp(positions[0], Boxes[0]);
      positions[1] := Clamp(positions[1], Boxes[1]);
      positions[2] := Clamp(positions[2], Boxes[2]);
      assert positions[..] == Step(s0, samples).positions;
    }

    /** The loop of `animate`: each group takes a fresh heading when a draw is due, then moves along its heading. */
    method DrawAndShift(samples: seq<Sample>)
      requires Valid() && |samples| == FireflyCount
      modifies positions, directions
      ensures directions[..] == NextDirections(old(State()), samples)
      ensures forall j :: 0 <= j < FireflyCount ==> positions[j] == AddScaled(old(positions[j]), directions[j], Speed)
    {
      ghost var s0 := State();
      ghost var dirs := NextDirections(s0, samples);
      for i := 0 to FireflyCount
        invariant forall j :: 0 <= j < i ==>
          directions[j] == dirs[j] && positions[j] == AddScaled(s0.positions[j], dirs[j], Speed)
        invariant forall j :: i <= j < FireflyCount ==> directions[j] == s0.directions[j] && positions[j] == s0.positions[j]
      {
        if time - lastAni > ResampleInterval {
          directions[i] := Heading(samples[i]);
        }
        positions[i] := AddScaled(positions[i], directions[i], Speed);
      }
      assert directions[..] == dirs;
    }

    /** `render`: advance the clock by `2 * (5 * elapsed)` and hand it to the grain pass as its seed. */
    method Render(elapsed: real)
      modifies this
      ensures State() == Advance(old(State()), elapsed)
    {
      var delta := 5.0 * elapsed;
      time := time + 2.0 * delta;
      seed := time;
    }

    /** `animate`: the motion step, then `render`. */
    method Animate(samples: seq<Sample>, elapsed: real)
      requires Valid() && |samples| == FireflyCount
      modifies this, positions, directions
      ensures Valid()
      ensures State() == Frame(old(State()), FrameInput(samples, elapsed))
    {
      Move(samples);
      Render(elapsed);
    }
  }
}
