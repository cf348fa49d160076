/**
  The single-subject page's frame clock: its `render` advances the `time`
  uniform by `0.2 * (5 * elapsed)` for the real seconds `elapsed` since the
  previous frame, one unit of uniform time per real second.
*/
module SubjectPage {

  /** Starting value of the `time` uniform. */
  const InitialTime: real := 1.0

  /** The `time` uniform after one `render`. */
  function AdvanceTime(t: real, elapsed: real): (r: real)
    ensures r - t == elapsed
    ensures elapsed >= 0.0 ==> r >= t
  {
    var delta := 5.0 * elapsed;
    t + 0.2 * delta
  }

  /** The `time` uniform after one `render` per entry of `frames`, in order. */
  function AdvanceAll(t: real, frames: seq<real>): real
    decreases |frames|
  {
    if frames == [] then t else AdvanceAll(AdvanceTime(t, frames[0]), frames[1..])
  }

  function Sum(frames: seq<real>): real
    decreases |frames|
  {
    if frames == [] then 0.0 else frames[0] + Sum(frames[1..])
  }

  /** Over any number of frames the uniform gains exactly the real time that passed. */
  lemma {:induction false} AdvanceAllAddsElapsed(t: real, frames: seq<real>)
    ensures AdvanceAll(t, frames) == t + Sum(frames)
    decreases |frames|
  {
    if frames != [] {
      AdvanceAllAddsElapsed(AdvanceTime(t, frames[0]), frames[1..]);
    }
  }

  /** With non-negative frame durations the uniform never decreases. */
  lemma {:induction false} AdvanceAllMonotone(t: real, frames: seq<real>)
    requires forall i :: 0 <= i < |frames| ==> frames[i] >= 0.0
    ensures AdvanceAll(t, frames) >= t
    decreases |frames|
  {
    if frames != [] {
      AdvanceAllMonotone(AdvanceTime(t, frames[0]), frames[1..]);
    }
  }

  /** The `time` entry of the page's uniform map, the only one `render` updates. */
  class TimeUniform {
    var value: real

    constructor ()
      ensures value == InitialTime
    {
      value := InitialTime;
    }

    /** `render`: `uniforms['time'].value += 0.2 * delta` with `delta = 5 * elapsed`. */
    method Render(elapsed: real)
      modifies this
      ensures value == AdvanceTime(old(value), elapsed)
    {
      var delta := 5.0 * elapsed;
      value := value + 0.2 * delta;
    }
  }
}
