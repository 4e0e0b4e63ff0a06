/** The ease-out tween the wordmark uses to move a material property toward a target
    value over a fixed duration, one animation frame at a time. The wall clock is a
    parameter: each frame receives the seconds elapsed since the tween started. */
module Easing {
  import opened Damping

  /** `Math.min(elapsed / duration, 1)`. */
  function Progress(elapsed: real, duration: real): (p: real)
    requires duration > 0.0
    ensures p <= 1.0
    ensures elapsed >= 0.0 ==> 0.0 <= p
    ensures p == 1.0 <==> elapsed >= duration
    ensures p < 1.0 ==> p * duration == elapsed
  {
    var ratio := elapsed / duration;
    assert ratio * duration == elapsed;
    assert ratio < 1.0 <==> elapsed < duration by {
      if ratio < 1.0 {
        MulNonneg(1.0 - ratio, duration);
      } else {
        MulNonneg(ratio - 1.0, duration);
      }
    }
    assert elapsed >= 0.0 ==> ratio >= 0.0 by {
      if elapsed >= 0.0 && ratio < 0.0 {
        MulNonpos(duration, ratio);
      }
    }
    if ratio < 1.0 then ratio else 1.0
  }

  /** The cubic ease-out curve `1 - (1 - p)^3`: it maps [0,1] onto [0,1], starts at 0 and
      ends exactly at 1, so the last frame writes the target value itself. */
  function EaseOut(p: real): (e: real)
    ensures 0.0 <= p <= 1.0 ==> 0.0 <= e <= 1.0
    ensures p == 0.0 ==> e == 0.0
    ensures p == 1.0 ==> e == 1.0
  {
    var q := 1.0 - p;
    assert 0.0 <= p <= 1.0 ==> 0.0 <= q * q * q <= 1.0 by {
      if 0.0 <= p <= 1.0 {
        CubeBounds(q);
      }
    }
    1.0 - q * q * q
  }

  lemma CubeBounds(q: real)
    requires 0.0 <= q <= 1.0
    ensures 0.0 <= q * q * q <= 1.0
  {
    MulNonneg(q, q);
    MulNonneg(1.0 - q, q);
    MulNonneg(q * q, q);
    MulNonneg(1.0 - q * q, q);
  }

  lemma CubeMonotone(a: real, b: real)
    requires 0.0 <= a <= b
    ensures a * a * a <= b * b * b
  {
    MulNonneg(a, a);
    MulNonneg(b - a, a);
    MulNonneg(b - a, b);
    assert a * a <= b * b;
    MulNonneg(b * b - a * a, a);
    MulNonneg(b * b, b - a);
  }

  /** Later frames never move back: the curve is monotone on [0,1]. */
  lemma EaseOutMonotone(p: real, p': real)
    requires 0.0 <= p <= p' <= 1.0
    ensures EaseOut(p) <= EaseOut(p')
  {
    CubeMonotone(1.0 - p', 1.0 - p);
  }

  /** One running tween: the property's value when it started, the target and the duration
      in seconds. */
  datatype Tween = Tween(start: real, target: real, duration: real)

  /** What one frame of the tween does: the value it writes, and whether it asks for another frame. */
  datatype Step = Step(value: real, requestsNext: bool)

  /** One call of the tween's frame function, `elapsed` seconds after it started. */
  function StepAt(t: Tween, elapsed: real): (s: Step)
    requires t.duration > 0.0
    ensures s.requestsNext <==> elapsed < t.duration
    ensures !s.requestsNext ==> s.value == t.target
    ensures elapsed >= 0.0 ==> Between(s.value, t.start, t.target)
  {
    var p := Progress(elapsed, t.duration);
    var eased := EaseOut(p);
    var value := t.start + (t.target - t.start) * eased;
    assert elapsed >= 0.0 ==> Between(value, t.start, t.target) by {
      if elapsed >= 0.0 {
        assert value - t.target == (1.0 - eased) * (t.start - t.target);
        GapScaledBetween(value, t.start, t.target, 1.0 - eased);
      }
    }
    Step(value, p < 1.0)
  }

  /** A time past the duration in a list whose head is not past it also occurs in its tail. */
  lemma PastDurationShifts(times: seq<real>, duration: real)
    requires 0 < |times| && times[0] < duration
    ensures (exists i :: 0 <= i < |times| && times[i] >= duration) ==>
              exists i :: 0 <= i < |times[1..]| && times[1..][i] >= duration
  {
    if exists i :: 0 <= i < |times| && times[i] >= duration {
      var i :| 0 <= i < |times| && times[i] >= duration;
      assert times[1..][i - 1] >= duration;
    }
  }

  /** The values a tween writes when its frames run at the given elapsed times: the first
      frame runs at once, and each later one only if the previous frame asked for it. */
  function Run(t: Tween, times: seq<real>): (values: seq<real>)
    requires t.duration > 0.0
    ensures |values| <= |times|
    ensures |times| > 0 ==> |values| > 0
    ensures forall i :: 0 <= i < |values| ==> values[i] == StepAt(t, times[i]).value
    ensures forall i :: 0 <= i < |values| - 1 ==> times[i] < t.duration
    ensures 0 < |values| < |times| ==> times[|values| - 1] >= t.duration
    ensures 0 < |values| < |times| ==> values[|values| - 1] == t.target
    ensures (exists i :: 0 <= i < |times| && times[i] >= t.duration) ==> values[|values| - 1] == t.target
    ensures (forall i :: 0 <= i < |times| ==> times[i] >= 0.0) ==>
              forall i :: 0 <= i < |values| ==> Between(values[i], t.start, t.target)
  {
    if |times| == 0 then []
    else
      var s := StepAt(t, times[0]);
      if !s.requestsNext then [s.value]
      else
        var later := times[1..];
        var rest := Run(t, later);
        var values := [s.value] + rest;
        assert forall i :: 1 <= i < |times| ==> times[i] == later[i - 1];
        assert forall i :: 1 <= i < |values| ==> values[i] == rest[i - 1];
        assert |values| < |times| ==> times[|values| - 1] == later[|rest| - 1];
        PastDurationShifts(times, t.duration);
        values
  }
}
