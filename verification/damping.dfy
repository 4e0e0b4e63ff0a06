/** The first-order "damped follow" filter shared by the wordmark (rates 3·dt and 4·dt),
    the cursor glow (0.15) and the hero camera (0.05): every step closes the fraction
    `rate` of the gap between the displayed value and its target. */
module Damping {

  /** `current += (target - current) * rate`: the gap to the target is scaled by `1 - rate`. */
  function Follow(current: real, target: real, rate: real): (r: real)
    ensures r - target == (1.0 - rate) * (current - target)
    ensures current == target ==> r == target
  {
    current + (target - current) * rate
  }

  /** `x` lies in the closed interval spanned by `a` and `b`, whichever is larger. */
  predicate Between(x: real, a: real, b: real)
  {
    if a <= b then a <= x <= b else b <= x <= a
  }

  lemma MulNonneg(a: real, b: real)
    requires a >= 0.0 && b >= 0.0
    ensures a * b >= 0.0
  {}

  lemma MulNonpos(a: real, b: real)
    requires a >= 0.0 && b <= 0.0
    ensures a * b <= 0.0
  {}

  /** A point whose gap to `target` is the gap of `current` scaled by a factor in [0,1]
      lies between the two and on the same side of the target. */
  lemma GapScaledBetween(x: real, current: real, target: real, factor: real)
    requires 0.0 <= factor <= 1.0
    requires x - target == factor * (current - target)
    ensures Between(x, current, target)
    ensures (x - target) * (current - target) >= 0.0
  {
    var gap := current - target;
    assert (1.0 - factor) * gap == gap - factor * gap;
    if gap >= 0.0 {
      MulNonneg(factor, gap);
      MulNonneg(1.0 - factor, gap);
      MulNonneg(factor * gap, gap);
    } else {
      MulNonpos(factor, gap);
      MulNonpos(1.0 - factor, gap);
      MulNonneg(-(factor * gap), -gap);
      assert (factor * gap) * gap == (-(factor * gap)) * (-gap);
    }
  }

  /** For a rate in [0,1] a step never overshoots: the new value lies between the old
      value and the target, on the same side of the target as before. */
  lemma FollowBetween(current: real, target: real, rate: real)
    requires 0.0 <= rate <= 1.0
    ensures Between(Follow(current, target, rate), current, target)
    ensures (Follow(current, target, rate) - target) * (current - target) >= 0.0
  {
    GapScaledBetween(Follow(current, target, rate), current, target, 1.0 - rate);
  }

  function Pow(x: real, n: nat): (r: real)
    ensures 0.0 <= x <= 1.0 ==> 0.0 <= r <= 1.0
  {
    if n == 0 then 1.0
    else
      var p := Pow(x, n - 1);
      assert 0.0 <= x <= 1.0 ==> 0.0 <= x * p <= 1.0 by {
        if 0.0 <= x <= 1.0 {
          assert 0.0 <= x * p <= x;
        }
      }
      x * p
  }

  /** `n` consecutive steps toward a fixed target. */
  function FollowN(current: real, target: real, rate: real, n: nat): (r: real)
    ensures r - target == Pow(1.0 - rate, n) * (current - target)
  {
    if n == 0 then current
    else
      var prev := FollowN(current, target, rate, n - 1);
      assert Follow(prev, target, rate) - target
          == (1.0 - rate) * (Pow(1.0 - rate, n - 1) * (current - target));
      Follow(prev, target, rate)
  }

  /** With a stationary target and a rate in [0,1], repeated steps converge monotonically:
      the gap never grows and never changes sign. */
  lemma {:induction false} FollowNMonotone(current: real, target: real, rate: real, n: nat)
    requires 0.0 <= rate <= 1.0
    ensures Between(FollowN(current, target, rate, n), current, target)
    ensures Between(FollowN(current, target, rate, n + 1), FollowN(current, target, rate, n), target)
  {
    GapScaledBetween(FollowN(current, target, rate, n), current, target, Pow(1.0 - rate, n));
    FollowBetween(FollowN(current, target, rate, n), target, rate);
  }

  /** Running `n` steps is one step followed by `n - 1` more. */
  lemma FollowNFirstStep(current: real, target: real, rate: real, n: nat)
    requires n > 0
    ensures FollowN(current, target, rate, n) == FollowN(Follow(current, target, rate), target, rate, n - 1)
  {
    var q, p, gap := 1.0 - rate, Pow(1.0 - rate, n - 1), current - target;
    var a := FollowN(current, target, rate, n);
    var b := FollowN(Follow(current, target, rate), target, rate, n - 1);
    assert a - target == (q * p) * gap;
    assert b - target == p * (q * gap);
    MulRotate(p, q, gap);
  }

  lemma MulRotate(a: real, b: real, c: real)
    ensures a * (b * c) == (b * a) * c
  {}
}
