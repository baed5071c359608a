/** The health bar (src/ui/healthbar.rs): each bar's shown fraction eases
    towards its parent's health fraction. */
module HealthBar {
  import opened Common
  import Health

  /** `LERP_SPEED`. */
  const LerpSpeed: real := 0.5

  /** `move_toward`: within `maxDelta` of the target it lands on the
      target; further away it does not step towards the target but jumps
      past it, to the target plus the whole gap times `maxDelta`. */
  function MoveToward(current: real, target: real, maxDelta: real): (r: real)
    ensures Abs(target - current) <= maxDelta ==> r == target
    ensures 0.0 < maxDelta ==> (r == target <==> Abs(target - current) <= maxDelta)
    ensures maxDelta == 0.0 ==> r == target
    ensures current == target && 0.0 <= maxDelta ==> r == target
    ensures 0.0 < maxDelta < Abs(target - current) ==>
      (current < target ==> target < r) && (target < current ==> r < target)
    ensures Abs(target - current) > maxDelta ==> Abs(r - target) == Abs(target - current) * Abs(maxDelta)
  {
    if Abs(target - current) <= maxDelta then target
    else
      ProductSigns(target - current, maxDelta);
      target + (target - current) * maxDelta
  }

  /** The sign and size of a product, which the solver does not find by
      itself. */
  lemma ProductSigns(a: real, b: real)
    ensures 0.0 < a && 0.0 < b ==> 0.0 < a * b
    ensures a < 0.0 && 0.0 < b ==> a * b < 0.0
    ensures Abs(a * b) == Abs(a) * Abs(b)
    ensures Abs(a) <= 1.0 && 0.0 <= b ==> Abs(a) * b <= b
  {
    if a < 0.0 {
      assert a * b == -((-a) * b);
    }
    if b < 0.0 {
      assert a * b == -(a * (-b));
    }
  }

  /** Between fractions in [0, 1] and with a positive step, the bar is on
      the target after at most two frames with the same target and step: a
      jump past it lands within the step of it, and the next frame snaps. */
  lemma SettlesWithinTwoFrames(current: real, target: real, maxDelta: real)
    requires 0.0 <= current <= 1.0 && 0.0 <= target <= 1.0
    requires 0.0 < maxDelta
    ensures Abs(MoveToward(current, target, maxDelta) - target) <= maxDelta
    ensures MoveToward(MoveToward(current, target, maxDelta), target, maxDelta) == target
  {
    var gap := Abs(target - current);
    if gap > maxDelta {
      var r := MoveToward(current, target, maxDelta);
      assert Abs(r - target) == gap * maxDelta;
      assert gap <= 1.0;
      ProductSigns(gap, maxDelta);
      assert gap * maxDelta <= maxDelta;
      assert Abs(target - r) == Abs(r - target);
    }
  }

  /** `update_health_bar_value`: each bar with a health component on its
      parent eases towards that health's fraction by at most half the frame
      time; a bar whose parent has none is skipped. */
  method UpdateHealthBarValue(bars: array<real>, parents: seq<Option<Health.Health>>, dt: real)
    requires |parents| == bars.Length
    modifies bars
    ensures forall k :: 0 <= k < bars.Length ==>
      bars[k] == match parents[k]
        case None => old(bars[k])
        case Some(h) => MoveToward(old(bars[k]), h.GetPercent(), LerpSpeed * dt)
  {
    var i := 0;
    while i < bars.Length
      invariant 0 <= i <= bars.Length
      invariant forall k :: 0 <= k < i ==>
        bars[k] == match parents[k]
          case None => old(bars[k])
          case Some(h) => MoveToward(old(bars[k]), h.GetPercent(), LerpSpeed * dt)
      invariant forall k :: i <= k < bars.Length ==> bars[k] == old(bars[k])
    {
      match parents[i] {
        case None =>
        case Some(health) =>
          bars[i] := MoveToward(bars[i], health.GetPercent(), LerpSpeed * dt);
      }
      i := i + 1;
    }
  }

  /** The shown fraction does not stay in [0, 1]: easing from an empty bar
      to a full one over a 0.02 s frame shows 1.01. */
  lemma BarCanLeaveRange()
    ensures MoveToward(0.0, 1.0, LerpSpeed * 0.02) == 1.01
  {
  }

  /** The player's bar is spawned with the value 100, not the fraction 1:
      at full health and 0.02 s frames it shows 0.01 after the first frame,
      1.0099 after the second, and reaches 1 only on the third. */
  lemma SpawnedBarFirstFrames()
    ensures var step := LerpSpeed * 0.02;
      var first := MoveToward(100.0, 1.0, step);
      var second := MoveToward(first, 1.0, step);
      && first == 0.01 && second == 1.0099 && MoveToward(second, 1.0, step) == 1.0
  {
  }
}
