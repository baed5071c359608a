/** Damage types and the defence multiplier (src/entity/damage.rs). */
module EntityDamage {

  datatype DamageType = Physical | Magical | Bypass

  /** `multiplier_from_defence`. For positive defence the source's
      `100.0 / 100.0 + defence` parses as `(100 / 100) + defence`, so the
      multiplier is `1 + defence`; otherwise it is `2 - 100 / (100 - defence)`,
      whose denominator is at least 100. As written, defence never lowers
      damage: every multiplier is at least 1. */
  function MultiplierFromDefence(defence: int): (r: real)
    ensures r >= 1.0
    ensures defence <= 0 ==> r < 2.0
    ensures defence == 0 ==> r == 1.0
    ensures defence > 0 ==> r == 1.0 + defence as real
  {
    if defence > 0 then 100.0 / 100.0 + defence as real
    else
      var denominator := 100.0 - defence as real;
      assert denominator >= 100.0;
      2.0 - 100.0 / denominator
  }

  /** Raising a non-positive defence towards zero lowers the multiplier, and
      every positive defence multiplies damage by more than every
      non-positive one. */
  lemma MultiplierOrder(a: int, b: int)
    requires a <= b
    ensures b <= 0 ==> MultiplierFromDefence(b) <= MultiplierFromDefence(a)
    ensures 0 < a ==> MultiplierFromDefence(a) <= MultiplierFromDefence(b)
    ensures a <= 0 < b ==> MultiplierFromDefence(a) < MultiplierFromDefence(b)
  {
    if b <= 0 {
      var da, db := 100.0 - a as real, 100.0 - b as real;
      ShareShrinks(100.0, da, db);
    }
  }

  /** Dividing by a larger positive number gives a smaller share. */
  lemma ShareShrinks(x: real, large: real, small: real)
    requires 0.0 <= x && 0.0 < small <= large
    ensures x / large <= x / small
  {
    var ql, qs := x / large, x / small;
    assert ql * large == x && qs * small == x;
    assert 0.0 <= qs;
    assert qs * small <= qs * large;
    assert (qs - ql) * large >= 0.0;
  }
}

/** The older copy of the multiplier (src/damage/mod.rs). */
module LegacyDamage {
  import EntityDamage

  /** `multiplier_from_defence`, the same expression as the newer copy. */
  function MultiplierFromDefence(defence: int): (r: real)
    ensures r >= 1.0
    ensures defence <= 0 ==> r < 2.0
    ensures defence > 0 ==> r == 1.0 + defence as real
  {
    if defence > 0 then 100.0 / 100.0 + defence as real
    else
      var denominator := 100.0 - defence as real;
      assert denominator >= 100.0;
      2.0 - 100.0 / denominator
  }

  /** Both copies agree on every defence value. */
  lemma AgreesWithEntityDamage(defence: int)
    ensures MultiplierFromDefence(defence) == EntityDamage.MultiplierFromDefence(defence)
  {
  }
}
