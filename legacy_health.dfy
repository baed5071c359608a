/** The older health component (src/damage/health.rs): no damage queue and no
    DOTs, damage is applied at once, and the dead check runs after the guard. */
module LegacyHealth {
  import opened Common
  import EntityDamage
  import LegacyDamage
  import Ledger = Health

  /** The value of every field of the older `Health` component. */
  datatype LegacyData = LegacyData(
    currentHealth: real,
    maxHealth: real,
    magicalDefence: int,
    physicalDefence: int,
    dead: bool,
    isInvulnerable: bool)

  /** `defence_multiplier`: physical defence for physical damage, magical
      defence for magical damage, 1 for any other type. */
  function Multiplier(d: LegacyData, damageType: EntityDamage.DamageType): (r: real)
    ensures r >= 1.0
    ensures damageType == EntityDamage.Physical ==> r == LegacyDamage.MultiplierFromDefence(d.physicalDefence)
    ensures damageType == EntityDamage.Magical ==> r == LegacyDamage.MultiplierFromDefence(d.magicalDefence)
    ensures damageType == EntityDamage.Bypass ==> r == 1.0
  {
    match damageType
    case Physical => LegacyDamage.MultiplierFromDefence(d.physicalDefence)
    case Magical => LegacyDamage.MultiplierFromDefence(d.magicalDefence)
    case Bypass => 1.0
  }

  /** `damage`: the guard protects health only; whatever the guard decided,
      health 0 afterwards marks the entity dead. */
  function DamageSpec(d: LegacyData, amount: real, damageType: EntityDamage.DamageType): (r: LegacyData)
  {
    var current :=
      if !d.dead && !d.isInvulnerable then Max(0.0, d.currentHealth - amount * Multiplier(d, damageType))
      else d.currentHealth;
    d.(currentHealth := current, dead := d.dead || current == 0.0)
  }

  /** What one `damage` call does: only health and the dead flag change, a
      dead or invulnerable entity keeps its health, health never drops below
      0 from a non-negative start or rises under non-negative damage, the
      entity is dead afterwards exactly when it was or its health is 0, and
      health 0 always comes with the dead flag. */
  lemma DamageFacts(d: LegacyData, amount: real, damageType: EntityDamage.DamageType)
    ensures var r := DamageSpec(d, amount, damageType);
      && r == d.(currentHealth := r.currentHealth, dead := r.dead)
      && (d.dead || d.isInvulnerable ==> r.currentHealth == d.currentHealth)
      && (0.0 <= d.currentHealth ==> 0.0 <= r.currentHealth)
      && (0.0 <= amount && 0.0 <= d.currentHealth ==> r.currentHealth <= d.currentHealth)
      && (r.dead <==> d.dead || r.currentHealth == 0.0)
      && (d.dead ==> r.dead)
  {
    var m := Multiplier(d, damageType);
    assert 0.0 <= amount ==> 0.0 <= amount * m;
  }

  /** The newer component without its queue and DOTs. */
  function Lift(d: LegacyData): Ledger.HealthData {
    Ledger.HealthData(d.currentHealth, d.maxHealth, d.magicalDefence, d.physicalDefence, d.dead,
                      d.isInvulnerable, Ledger.Enemy, [], map[])
  }

  /** The older `damage` agrees with the newer one exactly when the entity is
      not an invulnerable, living entity already at health 0: that one the
      older code marks dead although the guard skipped the damage. */
  lemma AgreesWithEntityHealth(d: LegacyData, amount: real, damageType: EntityDamage.DamageType)
    ensures Lift(DamageSpec(d, amount, damageType)) == Ledger.DamageData(Lift(d), amount, damageType)
      <==> !(d.isInvulnerable && !d.dead && d.currentHealth == 0.0)
  {
    var r, n := DamageSpec(d, amount, damageType), Ledger.DamageData(Lift(d), amount, damageType);
    LegacyDamage.AgreesWithEntityDamage(d.physicalDefence);
    LegacyDamage.AgreesWithEntityDamage(d.magicalDefence);
    assert Multiplier(d, damageType) == Ledger.Multiplier(Lift(d), damageType);
    if d.isInvulnerable && !d.dead && d.currentHealth == 0.0 {
      assert r.dead && !n.dead;
    }
  }

  class Health {
    var currentHealth: real
    var maxHealth: real
    var magicalDefence: int
    var physicalDefence: int
    var dead: bool
    var isInvulnerable: bool

    function Data(): LegacyData
      reads this
    {
      LegacyData(currentHealth, maxHealth, magicalDefence, physicalDefence, dead, isInvulnerable)
    }

    /** `Health::new`: full health, alive and vulnerable. */
    constructor (health: real, physicalDefence: int, magicalDefence: int)
      ensures Data() == LegacyData(health, health, magicalDefence, physicalDefence, false, false)
    {
      currentHealth := health;
      maxHealth := health;
      this.magicalDefence := magicalDefence;
      this.physicalDefence := physicalDefence;
      dead := false;
      isInvulnerable := false;
    }

    /** `damage`. */
    method Damage(amount: real, damageType: EntityDamage.DamageType)
      modifies this`currentHealth, this`dead
      ensures Data() == DamageSpec(old(Data()), amount, damageType)
    {
      if !dead && !isInvulnerable {
        currentHealth := Max(0.0, currentHealth - amount * DefenceMultiplier(damageType));
      }
      if currentHealth == 0.0 {
        dead := true;
      }
    }

    /** `defence_multiplier`. */
    function DefenceMultiplier(damageType: EntityDamage.DamageType): (r: real)
      reads this
      ensures r >= 1.0
      ensures damageType == EntityDamage.Physical ==> r == LegacyDamage.MultiplierFromDefence(physicalDefence)
      ensures damageType == EntityDamage.Magical ==> r == LegacyDamage.MultiplierFromDefence(magicalDefence)
      ensures damageType == EntityDamage.Bypass ==> r == 1.0
    {
      Multiplier(Data(), damageType)
    }
  }
}
