/** The player's abilities (src/abilities/abilities.rs): the fixed ability
    table, the per-ability cooldown, the three-slot ability system bound to
    the Q, E and R keys, casting, the countdown that despawns projectiles
    and effects, and the per-projectile record of enemies already hit. */
module Abilities {
  import opened Common
  import opened EntityDamage
  import Health

  datatype AbilityType = FireBall | IceStorm | HealOrb

  /** `AbilityData`: what an ability of a type costs and does. */
  datatype AbilityData = AbilityData(abilityType: AbilityType, cooldown: real, magnitude: real, speed: real)

  /** `AbilityData::from_type`: the fixed table. Every ability has a positive
      cooldown and magnitude, and the stronger the ability the longer its
      cooldown. */
  function FromType(abilityType: AbilityType): (r: AbilityData)
    ensures r.abilityType == abilityType
    ensures 0.0 < r.cooldown && 0.0 < r.magnitude && 0.0 <= r.speed
    ensures abilityType == FireBall ==> r.cooldown == 2.0 && r.magnitude == 5.0 && r.speed == 100.0
    ensures abilityType == IceStorm ==> r.cooldown == 5.0 && r.magnitude == 5.0 && r.speed == 25.0
    ensures abilityType == HealOrb ==> r.cooldown == 10.0 && r.magnitude == 10.0 && r.speed == 0.0
  {
    match abilityType
    case FireBall => AbilityData(FireBall, 2.0, 5.0, 100.0)
    case IceStorm => AbilityData(IceStorm, 5.0, 5.0, 25.0)
    case HealOrb => AbilityData(HealOrb, 10.0, 10.0, 0.0)
  }

  /** A timer ticked by each frame time in turn. */
  function Ticks(t: Timer, dts: seq<real>): Timer
    requires NonNegative(dts)
    decreases |dts|
  {
    if dts == [] then t else Ticks(Tick(t, dts[0]), dts[1..])
  }

  /** A one-shot timer that has not overrun its duration finishes exactly
      when the frame times add up to what is left of it. */
  lemma {:induction false} TicksFinish(t: Timer, dts: seq<real>)
    requires NonNegative(dts)
    requires 0.0 <= t.elapsed <= t.duration
    ensures Ticks(t, dts).elapsed == Min(t.elapsed + Sum(dts), t.duration)
    ensures Ticks(t, dts).Finished() <==> t.elapsed + Sum(dts) >= t.duration
    decreases |dts|
  {
    if dts != [] {
      var rest := dts[1..];
      assert NonNegative(rest) by {
        forall i | 0 <= i < |rest| ensures 0.0 <= rest[i] {
          assert rest[i] == dts[i + 1];
        }
      }
      var t' := Tick(t, dts[0]);
      TicksFinish(t', rest);
      assert 0.0 <= Sum(rest);
    }
  }

  /** `Ability`: its data, its cooldown timer and the `done` flag. */
  class Ability {
    var data: AbilityData
    var cooldownTimer: Timer
    var done: bool

    /** The data is the table's, the timer runs over the cooldown and has
        not overrun it, and `done` is set: nothing ever clears it. */
    predicate Valid()
      reads this
    {
      && data == FromType(data.abilityType)
      && cooldownTimer.duration == data.cooldown
      && 0.0 <= cooldownTimer.elapsed <= cooldownTimer.duration
      && done
    }

    /** `Ability::new`: the table's data, `done`, and a cooldown timer that
        has just started, so a new ability is not ready yet. */
    constructor (abilityType: AbilityType)
      ensures data == FromType(abilityType)
      ensures cooldownTimer == NewTimer(data.cooldown) && done
      ensures Valid() && !CanUse()
    {
      data := FromType(abilityType);
      cooldownTimer := NewTimer(FromType(abilityType).cooldown);
      done := true;
    }

    /** `can_use`: the ability is ready exactly when its whole cooldown has
        elapsed. */
    predicate CanUse()
      reads this
      ensures Valid() ==> (CanUse() <==> cooldownTimer.elapsed == data.cooldown)
    {
      cooldownTimer.Finished()
    }

    /** `update_ability`: the cooldown runs on by `dt`; `done` is set once
        the ability is ready and never cleared. */
    method UpdateAbility(dt: real)
      requires 0.0 <= dt
      modifies this`cooldownTimer, this`done
      ensures cooldownTimer == Tick(old(cooldownTimer), dt)
      ensures done <==> old(done) || CanUse()
      ensures old(Valid()) ==> Valid()
    {
      cooldownTimer := Tick(cooldownTimer, dt);
      if CanUse() {
        done := true;
      }
    }

    /** The cooldown reset of `use_ability`: the timer restarts over the
        ability's cooldown, so a valid ability is not ready right after a
        cast. */
    method ResetCooldown()
      modifies this`cooldownTimer
      ensures cooldownTimer == NewTimer(data.cooldown)
      ensures old(Valid()) ==> Valid() && !CanUse()
    {
      cooldownTimer := NewTimer(data.cooldown);
    }
  }

  /** After a cast, the ability is ready again exactly when the frame times
      since then add up to its cooldown. */
  lemma ReadyAfterCooldown(data: AbilityData, dts: seq<real>)
    requires NonNegative(dts)
    requires 0.0 <= data.cooldown
    ensures Ticks(NewTimer(data.cooldown), dts).Finished() <==> Sum(dts) >= data.cooldown
  {
    TicksFinish(NewTimer(data.cooldown), dts);
  }

  /** `is_ability_key`: Q, E or R; exactly the keys that have a slot. */
  predicate IsAbilityKey(key: KeyCode)
    ensures IsAbilityKey(key) <==> GetAbilitySlot(key).Some?
  {
    key == KeyQ || key == KeyE || key == KeyR
  }

  /** `get_ability_slot`: Q, E and R select the first three slots, in that
      order. */
  function GetAbilitySlot(key: KeyCode): (r: Option<nat>)
    ensures r.Some? ==> r.value < 3
  {
    match key
    case KeyQ => Some(0)
    case KeyE => Some(1)
    case KeyR => Some(2)
    case _ => None
  }

  /** The first ability key among the keys pressed this frame. */
  function FirstAbilityKey(pressed: seq<KeyCode>): (r: Option<KeyCode>)
    ensures r.None? <==> forall i :: 0 <= i < |pressed| ==> !IsAbilityKey(pressed[i])
    ensures r.Some? ==> exists i :: 0 <= i < |pressed| && pressed[i] == r.value && IsAbilityKey(r.value)
                                    && (forall j :: 0 <= j < i ==> !IsAbilityKey(pressed[j]))
  {
    if pressed == [] then None
    else if IsAbilityKey(pressed[0]) then Some(pressed[0])
    else
      var r := FirstAbilityKey(pressed[1..]);
      assert forall j :: 1 <= j < |pressed| ==> pressed[j] == pressed[1..][j - 1];
      r
  }

  /** The slot `cast_ability` picks: the first pressed ability key's, with
      `NonConvert` (which has none) standing in when no ability key was
      pressed. */
  function SelectedSlot(pressed: seq<KeyCode>): (r: Option<nat>)
    ensures r.Some? <==> exists i :: 0 <= i < |pressed| && IsAbilityKey(pressed[i])
    ensures r.Some? ==> r.value < 3
  {
    GetAbilitySlot(FirstAbilityKey(pressed).GetOr(NonConvert))
  }

  /** `AutoDestroy`: a lifetime and what is left of it. */
  datatype AutoDestroy = AutoDestroy(duration: real, remaining: real)

  /** `AutoDestroy::new`: the whole lifetime is left. */
  function NewAutoDestroy(duration: real): AutoDestroy {
    AutoDestroy(duration, duration)
  }

  /** One frame of countdown: what is left drops by `dt` but not below 0,
      and reaches 0 exactly when no more than `dt` was left. */
  function Countdown(a: AutoDestroy, dt: real): (r: AutoDestroy)
    ensures r.duration == a.duration
    ensures 0.0 <= r.remaining
    ensures 0.0 <= dt ==> r.remaining <= Max(a.remaining, 0.0)
    ensures r.remaining == 0.0 <==> a.remaining <= dt
  {
    a.(remaining := Max(a.remaining - dt, 0.0))
  }

  /** The countdown over a run of frames. */
  function Countdowns(a: AutoDestroy, dts: seq<real>): AutoDestroy
    decreases |dts|
  {
    if dts == [] then a else Countdowns(Countdown(a, dts[0]), dts[1..])
  }

  /** After any run of frames, what is left is the lifetime less the time
      passed, and never below 0: a fresh `AutoDestroy` is used up exactly
      when its duration has passed. */
  lemma {:induction false} CountdownsRemaining(a: AutoDestroy, dts: seq<real>)
    requires NonNegative(dts)
    requires 0.0 <= a.remaining
    ensures Countdowns(a, dts).remaining == Max(a.remaining - Sum(dts), 0.0)
    ensures Countdowns(a, dts).duration == a.duration
    decreases |dts|
  {
    if dts != [] {
      var rest := dts[1..];
      assert NonNegative(rest) by {
        forall i | 0 <= i < |rest| ensures 0.0 <= rest[i] {
          assert rest[i] == dts[i + 1];
        }
      }
      CountdownsRemaining(Countdown(a, dts[0]), rest);
      assert 0.0 <= Sum(rest);
    }
  }

  /** `auto_destroy_entities`: every lifetime counts down by `dt`, and the
      indices of those used up are returned, in query order, for despawning. */
  method AutoDestroyEntities(query: array<AutoDestroy>, dt: real) returns (toDestroy: seq<nat>)
    modifies query
    ensures forall k :: 0 <= k < query.Length ==> query[k] == Countdown(old(query[k]), dt)
    ensures forall k: nat :: k in toDestroy <==> k < query.Length && query[k].remaining == 0.0
    ensures forall i, j :: 0 <= i < j < |toDestroy| ==> toDestroy[i] < toDestroy[j]
  {
    toDestroy := [];
    var i := 0;
    while i < query.Length
      invariant 0 <= i <= query.Length
      invariant forall k :: 0 <= k < i ==> query[k] == Countdown(old(query[k]), dt)
      invariant forall k :: i <= k < query.Length ==> query[k] == old(query[k])
      invariant forall k: nat :: k in toDestroy <==> k < i && query[k].remaining == 0.0
      invariant forall a, b :: 0 <= a < b < |toDestroy| ==> toDestroy[a] < toDestroy[b]
      invariant forall a :: 0 <= a < |toDestroy| ==> toDestroy[a] < i
    {
      query[i] := query[i].(remaining := Max(query[i].remaining - dt, 0.0));
      if query[i].remaining == 0.0 {
        toDestroy := toDestroy + [i];
      }
      i := i + 1;
    }
  }

  /** How long the effect spawned where a used-up ability vanishes lasts. */
  function DetonationTime(abilityType: AbilityType): (r: real)
    ensures r == 0.25 <==> abilityType == IceStorm
    ensures abilityType != IceStorm ==> r == 0.125
  {
    match abilityType
    case FireBall => 0.125
    case IceStorm => 0.25
    case HealOrb => 0.125
  }

  /** `auto_destroy_abilities`: the countdown of `auto_destroy_entities` over
      the ability entities, then, for each used-up one in query order, a
      detonation effect with its own fresh lifetime. */
  method AutoDestroyAbilities(query: array<AutoDestroy>, kinds: seq<AbilityType>, dt: real)
    returns (toDestroy: seq<nat>, effects: seq<AutoDestroy>)
    requires |kinds| == query.Length
    modifies query
    ensures forall k :: 0 <= k < query.Length ==> query[k] == Countdown(old(query[k]), dt)
    ensures forall k: nat :: k in toDestroy <==> k < query.Length && query[k].remaining == 0.0
    ensures |effects| == |toDestroy|
    ensures forall i :: 0 <= i < |toDestroy| ==>
      toDestroy[i] < |kinds| && effects[i] == NewAutoDestroy(DetonationTime(kinds[toDestroy[i]]))
  {
    toDestroy := AutoDestroyEntities(query, dt);
    effects := [];
    var i := 0;
    while i < |toDestroy|
      invariant 0 <= i <= |toDestroy|
      invariant |effects| == i
      invariant forall j :: 0 <= j < i ==> toDestroy[j] < |kinds| && effects[j] == NewAutoDestroy(DetonationTime(kinds[toDestroy[j]]))
    {
      assert toDestroy[i] in toDestroy;
      effects := effects + [NewAutoDestroy(DetonationTime(kinds[toDestroy[i]]))];
      i := i + 1;
    }
  }

  /** `Damage`: a projectile's damage and the indices of the entities it has
      already hit. */
  datatype DamageComponent = DamageComponent(amount: real, damageType: DamageType, damagedEntities: seq<nat>)

  /** What a cast spawns: a fire ball that damages on contact, an ice storm
      that sets a damage over time and a slow, or a healing orb. */
  datatype Payload =
    | Bolt(damage: DamageComponent)
    | Storm(tickDamage: real, dotType: DamageType, dotDuration: real, speedReduction: real, slowDuration: real)
    | Orb(healAmount: real)

  /** A spawned ability entity: its payload, its speed along the cast
      direction, its lifetime. */
  datatype Projectile = Projectile(payload: Payload, speed: real, lifetime: AutoDestroy)

  /** The entity `use_ability` spawns for an ability. Nothing is spawned
      without the ability's sprite, and a fire ball also needs its particle
      effect. */
  function Spawn(data: AbilityData, spriteLoaded: AbilityType -> bool, fireParticles: bool): (r: Option<Projectile>)
    ensures r.Some? <==> spriteLoaded(data.abilityType) && (data.abilityType == FireBall ==> fireParticles)
    ensures r.Some? ==> r.value.lifetime.remaining == r.value.lifetime.duration > 0.0
    ensures r.Some? && data.abilityType == FireBall ==>
      r.value.payload == Bolt(DamageComponent(data.magnitude, Magical, []))
    ensures r.Some? && data.abilityType == IceStorm ==>
      r.value.payload.Storm? && r.value.payload.tickDamage == data.magnitude
      && r.value.payload.speedReduction == data.magnitude
    ensures r.Some? && data.abilityType == HealOrb ==> r.value.payload == Orb(data.magnitude) && r.value.speed == 0.0
  {
    if !spriteLoaded(data.abilityType) then None
    else match data.abilityType
      case FireBall =>
        if fireParticles then
          Some(Projectile(Bolt(DamageComponent(data.magnitude, Magical, [])), data.speed, NewAutoDestroy(2.0)))
        else None
      case IceStorm =>
        Some(Projectile(Storm(data.magnitude, Physical, 0.5, data.magnitude, data.magnitude), data.speed, NewAutoDestroy(5.0)))
      case HealOrb =>
        Some(Projectile(Orb(data.magnitude), 0.0, NewAutoDestroy(10.0)))
  }

  /** `AbilitySystem`: the player's abilities, one per slot. */
  class AbilitySystem {
    var abilities: seq<Ability>

    predicate Valid()
      reads this, abilities
    {
      && (forall i, j :: 0 <= i < j < |abilities| ==> abilities[i] != abilities[j])
      && forall i :: 0 <= i < |abilities| ==> abilities[i].Valid()
    }

    /** `AbilitySystem::default`: FireBall, IceStorm and HealOrb in slots 0,
        1 and 2, none of them ready yet. */
    constructor ()
      ensures |abilities| == 3 && Valid()
      ensures abilities[0].data.abilityType == FireBall
      ensures abilities[1].data.abilityType == IceStorm
      ensures abilities[2].data.abilityType == HealOrb
      ensures forall i :: 0 <= i < 3 ==> fresh(abilities[i]) && !abilities[i].CanUse()
    {
      var fireBall := new Ability(FireBall);
      var iceStorm := new Ability(IceStorm);
      var healOrb := new Ability(HealOrb);
      abilities := [fireBall, iceStorm, healOrb];
    }

    /** `get_ability`: the ability in a slot, if there is one. */
    function GetAbility(slot: nat): (r: Option<Ability>)
      reads this
      ensures r.Some? <==> slot < |abilities|
      ensures r.Some? ==> r.value == abilities[slot]
    {
      if slot < |abilities| then Some(abilities[slot]) else None
    }

    /** `update_abilities`: every ability's cooldown runs on by `dt`. */
    method UpdateAbilities(dt: real)
      requires 0.0 <= dt && Valid()
      modifies abilities
      ensures Valid()
      ensures forall i :: 0 <= i < |abilities| ==>
        abilities[i].cooldownTimer == Tick(old(abilities[i].cooldownTimer), dt)
        && abilities[i].data == old(abilities[i].data)
    {
      var i := 0;
      while i < |abilities|
        invariant 0 <= i <= |abilities|
        invariant forall k :: 0 <= k < |abilities| ==> abilities[k].Valid()
        invariant forall k :: 0 <= k < i ==>
          abilities[k].cooldownTimer == Tick(old(abilities[k].cooldownTimer), dt)
          && abilities[k].data == old(abilities[k].data)
        invariant forall k :: i <= k < |abilities| ==>
          abilities[k].cooldownTimer == old(abilities[k].cooldownTimer)
          && abilities[k].data == old(abilities[k].data)
      {
        abilities[i].UpdateAbility(dt);
        i := i + 1;
      }
    }

    /** `cast_ability` and `use_ability`: the first ability key pressed this
        frame selects a slot; if the slot holds an ability that is ready,
        its cooldown restarts and its entity is spawned. Otherwise nothing
        changes. */
    method CastAbility(pressed: seq<KeyCode>, spriteLoaded: AbilityType -> bool, fireParticles: bool)
      returns (spawned: Option<Projectile>)
      requires Valid()
      modifies abilities
      ensures Valid()
      ensures var s := SelectedSlot(pressed);
        var fired := s.Some? && s.value < |abilities| && old(abilities[s.value].CanUse());
        && (fired ==> abilities[s.value].cooldownTimer == NewTimer(abilities[s.value].data.cooldown)
                      && !abilities[s.value].CanUse()
                      && spawned == Spawn(abilities[s.value].data, spriteLoaded, fireParticles))
        && (!fired ==> spawned.None?)
        && (forall i :: 0 <= i < |abilities| && !(fired && i == s.value) ==>
              abilities[i].cooldownTimer == old(abilities[i].cooldownTimer))
      ensures forall i :: 0 <= i < |abilities| ==>
        abilities[i].data == old(abilities[i].data) && abilities[i].done == old(abilities[i].done)
    {
      spawned := None;
      var slot := GetAbilitySlot(FirstAbilityKey(pressed).GetOr(NonConvert));
      if slot.None? {
        return;
      }
      var ability := GetAbility(slot.value);
      if ability.None? {
        return;
      }
      var a := ability.value;
      if a.CanUse() {
        a.ResetCooldown();
        spawned := Spawn(a.data, spriteLoaded, fireParticles);
      }
    }
  }

  /** The projectile that hits enemy `k` (entity index `id`) this frame:
      the first one, in query order, that has not hit that index before and
      intersects the enemy. */
  function FirstHit(ps: seq<DamageComponent>, id: nat, k: nat, intersects: (nat, nat) -> bool): (r: Option<nat>)
    ensures r.Some? ==> r.value < |ps| && id !in ps[r.value].damagedEntities && intersects(k, r.value)
    ensures forall j :: 0 <= j < |ps| && (r.None? || j < r.value) ==>
      id in ps[j].damagedEntities || !intersects(k, j)
  {
    FirstHitFrom(ps, id, k, intersects, 0)
  }

  function FirstHitFrom(ps: seq<DamageComponent>, id: nat, k: nat, intersects: (nat, nat) -> bool, from: nat): (r: Option<nat>)
    ensures r.Some? ==> from <= r.value < |ps| && id !in ps[r.value].damagedEntities && intersects(k, r.value)
    ensures forall j :: from <= j < |ps| && (r.None? || j < r.value) ==>
      id in ps[j].damagedEntities || !intersects(k, j)
    decreases |ps| - from
  {
    if from >= |ps| then None
    else if id !in ps[from].damagedEntities && intersects(k, from) then Some(from)
    else FirstHitFrom(ps, id, k, intersects, from + 1)
  }

  /** What enemy `k` is queued this frame: at most one hit. */
  function HitsOn(ps: seq<DamageComponent>, id: nat, k: nat, intersects: (nat, nat) -> bool): (r: seq<Health.DamageInstance>)
    ensures |r| <= 1
    ensures |r| == 1 <==> FirstHit(ps, id, k, intersects).Some?
  {
    match FirstHit(ps, id, k, intersects)
    case Some(j) => [Health.DamageInstance(ps[j].amount, ps[j].damageType, true)]
    case None => []
  }

  /** The indices projectile `j` records hitting among the first `n`
      enemies, in query order. */
  function Victims(ps: seq<DamageComponent>, ids: seq<nat>, j: nat, n: nat, intersects: (nat, nat) -> bool): (r: seq<nat>)
    requires n <= |ids|
    ensures forall x :: x in r ==> x in ids[..n]
  {
    if n == 0 then []
    else Victims(ps, ids, j, n - 1, intersects)
         + (if FirstHit(ps, ids[n - 1], n - 1, intersects) == Some(j) then [ids[n - 1]] else [])
  }

  predicate NoDuplicates(s: seq<nat>) {
    forall a, b :: 0 <= a < b < |s| ==> s[a] != s[b]
  }

  /** A projectile never hits the same entity index twice: if its record
      had no repeats, it has none after the frame either. */
  lemma {:induction false} NeverHitsTwice(ps: seq<DamageComponent>, ids: seq<nat>, j: nat, n: nat,
                                          intersects: (nat, nat) -> bool)
    requires j < |ps| && n <= |ids|
    requires NoDuplicates(ids) && NoDuplicates(ps[j].damagedEntities)
    ensures NoDuplicates(ps[j].damagedEntities + Victims(ps, ids, j, n, intersects))
  {
    if n > 0 {
      NeverHitsTwice(ps, ids, j, n - 1, intersects);
      var before := ps[j].damagedEntities + Victims(ps, ids, j, n - 1, intersects);
      if FirstHit(ps, ids[n - 1], n - 1, intersects) == Some(j) {
        var x := ids[n - 1];
        assert x !in ps[j].damagedEntities;
        assert x !in ids[..n - 1];
        assert before + [x] == ps[j].damagedEntities + Victims(ps, ids, j, n, intersects);
      } else {
        assert before == ps[j].damagedEntities + Victims(ps, ids, j, n, intersects);
      }
    }
  }

  /** The enemies' health components belong to distinct entities. */
  predicate DistinctHealths(healths: seq<Health.Health>) {
    forall a, b :: 0 <= a < b < |healths| ==> healths[a] != healths[b]
  }

  /** `player_damage`: each enemy, in query order, is hit by the first
      projectile that has not hit it before and touches it; that projectile
      queues its damage on the enemy and records the enemy's index.
      `intersects(k, j)` is the physics engine's contact test between enemy
      `k` and projectile `j`; `ids` are the enemies' entity indices. */
  method PlayerDamage(enemies: seq<Health.Health>, ids: seq<nat>, projectiles: array<DamageComponent>,
                      intersects: (nat, nat) -> bool)
    requires |ids| == |enemies| && NoDuplicates(ids) && DistinctHealths(enemies)
    modifies enemies`incomingDamage, projectiles
    ensures forall k :: 0 <= k < |enemies| ==>
      enemies[k].incomingDamage == old(enemies[k].incomingDamage) + HitsOn(old(projectiles[..]), ids[k], k, intersects)
    ensures forall j :: 0 <= j < projectiles.Length ==>
      projectiles[j] == old(projectiles[j]).(damagedEntities :=
        old(projectiles[j].damagedEntities) + Victims(old(projectiles[..]), ids, j, |ids|, intersects))
  {
    ghost var ps := projectiles[..];
    var k := 0;
    while k < |enemies|
      invariant 0 <= k <= |enemies|
      invariant forall e :: 0 <= e < |enemies| ==>
        enemies[e].incomingDamage == old(enemies[e].incomingDamage) + (if e < k then HitsOn(ps, ids[e], e, intersects) else [])
      invariant forall j :: 0 <= j < projectiles.Length ==>
        projectiles[j] == ps[j].(damagedEntities := ps[j].damagedEntities + Victims(ps, ids, j, k, intersects))
    {
      label before:
      HitEnemy(enemies[k], ids, k, projectiles, ps, intersects);
      forall e | 0 <= e < |enemies| && e != k
        ensures enemies[e].incomingDamage == old@before(enemies[e].incomingDamage)
      {
        assert enemies[e] != enemies[k];
      }
      k := k + 1;
    }
  }

  /** The inner loop of `player_damage` for enemy `k`. */
  method HitEnemy(enemy: Health.Health, ids: seq<nat>, k: nat, projectiles: array<DamageComponent>,
                  ghost ps: seq<DamageComponent>, intersects: (nat, nat) -> bool)
    requires k < |ids| && NoDuplicates(ids) && |ps| == projectiles.Length
    requires forall j :: 0 <= j < projectiles.Length ==>
      projectiles[j] == ps[j].(damagedEntities := ps[j].damagedEntities + Victims(ps, ids, j, k, intersects))
    modifies enemy`incomingDamage, projectiles
    ensures enemy.incomingDamage == old(enemy.incomingDamage) + HitsOn(ps, ids[k], k, intersects)
    ensures forall j :: 0 <= j < projectiles.Length ==>
      projectiles[j] == ps[j].(damagedEntities := ps[j].damagedEntities + Victims(ps, ids, j, k + 1, intersects))
  {
    var id := ids[k];
    forall j | 0 <= j < projectiles.Length
      ensures id in projectiles[j].damagedEntities <==> id in ps[j].damagedEntities
    {
      NotYetVictim(ps, ids, j, k, intersects);
    }
    var hit := FindHit(projectiles, id, k, intersects);
    SameFirstHit(projectiles[..], ps, id, k, intersects);
    if hit.Some? {
      var p := projectiles[hit.value];
      enemy.PushDamage(p.amount, p.damageType);
      projectiles[hit.value] := p.(damagedEntities := p.damagedEntities + [id]);
    }
  }

  /** The search of `player_damage`'s inner loop: the first projectile, in
      query order, that has not hit entity index `id` and touches enemy `k`. */
  method FindHit(projectiles: array<DamageComponent>, id: nat, k: nat, intersects: (nat, nat) -> bool)
    returns (hit: Option<nat>)
    ensures hit == FirstHit(projectiles[..], id, k, intersects)
  {
    var j := 0;
    hit := None;
    while j < projectiles.Length
      invariant 0 <= j <= projectiles.Length
      invariant forall i :: 0 <= i < j ==> id in projectiles[i].damagedEntities || !intersects(k, i)
    {
      if id in projectiles[j].damagedEntities {
        j := j + 1;
        continue;
      }
      if intersects(k, j) {
        hit := Some(j);
        break;
      }
      j := j + 1;
    }
  }

  /** Which projectile hits depends only on whether each one has already
      hit the index. */
  lemma SameFirstHit(a: seq<DamageComponent>, b: seq<DamageComponent>, id: nat, k: nat, intersects: (nat, nat) -> bool)
    requires |a| == |b|
    requires forall j :: 0 <= j < |a| ==> (id in a[j].damagedEntities <==> id in b[j].damagedEntities)
    ensures FirstHit(a, id, k, intersects) == FirstHit(b, id, k, intersects)
  {
  }

  /** An enemy's index is not among those recorded while the enemies
      before it were handled, since no two enemies share an index. */
  lemma NotYetVictim(ps: seq<DamageComponent>, ids: seq<nat>, j: nat, k: nat, intersects: (nat, nat) -> bool)
    requires k < |ids| && NoDuplicates(ids)
    ensures ids[k] !in Victims(ps, ids, j, k, intersects)
  {
    forall x | x in Victims(ps, ids, j, k, intersects)
      ensures x != ids[k]
    {
      var a :| 0 <= a < k && ids[a] == x;
    }
  }
}
