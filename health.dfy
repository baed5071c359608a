/** The health ledger of an entity (src/entity/health.rs): a queue of pending
    damage, clamped damage and heal, a `dead` flag that is never cleared, and
    damage-over-time effects keyed by the id of the entity that caused them. */
module Health {
  import opened Common
  import opened EntityDamage
  import opened EffectMaps

  datatype EntityType = Player | Enemy | Boss

  datatype DamageInstance = DamageInstance(amount: real, damageType: DamageType, spawnDamageParticles: bool)

  /** A damage-over-time effect (`DOT`). */
  datatype Dot = Dot(tickDamage: real, duration: real, damageType: DamageType, finished: bool)

  /** The value of every field of a `Health` component. */
  datatype HealthData = HealthData(
    currentHealth: real,
    maxHealth: real,
    magicalDefence: int,
    physicalDefence: int,
    dead: bool,
    isInvulnerable: bool,
    entityType: EntityType,
    incomingDamage: seq<DamageInstance>,
    dots: map<nat, Dot>)

  /** The ledger invariant every operation keeps once an entity is created
      with positive health: health is never negative, and health 0 means dead. */
  predicate Valid(d: HealthData) {
    0.0 < d.maxHealth && 0.0 <= d.currentHealth && (d.currentHealth == 0.0 ==> d.dead)
  }

  /** `defence_multiplier`: physical defence for physical damage, magical
      defence for magical damage, 1 for any other type. */
  function Multiplier(d: HealthData, damageType: DamageType): (r: real)
    ensures r >= 1.0
    ensures damageType == Physical ==> r == MultiplierFromDefence(d.physicalDefence)
    ensures damageType == Magical ==> r == MultiplierFromDefence(d.magicalDefence)
    ensures damageType == Bypass ==> r == 1.0
  {
    match damageType
    case Physical => MultiplierFromDefence(d.physicalDefence)
    case Magical => MultiplierFromDefence(d.magicalDefence)
    case Bypass => 1.0
  }

  /** `damage`: nothing happens to a dead or invulnerable entity; otherwise
      health drops by the scaled amount, never below 0, and reaching 0 kills. */
  function DamageData(d: HealthData, amount: real, damageType: DamageType): (r: HealthData)
    ensures d.dead || d.isInvulnerable ==> r == d
    ensures r == d.(currentHealth := r.currentHealth, dead := r.dead)
    ensures !d.dead && !d.isInvulnerable ==> 0.0 <= r.currentHealth
    ensures r.dead <==> d.dead || (!d.isInvulnerable && r.currentHealth == 0.0)
    ensures 0.0 <= amount && 0.0 <= d.currentHealth ==> r.currentHealth <= d.currentHealth
    ensures Valid(d) ==> Valid(r)
  {
    if !d.dead && !d.isInvulnerable then
      var scaled := amount * Multiplier(d, damageType);
      assert 0.0 <= amount ==> 0.0 <= scaled;
      var current := Max(0.0, d.currentHealth - scaled);
      d.(currentHealth := current, dead := current == 0.0)
    else d
  }

  /** The effect of applying a list of damage instances one after the other. */
  function ApplyDamages(d: HealthData, instances: seq<DamageInstance>): (r: HealthData)
    ensures r == d.(currentHealth := r.currentHealth, dead := r.dead)
    ensures d.dead ==> r.dead
    ensures d.isInvulnerable && !d.dead ==> r == d
    ensures 0.0 <= d.currentHealth ==> 0.0 <= r.currentHealth
    ensures 0.0 <= d.currentHealth && (forall i :: 0 <= i < |instances| ==> 0.0 <= instances[i].amount)
      ==> r.currentHealth <= d.currentHealth
    ensures Valid(d) ==> Valid(r)
    decreases |instances|
  {
    if instances == [] then d
    else
      var last := instances[|instances| - 1];
      DamageData(ApplyDamages(d, instances[..|instances| - 1]), last.amount, last.damageType)
  }

  /** `heal`: a negative amount counts as 0 and the result is capped at the
      maximum; the dead flag is left alone. */
  function HealData(d: HealthData, amount: real): (r: HealthData)
    ensures r == d.(currentHealth := r.currentHealth)
    ensures r.currentHealth <= d.maxHealth
    ensures d.currentHealth <= d.maxHealth ==> d.currentHealth <= r.currentHealth
    ensures Valid(d) ==> Valid(r)
  {
    var gain := Max(amount, 0.0);
    d.(currentHealth := Min(d.maxHealth, d.currentHealth + gain))
  }

  /** A DOT after one tick: its duration drops by `dt`, clamped at 0. */
  function TickDot(dot: Dot, dt: real): (r: Dot)
    requires 0.0 <= dt
    ensures 0.0 <= r.duration <= Max(dot.duration, 0.0)
    ensures r == dot.(duration := r.duration)
    ensures r.duration == 0.0 <==> dot.duration <= dt
  {
    dot.(duration := Max(0.0, dot.duration - dt))
  }

  /** Every DOT after one tick. */
  function TickAll(dots: map<nat, Dot>, dt: real): (r: map<nat, Dot>)
    requires 0.0 <= dt
    ensures r.Keys == dots.Keys
    ensures forall id :: id in r ==> r[id] == TickDot(dots[id], dt)
  {
    map id | id in dots :: TickDot(dots[id], dt)
  }

  /** The DOTs still running after a tick: those whose duration stayed positive. */
  function RemainingDots(dots: map<nat, Dot>, dt: real): (r: map<nat, Dot>)
    requires 0.0 <= dt
    ensures forall id :: id in r <==> id in dots && dt < dots[id].duration
    ensures forall id :: id in r ==> r[id] == dots[id].(duration := dots[id].duration - dt) && 0.0 < r[id].duration
  {
    map id | id in dots && TickDot(dots[id], dt).duration > 0.0 :: TickDot(dots[id], dt)
  }

  /** The damage one tick of a DOT queues: `tick_damage * dt`, no particles. */
  function TickInstance(dot: Dot, dt: real): DamageInstance {
    DamageInstance(dot.tickDamage * dt, dot.damageType, false)
  }

  /** The damage one tick of the listed DOTs queues, in order. */
  function DotInstances(dots: map<nat, Dot>, order: seq<nat>, dt: real): (r: seq<DamageInstance>)
    requires forall i :: 0 <= i < |order| ==> order[i] in dots
    ensures |r| == |order|
  {
    if order == [] then []
    else
      DotInstances(dots, order[..|order| - 1], dt) + [TickInstance(dots[order[|order| - 1]], dt)]
  }

  /** Extending the listed DOTs by one appends that DOT's damage. */
  lemma DotInstancesStep(dots: map<nat, Dot>, order: seq<nat>, dt: real, k: nat)
    requires forall i :: 0 <= i < |order| ==> order[i] in dots
    requires k < |order|
    ensures DotInstances(dots, order[..k + 1], dt) == DotInstances(dots, order[..k], dt) + [TickInstance(dots[order[k]], dt)]
  {
    var prefix := order[..k + 1];
    assert prefix[..|prefix| - 1] == order[..k];
    assert |DotInstances(dots, prefix, dt)| == k + 1;
    assert DotInstances(dots, prefix, dt)[..k] == DotInstances(dots, order[..k], dt);
  }

  /** Entry `i` of the DOT damage is the damage of the `i`-th listed DOT. */
  lemma {:induction false} DotInstancesAt(dots: map<nat, Dot>, order: seq<nat>, dt: real, i: nat)
    requires forall j :: 0 <= j < |order| ==> order[j] in dots
    requires i < |order|
    ensures DotInstances(dots, order, dt)[i] == TickInstance(dots[order[i]], dt)
  {
    if i < |order| - 1 {
      DotInstancesAt(dots, order[..|order| - 1], dt, i);
    }
  }

  /** The ids of the listed DOTs whose tick brings them to 0, in order. */
  function FinishedIds(dots: map<nat, Dot>, order: seq<nat>, dt: real): (r: seq<nat>)
    requires 0.0 <= dt
    requires forall i :: 0 <= i < |order| ==> order[i] in dots
  {
    if order == [] then []
    else
      var id := order[|order| - 1];
      FinishedIds(dots, order[..|order| - 1], dt) + (if TickDot(dots[id], dt).duration == 0.0 then [id] else [])
  }

  /** Extending the listed DOTs by one appends that DOT's id when it finishes. */
  lemma FinishedIdsStep(dots: map<nat, Dot>, order: seq<nat>, dt: real, k: nat)
    requires 0.0 <= dt
    requires forall i :: 0 <= i < |order| ==> order[i] in dots
    requires k < |order|
    ensures FinishedIds(dots, order[..k + 1], dt) == FinishedIds(dots, order[..k], dt)
      + (if TickDot(dots[order[k]], dt).duration == 0.0 then [order[k]] else [])
  {
    var prefix := order[..k + 1];
    assert prefix[..|prefix| - 1] == order[..k];
  }

  /** The finished ids are exactly the listed DOTs whose duration runs out
      within `dt`. */
  lemma {:induction false} FinishedIdsExact(dots: map<nat, Dot>, order: seq<nat>, dt: real, id: nat)
    requires 0.0 <= dt
    requires forall i :: 0 <= i < |order| ==> order[i] in dots
    ensures id in FinishedIds(dots, order, dt) <==> id in order && dots[id].duration <= dt
  {
    if order != [] {
      FinishedIdsExact(dots, order[..|order| - 1], dt, id);
      assert order == order[..|order| - 1] + [order[|order| - 1]];
    }
  }

  /** The state of the DOT map after ticking the first `k` listed DOTs. */
  predicate TickedPrefix(dots0: map<nat, Dot>, dots: map<nat, Dot>, order: seq<nat>, k: nat, dt: real)
    requires 0.0 <= dt
    requires IsOrderOf(dots0, order)
    requires k <= |order|
  {
    && dots.Keys == dots0.Keys
    && (forall m :: 0 <= m < k ==> dots[order[m]] == TickDot(dots0[order[m]], dt))
    && (forall m :: k <= m < |order| ==> dots[order[m]] == dots0[order[m]])
  }

  /** Ticking the next listed DOT extends the ticked prefix by one. */
  lemma TickedPrefixStep(dots0: map<nat, Dot>, dots: map<nat, Dot>, order: seq<nat>, k: nat, dt: real)
    requires 0.0 <= dt
    requires IsOrderOf(dots0, order)
    requires k < |order|
    requires TickedPrefix(dots0, dots, order, k, dt)
    ensures dots[order[k]] == dots0[order[k]]
    ensures TickedPrefix(dots0, dots[order[k] := TickDot(dots[order[k]], dt)], order, k + 1, dt)
  {
  }

  /** Once every listed DOT is ticked, the map is the ticked map. */
  lemma TickedPrefixAll(dots0: map<nat, Dot>, dots: map<nat, Dot>, order: seq<nat>, dt: real)
    requires 0.0 <= dt
    requires IsOrderOf(dots0, order)
    requires TickedPrefix(dots0, dots, order, |order|, dt)
    ensures dots == TickAll(dots0, dt)
  {
    forall id | id in dots
      ensures dots[id] == TickDot(dots0[id], dt)
    {
      assert id in order;
    }
  }

  /** A share of a positive whole: it lies in [0, 1] when the part does. */
  lemma RatioBounds(part: real, whole: real)
    requires whole != 0.0
    ensures part / whole * whole == part
    ensures 0.0 < whole && 0.0 <= part <= whole ==> 0.0 <= part / whole <= 1.0
  {
  }

  /** DOT damage never spawns damage particles. */
  lemma {:induction false} DotInstancesQuiet(dots: map<nat, Dot>, order: seq<nat>, dt: real)
    requires forall i :: 0 <= i < |order| ==> order[i] in dots
    ensures forall i :: 0 <= i < |order| ==> !DotInstances(dots, order, dt)[i].spawnDamageParticles
  {
    if order != [] {
      DotInstancesQuiet(dots, order[..|order| - 1], dt);
    }
  }

  /** The amounts of the queued instances that spawn damage particles, in
      queue order: one `HealthDamageEvent` is sent for each. */
  function ParticleAmounts(queue: seq<DamageInstance>): (r: seq<real>)
    ensures |r| <= |queue|
  {
    if queue == [] then []
    else
      var last := queue[|queue| - 1];
      ParticleAmounts(queue[..|queue| - 1]) + (if last.spawnDamageParticles then [last.amount] else [])
  }

  /** Extending the queue by one adds that instance's event when it spawns particles. */
  lemma ParticleAmountsStep(queue: seq<DamageInstance>, k: nat)
    requires k < |queue|
    ensures ParticleAmounts(queue[..k + 1])
      == ParticleAmounts(queue[..k]) + (if queue[k].spawnDamageParticles then [queue[k].amount] else [])
  {
    var prefix := queue[..k + 1];
    assert prefix[..|prefix| - 1] == queue[..k];
  }

  /** Every particle-spawning instance, and only those, yields an event:
      damage pushed with `push_damage` always does, DOT damage never does. */
  lemma {:induction false} ParticleAmountsExact(queue: seq<DamageInstance>)
    ensures (forall i :: 0 <= i < |queue| ==> queue[i].spawnDamageParticles) ==> |ParticleAmounts(queue)| == |queue|
    ensures (forall i :: 0 <= i < |queue| ==> !queue[i].spawnDamageParticles) ==> ParticleAmounts(queue) == []
  {
    if queue != [] {
      ParticleAmountsExact(queue[..|queue| - 1]);
    }
  }

  /** The DOT map after ticking the listed DOTs one after the other. */
  function TickListed(dots: map<nat, Dot>, order: seq<nat>, dt: real): map<nat, Dot>
    requires 0.0 <= dt
    requires forall i :: 0 <= i < |order| ==> order[i] in dots
  {
    if order == [] then dots
    else
      var id := order[|order| - 1];
      TickListed(dots, order[..|order| - 1], dt)[id := TickDot(dots[id], dt)]
  }

  /** Extending the listed DOTs by one ticks that DOT too. */
  lemma TickListedStep(dots: map<nat, Dot>, order: seq<nat>, dt: real, k: nat)
    requires 0.0 <= dt
    requires forall i :: 0 <= i < |order| ==> order[i] in dots
    requires k < |order|
    ensures TickListed(dots, order[..k + 1], dt) == TickListed(dots, order[..k], dt)[order[k] := TickDot(dots[order[k]], dt)]
  {
    var prefix := order[..k + 1];
    assert prefix[..|prefix| - 1] == order[..k];
  }

  /** Ticking the first `k` listed DOTs reaches the ticked prefix state. */
  lemma {:induction false} TickListedPrefix(dots: map<nat, Dot>, order: seq<nat>, dt: real, k: nat)
    requires 0.0 <= dt
    requires IsOrderOf(dots, order)
    requires k <= |order|
    ensures TickedPrefix(dots, TickListed(dots, order[..k], dt), order, k, dt)
  {
    if k > 0 {
      TickListedPrefix(dots, order, dt, k - 1);
      TickedPrefixStep(dots, TickListed(dots, order[..k - 1], dt), order, k - 1, dt);
      TickListedStep(dots, order, dt, k - 1);
    } else {
      assert order[..k] == [];
    }
  }

  /** Ticking every DOT in an iteration order ticks the whole map. */
  lemma TickListedAll(dots: map<nat, Dot>, order: seq<nat>, dt: real)
    requires 0.0 <= dt
    requires IsOrderOf(dots, order)
    ensures TickListed(dots, order, dt) == TickAll(dots, dt)
  {
    TickListedPrefix(dots, order, dt, |order|);
    assert order[..|order|] == order;
    TickedPrefixAll(dots, TickListed(dots, order, dt), order, dt);
  }

  /** Removing the finished ids from the ticked map leaves exactly the DOTs
      still running. */
  lemma RemoveFinished(dots0: map<nat, Dot>, order: seq<nat>, dt: real)
    requires 0.0 <= dt
    requires IsOrderOf(dots0, order)
    ensures RemoveAll(TickListed(dots0, order, dt), FinishedIds(dots0, order, dt)) == RemainingDots(dots0, dt)
  {
    var finished := FinishedIds(dots0, order, dt);
    TickListedAll(dots0, order, dt);
    RemoveAllExact(TickAll(dots0, dt), finished);
    forall id | id in dots0
      ensures id in finished <==> dots0[id].duration <= dt
    {
      FinishedIdsExact(dots0, order, dt, id);
    }
  }

  /** The outcome of `health_update` for one queried entity: its new state,
      the scratch list handed to the next entity, whether the system returns
      here, and whether a death event is sent. */
  datatype EntityStep = EntityStep(data: HealthData, scratch: seq<DamageInstance>, hits: seq<real>, stop: bool, died: bool)

  /** A `HealthDamageEvent`: the position of the entity in the query and the amount. */
  datatype DamageEvent = DamageEvent(index: nat, amount: real)

  /** The damage events of the entity at position `index`. */
  function Tag(index: nat, hits: seq<real>): (r: seq<DamageEvent>)
    ensures |r| == |hits|
    ensures forall j :: 0 <= j < |r| ==> r[j] == DamageEvent(index, hits[j])
  {
    seq(|hits|, j requires 0 <= j < |hits| => DamageEvent(index, hits[j]))
  }

  /** What `health_update` does to one queried entity, given the scratch list
      left over from the previous entity: the scratch list and the entity's
      queue are applied, the queue is cleared, and then either the system
      returns (the entity has no DOT) or every DOT ticks, its damage becomes
      the new queue and the next scratch list, and finished DOTs are removed. */
  function ProcessSpec(d: HealthData, scratch: seq<DamageInstance>, dt: real, order: seq<nat>): (r: EntityStep)
    requires 0.0 <= dt
    requires IsOrderOf(d.dots, order)
  {
    var hit := ApplyDamages(d, scratch + d.incomingDamage).(incomingDamage := []);
    var hits := ParticleAmounts(d.incomingDamage);
    if |d.dots| == 0 then EntityStep(hit, [], hits, true, hit.dead)
    else
      var instances := DotInstances(d.dots, order, dt);
      var remaining := RemoveAll(TickListed(d.dots, order, dt), FinishedIds(d.dots, order, dt));
      EntityStep(hit.(incomingDamage := instances, dots := remaining), instances, hits, false, hit.dead)
  }

  /** What one entity's step does: the queue and scratch damage are applied
      in order, the system returns exactly when the entity has no DOT, the DOT
      damage (one particle-free instance per DOT) becomes both the new queue
      and the next scratch list, only the DOTs still running are kept, no other
      field changes, and the ledger invariant is kept. */
  lemma ProcessSpecFacts(d: HealthData, scratch: seq<DamageInstance>, dt: real, order: seq<nat>)
    requires 0.0 <= dt
    requires IsOrderOf(d.dots, order)
    ensures var r := ProcessSpec(d, scratch, dt, order);
      var hit := ApplyDamages(d, scratch + d.incomingDamage);
      && r.data.currentHealth == hit.currentHealth
      && r.data.dead == hit.dead
      && r.died == hit.dead
      && r.hits == ParticleAmounts(d.incomingDamage)
      && (r.stop <==> |d.dots| == 0)
      && (r.stop ==> r.data.incomingDamage == [] && r.data.dots == d.dots)
      && (!r.stop ==> r.data.incomingDamage == r.scratch && |r.scratch| == |d.dots|)
      && (!r.stop ==> forall i :: 0 <= i < |r.scratch| ==> !r.scratch[i].spawnDamageParticles)
      && (!r.stop ==> r.data.dots == RemainingDots(d.dots, dt))
      && r.data == d.(currentHealth := r.data.currentHealth, dead := r.data.dead,
                      incomingDamage := r.data.incomingDamage, dots := r.data.dots)
      && (Valid(d) ==> Valid(r.data))
  {
    if |d.dots| != 0 {
      DotOrderCovers(d.dots, order);
      DotInstancesQuiet(d.dots, order, dt);
      RemoveFinished(d.dots, order, dt);
    }
  }

  /** `ProcessSpec` for an entity with at least one DOT. */
  lemma ProcessSpecRunning(d: HealthData, scratch: seq<DamageInstance>, dt: real, order: seq<nat>, hit: HealthData)
    requires 0.0 <= dt
    requires IsOrderOf(d.dots, order)
    requires |d.dots| != 0
    requires hit == ApplyDamages(d, scratch + d.incomingDamage).(incomingDamage := [])
    ensures var r := ProcessSpec(d, scratch, dt, order);
      && r.data == hit.(incomingDamage := r.scratch,
                        dots := RemoveAll(TickListed(d.dots, order, dt), FinishedIds(d.dots, order, dt)))
      && r.scratch == DotInstances(d.dots, order, dt)
      && r.hits == ParticleAmounts(d.incomingDamage)
      && !r.stop
      && r.died == hit.dead
  {
  }

  /** An iteration order is as long as the map. */
  lemma DotOrderCovers(dots: map<nat, Dot>, order: seq<nat>)
    requires IsOrderOf(dots, order)
    ensures |order| == |dots|
  {
    var keys := set i | 0 <= i < |order| :: order[i];
    assert keys == dots.Keys;
    SeqSetSize(order);
  }

  /** A sequence without repetitions has as many distinct elements as entries. */
  lemma {:induction false} SeqSetSize(s: seq<nat>)
    requires forall i, j :: 0 <= i < j < |s| ==> s[i] != s[j]
    ensures |set i | 0 <= i < |s| :: s[i]| == |s|
  {
    if s != [] {
      var init := s[..|s| - 1];
      SeqSetSize(init);
      var a := set i | 0 <= i < |init| :: init[i];
      var b := set i | 0 <= i < |s| :: s[i];
      assert b == a + {s[|s| - 1]};
      assert s[|s| - 1] !in a;
    }
  }

  /** `health_update` part-way through its query: the states of the entities
      visited so far (and of those skipped once it returned), the scratch list
      handed to the next entity, the damage events and the indices of the
      entities for which a death event was sent, and whether the system has
      returned. */
  datatype Sweep = Sweep(datas: seq<HealthData>, scratch: seq<DamageInstance>, hits: seq<DamageEvent>,
                         deaths: seq<nat>, stopped: bool)

  /** One DOT iteration order per entity. */
  predicate OrdersFit(ds: seq<HealthData>, orders: seq<seq<nat>>) {
    |ds| == |orders| && forall i :: 0 <= i < |ds| ==> IsOrderOf(ds[i].dots, orders[i])
  }

  /** `health_update` over the first `n` queried entities, in query order. */
  function SweepPrefix(ds: seq<HealthData>, dt: real, orders: seq<seq<nat>>, n: nat): (r: Sweep)
    requires 0.0 <= dt
    requires OrdersFit(ds, orders)
    requires n <= |ds|
    ensures |r.datas| == n
    decreases n, 0
  {
    if n == 0 then Sweep([], [], [], [], false) else SweepThrough(ds, dt, orders, n - 1)
  }

  /** `health_update` up to and including the entity at position `k`: once
      the system has returned the entity is left as it is; otherwise it takes
      its step. */
  function SweepThrough(ds: seq<HealthData>, dt: real, orders: seq<seq<nat>>, k: nat): (r: Sweep)
    requires 0.0 <= dt
    requires OrdersFit(ds, orders)
    requires k < |ds|
    ensures |r.datas| == k + 1
    decreases k, 2
  {
    var s := SweepPrefix(ds, dt, orders, k);
    if s.stopped then s.(datas := s.datas + [ds[k]]) else SweepStepAt(ds, dt, orders, k)
  }

  /** The entity at position `k` takes its step after the sweep over the
      entities before it; its position is the death event's payload. */
  function SweepStepAt(ds: seq<HealthData>, dt: real, orders: seq<seq<nat>>, k: nat): (r: Sweep)
    requires 0.0 <= dt
    requires OrdersFit(ds, orders)
    requires k < |ds|
    ensures |r.datas| == k + 1
    decreases k, 1
  {
    var s := SweepPrefix(ds, dt, orders, k);
    var p := ProcessSpec(ds[k], s.scratch, dt, orders[k]);
    Sweep(s.datas + [p.data], p.scratch, s.hits + Tag(k, p.hits), s.deaths + (if p.died then [k] else []), p.stop)
  }

  /** One more entity visited by a sweep that has not yet returned. */
  lemma SweepStep(ds: seq<HealthData>, dt: real, orders: seq<seq<nat>>, i: nat, s: Sweep, step: EntityStep)
    requires 0.0 <= dt
    requires OrdersFit(ds, orders)
    requires i < |ds|
    requires SweepPrefix(ds, dt, orders, i) == s && !s.stopped
    requires step == ProcessSpec(ds[i], s.scratch, dt, orders[i])
    ensures SweepPrefix(ds, dt, orders, i + 1)
      == Sweep(s.datas + [step.data], step.scratch, s.hits + Tag(i, step.hits),
               s.deaths + (if step.died then [i] else []), step.stop)
  {
    assert SweepPrefix(ds, dt, orders, i + 1) == SweepThrough(ds, dt, orders, i);
    assert SweepThrough(ds, dt, orders, i) == SweepStepAt(ds, dt, orders, i);
  }

  /** The scratch list is never cleared after the DOT pushes: while the
      system runs, the entity after position `k` is first hit by the DOT damage
      of entity `k`, and the system returns right after the first entity
      without DOTs. */
  lemma SweepCarriesDots(ds: seq<HealthData>, dt: real, orders: seq<seq<nat>>, k: nat)
    requires 0.0 <= dt
    requires OrdersFit(ds, orders)
    requires k < |ds|
    requires !SweepPrefix(ds, dt, orders, k).stopped
    ensures var r := SweepPrefix(ds, dt, orders, k + 1);
      && (r.stopped <==> |ds[k].dots| == 0)
      && (!r.stopped ==> r.scratch == DotInstances(ds[k].dots, orders[k], dt))
  {
    assert SweepPrefix(ds, dt, orders, k + 1) == SweepThrough(ds, dt, orders, k);
    assert SweepThrough(ds, dt, orders, k) == SweepStepAt(ds, dt, orders, k);
    ProcessSpecFacts(ds[k], SweepPrefix(ds, dt, orders, k).scratch, dt, orders[k]);
  }

  /** Once the system has returned, every later entity is left as it is and
      no further death event is sent. */
  lemma {:induction false} SweepAfterStop(ds: seq<HealthData>, dt: real, orders: seq<seq<nat>>, k: nat, n: nat)
    requires 0.0 <= dt
    requires OrdersFit(ds, orders)
    requires k <= n <= |ds|
    requires SweepPrefix(ds, dt, orders, k).stopped
    ensures var s := SweepPrefix(ds, dt, orders, k);
      SweepPrefix(ds, dt, orders, n) == s.(datas := s.datas + ds[k..n])
  {
    if n > k {
      SweepAfterStop(ds, dt, orders, k, n - 1);
      var s := SweepPrefix(ds, dt, orders, k);
      assert s.datas + ds[k..n - 1] + [ds[n - 1]] == s.datas + ds[k..n];
    } else {
      assert ds[k..n] == [];
    }
  }

  class Health {
    var currentHealth: real
    var maxHealth: real
    var magicalDefence: int
    var physicalDefence: int
    var dead: bool
    var isInvulnerable: bool
    var entityType: EntityType
    var incomingDamage: seq<DamageInstance>
    var dots: map<nat, Dot>

    function Data(): HealthData
      reads this
    {
      HealthData(currentHealth, maxHealth, magicalDefence, physicalDefence, dead, isInvulnerable,
                 entityType, incomingDamage, dots)
    }

    /** `Health::new`: full health, alive, vulnerable, nothing queued, no DOT. */
    constructor (health: real, physicalDefence: int, magicalDefence: int, entityType: EntityType)
      ensures currentHealth == health && maxHealth == health
      ensures !dead && !isInvulnerable
      ensures this.physicalDefence == physicalDefence && this.magicalDefence == magicalDefence
      ensures this.entityType == entityType
      ensures incomingDamage == [] && dots == map[]
      ensures 0.0 < health ==> Valid(Data())
    {
      currentHealth := health;
      maxHealth := health;
      this.magicalDefence := magicalDefence;
      this.physicalDefence := physicalDefence;
      dead := false;
      isInvulnerable := false;
      this.entityType := entityType;
      incomingDamage := [];
      dots := map[];
    }

    /** `push_damage`: queues one instance that spawns particles; health is
        untouched until `health_update` runs. */
    method PushDamage(amount: real, damageType: DamageType)
      modifies this`incomingDamage
      ensures incomingDamage == old(incomingDamage) + [DamageInstance(amount, damageType, true)]
      ensures Data() == old(Data()).(incomingDamage := incomingDamage)
    {
      incomingDamage := incomingDamage + [DamageInstance(amount, damageType, true)];
    }

    /** `damage`. */
    method Damage(amount: real, damageType: DamageType)
      modifies this`currentHealth, this`dead
      ensures Data() == DamageData(old(Data()), amount, damageType)
    {
      if !dead && !isInvulnerable {
        var scaled := amount * DefenceMultiplier(damageType);
        currentHealth := Max(0.0, currentHealth - scaled);
        if currentHealth == 0.0 {
          dead := true;
        }
      }
    }

    /** `heal`. */
    method Heal(amount: real)
      modifies this`currentHealth
      ensures Data() == HealData(old(Data()), amount)
    {
      var gain := Max(amount, 0.0);
      currentHealth := Min(maxHealth, currentHealth + gain);
    }

    /** `add_dot`: one DOT per source id; a later one replaces the earlier. */
    method AddDot(damagePerSecond: real, duration: real, damageType: DamageType, entityId: nat)
      modifies this`dots
      ensures dots == old(dots)[entityId := Dot(damagePerSecond, duration, damageType, false)]
      ensures Data() == old(Data()).(dots := dots)
    {
      dots := dots[entityId := Dot(damagePerSecond, duration, damageType, false)];
    }

    /** `defence_multiplier`: the component's own defences read through
        `Multiplier`. */
    function DefenceMultiplier(damageType: DamageType): (r: real)
      reads this
      ensures r >= 1.0
      ensures damageType == Physical ==> r == MultiplierFromDefence(physicalDefence)
      ensures damageType == Magical ==> r == MultiplierFromDefence(magicalDefence)
      ensures damageType == Bypass ==> r == 1.0
    {
      Multiplier(Data(), damageType)
    }

    /** `get_percent`: the health fraction clamped to [0, 1]. */
    function GetPercent(): (r: real)
      reads this
      ensures 0.0 <= r <= 1.0
      ensures 0.0 < maxHealth && 0.0 <= currentHealth <= maxHealth ==> r * maxHealth == currentHealth
      ensures 0.0 < maxHealth && currentHealth == maxHealth ==> r == 1.0
    {
      if maxHealth == 0.0 then (if currentHealth > 0.0 then 1.0 else 0.0)
      else
        var ratio := currentHealth / maxHealth;
        RatioBounds(currentHealth, maxHealth);
        if ratio < 0.0 then 0.0 else if ratio > 1.0 then 1.0 else ratio
    }

  }

  /** `health_update`, applying the queue: a damage event is sent for every
      queued instance that spawns particles, the scratch list and then the
      entity's own queue are applied in order, and the queue is cleared. */
  method ApplyQueue(d: HealthData, scratch: seq<DamageInstance>) returns (r: HealthData, hits: seq<real>)
    ensures r == ApplyDamages(d, scratch + d.incomingDamage).(incomingDamage := [])
    ensures hits == ParticleAmounts(d.incomingDamage)
  {
    var damageInstances := scratch;
    hits := [];
    var i := 0;
    while i < |d.incomingDamage|
      invariant 0 <= i <= |d.incomingDamage|
      invariant damageInstances == scratch + d.incomingDamage[..i]
      invariant hits == ParticleAmounts(d.incomingDamage[..i])
    {
      var instance := d.incomingDamage[i];
      ParticleAmountsStep(d.incomingDamage, i);
      if instance.spawnDamageParticles {
        hits := hits + [instance.amount];
      }
      damageInstances := damageInstances + [instance];
      i := i + 1;
    }
    assert d.incomingDamage[..i] == d.incomingDamage;
    r := d;
    var j := 0;
    while j < |damageInstances|
      invariant 0 <= j <= |damageInstances|
      invariant r == ApplyDamages(d, damageInstances[..j])
    {
      assert damageInstances[..j + 1][..j] == damageInstances[..j];
      r := DamageData(r, damageInstances[j].amount, damageInstances[j].damageType);
      j := j + 1;
    }
    assert damageInstances[..j] == damageInstances;
    r := r.(incomingDamage := []);
  }

  /** `health_update`, the DOT loop: every DOT ticks, queues its damage for
      this tick and is reported as finished when it reaches 0. */
  method TickDots(dots: map<nat, Dot>, dt: real, order: seq<nat>)
    returns (ticked: map<nat, Dot>, instances: seq<DamageInstance>, finished: seq<nat>)
    requires 0.0 <= dt
    requires IsOrderOf(dots, order)
    ensures ticked == TickListed(dots, order, dt)
    ensures instances == DotInstances(dots, order, dt)
    ensures finished == FinishedIds(dots, order, dt)
  {
    ticked := dots;
    instances := [];
    finished := [];
    var k := 0;
    while k < |order|
      invariant 0 <= k <= |order|
      invariant ticked == TickListed(dots, order[..k], dt)
      invariant instances == DotInstances(dots, order[..k], dt)
      invariant finished == FinishedIds(dots, order[..k], dt)
    {
      var id := order[k];
      var dot := dots[id];
      var next := TickDot(dot, dt);
      ticked := ticked[id := next];
      TickListedStep(dots, order, dt, k);
      DotInstancesStep(dots, order, dt, k);
      FinishedIdsStep(dots, order, dt, k);
      instances := instances + [TickInstance(dot, dt)];
      if next.duration == 0.0 {
        finished := finished + [id];
      }
      k := k + 1;
    }
    assert order[..k] == order;
  }

  /** `health_update`: the DOT damage is pushed onto the queue, one instance
      after the other. */
  method QueueInstances(queue: seq<DamageInstance>, instances: seq<DamageInstance>) returns (r: seq<DamageInstance>)
    ensures r == queue + instances
  {
    r := queue;
    var m := 0;
    while m < |instances|
      invariant 0 <= m <= |instances|
      invariant r == queue + instances[..m]
    {
      assert instances[..m + 1] == instances[..m] + [instances[m]];
      r := r + [instances[m]];
      m := m + 1;
    }
    assert instances[..m] == instances;
  }

  /** `health_update`: the finished DOTs are removed, one id after the other. */
  method RemoveDots(dots: map<nat, Dot>, finished: seq<nat>) returns (r: map<nat, Dot>)
    ensures r == RemoveAll(dots, finished)
  {
    r := dots;
    var n := 0;
    while n < |finished|
      invariant 0 <= n <= |finished|
      invariant r == RemoveAll(dots, finished[..n])
    {
      RemoveAllStep(dots, finished, n);
      r := r - {finished[n]};
      n := n + 1;
    }
    assert finished[..n] == finished;
  }

  /** The body of `health_update`'s loop for one entity. */
  method ProcessEntity(d: HealthData, scratch: seq<DamageInstance>, dt: real, order: seq<nat>) returns (r: EntityStep)
    requires 0.0 <= dt
    requires IsOrderOf(d.dots, order)
    ensures r == ProcessSpec(d, scratch, dt, order)
  {
    var hit, hits := ApplyQueue(d, scratch);
    if |d.dots| == 0 {
      return EntityStep(hit, [], hits, true, hit.dead);
    }
    var ticked, instances, finished := TickDots(d.dots, dt, order);
    var queue := QueueInstances(hit.incomingDamage, instances);
    var remaining := RemoveDots(ticked, finished);
    ProcessSpecRunning(d, scratch, dt, order, hit);
    assert queue == instances;
    r := EntityStep(hit.(incomingDamage := queue, dots := remaining), instances, hits, false, hit.dead);
  }

  /** `health_update`'s loop body for the entity at position `i`, given the
      components `done` already visited, the events sent so far and the damage
      buffer carried over. */
  method VisitEntity(query: seq<HealthData>, dt: real, orders: seq<seq<nat>>, i: nat,
                     done: seq<HealthData>, scratch: seq<DamageInstance>, hits: seq<DamageEvent>, deaths: seq<nat>)
    returns (step: EntityStep)
    requires 0.0 <= dt
    requires OrdersFit(query, orders)
    requires i < |query|
    requires SweepPrefix(query, dt, orders, i) == Sweep(done, scratch, hits, deaths, false)
    ensures SweepPrefix(query, dt, orders, i + 1)
      == Sweep(done + [step.data], step.scratch, hits + Tag(i, step.hits),
               deaths + (if step.died then [i] else []), step.stop)
  {
    step := ProcessEntity(query[i], scratch, dt, orders[i]);
    SweepStep(query, dt, orders, i, Sweep(done, scratch, hits, deaths, false), step);
  }

  /** `health_update` over the queried health components, in query order,
      with one DOT iteration order per entity: each entity in turn takes its
      queued damage, sends its damage and death events and ticks its DOTs; the
      first entity without DOTs ends the system for this frame. Returns the
      components as the system leaves them and the events it sends. */
  method HealthUpdate(query: seq<HealthData>, dt: real, orders: seq<seq<nat>>)
    returns (updated: seq<HealthData>, damageEvents: seq<DamageEvent>, deathEvents: seq<nat>)
    requires 0.0 <= dt
    requires OrdersFit(query, orders)
    ensures var r := SweepPrefix(query, dt, orders, |query|);
      updated == r.datas && damageEvents == r.hits && deathEvents == r.deaths
  {
    var done: seq<HealthData> := [];
    var scratch: seq<DamageInstance> := [];
    damageEvents := [];
    deathEvents := [];
    var i := 0;
    while i < |query|
      invariant 0 <= i <= |query|
      invariant SweepPrefix(query, dt, orders, i) == Sweep(done, scratch, damageEvents, deathEvents, false)
    {
      var step := VisitEntity(query, dt, orders, i, done, scratch, damageEvents, deathEvents);
      done := done + [step.data];
      scratch := step.scratch;
      damageEvents := damageEvents + Tag(i, step.hits);
      if step.died {
        deathEvents := deathEvents + [i];
      }
      if step.stop {
        SweepAfterStop(query, dt, orders, i + 1, |query|);
        updated := done + query[i + 1..];
        return;
      }
      i := i + 1;
    }
    updated := done;
  }
}
