/** The older orc state machine (src/enemy/orc.rs). Its idle, chase-enter
    and attack-update systems are the same as the newer ones and are
    modelled by `OrcBehaviour`; what differs is below: the wander target is
    a point on the circle of radius 100 around the world origin, wandering
    and chasing never look at a path, the chase rule sends an orc out of
    range back to Wander unconditionally, and an attack damages the player's
    older health component at once instead of queueing the hit. */
module LegacyOrcBehaviour {
  import opened Common
  import opened OrcTags
  import opened OrcWorld
  import DirectionalAnimation
  import Enemies
  import Stats
  import EntityDamage
  import LegacyHealth
  import OrcBehaviour

  /** `wander_enter` for one orc: a newly wandering orc starts path finding,
      aims at `(100 cos a, 100 sin a)` and walks. */
  function WanderEnterOne(o: Orc, angle: real, cos: real -> real, sin: real -> real): (r: Orc)
    ensures OrcWander !in o.marks.added ==> r == o
    ensures OrcWander in o.marks.added ==>
      && r.ai.doPathFind
      && r.ai.destination == Vec2(cos(angle) * 100.0, sin(angle) * 100.0)
      && r.enemy.enemyState == Enemies.Wander
      && r.anim == Request(o.anim, Kind(DirectionalAnimation.Walk))
      && r.position == o.position && r.stats == o.stats
  {
    if OrcWander in o.marks.added then
      OrcBehaviour.Consume(o, OrcWander).(
        ai := o.ai.(doPathFind := true, destination := Vec2(cos(angle) * 100.0, sin(angle) * 100.0)),
        enemy := o.enemy.(enemyState := Enemies.Wander),
        anim := Request(o.anim, Kind(DirectionalAnimation.Walk)))
    else o
  }

  /** The wander target lies 100 from the world origin, wherever the orc
      stands: two orcs drawing the same angle get the same target. */
  lemma WanderTargetIgnoresPosition(o1: Orc, o2: Orc, angle: real, cos: real -> real, sin: real -> real)
    requires OrcWander in o1.marks.added && OrcWander in o2.marks.added
    requires cos(angle) * cos(angle) + sin(angle) * sin(angle) == 1.0
    ensures WanderEnterOne(o1, angle, cos, sin).ai.destination == WanderEnterOne(o2, angle, cos, sin).ai.destination
    ensures LengthSquared(WanderEnterOne(o1, angle, cos, sin).ai.destination) == 10000.0
  {
    var c, s := cos(angle), sin(angle);
    calc {
      LengthSquared(Vec2(c * 100.0, s * 100.0));
      (c * 100.0) * (c * 100.0) + (s * 100.0) * (s * 100.0);
      (c * c + s * s) * 10000.0;
    }
  }

  /** `wander_enter`, with `angles[k]` the angle drawn for the `k`th orc. */
  method WanderEnter(orcs: array<Orc>, angles: seq<real>, cos: real -> real, sin: real -> real)
    requires |angles| == orcs.Length
    modifies orcs
    ensures forall k :: 0 <= k < orcs.Length ==> orcs[k] == WanderEnterOne(old(orcs[k]), angles[k], cos, sin)
  {
    var i := 0;
    while i < orcs.Length
      invariant 0 <= i <= orcs.Length
      invariant forall k :: 0 <= k < i ==> orcs[k] == WanderEnterOne(old(orcs[k]), angles[k], cos, sin)
      invariant forall k :: i <= k < orcs.Length ==> orcs[k] == old(orcs[k])
    {
      var o := orcs[i];
      if OrcWander in o.marks.added {
        var angle := angles[i];
        o := o.(ai := o.ai.(doPathFind := true, destination := Vec2(cos(angle) * 100.0, sin(angle) * 100.0)));
        o := o.(enemy := o.enemy.(enemyState := Enemies.Wander));
        o := o.(anim := Request(o.anim, Kind(DirectionalAnimation.Walk)));
        orcs[i] := o.(marks := o.marks.(added := o.marks.added - {OrcWander}));
      }
      i := i + 1;
    }
  }

  /** `wander_update` for the `k`th orc: with no player it goes Idle;
      otherwise a player within 5 sends it to Chase and a destination within
      5 sends it to Idle, possibly both; no path is touched. */
  function WanderUpdateOne(o: Orc, player: Option<Vec2>, k: nat): (r: seq<Command>)
    ensures Targets(r, k)
    ensures OrcWander !in o.marks.tags ==> r == []
    ensures OrcWander in o.marks.tags && player.None? ==> r == Swap(k, OrcWander, OrcIdle)
    ensures Insert(k, OrcChase) in r <==>
      OrcWander in o.marks.tags && player.Some? && DistanceSquared(player.value, o.position) <= PosError
    ensures Insert(k, OrcIdle) in r <==>
      OrcWander in o.marks.tags && (player.None? || DistanceSquared(o.position, o.ai.destination) <= PosError)
    ensures RemovePath(k) !in r
    ensures Remove(k, OrcWander) in r <==> r != []
    ensures forall c :: c in r ==> c == Remove(k, OrcWander) || c == Insert(k, OrcChase) || c == Insert(k, OrcIdle)
  {
    if OrcWander !in o.marks.tags then []
    else match player
      case None => Swap(k, OrcWander, OrcIdle)
      case Some(p) =>
        (if DistanceSquared(p, o.position) <= PosError then Swap(k, OrcWander, OrcChase) else [])
        + (if DistanceSquared(o.position, o.ai.destination) <= PosError then Swap(k, OrcWander, OrcIdle) else [])
  }

  /** The marks an older wanderer ends the update with: Wander gives way to
      every state it was sent to, it keeps Wander when sent nowhere, and its
      path is kept in every case. */
  lemma WanderUpdateMarks(o: Orc, player: Option<Vec2>, k: nat)
    requires OrcWander in o.marks.tags
    ensures var toChase := player.Some? && DistanceSquared(player.value, o.position) <= PosError;
      var toIdle := player.None? || DistanceSquared(o.position, o.ai.destination) <= PosError;
      var m := ApplyAll(o.marks, WanderUpdateOne(o, player, k));
      && m.tags == (if toChase || toIdle then o.marks.tags - {OrcWander} else o.marks.tags)
                   + (if toChase then {OrcChase} else {}) + (if toIdle then {OrcIdle} else {})
      && m.hasPath == o.marks.hasPath
  {
    match player
    case None =>
      SwapMoves(o.marks, k, OrcWander, OrcIdle);
    case Some(p) =>
      var toChase := DistanceSquared(p, o.position) <= PosError;
      var toIdle := DistanceSquared(o.position, o.ai.destination) <= PosError;
      var first := if toChase then Swap(k, OrcWander, OrcChase) else [];
      var second := if toIdle then Swap(k, OrcWander, OrcIdle) else [];
      assert WanderUpdateOne(o, player, k) == first + second;
      ApplyAllConcat(o.marks, first, second);
      if toChase {
        SwapMoves(o.marks, k, OrcWander, OrcChase);
      }
      if toIdle {
        SwapMoves(ApplyAll(o.marks, first), k, OrcWander, OrcIdle);
      }
  }

  /** `wander_update`: it changes no orc, it only issues commands. */
  method WanderUpdate(orcs: array<Orc>, players: seq<Vec2>) returns (commands: seq<Command>)
    ensures CommandsFit(commands, orcs.Length)
    ensures forall k :: 0 <= k < orcs.Length ==> For(commands, k) == WanderUpdateOne(orcs[k], PlayerPos(players), k)
  {
    commands := [];
    var player := PlayerPos(players);
    var i := 0;
    while i < orcs.Length
      invariant 0 <= i <= orcs.Length
      invariant CommandsFit(commands, i)
      invariant forall k :: 0 <= k < i ==> For(commands, k) == WanderUpdateOne(orcs[k], player, k)
    {
      var o := orcs[i];
      var mine := [];
      if OrcWander in o.marks.tags {
        if player.None? {
          mine := Swap(i, OrcWander, OrcIdle);
        } else {
          if DistanceSquared(player.value, o.position) <= PosError {
            mine := Swap(i, OrcWander, OrcChase);
          }
          if DistanceSquared(o.position, o.ai.destination) <= PosError {
            mine := mine + Swap(i, OrcWander, OrcIdle);
          }
        }
      }
      Issue(commands, mine, i);
      commands := commands + mine;
      i := i + 1;
    }
  }

  /** `chase_update` for the `k`th orc: with no player it goes Idle, beyond
      the follow range it goes to Wander, otherwise within attack range it
      goes to Attack. */
  function ChaseUpdateOne(o: Orc, player: Option<Vec2>, k: nat): (r: seq<Command>)
    ensures Targets(r, k)
    ensures OrcChase !in o.marks.tags ==> r == []
    ensures OrcChase in o.marks.tags && player.None? ==> r == Swap(k, OrcChase, OrcIdle)
    ensures OrcChase in o.marks.tags && player.Some? && DistanceAtLeast(o.position, player.value, o.ai.followRange) ==>
      r == Swap(k, OrcChase, OrcWander)
    ensures Insert(k, OrcAttack) in r <==>
      OrcChase in o.marks.tags && player.Some? && !DistanceAtLeast(o.position, player.value, o.ai.followRange)
      && DistanceAtMost(o.position, player.value, o.ai.attackRange)
  {
    if OrcChase !in o.marks.tags then []
    else match player
      case None => Swap(k, OrcChase, OrcIdle)
      case Some(p) =>
        if DistanceAtLeast(o.position, p, o.ai.followRange) then Swap(k, OrcChase, OrcWander)
        else if DistanceAtMost(o.position, p, o.ai.attackRange) then Swap(k, OrcChase, OrcAttack)
        else []
  }

  /** `chase_update`: it changes no orc, it only issues commands. */
  method ChaseUpdate(orcs: array<Orc>, players: seq<Vec2>) returns (commands: seq<Command>)
    ensures CommandsFit(commands, orcs.Length)
    ensures forall k :: 0 <= k < orcs.Length ==> For(commands, k) == ChaseUpdateOne(orcs[k], PlayerPos(players), k)
  {
    commands := [];
    var player := PlayerPos(players);
    var i := 0;
    while i < orcs.Length
      invariant 0 <= i <= orcs.Length
      invariant CommandsFit(commands, i)
      invariant forall k :: 0 <= k < i ==> For(commands, k) == ChaseUpdateOne(orcs[k], player, k)
    {
      var o := orcs[i];
      var mine := [];
      if OrcChase in o.marks.tags {
        if player.None? {
          mine := Swap(i, OrcChase, OrcIdle);
        } else if DistanceAtLeast(o.position, player.value, o.ai.followRange) {
          mine := Swap(i, OrcChase, OrcWander);
        } else if DistanceAtMost(o.position, player.value, o.ai.attackRange) {
          mine := Swap(i, OrcChase, OrcAttack);
        }
      }
      Issue(commands, mine, i);
      commands := commands + mine;
      i := i + 1;
    }
  }

  /** The older chase rule always leaves an orc with a single Chase tag
      with exactly one tag. */
  lemma ChaseKeepsOneState(o: Orc, player: Option<Vec2>, k: nat)
    requires o.marks.tags == {OrcChase}
    ensures |ApplyAll(o.marks, ChaseUpdateOne(o, player, k)).tags| == 1
  {
    SwapMoves(o.marks, k, OrcChase, OrcIdle);
    SwapMoves(o.marks, k, OrcChase, OrcWander);
    SwapMoves(o.marks, k, OrcChase, OrcAttack);
  }

  /** Where the two revisions part: an orc out of follow range without a
      path goes back to Wander under the older rule but keeps chasing
      under the newer one. */
  lemma ChaseRulesDiffer(o: Orc, player: Vec2, k: nat,
                         normalize: Vec2 -> Vec2, sample: (IVec2, Vec2) -> Option<IVec2>)
    requires o.marks.tags == {OrcChase} && !o.marks.hasPath
    requires DistanceAtLeast(o.position, player, o.ai.followRange)
    ensures ApplyAll(o.marks, ChaseUpdateOne(o, Some(player), k)).tags == {OrcWander}
    ensures ApplyAll(o.marks, OrcBehaviour.ChaseUpdateOne(o, Some(player), k, normalize, sample).commands).tags == {OrcChase}
  {
    SwapMoves(o.marks, k, OrcChase, OrcWander);
  }

  /** The player's older health after the newly attacking orcs have hit it
      one after the other, each with its Attack stat if it has one. */
  function Hits(d: LegacyHealth.LegacyData, os: seq<Orc>): LegacyHealth.LegacyData {
    if os == [] then d
    else
      var before := Hits(d, os[..|os| - 1]);
      var o := os[|os| - 1];
      if OrcAttack in o.marks.added && Stats.GetStatSpec(o.stats.stats, Stats.Attack).Some? then
        LegacyHealth.DamageSpec(before, Stats.GetStatSpec(o.stats.stats, Stats.Attack).value, EntityDamage.Physical)
      else before
  }

  /** However many orcs hit it, the player keeps all but health and the
      dead flag, stays dead once dead, and never drops below 0 or gains
      health under non-negative attack stats. */
  lemma {:induction false} HitsFacts(d: LegacyHealth.LegacyData, os: seq<Orc>)
    requires 0.0 <= d.currentHealth
    requires forall o | o in os :: Stats.GetStatSpec(o.stats.stats, Stats.Attack).Some? ==>
      0.0 <= Stats.GetStatSpec(o.stats.stats, Stats.Attack).value
    ensures var r := Hits(d, os);
      && r == d.(currentHealth := r.currentHealth, dead := r.dead)
      && 0.0 <= r.currentHealth <= d.currentHealth
      && (d.dead ==> r.dead && r.currentHealth == d.currentHealth)
    decreases |os|
  {
    if os != [] {
      var init := os[..|os| - 1];
      assert forall o | o in init :: o in os;
      HitsFacts(d, init);
      var o := os[|os| - 1];
      assert o in os;
      var attack := Stats.GetStatSpec(o.stats.stats, Stats.Attack);
      if OrcAttack in o.marks.added && attack.Some? {
        LegacyHealth.DamageFacts(Hits(d, init), attack.value, EntityDamage.Physical);
      }
    }
  }

  /** `attack_enter`: without exactly one player nothing happens but the
      orcs no longer count as newly attacking; otherwise every newly
      attacking orc is set up as in the newer revision and damages the
      player's health at once. */
  method AttackEnter(orcs: array<Orc>, players: seq<LegacyHealth.Health>)
    modifies orcs, if |players| == 1 then {players[0]} else {}
    ensures |players| != 1 ==>
      forall k :: 0 <= k < orcs.Length ==> orcs[k] == OrcBehaviour.Consume(old(orcs[k]), OrcAttack)
    ensures |players| == 1 ==> forall k :: 0 <= k < orcs.Length ==> orcs[k] == OrcBehaviour.AttackEnterOne(old(orcs[k]))
    ensures |players| == 1 ==> players[0].Data() == Hits(old(players[0].Data()), old(orcs[..]))
  {
    if |players| != 1 {
      OrcBehaviour.ConsumeAll(orcs, OrcAttack);
      return;
    }
    var i := 0;
    var player := players[0];
    ghost var os := orcs[..];
    while i < orcs.Length
      invariant 0 <= i <= orcs.Length
      invariant forall k :: 0 <= k < i ==> orcs[k] == OrcBehaviour.AttackEnterOne(os[k])
      invariant forall k :: i <= k < orcs.Length ==> orcs[k] == os[k]
      invariant player.Data() == Hits(old(player.Data()), os[..i])
    {
      AttackVisit(orcs, player, i, os);
      assert os[..i + 1][..i] == os[..i];
      i := i + 1;
    }
    assert os[..orcs.Length] == os;
  }

  /** The body of `attack_enter`'s loop for the orc at `i`. */
  method AttackVisit(orcs: array<Orc>, player: LegacyHealth.Health, i: nat, ghost os: seq<Orc>)
    requires i < orcs.Length == |os|
    requires forall k :: 0 <= k < i ==> orcs[k] == OrcBehaviour.AttackEnterOne(os[k])
    requires forall k :: i <= k < orcs.Length ==> orcs[k] == os[k]
    modifies orcs, player
    ensures forall k :: 0 <= k <= i ==> orcs[k] == OrcBehaviour.AttackEnterOne(os[k])
    ensures forall k :: i < k < orcs.Length ==> orcs[k] == os[k]
    ensures var o := os[i];
      player.Data() ==
        if OrcAttack in o.marks.added && Stats.GetStatSpec(o.stats.stats, Stats.Attack).Some? then
          LegacyHealth.DamageSpec(old(player.Data()), Stats.GetStatSpec(o.stats.stats, Stats.Attack).value, EntityDamage.Physical)
        else old(player.Data())
  {
    var o := orcs[i];
    if OrcAttack in o.marks.added {
      o := o.(anim := Request(o.anim, AttackAnimation));
      o := o.(enemy := o.enemy.(enemyState := Enemies.Attack, actionTimer := NewTimer(1.0)));
      orcs[i] := o.(marks := o.marks.(added := o.marks.added - {OrcAttack}));
      var damage := Stats.GetStatSpec(o.stats.stats, Stats.Attack);
      if damage.Some? {
        player.Damage(damage.value, EntityDamage.Physical);
      }
    }
  }
}
