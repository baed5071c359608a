/** The orc behaviour state machine (src/entity/enemy/orc.rs): Idle waits
    out a random timer, Wander walks to a sampled point, Chase follows the
    player, Attack queues one hit and waits a second. Each state is a tag;
    its enter system runs once for an orc that newly got the tag, and its
    update system issues the commands that swap the tag. */
module OrcBehaviour {
  import opened Common
  import opened OrcTags
  import opened OrcWorld
  import DirectionalAnimation
  import Enemies
  import Stats
  import EntityDamage
  import Health

  /** The orc no longer counts as newly tagged with `t`. */
  function Consume(o: Orc, t: Tag): Orc {
    o.(marks := o.marks.(added := o.marks.added - {t}))
  }

  /** What an enter system does without a single player: every orc stops
      counting as newly tagged with `t`, and nothing else changes. */
  method ConsumeAll(orcs: array<Orc>, t: Tag)
    modifies orcs
    ensures forall k :: 0 <= k < orcs.Length ==> orcs[k] == Consume(old(orcs[k]), t)
  {
    var i := 0;
    while i < orcs.Length
      invariant 0 <= i <= orcs.Length
      invariant forall k :: 0 <= k < i ==> orcs[k] == Consume(old(orcs[k]), t)
      invariant forall k :: i <= k < orcs.Length ==> orcs[k] == old(orcs[k])
    {
      orcs[i] := orcs[i].(marks := orcs[i].marks.(added := orcs[i].marks.added - {t}));
      i := i + 1;
    }
  }

  /** What an update system does without a single player: every orc tagged
      `from` is sent to Idle. */
  method SendIdle(orcs: array<Orc>, from: Tag) returns (commands: seq<Command>)
    ensures CommandsFit(commands, orcs.Length)
    ensures forall k :: 0 <= k < orcs.Length ==>
      For(commands, k) == if from in orcs[k].marks.tags then Swap(k, from, OrcIdle) else []
  {
    commands := [];
    var i := 0;
    while i < orcs.Length
      invariant 0 <= i <= orcs.Length
      invariant CommandsFit(commands, i)
      invariant forall k :: 0 <= k < i ==>
        For(commands, k) == if from in orcs[k].marks.tags then Swap(k, from, OrcIdle) else []
    {
      var mine := if from in orcs[i].marks.tags then Swap(i, from, OrcIdle) else [];
      Issue(commands, mine, i);
      commands := commands + mine;
      i := i + 1;
    }
  }

  // ---------------------------------------------------------------- Idle

  /** `idle_enter` for one orc: a newly idle orc is set Idle, gets a fresh
      action timer of the drawn length and the Idle animation, and stops
      path finding. */
  function IdleEnterOne(o: Orc, duration: real): Orc {
    if OrcIdle in o.marks.added then
      Consume(o, OrcIdle).(
        enemy := o.enemy.(enemyState := Enemies.Idle, actionTimer := NewTimer(duration)),
        anim := Request(o.anim, Kind(DirectionalAnimation.Idle)),
        ai := o.ai.(doPathFind := false))
    else o
  }

  /** `idle_enter`, with `durations[k]` the length drawn from [3, 5) for the
      `k`th orc. */
  method IdleEnter(orcs: array<Orc>, durations: seq<real>)
    requires |durations| == orcs.Length
    requires forall k :: 0 <= k < |durations| ==> 3.0 <= durations[k] < 5.0
    modifies orcs
    ensures forall k :: 0 <= k < orcs.Length ==> orcs[k] == IdleEnterOne(old(orcs[k]), durations[k])
  {
    var i := 0;
    while i < orcs.Length
      invariant 0 <= i <= orcs.Length
      invariant forall k :: 0 <= k < i ==> orcs[k] == IdleEnterOne(old(orcs[k]), durations[k])
      invariant forall k :: i <= k < orcs.Length ==> orcs[k] == old(orcs[k])
    {
      var o := orcs[i];
      if OrcIdle in o.marks.added {
        o := o.(enemy := o.enemy.(enemyState := Enemies.Idle, actionTimer := NewTimer(durations[i])));
        o := o.(anim := Request(o.anim, Kind(DirectionalAnimation.Idle)));
        o := o.(ai := o.ai.(doPathFind := false));
        orcs[i] := o.(marks := o.marks.(added := o.marks.added - {OrcIdle}));
      }
      i := i + 1;
    }
  }

  /** `idle_update` for the `k`th orc: an idle orc's action timer ticks, and
      the orc is sent to Wander exactly when the timer has finished. */
  function IdleUpdateOne(o: Orc, dt: real, k: nat): (r: Step)
    requires 0.0 <= dt
    ensures Targets(r.commands, k)
    ensures r.commands != [] <==> OrcIdle in o.marks.tags && Tick(o.enemy.actionTimer, dt).Finished()
    ensures r.commands != [] ==> r.commands == Swap(k, OrcIdle, OrcWander)
    ensures OrcIdle in o.marks.tags ==> r.orc == o.(enemy := o.enemy.(actionTimer := Tick(o.enemy.actionTimer, dt)))
    ensures OrcIdle !in o.marks.tags ==> r.orc == o
  {
    if OrcIdle in o.marks.tags then
      var timer := Tick(o.enemy.actionTimer, dt);
      Step(o.(enemy := o.enemy.(actionTimer := timer)), if timer.Finished() then Swap(k, OrcIdle, OrcWander) else [])
    else Step(o, [])
  }

  /** `idle_update`. */
  method IdleUpdate(orcs: array<Orc>, dt: real) returns (commands: seq<Command>)
    requires 0.0 <= dt
    modifies orcs
    ensures CommandsFit(commands, orcs.Length)
    ensures forall k :: 0 <= k < orcs.Length ==>
      orcs[k] == IdleUpdateOne(old(orcs[k]), dt, k).orc && For(commands, k) == IdleUpdateOne(old(orcs[k]), dt, k).commands
  {
    commands := [];
    var i := 0;
    while i < orcs.Length
      invariant 0 <= i <= orcs.Length
      invariant CommandsFit(commands, i)
      invariant forall k :: 0 <= k < i ==>
        orcs[k] == IdleUpdateOne(old(orcs[k]), dt, k).orc && For(commands, k) == IdleUpdateOne(old(orcs[k]), dt, k).commands
      invariant forall k :: i <= k < orcs.Length ==> orcs[k] == old(orcs[k])
    {
      var o := orcs[i];
      var mine := [];
      if OrcIdle in o.marks.tags {
        var timer := Tick(o.enemy.actionTimer, dt);
        orcs[i] := o.(enemy := o.enemy.(actionTimer := timer));
        if timer.Finished() {
          mine := Swap(i, OrcIdle, OrcWander);
        }
      }
      Issue(commands, mine, i);
      commands := commands + mine;
      i := i + 1;
    }
  }

  /** A freshly entered Idle lasts its drawn time: the first update leaves
      it exactly when its step reaches that time, so never with a step
      under 3 s. */
  lemma IdleLastsItsDuration(o: Orc, duration: real, dt: real, k: nat)
    requires Valid(o.marks) && OrcIdle in o.marks.added
    requires 3.0 <= duration < 5.0
    requires 0.0 <= dt
    ensures IdleUpdateOne(IdleEnterOne(o, duration), dt, k).commands != [] <==> duration <= dt
    ensures dt < 3.0 ==> IdleUpdateOne(IdleEnterOne(o, duration), dt, k).commands == []
  {
    assert IdleEnterOne(o, duration).enemy.actionTimer == Timer(0.0, duration);
  }

  // -------------------------------------------------------------- Wander

  /** `wander_enter` for one orc: a newly wandering orc starts path finding,
      aims at the point the grid samples near an offset from its position
      (keeping its old destination when the grid has none), and walks. The
      offset's x is `100 cos(angle)` but its y is `100 sin(y)` of the orc's
      own y coordinate. */
  function WanderEnterOne(o: Orc, angle: real, cos: real -> real, sin: real -> real,
                          normalize: Vec2 -> Vec2, sample: (IVec2, Vec2) -> Option<IVec2>): (r: Orc)
    ensures OrcWander !in o.marks.added ==> r == o
    ensures OrcWander in o.marks.added ==> r.ai.doPathFind && r.enemy.enemyState == Enemies.Wander
    ensures OrcWander in o.marks.added ==> r.anim == Request(o.anim, Kind(DirectionalAnimation.Walk))
    ensures OrcWander in o.marks.added ==>
      var offset := Vec2(o.position.x + cos(angle) * 100.0, sin(o.position.y) * 100.0);
      var target := sample(AsIVec2(Add(o.position, offset)), normalize(Sub(offset, o.position)));
      && (target.Some? ==> r.ai.destination == ToWorld(target.value))
      && (target.None? ==> r.ai.destination == o.ai.destination)
    ensures r.ai.destination != o.ai.destination ==> OrcWander in o.marks.added
    ensures OrcWander in o.marks.added ==>
      && r.ai == o.ai.(doPathFind := true, destination := r.ai.destination)
      && r.enemy == o.enemy.(enemyState := Enemies.Wander)
      && r.position == o.position && r.stats == o.stats
      && r.marks == o.marks.(added := o.marks.added - {OrcWander})
  {
    if OrcWander in o.marks.added then
      var offset := Vec2(o.position.x + cos(angle) * 100.0, sin(o.position.y) * 100.0);
      var target := sample(AsIVec2(Add(o.position, offset)), normalize(Sub(offset, o.position)));
      var destination := if target.Some? then ToWorld(target.value) else o.ai.destination;
      Consume(o, OrcWander).(
        ai := o.ai.(doPathFind := true, destination := destination),
        enemy := o.enemy.(enemyState := Enemies.Wander),
        anim := Request(o.anim, Kind(DirectionalAnimation.Walk)))
    else o
  }

  /** `wander_enter`, with `angles[k]` the angle drawn for the `k`th orc and
      the grid's `sample_position` given as `sample`. */
  method WanderEnter(orcs: array<Orc>, angles: seq<real>, cos: real -> real, sin: real -> real,
                     normalize: Vec2 -> Vec2, sample: (IVec2, Vec2) -> Option<IVec2>)
    requires |angles| == orcs.Length
    modifies orcs
    ensures forall k :: 0 <= k < orcs.Length ==>
      orcs[k] == WanderEnterOne(old(orcs[k]), angles[k], cos, sin, normalize, sample)
  {
    var i := 0;
    while i < orcs.Length
      invariant 0 <= i <= orcs.Length
      invariant forall k :: 0 <= k < i ==>
        orcs[k] == WanderEnterOne(old(orcs[k]), angles[k], cos, sin, normalize, sample)
      invariant forall k :: i <= k < orcs.Length ==> orcs[k] == old(orcs[k])
    {
      WanderVisit(orcs, i, angles[i], cos, sin, normalize, sample);
      i := i + 1;
    }
  }

  /** The body of `wander_enter`'s loop for the orc at `i`. */
  method WanderVisit(orcs: array<Orc>, i: nat, angle: real, cos: real -> real, sin: real -> real,
                     normalize: Vec2 -> Vec2, sample: (IVec2, Vec2) -> Option<IVec2>)
    requires i < orcs.Length
    modifies orcs
    ensures orcs[i] == WanderEnterOne(old(orcs[i]), angle, cos, sin, normalize, sample)
    ensures forall k :: 0 <= k < orcs.Length && k != i ==> orcs[k] == old(orcs[k])
  {
    var o := orcs[i];
    if OrcWander in o.marks.added {
      var ai := o.ai.(doPathFind := true);
      var offset := Vec2(o.position.x + cos(angle) * 100.0, sin(o.position.y) * 100.0);
      var target := sample(AsIVec2(Add(o.position, offset)), normalize(Sub(offset, o.position)));
      if target.Some? {
        ai := ai.(destination := ToWorld(target.value));
      }
      o := o.(ai := ai, enemy := o.enemy.(enemyState := Enemies.Wander));
      o := o.(anim := Request(o.anim, Kind(DirectionalAnimation.Walk)));
      orcs[i] := o.(marks := o.marks.(added := o.marks.added - {OrcWander}));
    }
  }

  /** `remove::<AIPath>()`, issued only when the orc has a path. */
  function DropPath(o: Orc, k: nat): seq<Command> {
    if o.marks.hasPath then [RemovePath(k)] else []
  }

  /** `wander_update` for the `k`th orc: with no player it goes Idle;
      otherwise a player within 5 sends it to Chase and a destination within
      5 sends it to Idle, each dropping any path, and both can happen in
      the same update. */
  function WanderUpdateOne(o: Orc, player: Option<Vec2>, k: nat): (r: seq<Command>)
    ensures Targets(r, k)
    ensures OrcWander !in o.marks.tags ==> r == []
    ensures OrcWander in o.marks.tags && player.None? ==> r == Swap(k, OrcWander, OrcIdle)
    ensures Insert(k, OrcChase) in r <==>
      OrcWander in o.marks.tags && player.Some? && DistanceSquared(player.value, o.position) <= PosError
    ensures Insert(k, OrcIdle) in r <==>
      OrcWander in o.marks.tags && (player.None? || DistanceSquared(o.position, o.ai.destination) <= PosError)
    ensures RemovePath(k) in r <==>
      && OrcWander in o.marks.tags && o.marks.hasPath && player.Some?
      && (DistanceSquared(player.value, o.position) <= PosError || DistanceSquared(o.position, o.ai.destination) <= PosError)
    ensures Remove(k, OrcWander) in r <==> r != []
    ensures forall c :: c in r ==>
      c == RemovePath(k) || c == Remove(k, OrcWander) || c == Insert(k, OrcChase) || c == Insert(k, OrcIdle)
  {
    if OrcWander !in o.marks.tags then []
    else match player
      case None => Swap(k, OrcWander, OrcIdle)
      case Some(p) =>
        (if DistanceSquared(p, o.position) <= PosError then DropPath(o, k) + Swap(k, OrcWander, OrcChase) else [])
        + (if DistanceSquared(o.position, o.ai.destination) <= PosError then DropPath(o, k) + Swap(k, OrcWander, OrcIdle) else [])
  }

  /** `wander_update`: it changes no orc, it only issues commands. */
  method WanderUpdate(orcs: array<Orc>, players: seq<Vec2>) returns (commands: seq<Command>)
    ensures CommandsFit(commands, orcs.Length)
    ensures forall k :: 0 <= k < orcs.Length ==> For(commands, k) == WanderUpdateOne(orcs[k], PlayerPos(players), k)
  {
    if |players| != 1 {
      commands := SendIdle(orcs, OrcWander);
      return;
    }
    commands := [];
    var i := 0;
    var player := players[0];
    while i < orcs.Length
      invariant 0 <= i <= orcs.Length
      invariant CommandsFit(commands, i)
      invariant forall k :: 0 <= k < i ==> For(commands, k) == WanderUpdateOne(orcs[k], Some(player), k)
    {
      var o := orcs[i];
      var mine := [];
      if OrcWander in o.marks.tags {
        if DistanceSquared(player, o.position) <= PosError {
          if o.marks.hasPath {
            mine := mine + [RemovePath(i)];
          }
          mine := mine + Swap(i, OrcWander, OrcChase);
        }
        if DistanceSquared(o.position, o.ai.destination) <= PosError {
          if o.marks.hasPath {
            mine := mine + [RemovePath(i)];
          }
          mine := mine + Swap(i, OrcWander, OrcIdle);
        }
      }
      assert mine == WanderUpdateOne(o, Some(player), i);
      Issue(commands, mine, i);
      commands := commands + mine;
      i := i + 1;
    }
  }

  /** The marks a wanderer ends the update with: Wander gives way to every
      state it was sent to, it keeps Wander when sent nowhere, and its path
      is gone exactly when there is a player and it was sent somewhere. */
  lemma WanderUpdateMarks(o: Orc, player: Option<Vec2>, k: nat)
    requires OrcWander in o.marks.tags
    ensures var toChase := player.Some? && DistanceSquared(player.value, o.position) <= PosError;
      var toIdle := player.None? || DistanceSquared(o.position, o.ai.destination) <= PosError;
      var m := ApplyAll(o.marks, WanderUpdateOne(o, player, k));
      && m.tags == (if toChase || toIdle then o.marks.tags - {OrcWander} else o.marks.tags)
                   + (if toChase then {OrcChase} else {}) + (if toIdle then {OrcIdle} else {})
      && m.hasPath == (o.marks.hasPath && !(player.Some? && (toChase || toIdle)))
  {
    match player
    case None =>
      SwapMoves(o.marks, k, OrcWander, OrcIdle);
    case Some(p) =>
      var toChase := DistanceSquared(p, o.position) <= PosError;
      var toIdle := DistanceSquared(o.position, o.ai.destination) <= PosError;
      var first := if toChase then DropPath(o, k) + Swap(k, OrcWander, OrcChase) else [];
      var second := if toIdle then DropPath(o, k) + Swap(k, OrcWander, OrcIdle) else [];
      assert WanderUpdateOne(o, player, k) == first + second;
      ApplyAllConcat(o.marks, first, second);
      if toChase {
        DropAndSwap(o, o.marks, k, OrcWander, OrcChase);
      }
      if toIdle {
        DropAndSwap(o, ApplyAll(o.marks, first), k, OrcWander, OrcIdle);
      }
  }

  /** Without a player every wandering orc ends the update idle and no
      longer wandering. */
  lemma NoPlayerWanderersIdle(o: Orc, k: nat)
    requires OrcWander in o.marks.tags
    ensures var m := ApplyAll(o.marks, WanderUpdateOne(o, None, k));
      OrcIdle in m.tags && OrcWander !in m.tags
  {
    SwapMoves(o.marks, k, OrcWander, OrcIdle);
  }

  /** The missing `continue` after the chase branch: an orc that is near
      both the player and its destination ends the update with both the
      Chase and the Idle tag, and without a path. */
  lemma WanderCanEnterTwoStates(o: Orc, player: Vec2, k: nat)
    requires o.marks.tags == {OrcWander}
    requires DistanceSquared(player, o.position) <= PosError
    requires DistanceSquared(o.position, o.ai.destination) <= PosError
    ensures var m := ApplyAll(o.marks, WanderUpdateOne(o, Some(player), k));
      m.tags == {OrcChase, OrcIdle} && !m.hasPath
  {
    var first := DropPath(o, k) + Swap(k, OrcWander, OrcChase);
    var second := DropPath(o, k) + Swap(k, OrcWander, OrcIdle);
    assert WanderUpdateOne(o, Some(player), k) == first + second;
    ApplyAllConcat(o.marks, first, second);
    DropAndSwap(o, o.marks, k, OrcWander, OrcChase);
    DropAndSwap(o, ApplyAll(o.marks, first), k, OrcWander, OrcIdle);
  }

  /** Dropping the path and then swapping a tag: the tag is replaced, and
      the path is gone if the orc had one. */
  lemma DropAndSwap(o: Orc, m: Marks, k: nat, from: Tag, to: Tag)
    requires from != to
    ensures var r := ApplyAll(m, DropPath(o, k) + Swap(k, from, to));
      && r.tags == m.tags - {from} + {to}
      && r.hasPath == (m.hasPath && !o.marks.hasPath)
  {
    ApplyAllConcat(m, DropPath(o, k), Swap(k, from, to));
    SwapMoves(ApplyAll(m, DropPath(o, k)), k, from, to);
    if o.marks.hasPath {
      ApplyAllStep(m, [], RemovePath(k));
      assert [] + [RemovePath(k)] == DropPath(o, k);
    }
  }

  // --------------------------------------------------------------- Chase

  /** `chase_enter` for one orc: a newly chasing orc starts path finding and
      walks. */
  function ChaseEnterOne(o: Orc): Orc {
    if OrcChase in o.marks.added then
      Consume(o, OrcChase).(ai := o.ai.(doPathFind := true), anim := Request(o.anim, Kind(DirectionalAnimation.Walk)))
    else o
  }

  /** `chase_enter`. */
  method ChaseEnter(orcs: array<Orc>)
    modifies orcs
    ensures forall k :: 0 <= k < orcs.Length ==> orcs[k] == ChaseEnterOne(old(orcs[k]))
  {
    var i := 0;
    while i < orcs.Length
      invariant 0 <= i <= orcs.Length
      invariant forall k :: 0 <= k < i ==> orcs[k] == ChaseEnterOne(old(orcs[k]))
      invariant forall k :: i <= k < orcs.Length ==> orcs[k] == old(orcs[k])
    {
      var o := orcs[i];
      if OrcChase in o.marks.added {
        o := o.(ai := o.ai.(doPathFind := true));
        o := o.(anim := Request(o.anim, Kind(DirectionalAnimation.Walk)));
        orcs[i] := o.(marks := o.marks.(added := o.marks.added - {OrcChase}));
      }
      i := i + 1;
    }
  }

  /** `chase_update` for the `k`th orc. With no player it goes Idle. Beyond
      the follow range it goes to Wander only if it has a path and
      otherwise stays, and nothing else happens. Within range, a
      destination 5 or more from the player drops the path and is resampled
      at the player (kept when the grid has no point), and an orc within
      attack range goes to Attack. */
  function ChaseUpdateOne(o: Orc, player: Option<Vec2>, k: nat,
                          normalize: Vec2 -> Vec2, sample: (IVec2, Vec2) -> Option<IVec2>): (r: Step)
    ensures Targets(r.commands, k)
    ensures r.orc == o.(ai := o.ai.(destination := r.orc.ai.destination))
    ensures OrcChase !in o.marks.tags ==> r == Step(o, [])
    ensures OrcChase in o.marks.tags && player.None? ==> r == Step(o, Swap(k, OrcChase, OrcIdle))
    ensures OrcChase in o.marks.tags && player.Some? && DistanceAtLeast(o.position, player.value, o.ai.followRange) ==>
      r == Step(o, if o.marks.hasPath then Swap(k, OrcChase, OrcWander) else [])
    ensures Insert(k, OrcAttack) in r.commands <==>
      OrcChase in o.marks.tags && player.Some? && !DistanceAtLeast(o.position, player.value, o.ai.followRange)
      && DistanceAtMost(o.position, player.value, o.ai.attackRange)
    ensures RemovePath(k) in r.commands <==>
      && OrcChase in o.marks.tags && player.Some? && !DistanceAtLeast(o.position, player.value, o.ai.followRange)
      && DistanceSquared(o.ai.destination, player.value) >= PosError
    ensures r.orc.ai.destination ==
      if && OrcChase in o.marks.tags && player.Some? && !DistanceAtLeast(o.position, player.value, o.ai.followRange)
         && DistanceSquared(o.ai.destination, player.value) >= PosError
         && sample(AsIVec2(player.value), normalize(Sub(player.value, o.position))).Some?
      then ToWorld(sample(AsIVec2(player.value), normalize(Sub(player.value, o.position))).value)
      else o.ai.destination
  {
    if OrcChase !in o.marks.tags then Step(o, [])
    else match player
      case None => Step(o, Swap(k, OrcChase, OrcIdle))
      case Some(p) =>
        if DistanceAtLeast(o.position, p, o.ai.followRange) then
          Step(o, if o.marks.hasPath then Swap(k, OrcChase, OrcWander) else [])
        else
          var resample := DistanceSquared(o.ai.destination, p) >= PosError;
          var target := sample(AsIVec2(p), normalize(Sub(p, o.position)));
          var ai := if resample && target.Some? then o.ai.(destination := ToWorld(target.value)) else o.ai;
          Step(o.(ai := ai),
               (if resample then [RemovePath(k)] else [])
               + (if DistanceAtMost(o.position, p, o.ai.attackRange) then Swap(k, OrcChase, OrcAttack) else []))
  }

  /** `chase_update`, with the grid's `sample_position` given as `sample`. */
  method ChaseUpdate(orcs: array<Orc>, players: seq<Vec2>,
                     normalize: Vec2 -> Vec2, sample: (IVec2, Vec2) -> Option<IVec2>) returns (commands: seq<Command>)
    modifies orcs
    ensures CommandsFit(commands, orcs.Length)
    ensures forall k :: 0 <= k < orcs.Length ==>
      var s := ChaseUpdateOne(old(orcs[k]), PlayerPos(players), k, normalize, sample);
      orcs[k] == s.orc && For(commands, k) == s.commands
  {
    if |players| != 1 {
      commands := SendIdle(orcs, OrcChase);
      return;
    }
    commands := [];
    var i := 0;
    var player := players[0];
    while i < orcs.Length
      invariant 0 <= i <= orcs.Length
      invariant CommandsFit(commands, i)
      invariant forall k :: 0 <= k < i ==>
        var s := ChaseUpdateOne(old(orcs[k]), Some(player), k, normalize, sample);
        orcs[k] == s.orc && For(commands, k) == s.commands
      invariant forall k :: i <= k < orcs.Length ==> orcs[k] == old(orcs[k])
    {
      var mine := ChaseVisit(orcs, player, i, normalize, sample);
      Issue(commands, mine, i);
      commands := commands + mine;
      i := i + 1;
    }
  }

  /** The body of `chase_update`'s loop for the orc at `i`. */
  method ChaseVisit(orcs: array<Orc>, player: Vec2, i: nat,
                    normalize: Vec2 -> Vec2, sample: (IVec2, Vec2) -> Option<IVec2>) returns (mine: seq<Command>)
    requires i < orcs.Length
    modifies orcs
    ensures var s := ChaseUpdateOne(old(orcs[i]), Some(player), i, normalize, sample);
      orcs[i] == s.orc && mine == s.commands
    ensures forall k :: 0 <= k < orcs.Length && k != i ==> orcs[k] == old(orcs[k])
  {
    var o := orcs[i];
    mine := [];
    if OrcChase !in o.marks.tags {
      return;
    }
    if DistanceAtLeast(o.position, player, o.ai.followRange) {
      if o.marks.hasPath {
        mine := Swap(i, OrcChase, OrcWander);
      }
      return;
    }
    if DistanceSquared(o.ai.destination, player) >= PosError {
      mine := [RemovePath(i)];
      var target := sample(AsIVec2(player), normalize(Sub(player, o.position)));
      if target.Some? {
        orcs[i] := o.(ai := o.ai.(destination := ToWorld(target.value)));
      }
    }
    if DistanceAtMost(o.position, player, o.ai.attackRange) {
      mine := mine + Swap(i, OrcChase, OrcAttack);
    }
  }

  /** An orc chasing alone, beyond its follow range and without a path,
      keeps chasing: nothing is issued for it. */
  lemma ChaseWithoutPathStays(o: Orc, player: Vec2, k: nat,
                              normalize: Vec2 -> Vec2, sample: (IVec2, Vec2) -> Option<IVec2>)
    requires OrcChase in o.marks.tags && !o.marks.hasPath
    requires DistanceAtLeast(o.position, player, o.ai.followRange)
    ensures ApplyAll(o.marks, ChaseUpdateOne(o, Some(player), k, normalize, sample).commands) == o.marks
  {
  }

  /** A chasing orc whose only tag is Chase has exactly one tag after the
      update's commands. */
  lemma ChaseKeepsOneState(o: Orc, player: Option<Vec2>, k: nat,
                           normalize: Vec2 -> Vec2, sample: (IVec2, Vec2) -> Option<IVec2>)
    requires o.marks.tags == {OrcChase}
    ensures |ApplyAll(o.marks, ChaseUpdateOne(o, player, k, normalize, sample).commands).tags| == 1
  {
    var cs := ChaseUpdateOne(o, player, k, normalize, sample).commands;
    SwapMoves(o.marks, k, OrcChase, OrcIdle);
    SwapMoves(o.marks, k, OrcChase, OrcWander);
    if player.Some? && !DistanceAtLeast(o.position, player.value, o.ai.followRange) {
      var p := player.value;
      var drop: seq<Command> := if DistanceSquared(o.ai.destination, p) >= PosError then [RemovePath(k)] else [];
      var attack := if DistanceAtMost(o.position, p, o.ai.attackRange) then Swap(k, OrcChase, OrcAttack) else [];
      assert cs == drop + attack;
      ApplyAllConcat(o.marks, drop, attack);
      var m := ApplyAll(o.marks, drop);
      if drop != [] {
        ApplyAllStep(o.marks, [], RemovePath(k));
        assert [] + [RemovePath(k)] == drop;
      }
      assert m.tags == {OrcChase};
      SwapMoves(m, k, OrcChase, OrcAttack);
    }
  }

  // -------------------------------------------------------------- Attack

  /** `attack_enter` for one orc: a newly attacking orc is set Attack, plays
      the attack animation and waits 1 s. */
  function AttackEnterOne(o: Orc): Orc {
    if OrcAttack in o.marks.added then
      Consume(o, OrcAttack).(
        enemy := o.enemy.(enemyState := Enemies.Attack, actionTimer := NewTimer(1.0)),
        anim := Request(o.anim, AttackAnimation))
    else o
  }

  /** The damage one newly attacking orc queues on the player: one physical
      hit of its Attack stat, or nothing when it has no such stat. */
  function AttackHit(o: Orc): (r: seq<Health.DamageInstance>)
    ensures |r| <= 1
    ensures r != [] <==> OrcAttack in o.marks.added && Stats.GetStatSpec(o.stats.stats, Stats.Attack).Some?
    ensures r != [] ==>
      r[0] == Health.DamageInstance(Stats.GetStatSpec(o.stats.stats, Stats.Attack).value, EntityDamage.Physical, true)
  {
    if OrcAttack in o.marks.added then
      match Stats.GetStatSpec(o.stats.stats, Stats.Attack)
      case None => []
      case Some(d) => [Health.DamageInstance(d, EntityDamage.Physical, true)]
    else []
  }

  /** The hits of all newly attacking orcs, in query order. */
  function AttackHits(os: seq<Orc>): (r: seq<Health.DamageInstance>)
    ensures |r| <= |os|
  {
    if os == [] then [] else AttackHits(os[..|os| - 1]) + AttackHit(os[|os| - 1])
  }

  /** An orc built with the stat table of `Stats::new` always hits when it
      enters Attack, with exactly its attack value. */
  lemma AttackHitOfTable(o: Orc, health: real, defence: real, magicDefence: real, speed: real, attack: real, magic: real)
    requires o.stats.stats == Stats.Table(health, defence, magicDefence, speed, attack, magic)
    requires OrcAttack in o.marks.added
    ensures AttackHit(o) == [Health.DamageInstance(attack, EntityDamage.Physical, true)]
  {
    Stats.TableComplete(health, defence, magicDefence, speed, attack, magic);
  }

  /** `attack_enter`: without exactly one player nothing happens but the
      orcs no longer count as newly attacking; otherwise every newly
      attacking orc is set up and queues its hit on the player's health,
      which changes in nothing else. */
  method AttackEnter(orcs: array<Orc>, players: seq<Health.Health>)
    modifies orcs, if |players| == 1 then {players[0]} else {}
    ensures |players| != 1 ==> forall k :: 0 <= k < orcs.Length ==> orcs[k] == Consume(old(orcs[k]), OrcAttack)
    ensures |players| == 1 ==> forall k :: 0 <= k < orcs.Length ==> orcs[k] == AttackEnterOne(old(orcs[k]))
    ensures |players| == 1 ==>
      players[0].Data() == old(players[0].Data()).(incomingDamage := old(players[0].incomingDamage) + AttackHits(old(orcs[..])))
  {
    if |players| != 1 {
      ConsumeAll(orcs, OrcAttack);
      return;
    }
    var i := 0;
    var player := players[0];
    ghost var os := orcs[..];
    while i < orcs.Length
      invariant 0 <= i <= orcs.Length
      invariant forall k :: 0 <= k < i ==> orcs[k] == AttackEnterOne(os[k])
      invariant forall k :: i <= k < orcs.Length ==> orcs[k] == os[k]
      invariant player.Data() == old(player.Data()).(incomingDamage := old(player.incomingDamage) + AttackHits(os[..i]))
    {
      AttackVisit(orcs, player, i, os);
      assert os[..i + 1][..i] == os[..i];
      i := i + 1;
    }
    assert os[..orcs.Length] == os;
  }

  /** The body of `attack_enter`'s loop for the orc at `i`. */
  method AttackVisit(orcs: array<Orc>, player: Health.Health, i: nat, ghost os: seq<Orc>)
    requires i < orcs.Length == |os|
    requires forall k :: 0 <= k < i ==> orcs[k] == AttackEnterOne(os[k])
    requires forall k :: i <= k < orcs.Length ==> orcs[k] == os[k]
    modifies orcs, player
    ensures forall k :: 0 <= k <= i ==> orcs[k] == AttackEnterOne(os[k])
    ensures forall k :: i < k < orcs.Length ==> orcs[k] == os[k]
    ensures player.Data() == old(player.Data()).(incomingDamage := old(player.incomingDamage) + AttackHit(os[i]))
  {
    var o := orcs[i];
    if OrcAttack in o.marks.added {
      o := o.(anim := Request(o.anim, AttackAnimation));
      o := o.(enemy := o.enemy.(enemyState := Enemies.Attack, actionTimer := NewTimer(1.0)));
      orcs[i] := o.(marks := o.marks.(added := o.marks.added - {OrcAttack}));
      var damage := Stats.GetStatSpec(o.stats.stats, Stats.Attack);
      if damage.Some? {
        player.PushDamage(damage.value, EntityDamage.Physical);
      }
    }
  }

  /** `attack_update` for the `k`th orc: an attacking orc's timer ticks, and
      it goes back to Chase exactly when the timer has finished. */
  function AttackUpdateOne(o: Orc, dt: real, k: nat): (r: Step)
    requires 0.0 <= dt
    ensures Targets(r.commands, k)
    ensures r.commands != [] <==> OrcAttack in o.marks.tags && Tick(o.enemy.actionTimer, dt).Finished()
    ensures r.commands != [] ==> r.commands == Swap(k, OrcAttack, OrcChase)
    ensures OrcAttack in o.marks.tags ==> r.orc == o.(enemy := o.enemy.(actionTimer := Tick(o.enemy.actionTimer, dt)))
    ensures OrcAttack !in o.marks.tags ==> r.orc == o
  {
    if OrcAttack in o.marks.tags then
      var timer := Tick(o.enemy.actionTimer, dt);
      Step(o.(enemy := o.enemy.(actionTimer := timer)), if timer.Finished() then Swap(k, OrcAttack, OrcChase) else [])
    else Step(o, [])
  }

  /** `attack_update`. */
  method AttackUpdate(orcs: array<Orc>, dt: real) returns (commands: seq<Command>)
    requires 0.0 <= dt
    modifies orcs
    ensures CommandsFit(commands, orcs.Length)
    ensures forall k :: 0 <= k < orcs.Length ==>
      orcs[k] == AttackUpdateOne(old(orcs[k]), dt, k).orc && For(commands, k) == AttackUpdateOne(old(orcs[k]), dt, k).commands
  {
    commands := [];
    var i := 0;
    while i < orcs.Length
      invariant 0 <= i <= orcs.Length
      invariant CommandsFit(commands, i)
      invariant forall k :: 0 <= k < i ==>
        orcs[k] == AttackUpdateOne(old(orcs[k]), dt, k).orc && For(commands, k) == AttackUpdateOne(old(orcs[k]), dt, k).commands
      invariant forall k :: i <= k < orcs.Length ==> orcs[k] == old(orcs[k])
    {
      var o := orcs[i];
      var mine := [];
      if OrcAttack in o.marks.tags {
        var timer := Tick(o.enemy.actionTimer, dt);
        orcs[i] := o.(enemy := o.enemy.(actionTimer := timer));
        if timer.Finished() {
          mine := Swap(i, OrcAttack, OrcChase);
        }
      }
      Issue(commands, mine, i);
      commands := commands + mine;
      i := i + 1;
    }
  }

  /** A fresh attack lasts exactly its second: the first update goes back
      to Chase exactly when its step is at least 1 s. */
  lemma AttackLastsOneSecond(o: Orc, dt: real, k: nat)
    requires Valid(o.marks) && OrcAttack in o.marks.added
    requires 0.0 <= dt
    ensures AttackUpdateOne(AttackEnterOne(o), dt, k).commands != [] <==> dt >= 1.0
  {
    assert AttackEnterOne(o).enemy.actionTimer == Timer(0.0, 1.0);
  }
}
