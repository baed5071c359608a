/** The enemy component and the systems shared by every enemy kind
    (src/entity/enemy/mod.rs): the initial state, the spawn-event handler
    that starts an orc in its idle state, the walk/direction animation rule
    and the spawner configuration. */
module Enemies {
  import opened Common
  import DirectionalAnimation
  import OrcTags

  datatype EnemyType = Orc

  datatype EnemyState = Idle | Wander | Chase | Attack | Death

  /** `Enemy`: kind, behaviour state and its two one-shot timers. */
  datatype Enemy = Enemy(enemyType: EnemyType, enemyState: EnemyState, actionTimer: Timer, animTimer: Timer)

  /** `Enemy::new`: idle, with a 5 s action timer still running and a 0 s
      animation timer that its first tick finishes. */
  function New(enemyType: EnemyType): (r: Enemy)
    ensures r.enemyType == enemyType && r.enemyState == Idle
    ensures r.actionTimer == NewTimer(5.0) && !r.actionTimer.Finished()
    ensures r.animTimer == NewTimer(0.0)
    ensures forall dt :: 0.0 <= dt ==> Tick(r.animTimer, dt).Finished()
  {
    Enemy(enemyType, Idle, NewTimer(5.0), NewTimer(0.0))
  }

  /** `EnemySpawnEvent`: the spawned entity and its kind. */
  datatype SpawnEvent = SpawnEvent(entity: nat, enemyType: EnemyType)

  /** `enemy_spawn_init`: one `OrcIdle` insert per spawn event, in the order
      the events were read. */
  method EnemySpawnInit(events: seq<SpawnEvent>) returns (commands: seq<OrcTags.Command>)
    ensures |commands| == |events|
    ensures forall i :: 0 <= i < |events| ==> commands[i] == OrcTags.Insert(events[i].entity, OrcTags.OrcIdle)
  {
    commands := [];
    var i := 0;
    while i < |events|
      invariant 0 <= i <= |events|
      invariant |commands| == i
      invariant forall j :: 0 <= j < i ==> commands[j] == OrcTags.Insert(events[j].entity, OrcTags.OrcIdle)
    {
      match events[i].enemyType {
        case Orc =>
          commands := commands + [OrcTags.Insert(events[i].entity, OrcTags.OrcIdle)];
      }
      i := i + 1;
    }
  }

  /** Every spawned orc carries `OrcIdle` once the commands are applied,
      whatever tags it had before. */
  lemma SpawnedOrcsIdle(events: seq<SpawnEvent>, commands: seq<OrcTags.Command>, m: OrcTags.Marks, i: nat)
    requires |commands| == |events|
    requires forall j :: 0 <= j < |events| ==> commands[j] == OrcTags.Insert(events[j].entity, OrcTags.OrcIdle)
    requires i < |events|
    ensures OrcTags.OrcIdle in OrcTags.ApplyAll(m, OrcTags.For(commands, events[i].entity)).tags
  {
    var mine := OrcTags.For(commands, events[i].entity);
    assert commands[i] in mine;
    forall c | c in mine
      ensures c.Insert? && c.tag == OrcTags.OrcIdle
    {
      var j :| 0 <= j < |commands| && commands[j] == c;
    }
    OrcTags.InsertsOnly(m, mine, OrcTags.OrcIdle);
  }

  /** The walk threshold on the squared speed. */
  const WalkThreshold: real := 0.01

  /** The queried animators belong to distinct entities. */
  predicate Distinct(animators: seq<DirectionalAnimation.DirectionalAnimator>) {
    forall i, j :: 0 <= i < j < |animators| ==> animators[i] != animators[j]
  }

  /** `update_enemy_animations`: a fast enough enemy is switched to Walk
      (a slow one keeps whatever animation it had; Idle is never set here),
      and every enemy faces the direction of its velocity, even a slow one. */
  method UpdateEnemyAnimations(linvels: seq<Vec2>, animators: seq<DirectionalAnimation.DirectionalAnimator>)
    requires |linvels| == |animators|
    requires Distinct(animators)
    modifies set a | a in animators
    ensures forall k :: 0 <= k < |animators| ==>
      var a, v := animators[k], linvels[k];
      && (LengthSquared(v) >= WalkThreshold ==> a.current == DirectionalAnimation.Walk && a.previous == old(a.current))
      && (LengthSquared(v) < WalkThreshold ==> a.current == old(a.current) && a.previous == old(a.previous))
      && a.currentDir == DirectionalAnimation.Vec2ToDirection(v)
      && a.previousDir == old(a.currentDir)
      && a.animationIndices == old(a.animationIndices)
  {
    var i := 0;
    while i < |animators|
      invariant 0 <= i <= |animators|
      invariant forall k :: 0 <= k < i ==>
        var a, v := animators[k], linvels[k];
        && (LengthSquared(v) >= WalkThreshold ==> a.current == DirectionalAnimation.Walk && a.previous == old(a.current))
        && (LengthSquared(v) < WalkThreshold ==> a.current == old(a.current) && a.previous == old(a.previous))
        && a.currentDir == DirectionalAnimation.Vec2ToDirection(v)
        && a.previousDir == old(a.currentDir)
        && a.animationIndices == old(a.animationIndices)
      invariant forall k :: i <= k < |animators| ==>
        var a := animators[k];
        && a.current == old(a.current) && a.previous == old(a.previous)
        && a.currentDir == old(a.currentDir) && a.previousDir == old(a.previousDir)
        && a.animationIndices == old(a.animationIndices)
    {
      if LengthSquared(linvels[i]) >= WalkThreshold {
        animators[i].UpdateAnimation(DirectionalAnimation.Walk);
      }
      animators[i].UpdateDirection(DirectionalAnimation.Vec2ToDirection(linvels[i]));
      i := i + 1;
    }
  }

  /** `EnemySpawner::new`'s arguments and the spawner's own position. */
  datatype SpawnerConfig = SpawnerConfig(enemyType: EnemyType, spawnDelay: real, maxSpawns: nat,
                                         spawnPoints: seq<Vec2>, position: Vec3)

  /** `spawn_spawners`: one orc spawner, one spawn a second, at most one
      orc, from the single point (100, 10). */
  function SpawnSpawners(): (r: seq<SpawnerConfig>)
    ensures |r| == 1 && r[0].enemyType == Orc && r[0].maxSpawns == 1
    ensures r[0].spawnPoints == [Vec2(100.0, 10.0)] && r[0].spawnDelay == 1.0
    ensures r[0].position == Vec3(-50.0, 50.0, 1.0)
  {
    [SpawnerConfig(Orc, 1.0, 1, [Vec2(100.0, 10.0)], Vec3(-50.0, 50.0, 1.0))]
  }

  /** The spawner draws its point index from `0 .. spawn_points.len()`; for
      the configured spawner that range holds only 0, so the draw is always
      in range and the orc appears at (100, 10). */
  lemma SpawnIndexInRange(index: int)
    requires 0 <= index < |SpawnSpawners()[0].spawnPoints|
    ensures index == 0 && SpawnSpawners()[0].spawnPoints[index] == Vec2(100.0, 10.0)
  {
  }
}
