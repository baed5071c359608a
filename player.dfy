/** The player (src/player/playerplugin.rs): keyboard movement through the
    physics velocity, the idle/walk and facing choice of its animator, and
    what the player is spawned with. */
module Player {
  import opened Common
  import opened DirectionalAnimation
  import Stats
  import Health
  import Abilities

  /** One input axis: `positive as i32 - negative as i32`. */
  function Axis(positive: bool, negative: bool): (r: real)
    ensures r == 0.0 <==> positive == negative
    ensures r == 1.0 <==> positive && !negative
    ensures r == -1.0 <==> !positive && negative
  {
    (if positive then 1.0 else 0.0) - (if negative then 1.0 else 0.0)
  }

  /** The input vector: D minus A across, W minus S up. */
  function InputVector(pressed: set<KeyCode>): (r: Vec2)
    ensures r.x == Axis(KeyD in pressed, KeyA in pressed)
    ensures r.y == Axis(KeyW in pressed, KeyS in pressed)
  {
    Vec2(Axis(KeyD in pressed, KeyA in pressed), Axis(KeyW in pressed, KeyS in pressed))
  }

  /** The input has no length, or at least length 1: the idle threshold of
      0.01 on its squared length is passed exactly when some axis is
      pressed one way only. */
  lemma {:induction false} IdleExactlyWithoutInput(pressed: set<KeyCode>)
    ensures LengthSquared(InputVector(pressed)) <= 0.01 <==> InputVector(pressed) == Zero2
    ensures InputVector(pressed) != Zero2 ==> 1.0 <= LengthSquared(InputVector(pressed)) <= 2.0
  {
    var v := InputVector(pressed);
    assert v.x == 0.0 || v.x == 1.0 || v.x == -1.0;
    assert v.y == 0.0 || v.y == 1.0 || v.y == -1.0;
    assert v.x * v.x == (if v.x == 0.0 then 0.0 else 1.0);
    assert v.y * v.y == (if v.y == 0.0 then 0.0 else 1.0);
  }

  /** The speed `player_move_input` uses: the speed stat, or 50 without one. */
  function MoveSpeed(stats: Stats.StatsData): real {
    Stats.GetStatSpec(stats.stats, Stats.Speed).GetOr(50.0)
  }

  /** `player_move_input`: the velocity becomes the raw input scaled by the
      speed; the physics engine applies the frame time. */
  method PlayerMoveInput(velocity: Velocity, stats: Stats.Stats, pressed: set<KeyCode>)
    modifies velocity`linvel
    ensures velocity.linvel == Scale(InputVector(pressed), MoveSpeed(stats.Data()))
  {
    var input := InputVector(pressed);
    var speed := stats.GetStat(Stats.Speed);
    assert speed.GetOr(50.0) == MoveSpeed(stats.Data());
    velocity.linvel := Scale(input, speed.GetOr(50.0));
  }

  /** The input is not normalised: a diagonal moves at the full speed on
      both axes, so faster than a straight line. With the default stats a
      straight move is at 50 and a diagonal at (50, 50). */
  lemma DiagonalIsFaster(pressed: set<KeyCode>, effects: map<nat, Stats.StatChange>)
    requires KeyD in pressed && KeyA !in pressed && KeyW in pressed && KeyS !in pressed
    ensures var s := Stats.StatsData(Stats.DefaultTable(), effects);
      && Scale(InputVector(pressed), MoveSpeed(s)) == Vec2(50.0, 50.0)
      && LengthSquared(Scale(InputVector(pressed), MoveSpeed(s))) == 2.0 * MoveSpeed(s) * MoveSpeed(s)
  {
    var s := Stats.StatsData(Stats.DefaultTable(), effects);
    assert MoveSpeed(s) == 50.0 by {
      Stats.FindStatAt(Stats.DefaultTable(), 3, Stats.Speed);
    }
    assert InputVector(pressed) == Vec2(1.0, 1.0);
  }

  /** `animate_player`: with no single player nothing happens. Otherwise no
      input selects Idle and any input selects Walk; the facing is changed
      only when the input's direction differs from it, so the previous
      direction keeps the last different one. */
  method AnimatePlayer(players: seq<DirectionalAnimator>, pressed: set<KeyCode>)
    modifies if |players| == 1 then {players[0]} else {}
    ensures |players| == 1 ==>
      var a, v := players[0], InputVector(pressed);
      && a.animationIndices == old(a.animationIndices)
      && a.previous == old(a.current)
      && (LengthSquared(v) <= 0.01 ==> a.current == Idle && a.currentDir == old(a.currentDir) && a.previousDir == old(a.previousDir))
      && (LengthSquared(v) > 0.01 ==> a.current == Walk && a.currentDir == Vec2ToDirection(v))
      && (LengthSquared(v) > 0.01 && Vec2ToDirection(v) != old(a.currentDir) ==> a.previousDir == old(a.currentDir))
      && (LengthSquared(v) > 0.01 && Vec2ToDirection(v) == old(a.currentDir) ==> a.previousDir == old(a.previousDir))
  {
    var input := InputVector(pressed);
    if |players| != 1 {
      return;
    }
    var animator := players[0];
    if LengthSquared(input) <= 0.01 {
      animator.UpdateAnimation(Idle);
    } else {
      animator.UpdateAnimation(Walk);
      var direction := Vec2ToDirection(input);
      if direction != animator.currentDir {
        animator.UpdateDirection(direction);
      }
    }
  }

  /** The player's frame table: one frame per direction when idle, three
      when walking. */
  function PlayerFrames(): map<AnimationType, map<AnimationDirection, AnimationIndices>> {
    map[Idle := map[Up := AnimationIndices(0, 0), Down := AnimationIndices(6, 6),
                    Left := AnimationIndices(9, 9), Right := AnimationIndices(3, 3)],
        Walk := map[Up := AnimationIndices(0, 2), Down := AnimationIndices(6, 8),
                    Left := AnimationIndices(9, 11), Right := AnimationIndices(3, 5)]]
  }

  /** Every kind the player's animator is set to has a frame range for
      every direction, each inside the twelve-frame sheet, and an idle
      frame is the first frame of the walk in the same direction. */
  lemma PlayerFramesComplete(kind: AnimationType, direction: AnimationDirection)
    requires kind == Idle || kind == Walk
    ensures kind in PlayerFrames() && direction in PlayerFrames()[kind]
    ensures var f := PlayerFrames()[kind][direction]; f.first <= f.last < 12
    ensures PlayerFrames()[Idle][direction].first == PlayerFrames()[Walk][direction].first
  {
  }

  /** `spawn_player`: health 100 with defence 10 and magic defence 10, an
      animator idling upwards on the player's frame table, at (50, 0, 1) and
      at rest, with the default stats and abilities. */
  method SpawnPlayer()
    returns (health: Health.Health, animator: DirectionalAnimator, transform: Transform,
             velocity: Velocity, stats: Stats.Stats, abilities: Abilities.AbilitySystem)
    ensures fresh(health) && fresh(animator) && fresh(transform) && fresh(velocity) && fresh(stats) && fresh(abilities)
    ensures health.currentHealth == 100.0 && health.maxHealth == 100.0
    ensures health.physicalDefence == 10 && health.magicalDefence == 10
    ensures health.entityType == Health.Player && !health.dead
    ensures animator.current == Idle && animator.currentDir == Up && animator.animationIndices == PlayerFrames()
    ensures animator.GetAnimation() == AnimationIndices(0, 0)
    ensures transform.translation == Vec3(50.0, 0.0, 1.0)
    ensures velocity.linvel == Zero2 && velocity.angvel == 0.0
    ensures stats.Data() == Stats.StatsData(Stats.DefaultTable(), map[])
    ensures |abilities.abilities| == 3 && abilities.Valid()
  {
    health := new Health.Health(100.0, 10, 10, Health.Player);
    animator := new DirectionalAnimator(PlayerFrames(), Idle, Up);
    transform := new Transform(Vec3(50.0, 0.0, 1.0));
    velocity := new Velocity(Zero2, 0.0);
    stats := new Stats.Stats.Default();
    abilities := new Abilities.AbilitySystem();
  }
}
