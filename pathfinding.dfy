/** Direct steering of AI agents towards the player (src/pathfinding.rs):
    an agent within its follow range heads straight for the player at its
    speed stat. */
module Pathfinding {
  import opened Common
  import Stats

  /** `AITarget`: how close the player must be for the agent to follow;
      `AITarget::new` is this constructor. */
  datatype AITarget = AITarget(followRange: real)

  /** One agent of the steering query: its velocity, its position, its
      stats and its target. */
  datatype Agent = Agent(linvel: Vec2, angvel: real, position: Vec2, stats: Stats.StatsData, target: AITarget)

  /** The agent's speed stat, or 100 when it has none. */
  function SpeedOf(stats: Stats.StatsData): real {
    Stats.GetStatSpec(stats.stats, Stats.Speed).GetOr(100.0)
  }

  /** `follow_range.powf(2.0)` compared with the squared distance. */
  predicate InFollowRange(a: Agent, player: Vec2) {
    DistanceSquared(player, a.position) <= a.target.followRange * a.target.followRange
  }

  /** What `update_ai_paths` does to one agent once the player is known:
      within range the velocity is overwritten with the direction to the
      player times the speed; out of range it is kept, not zeroed; nothing
      but the linear velocity is written. */
  function Steer(a: Agent, player: Vec2, normalize: Vec2 -> Vec2): (r: Agent)
    ensures r == a.(linvel := r.linvel)
    ensures InFollowRange(a, player) ==> r.linvel == Scale(normalize(Sub(player, a.position)), SpeedOf(a.stats))
    ensures !InFollowRange(a, player) ==> r == a
  {
    if DistanceSquared(player, a.position) <= a.target.followRange * a.target.followRange then
      a.(linvel := Scale(normalize(Sub(player, a.position)), SpeedOf(a.stats)))
    else a
  }

  /** With a unit direction, an agent in range moves at exactly its speed. */
  lemma SteerMovesAtSpeed(a: Agent, player: Vec2, normalize: Vec2 -> Vec2)
    requires InFollowRange(a, player)
    requires LengthSquared(normalize(Sub(player, a.position))) == 1.0
    ensures LengthSquared(Steer(a, player, normalize).linvel) == SpeedOf(a.stats) * SpeedOf(a.stats)
  {
    var u, s := normalize(Sub(player, a.position)), SpeedOf(a.stats);
    calc {
      LengthSquared(Scale(u, s));
      (u.x * s) * (u.x * s) + (u.y * s) * (u.y * s);
      (u.x * u.x + u.y * u.y) * (s * s);
    }
  }

  /** The fallback of 100 is never taken for stats built by `Stats::new` or
      `Stats::default`: the speed is the one the table was built with. */
  lemma SpeedFromTable(health: real, defence: real, magicDefence: real, speed: real, attack: real, magic: real,
                       effects: map<nat, Stats.StatChange>)
    ensures SpeedOf(Stats.StatsData(Stats.Table(health, defence, magicDefence, speed, attack, magic), effects)) == speed
    ensures SpeedOf(Stats.StatsData(Stats.DefaultTable(), effects)) == 50.0
  {
    Stats.TableComplete(health, defence, magicDefence, speed, attack, magic);
    Stats.TableComplete(100.0, 10.0, 10.0, 50.0, 25.0, 20.0);
  }

  /** `update_ai_paths`, with `players` the positions of all player
      entities: unless there is exactly one, no agent changes. */
  method UpdateAiPaths(agents: array<Agent>, players: seq<Vec2>, normalize: Vec2 -> Vec2)
    modifies agents
    ensures |players| != 1 ==> agents[..] == old(agents[..])
    ensures |players| == 1 ==>
      forall k :: 0 <= k < agents.Length ==> agents[k] == Steer(old(agents[k]), players[0], normalize)
  {
    if |players| != 1 {
      return;
    }
    var player := players[0];
    var i := 0;
    while i < agents.Length
      invariant 0 <= i <= agents.Length
      invariant forall k :: 0 <= k < i ==> agents[k] == Steer(old(agents[k]), player, normalize)
      invariant forall k :: i <= k < agents.Length ==> agents[k] == old(agents[k])
    {
      var speed := SpeedOf(agents[i].stats);
      var d := Sub(player, agents[i].position);
      var range := agents[i].target.followRange;
      if LengthSquared(d) <= range * range {
        agents[i] := agents[i].(linvel := Scale(normalize(d), speed));
      }
      i := i + 1;
    }
  }
}
