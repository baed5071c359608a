/** What the orc systems of both revisions work on: one record per orc
    entity holding the components those systems query, the player's
    position as the player query sees it, and the deferred application of
    the tag commands they issue. */
module OrcWorld {
  import opened Common
  import opened OrcTags
  import DirectionalAnimation
  import Enemies
  import Stats

  /** `POS_ERROR`: 5 squared, the squared distance that counts as arrived. */
  const PosError: real := 25.0

  /** An animation an orc asks its animator for: one of the animator's
      kinds, or the attack animation, which the animator's kind enumeration
      does not list. */
  datatype Animation = Kind(kind: DirectionalAnimation.AnimationType) | AttackAnimation

  /** The animator's current and previous animation. */
  datatype AnimState = AnimState(current: Animation, previous: Animation)

  /** `update_animation`. */
  function Request(a: AnimState, next: Animation): (r: AnimState)
    ensures r.current == next && r.previous == a.current
  {
    AnimState(next, a.current)
  }

  /** The `AITarget` the orc systems use: where to path to, whether to path
      at all, and the follow and attack ranges. */
  datatype AITarget = AITarget(destination: Vec2, doPathFind: bool, followRange: real, attackRange: real)

  /** One orc entity: its `Enemy`, animator, target, position (the
      transform's translation without its depth), stats and tags. */
  datatype Orc = Orc(enemy: Enemies.Enemy, anim: AnimState, ai: AITarget, position: Vec2,
                     stats: Stats.StatsData, marks: Marks)

  /** `get_player_pos` of `get_single`: a position only when there is
      exactly one player. */
  function PlayerPos(players: seq<Vec2>): (r: Option<Vec2>)
    ensures r.Some? <==> |players| == 1
    ensures r.Some? ==> r.value == players[0]
  {
    if |players| == 1 then Some(players[0]) else None
  }

  /** A grid point as a world position (`pos as f32`). */
  function ToWorld(p: IVec2): Vec2 {
    Vec2(p.x as real, p.y as real)
  }

  /** One orc after a system has visited it, with the commands it issued
      for that orc. */
  datatype Step = Step(orc: Orc, commands: seq<Command>)

  /** Every command is for one of the first `n` entities. */
  predicate CommandsFit(commands: seq<Command>, n: nat) {
    forall c | c in commands :: c.entity < n
  }

  /** An entity that no command names gets none. */
  lemma ForAbsent(commands: seq<Command>, k: nat, n: nat)
    requires CommandsFit(commands, n) && n <= k
    ensures For(commands, k) == []
  {
  }

  /** Appending the commands a system issued for entity `i`, the `i`th one
      it visits, gives that entity exactly those and changes no other
      entity's share. */
  lemma Issue(before: seq<Command>, mine: seq<Command>, i: nat)
    requires CommandsFit(before, i) && Targets(mine, i)
    ensures CommandsFit(before + mine, i + 1)
    ensures For(before + mine, i) == mine
    ensures forall k :: k != i ==> For(before + mine, k) == For(before, k)
  {
    ForAbsent(before, i, i);
    ForConcat(before, mine, i);
    ForOwn(mine, i, i);
    forall k | k != i
      ensures For(before + mine, k) == For(before, k)
    {
      ForConcat(before, mine, k);
      ForOwn(mine, i, k);
      assert For(before, k) + [] == For(before, k);
    }
  }

  /** The end of the update: every command is applied to the orc it names,
      in the order it was issued. */
  method ApplyCommands(orcs: array<Orc>, commands: seq<Command>)
    requires CommandsFit(commands, orcs.Length)
    modifies orcs
    ensures forall k :: 0 <= k < orcs.Length ==>
      orcs[k] == old(orcs[k]).(marks := ApplyAll(old(orcs[k]).marks, For(commands, k)))
  {
    var i := 0;
    while i < |commands|
      invariant 0 <= i <= |commands|
      invariant forall k :: 0 <= k < orcs.Length ==>
        orcs[k] == old(orcs[k]).(marks := ApplyAll(old(orcs[k]).marks, For(commands[..i], k)))
    {
      var c := commands[i];
      assert c in commands;
      assert commands[..i + 1] == commands[..i] + [c];
      forall k | 0 <= k < orcs.Length && k != c.entity
        ensures For(commands[..i + 1], k) == For(commands[..i], k)
      {
        ForConcat(commands[..i], [c], k);
        ForOwn([c], c.entity, k);
        assert For(commands[..i], k) + [] == For(commands[..i], k);
      }
      ForConcat(commands[..i], [c], c.entity);
      ForOwn([c], c.entity, c.entity);
      ApplyAllStep(old(orcs[c.entity]).marks, For(commands[..i], c.entity), c);
      orcs[c.entity] := orcs[c.entity].(marks := Apply(orcs[c.entity].marks, c));
      i := i + 1;
    }
    assert commands[..|commands|] == commands;
  }
}
