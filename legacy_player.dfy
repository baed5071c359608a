/** The older player (src/player/mod.rs): keyboard movement that moves the
    transform directly, and a sprite frame counter over the animation's
    frame range. The repeating frame timer is reduced to whether it finished
    a period on this tick. */
module LegacyPlayer {
  import opened Common
  import DirectionalAnimation
  import LoopingAnimation
  import Player

  /** `move_player`: the translation moves by the input, taken as
      `(D - A, W - S, 0)`, times the frame time times 100. */
  method MovePlayer(transform: Transform, pressed: set<KeyCode>, dt: real)
    modifies transform`translation
    ensures var v := Player.InputVector(pressed);
      transform.translation == Add3(old(transform.translation), Scale3(Vec3(v.x, v.y, 0.0), dt * 100.0))
  {
    var v := Player.InputVector(pressed);
    transform.translation := Add3(transform.translation, Scale3(Vec3(v.x, v.y, 0.0), dt * 100.0));
  }

  /** The player moves at 100 along each pressed axis and never in depth:
      each coordinate changes by at most `100 dt`. */
  lemma MoveBound(t: Vec3, pressed: set<KeyCode>, dt: real)
    requires 0.0 <= dt
    ensures var v := Player.InputVector(pressed);
      var r := Add3(t, Scale3(Vec3(v.x, v.y, 0.0), dt * 100.0));
      && r.z == t.z
      && Abs(r.x - t.x) <= dt * 100.0 && Abs(r.y - t.y) <= dt * 100.0
      && (v.x == 0.0 ==> r.x == t.x) && (v.y == 0.0 ==> r.y == t.y)
  {
    var v := Player.InputVector(pressed);
    assert v.x == 0.0 || v.x == 1.0 || v.x == -1.0;
    assert v.y == 0.0 || v.y == 1.0 || v.y == -1.0;
  }

  /** The player's sprite: the frame range of each animation kind, the
      current kind and the frame shown. */
  datatype Sprite = Sprite(frames: map<DirectionalAnimation.AnimationType, DirectionalAnimation.AnimationIndices>,
                           current: DirectionalAnimation.AnimationType, index: nat)

  /** The frame advance of `animate_player`: only the last frame itself
      wraps to the first, any other frame moves one on. */
  function Advance(index: nat, indices: DirectionalAnimation.AnimationIndices): (r: nat)
    ensures index == indices.last ==> r == indices.first
    ensures index != indices.last ==> r == index + 1
  {
    if index == indices.last then indices.first else index + 1
  }

  /** `n` advances in a row. */
  function Iterate(index: nat, indices: DirectionalAnimation.AnimationIndices, n: nat): nat {
    if n == 0 then index else Advance(Iterate(index, indices, n - 1), indices)
  }

  /** Inside its range the frame stays inside it forever; the spawned idle
      range 0 ..= 8 from frame 0 stays in [0, 8]. */
  lemma {:induction false} StaysInRange(index: nat, indices: DirectionalAnimation.AnimationIndices, n: nat)
    requires indices.first <= index <= indices.last
    ensures indices.first <= Iterate(index, indices, n) <= indices.last
  {
    if n > 0 {
      StaysInRange(index, indices, n - 1);
    }
  }

  /** A frame past the last one never comes back: because only equality
      with the last frame wraps, it grows by one on every advance. */
  lemma {:induction false} PastLastKeepsGrowing(index: nat, indices: DirectionalAnimation.AnimationIndices, n: nat)
    requires indices.last < index
    ensures Iterate(index, indices, n) == index + n
  {
    if n > 0 {
      PastLastKeepsGrowing(index, indices, n - 1);
    }
  }

  /** The two frame counters agree inside the range, and differ on a frame
      past the last: the looping animator wraps it to the first frame. */
  lemma AdvanceVersusLooping(index: nat, indices: DirectionalAnimation.AnimationIndices)
    ensures index <= indices.last ==> Advance(index, indices) == LoopingAnimation.Advance(index, indices)
    ensures indices.last < index ==>
      Advance(index, indices) == index + 1 && LoopingAnimation.Advance(index, indices) == indices.first
  {
  }

  /** One sprite of `animate_player`'s query: on a tick where the frame
      timer finished, the frame advances within the current kind's range. */
  function Frame(s: Sprite, justFinished: bool): (r: Sprite)
    requires s.current in s.frames
    ensures r.frames == s.frames && r.current == s.current
    ensures !justFinished ==> r.index == s.index
    ensures justFinished ==> r.index == Advance(s.index, s.frames[s.current])
  {
    if justFinished then s.(index := Advance(s.index, s.frames[s.current])) else s
  }

  /** The sprite `spawn_player` creates: idling on frames 0 ..= 8 at frame 0. */
  function Spawned(): (r: Sprite)
    ensures r.current in r.frames && r.index == 0
    ensures r.frames[r.current] == DirectionalAnimation.AnimationIndices(0, 8)
  {
    Sprite(map[DirectionalAnimation.Idle := DirectionalAnimation.AnimationIndices(0, 8)], DirectionalAnimation.Idle, 0)
  }

  /** `animate_player` over its query. The current kind must have a frame
      range: the source unwraps the lookup. */
  method AnimatePlayer(query: array<Sprite>, justFinished: seq<bool>)
    requires |justFinished| == query.Length
    requires forall k :: 0 <= k < query.Length ==> query[k].current in query[k].frames
    modifies query
    ensures forall k :: 0 <= k < query.Length ==> query[k] == Frame(old(query[k]), justFinished[k])
  {
    var i := 0;
    while i < query.Length
      invariant 0 <= i <= query.Length
      invariant forall k :: 0 <= k < i ==> query[k] == Frame(old(query[k]), justFinished[k])
      invariant forall k :: i <= k < query.Length ==> query[k] == old(query[k])
    {
      if justFinished[i] {
        var s := query[i];
        var range := s.frames[s.current];
        query[i] := s.(index := if s.index == range.last then range.first else s.index + 1);
      }
      i := i + 1;
    }
  }
}
