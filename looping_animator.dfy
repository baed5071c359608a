/** A sprite animation that cycles through one frame range forever
    (src/animation/looping_animator.rs). The repeating frame timer is
    reduced to whether it finished a period on this tick. */
module LoopingAnimation {
  import opened DirectionalAnimation

  /** `LoopingAnimator`: the frame range, the current frame and the frame
      timer's period. */
  datatype LoopingAnimator = LoopingAnimator(indices: AnimationIndices, current: nat, framePeriod: real)

  /** One entity of the animation query: its animator and the frame its
      sprite shows. */
  datatype Animated = Animated(animator: LoopingAnimator, atlasIndex: nat)

  /** `LoopingAnimator::new`: frames 0 ..= last, starting at frame 0. */
  function New(last: nat, frameLength: real): (r: LoopingAnimator)
    ensures r.indices.first == 0 && r.indices.last == last
    ensures r.current == r.indices.first
    ensures r.framePeriod == frameLength
  {
    LoopingAnimator(AnimationIndices(0, last), 0, frameLength)
  }

  /** One frame advance: past or at the last frame it wraps to the first,
      otherwise it moves one frame on. */
  function Advance(current: nat, indices: AnimationIndices): (r: nat)
    ensures current >= indices.last ==> r == indices.first
    ensures current < indices.last ==> r == current + 1
    ensures indices.first <= indices.last ==> r <= indices.last
    ensures indices.first <= current ==> indices.first <= r
  {
    if current >= indices.last then indices.first else current + 1
  }

  /** `n` advances in a row. */
  function Iterate(current: nat, indices: AnimationIndices, n: nat): nat {
    if n == 0 then current else Advance(Iterate(current, indices, n - 1), indices)
  }

  /** What `update_looping_animations` does to one entity: only on a tick
      where the frame timer finished does the frame advance, and the sprite
      then shows the new frame. */
  function Frame(e: Animated, justFinished: bool): (r: Animated)
    ensures !justFinished ==> r == e
    ensures justFinished ==> r.atlasIndex == r.animator.current
    ensures r.animator.indices == e.animator.indices && r.animator.framePeriod == e.animator.framePeriod
    ensures var ind := e.animator.indices;
      ind.first <= ind.last && ind.first <= e.animator.current <= ind.last ==>
        ind.first <= r.animator.current <= ind.last
  {
    if justFinished then
      var next := Advance(e.animator.current, e.animator.indices);
      Animated(e.animator.(current := next), next)
    else e
  }

  /** From the first frame, `k` advances reach frame `first + k` while that
      is still inside the range. */
  lemma {:induction false} IterateCounts(indices: AnimationIndices, k: nat)
    requires indices.first + k <= indices.last
    ensures Iterate(indices.first, indices, k) == indices.first + k
  {
    if k > 0 {
      IterateCounts(indices, k - 1);
    }
  }

  /** The animation is a cycle of `last - first + 1` frames: that many
      advances from the first frame come back to it, and no smaller
      positive number of advances does. */
  lemma CycleLength(indices: AnimationIndices)
    requires indices.first <= indices.last
    ensures Iterate(indices.first, indices, indices.last - indices.first + 1) == indices.first
    ensures forall k: nat :: 0 < k <= indices.last - indices.first ==> Iterate(indices.first, indices, k) != indices.first
  {
    IterateCounts(indices, indices.last - indices.first);
    forall k: nat | 0 < k <= indices.last - indices.first
      ensures Iterate(indices.first, indices, k) != indices.first
    {
      IterateCounts(indices, k);
    }
  }

  /** A frame at or past the first one, even past the last one, is inside
      the range after any positive number of advances: past the last it
      snaps back to the first. */
  lemma {:induction false} StaysInRange(current: nat, indices: AnimationIndices, n: nat)
    requires indices.first <= indices.last && indices.first <= current
    requires 0 < n
    ensures indices.first <= Iterate(current, indices, n) <= indices.last
  {
    if n > 1 {
      StaysInRange(current, indices, n - 1);
    }
  }

  /** `update_looping_animations`, with `justFinished[k]` telling whether
      entity `k`'s frame timer finished a period on this tick. */
  method UpdateLoopingAnimations(query: array<Animated>, justFinished: seq<bool>)
    requires |justFinished| == query.Length
    modifies query
    ensures forall k :: 0 <= k < query.Length ==> query[k] == Frame(old(query[k]), justFinished[k])
  {
    var i := 0;
    while i < query.Length
      invariant 0 <= i <= query.Length
      invariant forall k :: 0 <= k < i ==> query[k] == Frame(old(query[k]), justFinished[k])
      invariant forall k :: i <= k < query.Length ==> query[k] == old(query[k])
    {
      if justFinished[i] {
        var animator := query[i].animator;
        var next := if animator.current >= animator.indices.last then animator.indices.first else animator.current + 1;
        query[i] := Animated(animator.(current := next), next);
      }
      i := i + 1;
    }
  }
}
