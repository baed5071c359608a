/** Sprite-sheet animation chosen by animation kind and facing direction
    (src/animation/directional_animator.rs, with the frame range of
    src/animation/mod.rs). */
module DirectionalAnimation {
  import opened Common

  datatype AnimationType = Idle | Walk | Run | Cast | SpecialCast

  datatype AnimationDirection = Up | Down | Left | Right

  /** A frame range of the sprite sheet (`AnimationIndices`, without its
      frame length). */
  datatype AnimationIndices = AnimationIndices(first: nat, last: nat)

  /** `DEFAULT`: the single frame 0. */
  const Default := AnimationIndices(0, 0)

  /** `vec2_to_direction`: any horizontal movement decides between Right
      and Left; only a purely vertical vector faces Up or Down; the zero
      vector faces Left. */
  function Vec2ToDirection(v: Vec2): (r: AnimationDirection)
    ensures v.x != 0.0 ==> (r == Right <==> v.x > 0.0) && (r == Left <==> v.x < 0.0)
    ensures v.x == 0.0 && v.y != 0.0 ==> (r == Up <==> v.y > 0.0) && (r == Down <==> v.y < 0.0)
    ensures v == Zero2 ==> r == Left
    ensures r == Up || r == Down <==> v.x == 0.0 && v.y != 0.0
  {
    if Abs(v.x) > 0.0 || Abs(v.y) == 0.0 then
      (if v.x > 0.0 then Right else Left)
    else
      (if v.y > 0.0 then Up else Down)
  }

  /** The frame range stored for a kind and a direction, or `DEFAULT` when
      either key is missing. */
  function Lookup(table: map<AnimationType, map<AnimationDirection, AnimationIndices>>,
                  animation: AnimationType, direction: AnimationDirection): (r: AnimationIndices)
    ensures animation in table && direction in table[animation] ==> r == table[animation][direction]
    ensures !(animation in table && direction in table[animation]) ==> r == Default
  {
    if animation in table && direction in table[animation] then table[animation][direction] else Default
  }

  /** `DirectionalAnimator`: the frame table and the current and previous
      kind and direction. */
  class DirectionalAnimator {
    var animationIndices: map<AnimationType, map<AnimationDirection, AnimationIndices>>
    var current: AnimationType
    var previous: AnimationType
    var currentDir: AnimationDirection
    var previousDir: AnimationDirection

    constructor (animationIndices: map<AnimationType, map<AnimationDirection, AnimationIndices>>,
                 current: AnimationType, currentDir: AnimationDirection)
      ensures this.animationIndices == animationIndices
      ensures this.current == current && previous == current
      ensures this.currentDir == currentDir && previousDir == currentDir
    {
      this.animationIndices := animationIndices;
      this.current := current;
      previous := current;
      this.currentDir := currentDir;
      previousDir := currentDir;
    }

    /** `update_animation`: the old kind becomes the previous one. */
    method UpdateAnimation(animation: AnimationType)
      modifies this`previous, this`current
      ensures previous == old(current) && current == animation
    {
      previous := current;
      current := animation;
    }

    /** `update_direction`: the old direction becomes the previous one. */
    method UpdateDirection(direction: AnimationDirection)
      modifies this`previousDir, this`currentDir
      ensures previousDir == old(currentDir) && currentDir == direction
    {
      previousDir := currentDir;
      currentDir := direction;
    }

    /** `get_animation`. */
    function GetAnimation(): (r: AnimationIndices)
      reads this
      ensures current in animationIndices && currentDir in animationIndices[current] ==>
        r == animationIndices[current][currentDir]
      ensures !(current in animationIndices && currentDir in animationIndices[current]) ==> r == Default
    {
      Lookup(animationIndices, current, currentDir)
    }
  }
}
