/** Values shared by every system of the game: optional values, 2D/3D vectors,
    keyboard keys and the engine's one-shot timer. */
module Common {

  datatype Option<T> = None | Some(value: T) {
    function GetOr(default: T): T {
      match this
      case Some(v) => v
      case None => default
    }
  }

  function Max(a: real, b: real): real { if a >= b then a else b }
  function Min(a: real, b: real): real { if a <= b then a else b }
  function Abs(a: real): real { if a >= 0.0 then a else -a }

  /** The sum of a run of frame times. */
  function Sum(dts: seq<real>): (r: real)
    ensures (forall i :: 0 <= i < |dts| ==> 0.0 <= dts[i]) ==> 0.0 <= r
  {
    if dts == [] then 0.0 else dts[0] + Sum(dts[1..])
  }

  predicate NonNegative(dts: seq<real>) {
    forall i :: 0 <= i < |dts| ==> 0.0 <= dts[i]
  }

  /** A 2D vector of f32 components, read as exact reals. */
  datatype Vec2 = Vec2(x: real, y: real)

  const Zero2 := Vec2(0.0, 0.0)

  function Add(a: Vec2, b: Vec2): Vec2 { Vec2(a.x + b.x, a.y + b.y) }
  function Sub(a: Vec2, b: Vec2): Vec2 { Vec2(a.x - b.x, a.y - b.y) }
  function Scale(a: Vec2, k: real): Vec2 { Vec2(a.x * k, a.y * k) }
  function LengthSquared(a: Vec2): real { a.x * a.x + a.y * a.y }
  function DistanceSquared(a: Vec2, b: Vec2): real { LengthSquared(Sub(a, b)) }

  /** `distance(a, b) >= r`, stated without a square root. */
  predicate DistanceAtLeast(a: Vec2, b: Vec2, r: real) {
    r <= 0.0 || DistanceSquared(a, b) >= r * r
  }

  /** `distance(a, b) <= r`, stated without a square root. */
  predicate DistanceAtMost(a: Vec2, b: Vec2, r: real) {
    r >= 0.0 && DistanceSquared(a, b) <= r * r
  }

  /** A 3D vector (a transform's translation). */
  datatype Vec3 = Vec3(x: real, y: real, z: real)

  function Add3(a: Vec3, b: Vec3): Vec3 { Vec3(a.x + b.x, a.y + b.y, a.z + b.z) }
  function Scale3(a: Vec3, k: real): Vec3 { Vec3(a.x * k, a.y * k, a.z * k) }

  /** `f32 as i32`: truncation toward zero. */
  function TruncToInt(x: real): int {
    if x >= 0.0 then x.Floor else -((-x).Floor)
  }

  /** An integer grid point (`IVec2`). */
  datatype IVec2 = IVec2(x: int, y: int)

  function AsIVec2(v: Vec2): IVec2 { IVec2(TruncToInt(v.x), TruncToInt(v.y)) }

  /** The keys the game reads. */
  datatype KeyCode = KeyQ | KeyE | KeyR | KeyW | KeyA | KeyS | KeyD | NonConvert | OtherKey(code: nat)

  /** A one-shot engine timer: it finishes once `elapsed` reaches `duration`. */
  datatype Timer = Timer(elapsed: real, duration: real) {
    predicate Finished() { elapsed >= duration }
  }

  /** `Timer::from_seconds(d, TimerMode::Once)`. */
  function NewTimer(duration: real): Timer { Timer(0.0, duration) }

  /** Ticking a one-shot timer: a finished timer stays as it is, otherwise the
      elapsed time grows by `dt` and is capped at the duration. */
  function Tick(t: Timer, dt: real): (r: Timer)
    requires dt >= 0.0
    ensures r.duration == t.duration
    ensures t.elapsed <= r.elapsed
    ensures t.Finished() ==> r.Finished()
    ensures r.Finished() <==> t.Finished() || t.elapsed + dt >= t.duration
  {
    if t.Finished() then t else Timer(Min(t.elapsed + dt, t.duration), t.duration)
  }

  /** A body's velocity (the physics engine's `Velocity` component). */
  class Velocity {
    var linvel: Vec2
    var angvel: real

    constructor (linvel: Vec2, angvel: real)
      ensures this.linvel == linvel && this.angvel == angvel
    {
      this.linvel := linvel;
      this.angvel := angvel;
    }
  }

  /** An entity's position (the engine's `Transform` component, translation only). */
  class Transform {
    var translation: Vec3

    constructor (translation: Vec3)
      ensures this.translation == translation
    {
      this.translation := translation;
    }
  }
}
