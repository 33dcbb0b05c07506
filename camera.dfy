/**
 * `FloatingCameraControls`: a key-state dictionary written by the keyboard handlers and a
 * per-frame move of the camera along its view direction, its right vector and the world
 * vertical, followed by a clamp of the height to [0.1, 8.0].
 */
module CameraControls {
  import opened Vectors
  import opened Text

  /** `keys.current`: lower-cased `KeyboardEvent.key` to "is held". */
  type KeyMap = map<string, bool>

  /** The default `speed` prop, and the speed the scene configures. */
  const DefaultSpeed: real := 0.9
  const SceneSpeed: real := 0.2

  /** The height band the camera is kept in. */
  const MinY: real := 0.1
  const MaxY: real := 8.0

  /** `keys.current[k]` is truthy: the key was stored and its last event was a keydown. */
  predicate Held(keys: KeyMap, k: string)
  {
    k in keys && keys[k]
  }

  /** `handleKeyDown`: the lower-cased key is now held; no other key changes. */
  function AfterKeyDown(keys: KeyMap, key: string): (r: KeyMap)
    ensures Held(r, ToLower(key))
    ensures forall k :: k != ToLower(key) ==> (Held(r, k) <==> Held(keys, k))
    ensures r.Keys == keys.Keys + {ToLower(key)}
  {
    keys[ToLower(key) := true]
  }

  /** `handleKeyUp`: the lower-cased key is now released; no other key changes. */
  function AfterKeyUp(keys: KeyMap, key: string): (r: KeyMap)
    ensures !Held(r, ToLower(key))
    ensures forall k :: k != ToLower(key) ==> (Held(r, k) <==> Held(keys, k))
    ensures r.Keys == keys.Keys + {ToLower(key)}
  {
    keys[ToLower(key) := false]
  }

  /** The six movement actions of one frame. */
  datatype Actions = Actions(forward: bool, back: bool, left: bool, right: bool, up: bool, down: bool)

  const Idle: Actions := Actions(false, false, false, false, false, false)

  /** Each action is on when either of its two keys is held. */
  function ActionsOf(keys: KeyMap): Actions
  {
    Actions(Held(keys, "w") || Held(keys, "arrowup"),
            Held(keys, "s") || Held(keys, "arrowdown"),
            Held(keys, "a") || Held(keys, "arrowleft"),
            Held(keys, "d") || Held(keys, "arrowright"),
            Held(keys, "q") || Held(keys, " "),
            Held(keys, "e") || Held(keys, "shift"))
  }

  const Zero: Vec3 := Vec3(0.0, 0.0, 0.0)
  const WorldUp: Vec3 := Vec3(0.0, 1.0, 0.0)

  /**
   * What a pair of opposite actions moves by: `k·v` when only `plus` is on, `-k·v` when only
   * `minus` is, and nothing when both or neither are.
   */
  function Along(v: Vec3, k: real, plus: bool, minus: bool): (r: Vec3)
    ensures plus == minus ==> r == Zero
  {
    if plus == minus then Zero else if plus then Scale(v, k) else Scale(v, -k)
  }

  /**
   * The displacement of one frame before the clamp: along the view direction for forward
   * and back, along `right` (which the frame computes as `direction × up`) for right and
   * left, and along the world vertical for up and down.
   */
  function Displacement(direction: Vec3, right: Vec3, speed: real, a: Actions): Vec3
  {
    var h := Add(Along(direction, speed, a.forward, a.back), Along(right, speed, a.right, a.left));
    h.(y := h.y + Along(WorldUp, speed, a.up, a.down).y)
  }

  /** The ground and ceiling guard: raise to 0.1, then lower to 8.0. */
  function ClampY(y: real): (r: real)
    ensures MinY <= r <= MaxY
    ensures MinY <= y <= MaxY ==> r == y
    ensures y < MinY ==> r == MinY
    ensures y > MaxY ==> r == MaxY
  {
    var raised := if y < MinY then MinY else y;
    if raised > MaxY then MaxY else raised
  }

  /** Where one frame leaves the camera. */
  function NextPosition(position: Vec3, direction: Vec3, right: Vec3, speed: real, a: Actions): Vec3
  {
    var moved := Add(position, Displacement(direction, right, speed, a));
    moved.(y := ClampY(moved.y))
  }

  /** After every frame the camera height is within [0.1, 8.0]. */
  lemma YBounded(position: Vec3, direction: Vec3, right: Vec3, speed: real, a: Actions)
    ensures MinY <= NextPosition(position, direction, right, speed, a).y <= MaxY
  {
    var moved := Add(position, Displacement(direction, right, speed, a));
    assert NextPosition(position, direction, right, speed, a).y == ClampY(moved.y);
  }

  /** With no action on and the height already in the band, the camera stays put. */
  lemma IdleUnchanged(position: Vec3, direction: Vec3, right: Vec3, speed: real)
    requires MinY <= position.y <= MaxY
    ensures NextPosition(position, direction, right, speed, Idle) == position
  {
    assert Displacement(direction, right, speed, Idle) == Zero;
  }

  /** Forward alone moves by `speed·direction`, back alone by `-speed·direction`. */
  lemma ForwardOrBack(direction: Vec3, right: Vec3, speed: real)
    ensures Displacement(direction, right, speed, Idle.(forward := true)) == Scale(direction, speed)
    ensures Displacement(direction, right, speed, Idle.(back := true)) == Scale(direction, -speed)
  {
  }

  /** Right alone moves by `speed·right`, left alone by `-speed·right`. */
  lemma RightOrLeft(direction: Vec3, right: Vec3, speed: real)
    ensures Displacement(direction, right, speed, Idle.(right := true)) == Scale(right, speed)
    ensures Displacement(direction, right, speed, Idle.(left := true)) == Scale(right, -speed)
  {
  }

  /** Up and down change only the height, by `+speed` and `-speed`. */
  lemma VerticalOnlyY(direction: Vec3, right: Vec3, speed: real)
    ensures Displacement(direction, right, speed, Idle.(up := true)) == Vec3(0.0, speed, 0.0)
    ensures Displacement(direction, right, speed, Idle.(down := true)) == Vec3(0.0, -speed, 0.0)
  {
  }

  /** Holding both actions of an opposite pair nets zero: the frame is as if neither were on. */
  lemma OppositesCancel(direction: Vec3, right: Vec3, speed: real, a: Actions)
    ensures Displacement(direction, right, speed, a.(forward := true, back := true))
         == Displacement(direction, right, speed, a.(forward := false, back := false))
    ensures Displacement(direction, right, speed, a.(left := true, right := true))
         == Displacement(direction, right, speed, a.(left := false, right := false))
    ensures Displacement(direction, right, speed, a.(up := true, down := true))
         == Displacement(direction, right, speed, a.(up := false, down := false))
  {
  }

  /** Holding the second key of an action whose first key is held changes nothing: it applies once. */
  lemma EachActionOnce(keys: KeyMap)
    ensures Held(keys, "w") ==> ActionsOf(keys["arrowup" := true]) == ActionsOf(keys)
    ensures Held(keys, "s") ==> ActionsOf(keys["arrowdown" := true]) == ActionsOf(keys)
    ensures Held(keys, "a") ==> ActionsOf(keys["arrowleft" := true]) == ActionsOf(keys)
    ensures Held(keys, "d") ==> ActionsOf(keys["arrowright" := true]) == ActionsOf(keys)
    ensures Held(keys, "q") ==> ActionsOf(keys[" " := true]) == ActionsOf(keys)
    ensures Held(keys, "e") ==> ActionsOf(keys["shift" := true]) == ActionsOf(keys)
  {
  }

  /** Shifted and unshifted letters drive the same action: "W" and "w" both start moving forward. */
  lemma CaseInsensitive(keys: KeyMap, key: string)
    ensures AfterKeyDown(keys, key) == AfterKeyDown(keys, ToLower(key))
    ensures AfterKeyUp(keys, key) == AfterKeyUp(keys, ToLower(key))
    ensures ActionsOf(AfterKeyDown(keys, "W")).forward
  {
    ToLowerIdempotent(key);
    assert ToLower("W") == "w";
  }

  /** A keydown followed by a keyup of the same key leaves the key released, whatever it was before. */
  lemma PressThenRelease(keys: KeyMap, key: string)
    ensures AfterKeyUp(AfterKeyDown(keys, key), key) == keys[ToLower(key) := false]
  {
  }

  /** The camera rig: the key dictionary and the camera position, both updated in place. */
  class FloatingCameraControls {
    const speed: real
    var keys: KeyMap
    var position: Vec3

    constructor (speed: real, position: Vec3)
      ensures this.speed == speed && this.position == position && keys == map[]
    {
      this.speed := speed;
      this.position := position;
      keys := map[];
    }

    method HandleKeyDown(key: string)
      modifies this
      ensures keys == AfterKeyDown(old(keys), key) && position == old(position)
    {
      keys := keys[ToLower(key) := true];
    }

    method HandleKeyUp(key: string)
      modifies this
      ensures keys == AfterKeyUp(old(keys), key) && position == old(position)
    {
      keys := keys[ToLower(key) := false];
    }

    /**
     * One `useFrame` tick. `direction` is `camera.getWorldDirection()` and `up` is `camera.up`,
     * both inputs here. The six key tests are read once into `a` (no handler runs within a
     * frame); the six moves are applied one after the other, then the clamp.
     */
    method Frame(direction: Vec3, up: Vec3)
      modifies this
      ensures position == StepByStep(old(position), direction, Cross(direction, up), speed, ActionsOf(keys))
      ensures MinY <= position.y <= MaxY
      ensures keys == old(keys)
    {
      ghost var start := position;
      var right := Cross(direction, up);
      var a := ActionsOf(keys);
      if a.forward {
        position := AddScaled(position, direction, speed);
      }
      if a.back {
        position := AddScaled(position, direction, -speed);
      }
      if a.left {
        position := AddScaled(position, right, -speed);
      }
      if a.right {
        position := AddScaled(position, right, speed);
      }
      if a.up {
        position := position.(y := position.y + speed);
      }
      if a.down {
        position := position.(y := position.y - speed);
      }
      if position.y < MinY {
        position := position.(y := MinY);
      }
      if position.y > MaxY {
        position := position.(y := MaxY);
      }
      assert position == StepByStep(start, direction, right, speed, a);
    }
  }

  function MoveIf(p: Vec3, on: bool, v: Vec3, k: real): Vec3
  {
    if on then AddScaled(p, v, k) else p
  }

  function RiseIf(p: Vec3, on: bool, k: real): Vec3
  {
    if on then p.(y := p.y + k) else p
  }

  /** A frame as the source performs it: six conditional moves in order, then the two guards. */
  function StepByStep(position: Vec3, direction: Vec3, right: Vec3, speed: real, a: Actions): Vec3
  {
    var p1 := MoveIf(MoveIf(position, a.forward, direction, speed), a.back, direction, -speed);
    var p2 := MoveIf(MoveIf(p1, a.left, right, -speed), a.right, right, speed);
    var p3 := RiseIf(RiseIf(p2, a.up, speed), a.down, -speed);
    var p4 := if p3.y < MinY then p3.(y := MinY) else p3;
    if p4.y > MaxY then p4.(y := MaxY) else p4
  }

  /** The sequential moves of a frame amount to the single displacement of `NextPosition`. */
  lemma StepByStepIsNext(position: Vec3, direction: Vec3, right: Vec3, speed: real, a: Actions)
    ensures StepByStep(position, direction, right, speed, a) == NextPosition(position, direction, right, speed, a)
  {
    var p1 := MoveIf(MoveIf(position, a.forward, direction, speed), a.back, direction, -speed);
    PairSteps(position, direction, speed, a.forward, a.back);
    PairSteps(p1, right, speed, a.right, a.left);
  }

  /** Two opposite conditional moves along `v`, in either order, add up to `Along`. */
  lemma PairSteps(p: Vec3, v: Vec3, k: real, plus: bool, minus: bool)
    ensures MoveIf(MoveIf(p, plus, v, k), minus, v, -k) == Add(p, Along(v, k, plus, minus))
    ensures MoveIf(MoveIf(p, minus, v, -k), plus, v, k) == Add(p, Along(v, k, plus, minus))
  {
  }
}
