/** The first-person camera (Camera.h, Camera.cpp): its state, the
    constructor, the keyboard step `Inputs` and the mouse-look update
    `MouseCallback`. Trigonometry and vector normalisation are opaque
    function parameters; the GLFW window is replaced by the key states and
    cursor positions it would report. */
module Camera {
  import opened Vectors

  /** Pitch is clamped to [-PitchLimit, PitchLimit] degrees. */
  const PitchLimit: real := 89.0
  /** Holding Shift multiplies the step by this factor. */
  const SprintFactor: real := 4.0

  datatype CameraState = CameraState(
    position: Vec3,
    orientation: Vec3,
    up: Vec3,
    firstClick: bool,
    width: int,
    height: int,
    speed: real,
    sensitivity: real,
    fovDeg: real,
    nearPlane: real,
    farPlane: real,
    lastX: real,
    lastY: real,
    yaw: real,
    pitch: real)

  /** The pitch invariant every reachable camera keeps. */
  predicate PitchInRange(c: CameraState) {
    -PitchLimit <= c.pitch <= PitchLimit
  }

  /** Camera::Camera together with the member initialisers of Camera.h. */
  function NewCamera(width: int, height: int, position: Vec3): (c: CameraState)
    ensures c.position == position && c.width == width && c.height == height
    ensures c.lastX == width as real / 2.0 && c.lastY == height as real / 2.0
    ensures c.firstClick
    ensures PitchInRange(c)
  {
    CameraState(
      position := position,
      orientation := Vec3(0.0, 0.0, -1.0),
      up := Vec3(0.0, 1.0, 0.0),
      firstClick := true,
      width := width,
      height := height,
      speed := 2.5,
      sensitivity := 100.0,
      fovDeg := 45.0,
      nearPlane := 0.1,
      farPlane := 100.0,
      lastX := width as real / 2.0,
      lastY := height as real / 2.0,
      yaw := -90.0,
      pitch := 0.0)
  }

  // -----------------------------------------------------------------------
  // Keyboard

  /** Which of the polled keys are held this frame. */
  datatype Keys = Keys(w: bool, s: bool, a: bool, d: bool, space: bool, ctrl: bool, shift: bool)

  /** 1 for a held key, 0 otherwise. */
  function Held(k: bool): real {
    if k then 1.0 else 0.0
  }

  /** Distance moved along an axis per held key this frame. */
  function StepLength(c: CameraState, dt: real, shift: bool): real {
    c.speed * dt * (if shift then SprintFactor else 1.0)
  }

  /** Move p by k along dir if `plus` is held, then by k against dir if
      `minus` is held. */
  function PlusThenMinus(p: Vec3, dir: Vec3, k: real, plus: bool, minus: bool): (q: Vec3)
    ensures q == p.Plus(dir.Times(k * Axis(plus, minus)))
  {
    var p1 := if plus then p.Plus(dir.Times(k)) else p;
    if minus then p1.Minus(dir.Times(k)) else p1
  }

  /** Move p by k against dir if `minus` is held, then by k along dir if
      `plus` is held. */
  function MinusThenPlus(p: Vec3, dir: Vec3, k: real, plus: bool, minus: bool): (q: Vec3)
    ensures q == p.Plus(dir.Times(k * Axis(plus, minus)))
  {
    var p1 := if minus then p.Minus(dir.Times(k)) else p;
    if plus then p1.Plus(dir.Times(k)) else p1
  }

  /** +1 when only `plus` is held, -1 when only `minus` is held, 0 when
      both or neither are. */
  function Axis(plus: bool, minus: bool): real {
    Held(plus) - Held(minus)
  }

  /** The position reached from p by moving k * a along u, then k * b
      along v, then k * e along w. */
  function Travel(p: Vec3, u: Vec3, v: Vec3, w: Vec3, k: real, a: real, b: real, e: real): Vec3 {
    p.Plus(u.Times(k * a)).Plus(v.Times(k * b)).Plus(w.Times(k * e))
  }

  /** The position reached from p by moving k along `front` per held W
      (back per held S), along `right` per held D (back per held A) and
      along `up` per held Space (down per held Ctrl). */
  function Move(p: Vec3, front: Vec3, right: Vec3, up: Vec3, k: real, keys: Keys): Vec3 {
    Travel(p, front, right, up, k, Axis(keys.w, keys.s), Axis(keys.d, keys.a), Axis(keys.space, keys.ctrl))
  }

  /** The position after the six key checks of Camera::Inputs, in the
      order W, S, A, D, Space, Ctrl: W and S move along `front`, A and D
      along `right`, Space and Ctrl along `up`. */
  function KeyMoves(p: Vec3, front: Vec3, right: Vec3, up: Vec3, k: real,
                    w: bool, s: bool, a: bool, d: bool, space: bool, ctrl: bool): (q: Vec3)
    ensures q == Travel(p, front, right, up, k, Axis(w, s), Axis(d, a), Axis(space, ctrl))
  {
    var p2 := PlusThenMinus(p, front, k, w, s);
    var p4 := MinusThenPlus(p2, right, k, d, a);
    PlusThenMinus(p4, up, k, space, ctrl)
  }

  /** Camera::Inputs. `strafe(orientation, up)` stands for
      normalize(cross(orientation, up)). Each held key moves the camera by
      one step along its axis. */
  function Inputs(c: CameraState, dt: real, keys: Keys, strafe: (Vec3, Vec3) -> Vec3): (r: CameraState)
    ensures r == c.(position := r.position)
    ensures r.position == Move(c.position, c.orientation, strafe(c.orientation, c.up), c.up,
                               StepLength(c, dt, keys.shift), keys)
  {
    var currentSpeed := StepLength(c, dt, keys.shift);
    var position := KeyMoves(c.position, c.orientation, strafe(c.orientation, c.up), c.up, currentSpeed,
                             keys.w, keys.s, keys.a, keys.d, keys.space, keys.ctrl);
    c.(position := position)
  }

  /** How far Inputs moves the camera. */
  function Displacement(c: CameraState, dt: real, keys: Keys, strafe: (Vec3, Vec3) -> Vec3): Vec3 {
    Inputs(c, dt, keys, strafe).position.Minus(c.position)
  }

  /** Holding a key together with its opposite moves the camera along
      that axis exactly as holding neither. */
  lemma OpposingPairCancels(p: Vec3, dir: Vec3, k: real)
    ensures PlusThenMinus(p, dir, k, true, true) == PlusThenMinus(p, dir, k, false, false)
    ensures MinusThenPlus(p, dir, k, true, true) == MinusThenPlus(p, dir, k, false, false)
  {
  }

  /** Holding W and S together, A and D together, or Space and Ctrl
      together moves the camera exactly as holding neither. */
  lemma OpposingKeysCancel(c: CameraState, dt: real, keys: Keys, strafe: (Vec3, Vec3) -> Vec3)
    ensures Inputs(c, dt, keys.(w := true, s := true), strafe)
         == Inputs(c, dt, keys.(w := false, s := false), strafe)
    ensures Inputs(c, dt, keys.(a := true, d := true), strafe)
         == Inputs(c, dt, keys.(a := false, d := false), strafe)
    ensures Inputs(c, dt, keys.(space := true, ctrl := true), strafe)
         == Inputs(c, dt, keys.(space := false, ctrl := false), strafe)
  {
    var k := StepLength(c, dt, keys.shift);
    var right := strafe(c.orientation, c.up);
    OpposingPairCancels(c.position, c.orientation, k);
    var p2 := PlusThenMinus(c.position, c.orientation, k, keys.w, keys.s);
    OpposingPairCancels(p2, right, k);
    var p4 := MinusThenPlus(p2, right, k, keys.d, keys.a);
    OpposingPairCancels(p4, c.up, k);
  }

  /** With no key held the camera does not move. */
  lemma NoKeysNoMove(c: CameraState, dt: real, shift: bool, strafe: (Vec3, Vec3) -> Vec3)
    ensures Inputs(c, dt, Keys(false, false, false, false, false, false, shift), strafe) == c
  {
  }

  /** Shift makes every move exactly four times as long. */
  lemma ShiftMovesFourTimesFarther(c: CameraState, dt: real, keys: Keys, strafe: (Vec3, Vec3) -> Vec3)
    ensures Displacement(c, dt, keys.(shift := true), strafe)
         == Displacement(c, dt, keys.(shift := false), strafe).Times(SprintFactor)
  {
    var k := StepLength(c, dt, false);
    var right := strafe(c.orientation, c.up);
    assert StepLength(c, dt, true) == k * SprintFactor;
    MoveIgnoresShift(c.position, c.orientation, right, c.up, k * SprintFactor, keys);
    MoveIgnoresShift(c.position, c.orientation, right, c.up, k, keys);
    MoveScales(c.position, c.orientation, right, c.up, k, keys);
  }

  /** Move reads only the six direction keys. */
  lemma MoveIgnoresShift(p: Vec3, front: Vec3, right: Vec3, up: Vec3, k: real, keys: Keys)
    ensures Move(p, front, right, up, k, keys.(shift := true)) == Move(p, front, right, up, k, keys)
    ensures Move(p, front, right, up, k, keys.(shift := false)) == Move(p, front, right, up, k, keys)
  {
  }

  /** Scaling the step by the sprint factor scales the displacement. */
  lemma MoveScales(p: Vec3, front: Vec3, right: Vec3, up: Vec3, k: real, keys: Keys)
    ensures Move(p, front, right, up, k * SprintFactor, keys).Minus(p)
         == Move(p, front, right, up, k, keys).Minus(p).Times(SprintFactor)
  {
    TravelScales(p, front, right, up, k, Axis(keys.w, keys.s), Axis(keys.d, keys.a), Axis(keys.space, keys.ctrl));
  }

  /** Travel with every coefficient scaled by the sprint factor covers the
      sprint factor times the distance. */
  lemma TravelScales(p: Vec3, u: Vec3, v: Vec3, w: Vec3, k: real, a: real, b: real, e: real)
    ensures Travel(p, u, v, w, k * SprintFactor, a, b, e).Minus(p)
         == Travel(p, u, v, w, k, a, b, e).Minus(p).Times(SprintFactor)
  {
    SumScales(p.x, u.x, v.x, w.x, k, SprintFactor, a, b, e);
    SumScales(p.y, u.y, v.y, w.y, k, SprintFactor, a, b, e);
    SumScales(p.z, u.z, v.z, w.z, k, SprintFactor, a, b, e);
  }

  /** One component of TravelScales, for any factor m. */
  lemma SumScales(p: real, u: real, v: real, w: real, k: real, m: real, a: real, b: real, e: real)
    ensures p + u * (k * m * a) + v * (k * m * b) + w * (k * m * e) - p
         == (p + u * (k * a) + v * (k * b) + w * (k * e) - p) * m
  {
    assert u * (k * m * a) == u * (k * a) * m;
    assert v * (k * m * b) == v * (k * b) * m;
    assert w * (k * m * e) == w * (k * e) * m;
  }

  // -----------------------------------------------------------------------
  // Mouse look

  /** The cursor position the offsets are measured from: on the first
      event it is the event's own position. */
  function PreviousX(c: CameraState, xpos: real): real {
    if c.firstClick then xpos else c.lastX
  }

  function PreviousY(c: CameraState, ypos: real): real {
    if c.firstClick then ypos else c.lastY
  }

  /** A pitch clamped to the pitch limits, as the two checks of
      MouseCallback do. */
  function ClampPitch(p: real): (q: real)
    ensures -PitchLimit <= q <= PitchLimit
    ensures -PitchLimit <= p <= PitchLimit ==> q == p
    ensures p > PitchLimit ==> q == PitchLimit
    ensures p < -PitchLimit ==> q == -PitchLimit
  {
    var q := if p > PitchLimit then PitchLimit else p;
    if q < -PitchLimit then -PitchLimit else q
  }

  /** A cursor offset turned into degrees: `offset * (sensitivity / 1000)`. */
  function Degrees(offset: real, sensitivity: real): real {
    offset * (sensitivity / 1000.0)
  }

  /** Degrees is linear in the offset. */
  lemma DegreesAdd(a: real, b: real, sensitivity: real)
    ensures Degrees(a, sensitivity) + Degrees(b, sensitivity) == Degrees(a + b, sensitivity)
    ensures Degrees(0.0, sensitivity) == 0.0
  {
  }

  /** Camera::MouseCallback. `front(yaw, pitch)` stands for the normalised
      direction computed from the two angles with cos and sin. */
  function MouseCallback(c: CameraState, xpos: real, ypos: real, front: (real, real) -> Vec3): (r: CameraState)
    ensures r.lastX == xpos && r.lastY == ypos && !r.firstClick
    ensures PitchInRange(r)
    ensures r.yaw == c.yaw + Degrees(xpos - PreviousX(c, xpos), c.sensitivity)
    ensures r.pitch == ClampPitch(c.pitch + Degrees(PreviousY(c, ypos) - ypos, c.sensitivity))
    ensures r.orientation == front(r.yaw, r.pitch)
    ensures r == c.(firstClick := false, lastX := xpos, lastY := ypos,
                    yaw := r.yaw, pitch := r.pitch, orientation := r.orientation)
  {
    var lastX := PreviousX(c, xpos);
    var lastY := PreviousY(c, ypos);
    var yaw := c.yaw + Degrees(xpos - lastX, c.sensitivity);
    var pitch := ClampPitch(c.pitch + Degrees(lastY - ypos, c.sensitivity));
    c.(firstClick := false, lastX := xpos, lastY := ypos,
       yaw := yaw, pitch := pitch, orientation := front(yaw, pitch))
  }

  /** The first mouse event only records the cursor: yaw and pitch do not
      jump, wherever the cursor is. */
  lemma FirstEventKeepsView(c: CameraState, xpos: real, ypos: real, front: (real, real) -> Vec3)
    requires c.firstClick && PitchInRange(c)
    ensures MouseCallback(c, xpos, ypos, front).yaw == c.yaw
    ensures MouseCallback(c, xpos, ypos, front).pitch == c.pitch
  {
    assert xpos - PreviousX(c, xpos) == 0.0 && PreviousY(c, ypos) - ypos == 0.0;
    DegreesAdd(0.0, 0.0, c.sensitivity);
  }

  /** A second event at the same cursor position changes nothing at all. */
  lemma RepeatedEventIsIdempotent(c: CameraState, xpos: real, ypos: real, front: (real, real) -> Vec3)
    ensures var c1 := MouseCallback(c, xpos, ypos, front);
      MouseCallback(c1, xpos, ypos, front) == c1
  {
    var c1 := MouseCallback(c, xpos, ypos, front);
    assert xpos - PreviousX(c1, xpos) == 0.0 && PreviousY(c1, ypos) - ypos == 0.0;
    DegreesAdd(0.0, 0.0, c1.sensitivity);
    assert ClampPitch(c1.pitch + 0.0) == c1.pitch;
    var c2 := MouseCallback(c1, xpos, ypos, front);
    assert c2.yaw == c1.yaw && c2.pitch == c1.pitch;
  }

  /** The y axis is inverted: moving the cursor up the screen (smaller
      ypos) raises the pitch, unless it is already at the upper limit. */
  lemma CursorUpLooksUp(c: CameraState, xpos: real, ypos: real, front: (real, real) -> Vec3)
    requires !c.firstClick && PitchInRange(c) && c.pitch < PitchLimit
    requires ypos < c.lastY && c.sensitivity > 0.0
    ensures MouseCallback(c, xpos, ypos, front).pitch > c.pitch
  {
    assert Degrees(c.lastY - ypos, c.sensitivity) > 0.0;
  }

  /** The camera after a sequence of mouse events. */
  function MouseEvents(c: CameraState, events: seq<(real, real)>, front: (real, real) -> Vec3): (r: CameraState)
    ensures |events| > 0 ==> r.lastX == events[|events| - 1].0 && !r.firstClick
    ensures PitchInRange(c) ==> PitchInRange(r)
    ensures r.sensitivity == c.sensitivity
    decreases |events|
  {
    if |events| == 0 then c
    else MouseEvents(MouseCallback(c, events[0].0, events[0].1, front), events[1..], front)
  }

  /** Yaw is never clamped, so over any sequence of events it moves by the
      total horizontal cursor travel times the sensitivity: the offsets
      telescope. */
  lemma {:induction false} YawTelescopes(c: CameraState, events: seq<(real, real)>, front: (real, real) -> Vec3)
    requires |events| > 0
    ensures MouseEvents(c, events, front).yaw
         == c.yaw + Degrees(events[|events| - 1].0 - PreviousX(c, events[0].0), c.sensitivity)
    decreases |events|
  {
    var c1 := MouseCallback(c, events[0].0, events[0].1, front);
    assert MouseEvents(c, events, front) == MouseEvents(c1, events[1..], front);
    if |events| == 1 {
      assert MouseEvents(c1, events[1..], front) == c1;
    } else {
      YawTelescopes(c1, events[1..], front);
      assert events[1..][|events[1..]| - 1] == events[|events| - 1];
      assert PreviousX(c1, events[1].0) == events[0].0;
      var x0, x1, xn := PreviousX(c, events[0].0), events[0].0, events[|events| - 1].0;
      DegreesAdd(x1 - x0, xn - x1, c.sensitivity);
      assert (x1 - x0) + (xn - x1) == xn - x0;
    }
  }
}
