/** The editor camera's mouse controls: pan, orbit and zoom speeds, the
    distance floor, Alt-gated mouse handling with its button precedence, and
    scroll zoom. Floats are `real`. The up, right and forward directions come
    from the orientation quaternion, which is not modelled: `Orient` gives
    them for a pitch and yaw. */
module EditorCamera {
  import opened Wrappers
  import Events
  import opened Vectors

  /** The camera's up, right and forward directions. */
  datatype Frame = Frame(up: Vec3, right: Vec3, forward: Vec3)

  /** The directions for a pitch and a yaw. */
  type Orient = (real, real) -> Frame

  /** `aspect` is `None` after a zero viewport height. */
  datatype Camera = Camera(
    fov: real,
    aspect: Option<real>,
    nearClip: real,
    farClip: real,
    position: Vec3,
    focalPoint: Vec3,
    initialMouse: Vec2,
    distance: real,
    pitch: real,
    yaw: real,
    viewportWidth: real,
    viewportHeight: real)

  /** The mouse and keyboard state `onUpdate` polls. */
  datatype Input = Input(leftAlt: bool, mouse: Vec2, middle: bool, left: bool, right: bool)

  const ROTATION_SPEED: real := 0.8
  const MAX_ZOOM_SPEED: real := 100.0
  const MIN_DISTANCE: real := 1.0
  const MOUSE_SCALE: real := 0.003
  const SCROLL_SCALE: real := 0.1
  const MAX_PAN_X: real := 2.4

  /** `updateView`: the eye sits `distance` behind the focal point. */
  function UpdateView(c: Camera, orient: Orient): (c': Camera)
    ensures c' == c.(position := c'.position)
    ensures Add(c'.position, Scale(orient(c.pitch, c.yaw).forward, c.distance)) == c.focalPoint
  {
    c.(position := Add(c.focalPoint, Scale(orient(c.pitch, c.yaw).forward, -c.distance)))
  }

  /** A new camera with the given projection (distance 10, a 1280 × 720
      viewport) after the constructor's `updateView`. */
  function NewCamera(fov: real, aspect: real, nearClip: real, farClip: real, orient: Orient): (c: Camera)
    ensures c.distance == 10.0 && c.pitch == 0.0 && c.yaw == 0.0
    ensures c.focalPoint == Vec3(0.0, 0.0, 0.0) && c.aspect == Some(aspect)
    ensures c.viewportWidth == 1280.0 && c.viewportHeight == 720.0
  {
    UpdateView(Camera(fov, Some(aspect), nearClip, farClip, Vec3(0.0, 0.0, 0.0), Vec3(0.0, 0.0, 0.0),
                      Vec2(0.0, 0.0), 10.0, 0.0, 0.0, 1280.0, 720.0), orient)
  }

  /** `setViewportSize` with `updateProjection`: the aspect ratio is width /
      height. */
  function SetViewportSize(c: Camera, width: real, height: real): (c': Camera)
    ensures c'.viewportWidth == width && c'.viewportHeight == height
    ensures height != 0.0 ==> c'.aspect.Some? && c'.aspect.value * height == width
    ensures height == 0.0 ==> c'.aspect.None?
    ensures c' == c.(viewportWidth := width, viewportHeight := height, aspect := c'.aspect)
  {
    c.(viewportWidth := width, viewportHeight := height,
       aspect := if height == 0.0 then None else Some(width / height))
  }

  /** One pan factor: a quadratic in the viewport size in thousands of
      pixels, capped at 2.4. */
  function PanFactor(size: real): real {
    var x := if size / 1000.0 < MAX_PAN_X then size / 1000.0 else MAX_PAN_X;
    0.0366 * (x * x) - 0.1778 * x + 0.3021
  }

  /** `panSpeed`: the factors for width and height. */
  function PanSpeed(c: Camera): (r: (real, real))
    ensures r.0 == PanFactor(c.viewportWidth) && r.1 == PanFactor(c.viewportHeight)
  {
    (PanFactor(c.viewportWidth), PanFactor(c.viewportHeight))
  }

  /** The quadratic stays above 0.085, so panning never stops or reverses.
      Below the cap it only falls as the viewport grows (its lowest point is
      just past the cap), so for a non-negative size it is at most its value
      at zero. */
  lemma PanFactorBounds(size: real, other: real)
    ensures 0.085 < PanFactor(size)
    ensures 0.0 <= size ==> PanFactor(size) <= 0.3021
    ensures 0.0 <= size <= other ==> PanFactor(other) <= PanFactor(size)
  {
    var x := if size / 1000.0 < MAX_PAN_X then size / 1000.0 else MAX_PAN_X;
    var y := if other / 1000.0 < MAX_PAN_X then other / 1000.0 else MAX_PAN_X;
    if x >= 0.0 {
      var m := x - 2.43;
      assert PanFactor(size) == 0.0366 * (m * m) + 0.000076 * x + 0.08598066;
      assert m * m >= 0.0;
    }
    assert PanFactor(other) - PanFactor(size) == (y - x) * (0.0366 * (x + y) - 0.1778);
    if 0.0 <= size <= other {
      assert 0.0 <= x <= y <= MAX_PAN_X;
      assert 0.0366 * (x + y) - 0.1778 < 0.0;
    }
    if 0.0 <= size {
      assert PanFactor(size) - 0.3021 == x * (0.0366 * x - 0.1778);
      MulSigns(x, 0.1778 - 0.0366 * x);
    }
  }

  lemma MulSigns(a: real, b: real)
    requires a >= 0.0 && b >= 0.0
    ensures a * b >= 0.0 && a * -b <= 0.0
  {
  }

  /** `rotationSpeed`. */
  function RotationSpeed(): real {
    ROTATION_SPEED
  }

  /** `zoomSpeed`: the square of a fifth of the distance (none for a
      negative distance), capped at 100. */
  function ZoomSpeed(distance: real): (r: real)
    ensures 0.0 <= r <= MAX_ZOOM_SPEED
    ensures distance <= 0.0 ==> r == 0.0
    ensures 0.0 <= distance <= 50.0 ==> r == (0.2 * distance) * (0.2 * distance)
    ensures distance >= 50.0 ==> r == MAX_ZOOM_SPEED
  {
    var d := distance * 0.2;
    var d' := if d > 0.0 then d else 0.0;
    var sp := d' * d';
    if sp < MAX_ZOOM_SPEED then sp else MAX_ZOOM_SPEED
  }

  /** Zooming is faster the farther out the camera is. */
  lemma ZoomSpeedMonotone(d1: real, d2: real)
    requires d1 <= d2
    ensures ZoomSpeed(d1) <= ZoomSpeed(d2)
  {
    if 0.0 <= d1 <= 50.0 && d2 <= 50.0 {
      assert (0.2 * d2) * (0.2 * d2) - (0.2 * d1) * (0.2 * d1) == 0.04 * ((d2 - d1) * (d2 + d1));
      MulSigns(d2 - d1, d2 + d1);
    }
  }

  /** `mouseZoom`: move in by `delta` times the zoom speed; closer than 1,
      the focal point steps forward and the distance is reset to 1. */
  function MouseZoom(c: Camera, delta: real, orient: Orient): (c': Camera)
    ensures c'.distance >= MIN_DISTANCE
    ensures c.distance - delta * ZoomSpeed(c.distance) >= MIN_DISTANCE ==>
      c' == c.(distance := c.distance - delta * ZoomSpeed(c.distance))
    ensures c.distance - delta * ZoomSpeed(c.distance) < MIN_DISTANCE ==>
      c' == c.(distance := MIN_DISTANCE, focalPoint := Add(c.focalPoint, orient(c.pitch, c.yaw).forward))
  {
    var d := c.distance - delta * ZoomSpeed(c.distance);
    if d < MIN_DISTANCE then
      c.(focalPoint := Add(c.focalPoint, orient(c.pitch, c.yaw).forward), distance := MIN_DISTANCE)
    else c.(distance := d)
  }

  /** Zooming in never takes the camera farther out, and zooming out from
      at least the floor never brings it closer. */
  lemma MouseZoomDirection(c: Camera, delta: real, orient: Orient)
    ensures delta >= 0.0 && c.distance >= MIN_DISTANCE ==> MouseZoom(c, delta, orient).distance <= c.distance
    ensures delta <= 0.0 && c.distance >= MIN_DISTANCE ==> MouseZoom(c, delta, orient).distance >= c.distance
  {
    var z := ZoomSpeed(c.distance);
    var d := c.distance - delta * z;
    SignOfProduct(delta, z);
    if d < MIN_DISTANCE {
      assert MouseZoom(c, delta, orient).distance == MIN_DISTANCE;
    } else {
      assert MouseZoom(c, delta, orient).distance == d;
    }
  }

  lemma SignOfProduct(a: real, b: real)
    requires b >= 0.0
    ensures a >= 0.0 ==> a * b >= 0.0
    ensures a <= 0.0 ==> a * b <= 0.0
  {
  }

  /** The focal point after a pan of `delta` with directions `f`, pan
      factors `speed` and distance `d`. */
  function Panned(p: Vec3, f: Frame, speed: (real, real), delta: Vec2, d: real): Vec3 {
    Add(Add(p, Scale(Scale(f.right, -1.0), delta.x * speed.0 * d)), Scale(f.up, delta.y * speed.1 * d))
  }

  /** `mousePan`: the focal point moves against the right direction and along
      the up direction, scaled by the pan factors and the distance. */
  function MousePan(c: Camera, delta: Vec2, orient: Orient): (c': Camera)
    ensures c' == c.(focalPoint := c'.focalPoint)
  {
    c.(focalPoint := Panned(c.focalPoint, orient(c.pitch, c.yaw), PanSpeed(c), delta, c.distance))
  }

  /** A pan with no mouse movement leaves the focal point where it was. */
  lemma StillPanKeepsFocus(c: Camera, orient: Orient)
    ensures MousePan(c, Vec2(0.0, 0.0), orient) == c
  {
    var f := orient(c.pitch, c.yaw);
    assert Scale(Scale(f.right, -1.0), 0.0 * PanSpeed(c).0 * c.distance) == Vec3(0.0, 0.0, 0.0);
    assert Scale(f.up, 0.0 * PanSpeed(c).1 * c.distance) == Vec3(0.0, 0.0, 0.0);
  }

  /** Panning keeps distance, angles and viewport, so moving the mouse back
      by the same amount brings the focal point back. */
  lemma PanBack(c: Camera, delta: Vec2, orient: Orient)
    ensures MousePan(MousePan(c, delta, orient), Vec2(-delta.x, -delta.y), orient) == c
  {
    PannedBack(c.focalPoint, orient(c.pitch, c.yaw), PanSpeed(c), delta, c.distance);
  }

  /** Two pans in opposite directions cancel. */
  lemma PannedBack(p: Vec3, f: Frame, speed: (real, real), delta: Vec2, d: real)
    ensures Panned(Panned(p, f, speed, delta, d), f, speed, Vec2(-delta.x, -delta.y), d) == p
  {
    var a := delta.x * speed.0 * d;
    var b := delta.y * speed.1 * d;
    assert -delta.x * speed.0 * d == -a && -delta.y * speed.1 * d == -b;
  }

  /** `mouseRotate`: pitch follows the vertical movement; yaw follows the
      horizontal movement, reversed when the camera is upside down. */
  function MouseRotate(c: Camera, delta: Vec2, orient: Orient): (c': Camera)
    ensures c'.pitch == c.pitch + delta.y * ROTATION_SPEED
    ensures orient(c.pitch, c.yaw).up.y < 0.0 ==> c'.yaw == c.yaw - delta.x * ROTATION_SPEED
    ensures orient(c.pitch, c.yaw).up.y >= 0.0 ==> c'.yaw == c.yaw + delta.x * ROTATION_SPEED
    ensures c' == c.(pitch := c'.pitch, yaw := c'.yaw)
  {
    var yawSign := if orient(c.pitch, c.yaw).up.y < 0.0 then -1.0 else 1.0;
    c.(yaw := c.yaw + yawSign * delta.x * RotationSpeed(), pitch := c.pitch + delta.y * RotationSpeed())
  }

  /** Moving the mouse back undoes a rotation, as long as the camera is the
      same way up at both ends. */
  lemma RotateBack(c: Camera, delta: Vec2, orient: Orient)
    requires var c1 := MouseRotate(c, delta, orient);
      (orient(c.pitch, c.yaw).up.y < 0.0) == (orient(c1.pitch, c1.yaw).up.y < 0.0)
    ensures MouseRotate(MouseRotate(c, delta, orient), Vec2(-delta.x, -delta.y), orient) == c
  {
  }

  /** `onUpdate`: while Left Alt is held the mouse movement since last time,
      scaled by 0.003, pans with the middle button, else rotates with the
      left, else zooms with the right; the view is then brought up to date. */
  function OnUpdate(c: Camera, input: Input, orient: Orient): (c': Camera)
    ensures !input.leftAlt ==> c' == UpdateView(c, orient)
    ensures input.leftAlt ==> c'.initialMouse == input.mouse
    ensures c'.distance >= MIN_DISTANCE || c'.distance == c.distance
  {
    if input.leftAlt then
      var delta := Vec2((input.mouse.x - c.initialMouse.x) * MOUSE_SCALE,
                        (input.mouse.y - c.initialMouse.y) * MOUSE_SCALE);
      var c1 := c.(initialMouse := input.mouse);
      var c2 :=
        if input.middle then MousePan(c1, delta, orient)
        else if input.left then MouseRotate(c1, delta, orient)
        else if input.right then MouseZoom(c1, delta.y, orient)
        else c1;
      UpdateView(c2, orient)
    else UpdateView(c, orient)
  }

  /** The middle button beats the left, and the left beats the right: a
      lower button makes no difference while a higher one is held. Without
      Alt no button matters. */
  lemma ButtonPrecedence(c: Camera, input: Input, orient: Orient, b: bool, b2: bool)
    ensures input.middle ==> OnUpdate(c, input, orient) == OnUpdate(c, input.(left := b, right := b2), orient)
    ensures input.left ==> OnUpdate(c, input, orient) == OnUpdate(c, input.(right := b), orient)
    ensures !input.leftAlt ==>
      OnUpdate(c, input, orient) == OnUpdate(c, input.(middle := b, left := b2, right := b), orient)
  {
  }

  /** `onMouseScroll`: zoom by a tenth of the offset, update the view, and
      leave the event unconsumed. */
  function OnMouseScroll(c: Camera, offsetY: real, orient: Orient): (r: (Camera, bool))
    ensures r.0.distance >= MIN_DISTANCE && !r.1
    ensures r.0.pitch == c.pitch && r.0.yaw == c.yaw
  {
    (UpdateView(MouseZoom(c, offsetY * SCROLL_SCALE, orient), orient), false)
  }

  /** `onEvent`: only a scroll is handled, and it leaves the event marked as
      not handled. */
  function OnEvent(c: Camera, e: Events.Event, orient: Orient): (r: (Camera, Events.Event))
    ensures r.1.payload == e.payload
    ensures e.payload.MouseScrolledEvent? ==>
      !r.1.handled && r.0 == OnMouseScroll(c, e.payload.offsetY, orient).0
    ensures !e.payload.MouseScrolledEvent? ==> r == (c, e)
  {
    var (_, e1) := Events.Dispatch(e, Events.MouseScrolled, p => false);
    match e.payload
    case MouseScrolledEvent(_, dy) => (OnMouseScroll(c, dy, orient).0, e1)
    case _ => (c, e1)
  }
}
