/** The orthographic camera controller: keyboard movement and rotation,
    scroll zoom with a floor, and the projection box it keeps in step with
    zoom and aspect ratio. Floats are `real`; the sine and cosine of the
    current rotation come in as `Trig`, since the trigonometry itself is not
    modelled. */
module OrthoController {
  import opened Wrappers
  import Events
  import opened Vectors

  /** The box `setProjection` is given. */
  datatype Projection = Projection(left: real, right: real, bottom: real, top: real)

  /** The `OrthographicCamera` the controller drives. */
  datatype OrthoCamera = OrthoCamera(projection: Option<Projection>, position: Vec3, rotation: real)

  /** `aspect` is `None` after a resize to zero height, where the float
      division gives infinity or NaN. */
  datatype Controller = Controller(
    aspect: Option<real>,
    zoom: real,
    doRotation: bool,
    position: Vec3,
    rotation: real,
    translationSpeed: real,
    rotationSpeed: real,
    camera: OrthoCamera)

  /** The keys `onUpdate` polls. */
  datatype Keys = Keys(a: bool, d: bool, w: bool, s: bool, q: bool, e: bool)

  /** Cosine and sine of the rotation, in degrees converted to radians. */
  datatype Trig = Trig(cos: real, sin: real)

  const MIN_ZOOM: real := 0.25
  const ZOOM_STEP: real := 0.25

  /** The box for an aspect ratio and zoom level: aspect·zoom wide on each
      side, zoom tall on each side. */
  function BoxFor(aspect: Option<real>, zoom: real): (p: Option<Projection>)
    ensures p.Some? <==> aspect.Some?
    ensures p.Some? ==>
      && p.value.left == -p.value.right && p.value.bottom == -p.value.top
      && p.value.right - p.value.left == 2.0 * aspect.value * zoom
      && p.value.top - p.value.bottom == 2.0 * zoom
  {
    match aspect
    case None => None
    case Some(ar) => Some(Projection(-ar * zoom, ar * zoom, -zoom, zoom))
  }

  /** The constructor: zoom 1, the box (-ar, ar, -1, 1), speed 5 and 180
      degrees a second, everything else zero. */
  function NewController(aspect: real, rotation: bool): (c: Controller)
    ensures c.zoom == 1.0 && c.aspect == Some(aspect) && c.doRotation == rotation
    ensures c.camera.projection == Some(Projection(-aspect, aspect, -1.0, 1.0))
    ensures c.translationSpeed == 5.0 && c.rotationSpeed == 180.0
    ensures c.rotation == 0.0 && c.position == Vec3(0.0, 0.0, 0.0)
  {
    Controller(Some(aspect), 1.0, rotation, Vec3(0.0, 0.0, 0.0), 0.0, 5.0, 180.0,
               OrthoCamera(BoxFor(Some(aspect), 1.0), Vec3(0.0, 0.0, 0.0), 0.0))
  }

  /** Bringing the angle back after one step: above 180 loses a turn, at or
      below -180 gains one. */
  function WrapRotation(r: real): (w: real)
    ensures w == r || w == r - 360.0 || w == r + 360.0
    ensures -540.0 < r <= 540.0 ==> -180.0 < w <= 180.0
    ensures -180.0 < r <= 180.0 ==> w == r
  {
    if r > 180.0 then r - 360.0
    else if r <= -180.0 then r + 360.0
    else r
  }

  /** The movement of one update: A, else D, along the camera's right
      direction; W, else S, along its up direction. */
  function Move(p: Vec3, keys: Keys, t: Trig, speed: real, ts: real): Vec3 {
    var p1 :=
      if keys.a then p.(x := p.x - t.cos * speed * ts, y := p.y - t.sin * speed * ts)
      else if keys.d then p.(x := p.x + t.cos * speed * ts, y := p.y + t.sin * speed * ts)
      else p;
    if keys.w then p1.(x := p1.x + -t.sin * speed * ts, y := p1.y + t.cos * speed * ts)
    else if keys.s then p1.(x := p1.x - -t.sin * speed * ts, y := p1.y - t.cos * speed * ts)
    else p1
  }

  /** The rotation of one update: Q turns one way, else E the other, then the
      angle is wrapped. */
  function Turn(r: real, keys: Keys, speed: real, ts: real): real {
    var r1 := if keys.q then r + speed * ts else if keys.e then r - speed * ts else r;
    WrapRotation(r1)
  }

  /** `onUpdate`: move, turn when rotation is on, hand the position (and
      rotation) to the camera, and make the speed the zoom level. */
  function OnUpdate(c: Controller, keys: Keys, t: Trig, ts: real): (c': Controller)
    ensures c'.translationSpeed == c.zoom
    ensures c'.camera.position == c'.position
    ensures !c.doRotation ==> c'.rotation == c.rotation && c'.camera.rotation == c.camera.rotation
    ensures c.doRotation ==> c'.camera.rotation == c'.rotation
    ensures c'.zoom == c.zoom && c'.aspect == c.aspect && c'.camera.projection == c.camera.projection
    ensures c'.doRotation == c.doRotation && c'.rotationSpeed == c.rotationSpeed
    ensures c'.position.z == c.position.z
  {
    var p := Move(c.position, keys, t, c.translationSpeed, ts);
    var r := if c.doRotation then Turn(c.rotation, keys, c.rotationSpeed, ts) else c.rotation;
    var cam := if c.doRotation then c.camera.(rotation := r) else c.camera;
    c.(position := p, rotation := r, camera := cam.(position := p), translationSpeed := c.zoom)
  }

  /** A beats D, W beats S and Q beats E: while the first key of a pair is
      held, the second makes no difference. */
  lemma KeyPrecedence(c: Controller, keys: Keys, t: Trig, ts: real, other: bool)
    ensures keys.a ==> OnUpdate(c, keys, t, ts) == OnUpdate(c, keys.(d := other), t, ts)
    ensures keys.w ==> OnUpdate(c, keys, t, ts) == OnUpdate(c, keys.(s := other), t, ts)
    ensures keys.q ==> OnUpdate(c, keys, t, ts) == OnUpdate(c, keys.(e := other), t, ts)
  {
  }

  /** With no key held the camera stays put, and D exactly undoes A, S
      exactly undoes W. */
  lemma OppositeKeysCancel(p: Vec3, t: Trig, speed: real, ts: real)
    ensures Move(p, Keys(false, false, false, false, false, false), t, speed, ts) == p
    ensures var there := Move(p, Keys(true, false, false, false, false, false), t, speed, ts);
      Move(there, Keys(false, true, false, false, false, false), t, speed, ts) == p
    ensures var there := Move(p, Keys(false, false, true, false, false, false), t, speed, ts);
      Move(there, Keys(false, false, false, true, false, false), t, speed, ts) == p
  {
  }

  /** A rotation that starts in (-180, 180] stays there when one update turns
      it by at most a full turn, which holds for the fixed 180 degrees a
      second and frames of up to two seconds. */
  lemma RotationStaysInRange(c: Controller, keys: Keys, t: Trig, ts: real)
    requires -180.0 < c.rotation <= 180.0
    requires c.rotationSpeed == 180.0 && 0.0 <= ts <= 2.0
    ensures -180.0 < OnUpdate(c, keys, t, ts).rotation <= 180.0
  {
    assert 0.0 <= c.rotationSpeed * ts <= 360.0;
  }

  /** `onMouseScrolled`: zoom out by a quarter per notch, never below a
      quarter, and rebuild the box; the event is not consumed. */
  function OnMouseScrolled(c: Controller, offsetY: real): (r: (Controller, bool))
    ensures r.0.zoom >= MIN_ZOOM
    ensures c.zoom - offsetY * ZOOM_STEP >= MIN_ZOOM ==> r.0.zoom == c.zoom - offsetY * ZOOM_STEP
    ensures c.zoom - offsetY * ZOOM_STEP < MIN_ZOOM ==> r.0.zoom == MIN_ZOOM
    ensures r.0.camera.projection == BoxFor(c.aspect, r.0.zoom)
    ensures r.0 == c.(zoom := r.0.zoom, camera := c.camera.(projection := r.0.camera.projection))
    ensures !r.1
  {
    var z := c.zoom - offsetY * ZOOM_STEP;
    var z' := if z > MIN_ZOOM then z else MIN_ZOOM;
    (c.(zoom := z', camera := c.camera.(projection := BoxFor(c.aspect, z'))), false)
  }

  /** A scroll that stays above the floor is undone by the opposite scroll. */
  lemma ScrollUndo(c: Controller, offsetY: real)
    requires c.zoom - offsetY * ZOOM_STEP >= MIN_ZOOM && c.zoom >= MIN_ZOOM
    ensures var back := OnMouseScrolled(OnMouseScrolled(c, offsetY).0, -offsetY).0;
      back.zoom == c.zoom && back.camera.projection == BoxFor(c.aspect, c.zoom)
  {
  }

  /** `onResize`: the aspect ratio becomes width / height and the box is
      rebuilt at the current zoom. */
  function OnResize(c: Controller, width: real, height: real): (c': Controller)
    ensures height != 0.0 ==> c'.aspect.Some? && c'.aspect.value * height == width
    ensures height == 0.0 ==> c'.aspect.None?
    ensures c'.camera.projection == BoxFor(c'.aspect, c.zoom)
    ensures c' == c.(aspect := c'.aspect, camera := c.camera.(projection := c'.camera.projection))
  {
    var ar := if height == 0.0 then None else Some(width / height);
    c.(aspect := ar, camera := c.camera.(projection := BoxFor(ar, c.zoom)))
  }

  /** `onWindowResized`: resize to the event's size; not consumed. */
  function OnWindowResized(c: Controller, width: nat, height: nat): (r: (Controller, bool))
    ensures r.0 == OnResize(c, width as real, height as real) && !r.1
  {
    (OnResize(c, width as real, height as real), false)
  }

  /** `setZoomLevel`: only the level; the box keeps its old zoom until the
      next scroll or resize. */
  function SetZoomLevel(c: Controller, level: real): (c': Controller)
    ensures c'.zoom == level && c' == c.(zoom := level)
  {
    c.(zoom := level)
  }

  /** `onEvent`: scrolls and resizes are handled, and since both handlers
      answer false the event leaves marked as not handled; other events pass
      through untouched. */
  function OnEvent(c: Controller, e: Events.Event): (r: (Controller, Events.Event))
    ensures r.1.payload == e.payload
    ensures Events.TypeOf(e.payload) in {Events.MouseScrolled, Events.WindowResize} ==> !r.1.handled
    ensures Events.TypeOf(e.payload) !in {Events.MouseScrolled, Events.WindowResize} ==> r == (c, e)
    ensures e.payload.MouseScrolledEvent? ==> r.0 == OnMouseScrolled(c, e.payload.offsetY).0
    ensures e.payload.WindowResizeEvent? ==> r.0 == OnWindowResized(c, e.payload.width, e.payload.height).0
  {
    var (_, e1) := Events.Dispatch(e, Events.MouseScrolled, p => false);
    var (_, e2) := Events.Dispatch(e1, Events.WindowResize, p => false);
    var c' :=
      match e.payload
      case MouseScrolledEvent(_, dy) => OnMouseScrolled(c, dy).0
      case WindowResizeEvent(w, h) => OnWindowResized(c, w, h).0
      case _ => c;
    (c', e2)
  }
}
