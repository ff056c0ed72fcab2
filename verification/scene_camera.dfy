/** The scene camera's orthographic parameters, aspect ratio and the bounds
    its projection is built from. */
module SceneCamera {
  import opened Wrappers

  /** Perspective parameters, stored and read back as they are given. The
      serializer's setters and getters for them, and for the projection type,
      are not declared by the camera's header; they are taken to be plain
      field accessors. */
  datatype Perspective = Perspective(verticalFov: real, nearClip: real, farClip: real)

  /** `aspect` is `None` when it came from a zero height: the float division
      then gives infinity or NaN. */
  datatype Camera = Camera(
    projectionType: int,
    perspective: Perspective,
    orthoSize: real,
    orthoNear: real,
    orthoFar: real,
    aspect: Option<real>)

  /** The constructor: size 10, near -1, far 1, aspect 1. */
  function NewCamera(projectionType: int, perspective: Perspective): (c: Camera)
    ensures c.orthoSize == 10.0 && c.orthoNear == -1.0 && c.orthoFar == 1.0 && c.aspect == Some(1.0)
    ensures c.projectionType == projectionType && c.perspective == perspective
  {
    Camera(projectionType, perspective, 10.0, -1.0, 1.0, Some(1.0))
  }

  /** `setOrthographic`: all three orthographic parameters. */
  function SetOrthographic(c: Camera, size: real, nearClip: real, farClip: real): (c': Camera)
    ensures c'.orthoSize == size && c'.orthoNear == nearClip && c'.orthoFar == farClip
    ensures c'.aspect == c.aspect && c'.perspective == c.perspective && c'.projectionType == c.projectionType
  {
    c.(orthoSize := size, orthoNear := nearClip, orthoFar := farClip)
  }

  /** `setOrthographicSize`: the size only. */
  function SetOrthographicSize(c: Camera, size: real): (c': Camera)
    ensures c'.orthoSize == size && c' == c.(orthoSize := c'.orthoSize)
  {
    c.(orthoSize := size)
  }

  /** `setOrthographicNearClip` and `setOrthographicFarClip`, which the
      serializer calls but the header does not declare: taken to set the two
      clips and nothing else. */
  function SetOrthographicClips(c: Camera, nearClip: real, farClip: real): (c': Camera)
    ensures c'.orthoNear == nearClip && c'.orthoFar == farClip
    ensures c' == c.(orthoNear := c'.orthoNear, orthoFar := c'.orthoFar)
  {
    c.(orthoNear := nearClip, orthoFar := farClip)
  }

  /** `setViewportSize`: aspect ratio width / height. */
  function SetViewportSize(c: Camera, width: nat, height: nat): (c': Camera)
    ensures height > 0 ==> c'.aspect.Some? && c'.aspect.value * (height as real) == width as real
    ensures height == 0 ==> c'.aspect.None?
    ensures c' == c.(aspect := c'.aspect)
  {
    c.(aspect := if height == 0 then None else Some((width as real) / (height as real)))
  }

  datatype Bounds = Bounds(left: real, right: real, bottom: real, top: real)

  /** `recalculateProjection`: the box the orthographic projection spans. */
  function OrthoBounds(c: Camera): (b: Option<Bounds>)
    ensures b.Some? <==> c.aspect.Some?
  {
    match c.aspect
    case None => None
    case Some(ar) =>
      Some(Bounds(-c.orthoSize * ar * 0.5, c.orthoSize * ar * 0.5, -c.orthoSize * 0.5, c.orthoSize * 0.5))
  }

  /** The box is centred on the camera, as wide as size times aspect and as
      tall as size. */
  lemma BoundsShape(c: Camera)
    requires c.aspect.Some?
    ensures var b := OrthoBounds(c).value;
      && b.left == -b.right && b.bottom == -b.top
      && b.right - b.left == c.orthoSize * c.aspect.value
      && b.top - b.bottom == c.orthoSize
  {
  }

  /** A viewport of 1600 × 900 with the default size gives the box
      (-80/9, 80/9, -5, 5). */
  lemma ViewportExample(projectionType: int, p: Perspective)
    ensures OrthoBounds(SetViewportSize(NewCamera(projectionType, p), 1600, 900))
      == Some(Bounds(-80.0 / 9.0, 80.0 / 9.0, -5.0, 5.0))
  {
  }
}
