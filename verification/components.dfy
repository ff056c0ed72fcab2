/** The components an entity can carry, as the scene serializer knows them. */
module Components {
  import opened Wrappers
  import opened Vectors
  import SceneCamera

  /** A 64-bit universally unique id. */
  type UUID = n: nat | n < 0x1_0000_0000_0000_0000

  /** Translation, rotation (Euler angles) and scale. */
  datatype Transform = Transform(translation: Vec3, rotation: Vec3, scale: Vec3)

  /** The default transform: no translation, no rotation, unit scale, which
      is the identity matrix. */
  function DefaultTransform(): (t: Transform)
    ensures t.translation == Vec3(0.0, 0.0, 0.0) && t.rotation == Vec3(0.0, 0.0, 0.0)
    ensures t.scale == Vec3(1.0, 1.0, 1.0)
  {
    Transform(Vec3(0.0, 0.0, 0.0), Vec3(0.0, 0.0, 0.0), Vec3(1.0, 1.0, 1.0))
  }

  /** The default sprite colour is opaque white, all ones. */
  function DefaultSpriteColor(): (c: Vec4)
    ensures c == Vec4(1.0, 1.0, 1.0, 1.0)
  {
    Vec4(1.0, 1.0, 1.0, 1.0)
  }

  datatype CameraComponent = CameraComponent(camera: SceneCamera.Camera, primary: bool, fixedAspectRatio: bool)

  /** A camera component starts primary and follows the viewport's aspect. */
  function NewCameraComponent(camera: SceneCamera.Camera): (c: CameraComponent)
    ensures c.primary && !c.fixedAspectRatio && c.camera == camera
  {
    CameraComponent(camera, true, false)
  }

  datatype CircleRenderer = CircleRenderer(color: Vec4, thickness: real, fade: real)

  datatype BodyType = Static | Dynamic | Kinematic

  datatype Rigidbody2D = Rigidbody2D(bodyType: BodyType, fixedRotation: bool)

  datatype BoxCollider2D = BoxCollider2D(
    offset: Vec2, size: Vec2,
    density: real, friction: real, restitution: real, restitutionThreshold: real)

  /** A native script: the script type bound to it (its factory functions),
      and the live instance, if any (its address). */
  datatype NativeScript = NativeScript(script: Option<string>, instance: Option<nat>)

  /** A new component has no instance and nothing bound yet. */
  function NewNativeScript(): (n: NativeScript)
    ensures n.instance.None? && n.script.None?
  {
    NativeScript(None, None)
  }

  /** `bind<T>`: install the factory and destroyer of script type `T`. */
  function Bind(n: NativeScript, script: string): (n': NativeScript)
    ensures n'.script == Some(script) && n'.instance == n.instance
  {
    n.(script := Some(script))
  }

  /** The bound `destroyScript`: delete the instance and null it. */
  function DestroyScript(n: NativeScript): (n': NativeScript)
    requires n.script.Some?
    ensures n'.instance.None? && n'.script == n.script
  {
    n.(instance := None)
  }

  datatype Kind =
    | IdKind | TagKind | TransformKind | CameraKind | SpriteKind
    | CircleKind | RigidbodyKind | BoxColliderKind | NativeScriptKind

  datatype Component =
    | IdComponent(id: UUID)
    | TagComponent(tag: string)
    | TransformComponent(transform: Transform)
    | Camera(camera: CameraComponent)
    | SpriteRenderer(color: Vec4)
    | CircleRendererComponent(circle: CircleRenderer)
    | Rigidbody2DComponent(body: Rigidbody2D)
    | BoxCollider2DComponent(box: BoxCollider2D)
    | NativeScriptComponent(native: NativeScript)

  function KindOf(c: Component): Kind {
    match c
    case IdComponent(_) => IdKind
    case TagComponent(_) => TagKind
    case TransformComponent(_) => TransformKind
    case Camera(_) => CameraKind
    case SpriteRenderer(_) => SpriteKind
    case CircleRendererComponent(_) => CircleKind
    case Rigidbody2DComponent(_) => RigidbodyKind
    case BoxCollider2DComponent(_) => BoxColliderKind
    case NativeScriptComponent(_) => NativeScriptKind
  }

  /** The components of one entity, at most one of each kind. */
  type ComponentSet = map<Kind, Component>

  predicate WellKinded(cs: ComponentSet) {
    forall k :: k in cs ==> KindOf(cs[k]) == k
  }

  /** Whatever instance a component holds and whatever was bound before,
      destroying after a bind leaves exactly the bound script and no
      instance; a later bind replaces an earlier one and keeps the instance,
      and destroying twice is destroying once. */
  lemma BindThenDestroy(n: NativeScript, s: string, s2: string)
    ensures DestroyScript(Bind(n, s)) == NativeScript(Some(s), None)
    ensures Bind(Bind(n, s), s2) == Bind(n, s2)
    ensures DestroyScript(DestroyScript(Bind(n, s))) == DestroyScript(Bind(n, s))
    ensures Bind(DestroyScript(Bind(n, s)), s2) == DestroyScript(Bind(n, s2))
  {
  }
}
