/** The scene file: a "Scene" name and a list of entity maps, one key per
    component the entity has. */
module SceneSerializer {
  import opened Wrappers
  import opened Vectors
  import opened Components
  import opened Yaml
  import SceneCamera
  import Scene

  /** `rigidBody2DTypeToString`. */
  function BodyTypeToString(t: BodyType): string {
    match t
    case Static => "Static"
    case Dynamic => "Dynamic"
    case Kinematic => "Kinematic"
  }

  /** `rigidBody2DTypeFromString`: an unknown name fails the "Unknown type"
      assertion (the flag) and gives the value-initialised body type, the
      enumerator 0, `Static`. */
  function BodyTypeFromString(s: string): (r: (BodyType, bool))
    ensures r.1 <==> s != "Static" && s != "Dynamic" && s != "Kinematic"
    ensures r.1 ==> r.0 == Static
  {
    if s == "Static" then (Static, false)
    else if s == "Dynamic" then (Dynamic, false)
    else if s == "Kinematic" then (Kinematic, false)
    else (Static, true)
  }

  /** Every body type survives the trip through its name, and different
      types have different names. */
  lemma BodyTypeRoundTrip(t: BodyType, u: BodyType)
    ensures BodyTypeFromString(BodyTypeToString(t)) == (t, false)
    ensures BodyTypeToString(t) == BodyTypeToString(u) ==> t == u
    ensures BodyTypeFromString("static") == (Static, true)
  {
  }

  function StrNode(s: string): Node { Leaf(Str(s)) }
  function BoolNode(b: bool): Node { Leaf(Bool(b)) }

  /** The key a component is written under; the id is the entity's
      "Entity" value. */
  function KeyOf(k: Kind): string {
    match k
    case IdKind => "Entity"
    case TagKind => "TagComponent"
    case TransformKind => "TransformComponent"
    case CameraKind => "CameraComponent"
    case SpriteKind => "SpriteRendererComponent"
    case CircleKind => "CircleRendererComponent"
    case RigidbodyKind => "Rigidbody2DComponent"
    case BoxColliderKind => "BoxCollider2DComponent"
    case NativeScriptKind => "NativeScriptComponent"
  }

  lemma KeyOfInjective(a: Kind, b: Kind)
    ensures KeyOf(a) == KeyOf(b) ==> a == b
  {
    if KeyOf(a) == KeyOf(b) {
      assert |KeyOf(a)| == |KeyOf(b)|;
      assert KeyOf(a)[0] == KeyOf(b)[0];
    }
  }

  /** The kinds that get a section of their own, in the order they are written. */
  const SectionKinds: seq<Kind> :=
    [TagKind, TransformKind, CameraKind, SpriteKind, CircleKind, RigidbodyKind, BoxColliderKind]

  function EncodeTransform(t: Transform): Node {
    Map([("Translation", EncodeVec3(t.translation)), ("Rotation", EncodeVec3(t.rotation)), ("Scale", EncodeVec3(t.scale))])
  }

  function EncodeCamera(cc: CameraComponent): Node {
    var c := cc.camera;
    Map([
      ("Camera", Map([
        ("ProjectionType", Leaf(Int(c.projectionType))),
        ("PerspectiveFOV", EncodeReal(c.perspective.verticalFov)),
        ("PerspectiveNear", EncodeReal(c.perspective.nearClip)),
        ("PerspectiveFar", EncodeReal(c.perspective.farClip)),
        ("OrthographicSize", EncodeReal(c.orthoSize)),
        ("OrthographicNear", EncodeReal(c.orthoNear)),
        ("OrthographicFar", EncodeReal(c.orthoFar))])),
      ("Primary", BoolNode(cc.primary)),
      ("FixedAspectRatio", BoolNode(cc.fixedAspectRatio))])
  }

  function EncodeCircle(c: CircleRenderer): Node {
    Map([("Color", EncodeVec4(c.color)), ("Thickness", EncodeReal(c.thickness)), ("Fade", EncodeReal(c.fade))])
  }

  function EncodeBody(b: Rigidbody2D): Node {
    Map([("BodyType", StrNode(BodyTypeToString(b.bodyType))), ("FixedRotation", BoolNode(b.fixedRotation))])
  }

  function EncodeBox(b: BoxCollider2D): Node {
    Map([
      ("Offset", EncodeVec2(b.offset)), ("Size", EncodeVec2(b.size)),
      ("Density", EncodeReal(b.density)), ("Friction", EncodeReal(b.friction)),
      ("Restitution", EncodeReal(b.restitution)), ("RestitutionThreshold", EncodeReal(b.restitutionThreshold))])
  }

  /** The map written for one component. */
  function EncodeComponent(c: Component): Node {
    match c
    case IdComponent(id) => Leaf(Int(id))
    case TagComponent(tag) => Map([("Tag", StrNode(tag))])
    case TransformComponent(t) => EncodeTransform(t)
    case Camera(cc) => EncodeCamera(cc)
    case SpriteRenderer(color) => Map([("Color", EncodeVec4(color))])
    case CircleRendererComponent(circle) => EncodeCircle(circle)
    case Rigidbody2DComponent(body) => EncodeBody(body)
    case BoxCollider2DComponent(box) => EncodeBox(box)
    case NativeScriptComponent(_) => Null
  }

  /** The sections of the kinds `ks` that the entity has. */
  function Sections(cs: ComponentSet, ks: seq<Kind>): seq<(string, Node)> {
    if |ks| == 0 then []
    else (if ks[0] in cs then [(KeyOf(ks[0]), EncodeComponent(cs[ks[0]]))] else []) + Sections(cs, ks[1..])
  }

  /** `serializeEntity`: the id under "Entity" first, then one section per
      component the entity has. */
  function EncodeEntity(cs: ComponentSet): (n: Node)
    requires IdKind in cs && cs[IdKind].IdComponent?
    ensures n.Map? && |n.entries| > 0 && n.entries[0] == ("Entity", Leaf(Int(cs[IdKind].id)))
  {
    Map([("Entity", EncodeComponent(cs[IdKind]))] + Sections(cs, SectionKinds))
  }

  /** Looking a kind's key up in the sections finds its section exactly when
      the kind is listed and present. */
  lemma {:induction false} SectionsLookup(cs: ComponentSet, ks: seq<Kind>, k: Kind)
    requires forall i, j :: 0 <= i < j < |ks| ==> ks[i] != ks[j]
    ensures Entry(Sections(cs, ks), KeyOf(k)) == if k in ks && k in cs then Found(EncodeComponent(cs[k])) else Undefined
  {
    if |ks| > 0 {
      var head := if ks[0] in cs then [(KeyOf(ks[0]), EncodeComponent(cs[ks[0]]))] else [];
      EntryAppend(head, Sections(cs, ks[1..]), KeyOf(k));
      KeyOfInjective(ks[0], k);
      SectionsLookup(cs, ks[1..], k);
      assert ks == [ks[0]] + ks[1..];
      if ks[0] == k {
        assert k !in ks[1..] by {
          forall i | 0 <= i < |ks[1..]| ensures ks[1..][i] != k {
            assert ks[1..][i] == ks[i + 1];
          }
        }
      }
    }
  }

  /** An entity map answers each section key with that component's section,
      or with nothing when the entity lacks it; the id sits under "Entity". */
  lemma EntityLookup(cs: ComponentSet, k: Kind)
    requires IdKind in cs && cs[IdKind].IdComponent?
    ensures Get(EncodeEntity(cs), "Entity") == Found(Leaf(Int(cs[IdKind].id)))
    ensures k != IdKind ==>
      Get(EncodeEntity(cs), KeyOf(k)) == if k in SectionKinds && k in cs then Found(EncodeComponent(cs[k])) else Undefined
  {
    var first: seq<(string, Node)> := [("Entity", EncodeComponent(cs[IdKind]))];
    EntryAppend(first, Sections(cs, SectionKinds), KeyOf(k));
    KeyOfInjective(IdKind, k);
    SectionsLookup(cs, SectionKinds, k);
  }

  /** The scene's entities, in view order. */
  function EncodeEntities(s: Scene.Scene, hs: seq<Scene.Handle>): (items: seq<Node>)
    requires forall h :: h in hs ==> h in s.entities && IdKind in s.entities[h] && s.entities[h][IdKind].IdComponent?
    ensures |items| == |hs|
    ensures forall i :: 0 <= i < |hs| ==> items[i] == EncodeEntity(s.entities[hs[i]])
  {
    if |hs| == 0 then [] else [EncodeEntity(s.entities[hs[0]])] + EncodeEntities(s, hs[1..])
  }

  /** Every entity carries an id, as `serializeEntity` asserts. */
  predicate AllHaveIds(s: Scene.Scene) {
    forall h :: h in s.order ==> h in s.entities && IdKind in s.entities[h] && s.entities[h][IdKind].IdComponent?
  }

  /** `serialize`: "Scene" is "Untitled" and "Entities" lists every entity. */
  function Serialize(s: Scene.Scene): (n: Node)
    requires AllHaveIds(s)
    ensures Get(n, "Scene") == Found(StrNode("Untitled"))
    ensures Get(n, "Entities").Found? && Items(Get(n, "Entities").node).Value?
    ensures var items := Items(Get(n, "Entities").node).value;
      |items| == |s.order|
      && forall i :: 0 <= i < |items| ==> items[i] == EncodeEntity(s.entities[s.order[i]])
  {
    var entries := [("Scene", StrNode("Untitled")), ("Entities", Seq(EncodeEntities(s, s.order)))];
    EntryOf(entries, 1);
    Map(entries)
  }

  /** A value under construction while fields are read into it one by one:
      `threw` says that a read raised, and the value is what had been
      written by then. */
  datatype Partial<T> = Partial(value: T, threw: bool)

  /** One field read: after an earlier exception nothing more happens; a
      read that throws leaves the value as it was. */
  function Assign<T, U>(p: Partial<T>, o: Outcome<U>, write: (T, U) -> T): Partial<T> {
    if p.threw then p
    else match o
      case Thrown => Partial(p.value, true)
      case Value(u) => Partial(write(p.value, u), false)
  }

  /** The "TransformComponent" section read into the entity's transform. */
  function ReadTransform(t: Transform, n: Node): Partial<Transform> {
    var p0 := Partial(t, false);
    var p1 := Assign(p0, AsVec3(Get(n, "Translation")), (t: Transform, v: Vec3) => t.(translation := v));
    var p2 := Assign(p1, AsVec3(Get(n, "Rotation")), (t: Transform, v: Vec3) => t.(rotation := v));
    Assign(p2, AsVec3(Get(n, "Scale")), (t: Transform, v: Vec3) => t.(scale := v))
  }

  /** The "CameraComponent" section read into a freshly added camera, setter
      by setter. */
  function ReadCamera(cc: CameraComponent, n: Node): Partial<CameraComponent> {
    var props := Get(n, "Camera");
    var p0 := Partial(cc, false);
    var p1 := Assign(p0, AsInt(Sub(props, "ProjectionType")),
      (c: CameraComponent, v: int) => c.(camera := c.camera.(projectionType := v)));
    var p2 := Assign(p1, AsReal(Sub(props, "PerspectiveFOV")),
      (c: CameraComponent, v: real) => c.(camera := c.camera.(perspective := c.camera.perspective.(verticalFov := v))));
    var p3 := Assign(p2, AsReal(Sub(props, "PerspectiveNear")),
      (c: CameraComponent, v: real) => c.(camera := c.camera.(perspective := c.camera.perspective.(nearClip := v))));
    var p4 := Assign(p3, AsReal(Sub(props, "PerspectiveFar")),
      (c: CameraComponent, v: real) => c.(camera := c.camera.(perspective := c.camera.perspective.(farClip := v))));
    var p5 := Assign(p4, AsReal(Sub(props, "OrthographicSize")),
      (c: CameraComponent, v: real) => c.(camera := SceneCamera.SetOrthographicSize(c.camera, v)));
    var p6 := Assign(p5, AsReal(Sub(props, "OrthographicNear")),
      (c: CameraComponent, v: real) => c.(camera := SceneCamera.SetOrthographicClips(c.camera, v, c.camera.orthoFar)));
    var p7 := Assign(p6, AsReal(Sub(props, "OrthographicFar")),
      (c: CameraComponent, v: real) => c.(camera := SceneCamera.SetOrthographicClips(c.camera, c.camera.orthoNear, v)));
    var p8 := Assign(p7, AsBool(Get(n, "Primary")), (c: CameraComponent, v: bool) => c.(primary := v));
    Assign(p8, AsBool(Get(n, "FixedAspectRatio")), (c: CameraComponent, v: bool) => c.(fixedAspectRatio := v))
  }

  function ReadSprite(color: Vec4, n: Node): Partial<Vec4> {
    Assign(Partial(color, false), AsVec4(Get(n, "Color")), (_: Vec4, v: Vec4) => v)
  }

  function ReadCircle(c: CircleRenderer, n: Node): Partial<CircleRenderer> {
    var p1 := Assign(Partial(c, false), AsVec4(Get(n, "Color")), (c: CircleRenderer, v: Vec4) => c.(color := v));
    var p2 := Assign(p1, AsReal(Get(n, "Thickness")), (c: CircleRenderer, v: real) => c.(thickness := v));
    Assign(p2, AsReal(Get(n, "Fade")), (c: CircleRenderer, v: real) => c.(fade := v))
  }

  function ReadBody(b: Rigidbody2D, n: Node): Partial<Rigidbody2D> {
    var p1 := Assign(Partial(b, false), AsString(Get(n, "BodyType")),
      (b: Rigidbody2D, v: string) => b.(bodyType := BodyTypeFromString(v).0));
    Assign(p1, AsBool(Get(n, "FixedRotation")), (b: Rigidbody2D, v: bool) => b.(fixedRotation := v))
  }

  function ReadBox(b: BoxCollider2D, n: Node): Partial<BoxCollider2D> {
    var p1 := Assign(Partial(b, false), AsVec2(Get(n, "Offset")), (b: BoxCollider2D, v: Vec2) => b.(offset := v));
    var p2 := Assign(p1, AsVec2(Get(n, "Size")), (b: BoxCollider2D, v: Vec2) => b.(size := v));
    var p3 := Assign(p2, AsReal(Get(n, "Density")), (b: BoxCollider2D, v: real) => b.(density := v));
    var p4 := Assign(p3, AsReal(Get(n, "Friction")), (b: BoxCollider2D, v: real) => b.(friction := v));
    var p5 := Assign(p4, AsReal(Get(n, "Restitution")), (b: BoxCollider2D, v: real) => b.(restitution := v));
    Assign(p5, AsReal(Get(n, "RestitutionThreshold")), (b: BoxCollider2D, v: real) => b.(restitutionThreshold := v))
  }

  /** The default-constructed components the reads start from; their
      definitions are not part of this model. */
  datatype Defaults = Defaults(camera: SceneCamera.Camera, circle: CircleRenderer, body: Rigidbody2D, box: BoxCollider2D)

  /** The camera a "CameraComponent" section is read into: newly added, so
      the added-hook fits it to the scene's viewport. */
  function StartCamera(s: Scene.Scene, d: Defaults): CameraComponent {
    Scene.OnComponentAdded(s, Camera(NewCameraComponent(d.camera))).camera
  }

  /** The section kinds `deserialize` reads. */
  predicate IsSectionKind(k: Kind) {
    k in {TransformKind, CameraKind, SpriteKind, CircleKind, RigidbodyKind, BoxColliderKind}
  }

  /** The sections `deserialize` reads, in its order. */
  const SectionOrder: seq<Kind> := [TransformKind, CameraKind, SpriteKind, CircleKind, RigidbodyKind, BoxColliderKind]

  /** A section of kind `k` read into its starting component: the entity's
      transform `t`, the freshly added `camera`, or another newly added
      component. */
  function ReadComponent(t: Transform, camera: CameraComponent, k: Kind, d: Defaults, n: Node): (r: Partial<Component>)
    requires IsSectionKind(k)
    ensures KindOf(r.value) == k
  {
    match k
    case TransformKind => ReadTransformComponent(t, n)
    case CameraKind => ReadCameraComponent(camera, n)
    case SpriteKind => ReadSpriteComponent(DefaultSpriteColor(), n)
    case CircleKind => ReadCircleComponent(d.circle, n)
    case RigidbodyKind => ReadBodyComponent(d.body, n)
    case BoxColliderKind => ReadBoxComponent(d.box, n)
  }

  function ReadTransformComponent(t: Transform, n: Node): (r: Partial<Component>)
    ensures r.value.TransformComponent?
  {
    var p := ReadTransform(t, n);
    Partial(TransformComponent(p.value), p.threw)
  }

  function ReadCameraComponent(cc: CameraComponent, n: Node): (r: Partial<Component>)
    ensures r.value.Camera?
  {
    var p := ReadCamera(cc, n);
    Partial(Camera(p.value), p.threw)
  }

  function ReadSpriteComponent(color: Vec4, n: Node): (r: Partial<Component>)
    ensures r.value.SpriteRenderer?
  {
    var p := ReadSprite(color, n);
    Partial(SpriteRenderer(p.value), p.threw)
  }

  function ReadCircleComponent(c: CircleRenderer, n: Node): (r: Partial<Component>)
    ensures r.value.CircleRendererComponent?
  {
    var p := ReadCircle(c, n);
    Partial(CircleRendererComponent(p.value), p.threw)
  }

  function ReadBodyComponent(b: Rigidbody2D, n: Node): (r: Partial<Component>)
    ensures r.value.Rigidbody2DComponent?
  {
    var p := ReadBody(b, n);
    Partial(Rigidbody2DComponent(p.value), p.threw)
  }

  function ReadBoxComponent(b: BoxCollider2D, n: Node): (r: Partial<Component>)
    ensures r.value.BoxCollider2DComponent?
  {
    var p := ReadBox(b, n);
    Partial(BoxCollider2DComponent(p.value), p.threw)
  }

  /** Each key of a written transform finds its vector. */
  lemma TransformFields(t: Transform)
    ensures Get(EncodeTransform(t), "Translation") == Found(EncodeVec3(t.translation))
    ensures Get(EncodeTransform(t), "Rotation") == Found(EncodeVec3(t.rotation))
    ensures Get(EncodeTransform(t), "Scale") == Found(EncodeVec3(t.scale))
  {
    var e := EncodeTransform(t).entries;
    EntryAt(e, 0);
    EntryAt(e, 1);
    EntryAt(e, 2);
  }

  /** Reading a written transform back gives it exactly, whatever transform
      the entity had before. */
  lemma ReadTransformRoundTrip(t0: Transform, t: Transform)
    ensures ReadTransform(t0, EncodeTransform(t)) == Partial(t, false)
  {
    TransformFields(t);
    VecRoundTrip(Vec2(0.0, 0.0), t.translation, Vec4(0.0, 0.0, 0.0, 0.0));
    VecRoundTrip(Vec2(0.0, 0.0), t.rotation, Vec4(0.0, 0.0, 0.0, 0.0));
    VecRoundTrip(Vec2(0.0, 0.0), t.scale, Vec4(0.0, 0.0, 0.0, 0.0));
  }

  /** The nested "Camera" map of a written camera, and its flags. */
  lemma CameraFields(cc: CameraComponent)
    ensures Get(EncodeCamera(cc), "Camera") == Found(EncodeCamera(cc).entries[0].1)
    ensures Get(EncodeCamera(cc), "Primary") == Found(BoolNode(cc.primary))
    ensures Get(EncodeCamera(cc), "FixedAspectRatio") == Found(BoolNode(cc.fixedAspectRatio))
  {
    var e := EncodeCamera(cc).entries;
    EntryAt(e, 0);
    EntryAt(e, 1);
    EntryAt(e, 2);
  }

  /** Each key of the nested "Camera" map finds its setting. */
  lemma CameraProps(cc: CameraComponent)
    ensures var props := EncodeCamera(cc).entries[0].1; var c := cc.camera;
      && Get(props, "ProjectionType") == Found(Leaf(Int(c.projectionType)))
      && Get(props, "PerspectiveFOV") == Found(EncodeReal(c.perspective.verticalFov))
      && Get(props, "PerspectiveNear") == Found(EncodeReal(c.perspective.nearClip))
      && Get(props, "PerspectiveFar") == Found(EncodeReal(c.perspective.farClip))
      && Get(props, "OrthographicSize") == Found(EncodeReal(c.orthoSize))
      && Get(props, "OrthographicNear") == Found(EncodeReal(c.orthoNear))
      && Get(props, "OrthographicFar") == Found(EncodeReal(c.orthoFar))
  {
    var e := EncodeCamera(cc).entries[0].1.entries;
    EntryAt(e, 0);
    EntryAt(e, 1);
    EntryAt(e, 2);
    EntryAt(e, 3);
    EntryAt(e, 4);
    EntryAt(e, 5);
    EntryAt(e, 6);
  }

  /** Reading a written camera back restores every stored setting; the aspect
      ratio is not written, so the one the fresh camera got from the viewport
      stays. */
  lemma ReadCameraRoundTrip(cc0: CameraComponent, cc: CameraComponent)
    ensures ReadCamera(cc0, EncodeCamera(cc)) == Partial(cc.(camera := cc.camera.(aspect := cc0.camera.aspect)), false)
  {
    CameraFields(cc);
    CameraProps(cc);
  }

  lemma ReadSpriteRoundTrip(c0: Vec4, c: Vec4)
    ensures ReadSprite(c0, EncodeComponent(SpriteRenderer(c))) == Partial(c, false)
  {
    VecRoundTrip(Vec2(0.0, 0.0), Vec3(0.0, 0.0, 0.0), c);
  }

  lemma CircleFields(c: CircleRenderer)
    ensures Get(EncodeCircle(c), "Color") == Found(EncodeVec4(c.color))
    ensures Get(EncodeCircle(c), "Thickness") == Found(EncodeReal(c.thickness))
    ensures Get(EncodeCircle(c), "Fade") == Found(EncodeReal(c.fade))
  {
    var e := EncodeCircle(c).entries;
    EntryAt(e, 0);
    EntryAt(e, 1);
    EntryAt(e, 2);
  }

  lemma ReadCircleRoundTrip(c0: CircleRenderer, c: CircleRenderer)
    ensures ReadCircle(c0, EncodeCircle(c)) == Partial(c, false)
  {
    CircleFields(c);
    VecRoundTrip(Vec2(0.0, 0.0), Vec3(0.0, 0.0, 0.0), c.color);
  }

  lemma ReadBodyRoundTrip(b0: Rigidbody2D, b: Rigidbody2D)
    ensures ReadBody(b0, EncodeBody(b)) == Partial(b, false)
  {
    var e := EncodeBody(b).entries;
    EntryAt(e, 0);
    EntryAt(e, 1);
    BodyTypeRoundTrip(b.bodyType, b.bodyType);
  }

  lemma BoxFields(b: BoxCollider2D)
    ensures Get(EncodeBox(b), "Offset") == Found(EncodeVec2(b.offset))
    ensures Get(EncodeBox(b), "Size") == Found(EncodeVec2(b.size))
    ensures Get(EncodeBox(b), "Density") == Found(EncodeReal(b.density))
    ensures Get(EncodeBox(b), "Friction") == Found(EncodeReal(b.friction))
    ensures Get(EncodeBox(b), "Restitution") == Found(EncodeReal(b.restitution))
    ensures Get(EncodeBox(b), "RestitutionThreshold") == Found(EncodeReal(b.restitutionThreshold))
  {
    var e := EncodeBox(b).entries;
    EntryAt(e, 0);
    EntryAt(e, 1);
    EntryAt(e, 2);
    EntryAt(e, 3);
    EntryAt(e, 4);
    EntryAt(e, 5);
  }

  lemma ReadBoxRoundTrip(b0: BoxCollider2D, b: BoxCollider2D)
    ensures ReadBox(b0, EncodeBox(b)) == Partial(b, false)
  {
    BoxFields(b);
    VecRoundTrip(b.offset, Vec3(0.0, 0.0, 0.0), Vec4(0.0, 0.0, 0.0, 0.0));
    VecRoundTrip(b.size, Vec3(0.0, 0.0, 0.0), Vec4(0.0, 0.0, 0.0, 0.0));
  }

  /** `if (auto section = entity[key]) { ... }` for one kind: an undefined
      section is skipped, a subscript that throws ends the entity, and a
      found section is read into its starting component. */
  function ReadSection(s: Scene.Scene, p: Partial<ComponentSet>, e: Node, k: Kind, d: Defaults): (r: Partial<ComponentSet>)
    requires WellKinded(p.value)
    requires IsSectionKind(k)
    ensures WellKinded(r.value)
    ensures p.threw ==> r == p
  {
    if p.threw then p
    else match Get(e, KeyOf(k))
      case Found(n) =>
        var t := if TransformKind in p.value then p.value[TransformKind].transform else DefaultTransform();
        var c := ReadComponent(t, StartCamera(s, d), k, d, n);
        Partial(p.value[k := c.value], c.threw)
      case Undefined => p
      case BadSubscript => Partial(p.value, true)
  }

  /** The sections of the kinds `ks`, one after another. */
  function ReadSections(s: Scene.Scene, p: Partial<ComponentSet>, e: Node, ks: seq<Kind>, d: Defaults): (r: Partial<ComponentSet>)
    requires WellKinded(p.value)
    requires forall i :: 0 <= i < |ks| ==> IsSectionKind(ks[i])
    ensures WellKinded(r.value)
    ensures p.threw ==> r == p
    decreases |ks|
  {
    if |ks| == 0 then p
    else ReadSections(s, ReadSection(s, p, e, ks[0], d), e, ks[1..], d)
  }

  /** The component sections of one entity, in the order `deserialize` reads
      them. */
  function ReadComponents(s: Scene.Scene, cs: ComponentSet, e: Node, d: Defaults): (r: Partial<ComponentSet>)
    requires WellKinded(cs)
    ensures WellKinded(r.value)
  {
    ReadSections(s, Partial(cs, false), e, SectionOrder, d)
  }

  /** The name an entity is created with: the tag, or "" without a tag section. */
  function TagName(e: Node): Outcome<string> {
    match Get(e, "TagComponent")
    case Found(t) => AsString(Get(t, "Tag"))
    case Undefined => Value([])
    case BadSubscript => Thrown
  }

  /** One entity of the list: read its id and name, create it, then read its
      sections. The flag is false when a read threw. */
  function LoadEntity(s: Scene.Scene, e: Node, d: Defaults): (r: (Scene.Scene, bool))
    requires Scene.Valid(s)
    ensures Scene.Valid(r.0)
    ensures Extends(s, r.0) && |r.0.order| <= |s.order| + 1
    ensures r.1 ==> |r.0.order| == |s.order| + 1
  {
    match AsU64(Get(e, "Entity"))
    case Thrown => (s, false)
    case Value(id) =>
      match TagName(e)
      case Thrown => (s, false)
      case Value(name) =>
        var (s1, h) := Scene.CreateEntityWithUUID(s, id, name);
        var p := ReadComponents(s1, s1.entities[h], e, d);
        SetEntityKeeps(s, s1, h, p.value);
        (s1.(entities := s1.entities[h := p.value]), !p.threw)
  }

  /** Replacing the component set of the entity just created keeps the scene
      valid and still extends the scene before the creation. */
  lemma SetEntityKeeps(s: Scene.Scene, s1: Scene.Scene, h: Scene.Handle, cs: ComponentSet)
    requires Scene.Valid(s1) && h in s1.entities && h !in s.entities && WellKinded(cs)
    requires Extends(s, s1) && |s1.order| == |s.order| + 1
    ensures var s2 := s1.(entities := s1.entities[h := cs]);
      Scene.Valid(s2) && Extends(s, s2) && |s2.order| == |s.order| + 1
  {
  }

  /** `s2` grows `s`: its entities are kept, new handles go at the end of the
      order, and the viewport stays. */
  predicate Extends(s: Scene.Scene, s2: Scene.Scene) {
    && (forall g :: g in s.entities ==> g in s2.entities && s2.entities[g] == s.entities[g])
    && |s.order| <= |s2.order| && s2.order[..|s.order|] == s.order
    && s2.viewportWidth == s.viewportWidth && s2.viewportHeight == s.viewportHeight
  }

  lemma ExtendsTransitive(s: Scene.Scene, s1: Scene.Scene, s2: Scene.Scene)
    requires Extends(s, s1) && Extends(s1, s2)
    ensures Extends(s, s2)
  {
    assert s2.order[..|s1.order|][..|s.order|] == s2.order[..|s.order|];
  }

  /** The entity loop; an exception stops it. */
  function LoadEntities(s: Scene.Scene, items: seq<Node>, d: Defaults): (r: (Scene.Scene, Ending))
    requires Scene.Valid(s)
    decreases |items|, 1
    ensures Scene.Valid(r.0)
    ensures r.1 != Returned(false)
    ensures Extends(s, r.0) && |r.0.order| <= |s.order| + |items|
  {
    if |items| == 0 then (s, Returned(true)) else LoadNext(s, items, d)
  }

  /** One turn of the loop: load the first entity and, when no read threw,
      go on with the rest. */
  function LoadNext(s: Scene.Scene, items: seq<Node>, d: Defaults): (r: (Scene.Scene, Ending))
    requires Scene.Valid(s) && |items| > 0
    decreases |items|, 0
    ensures Scene.Valid(r.0)
    ensures r.1 != Returned(false)
    ensures Extends(s, r.0) && |r.0.order| <= |s.order| + |items|
  {
    var first := LoadEntity(s, items[0], d);
    if !first.1 then (first.0, Escaped)
    else
      var r := LoadEntities(first.0, items[1..], d);
      ExtendsTransitive(s, first.0, r.0);
      r
  }

  /** `deserialize`: a parse error returns false and any other load failure
      escapes, both with the scene untouched; a missing "Scene" or
      "Entities" returns false; otherwise the entities are created in list
      order, and true is returned unless a read throws. */
  function Deserialize(s: Scene.Scene, loaded: Loaded, d: Defaults): (r: (Scene.Scene, Ending))
    requires Scene.Valid(s)
    ensures Scene.Valid(r.0)
    ensures loaded.ParseError? ==> r == (s, Returned(false))
    ensures loaded.OtherError? ==> r == (s, Escaped)
    ensures loaded.Parsed? && Get(loaded.root, "Scene").Undefined? ==> r == (s, Returned(false))
    ensures loaded.Parsed? && AsString(Get(loaded.root, "Scene")).Value? && Get(loaded.root, "Entities").Undefined? ==>
      r == (s, Returned(false))
    ensures r.1 == Returned(false) ==> r.0 == s
    ensures forall g :: g in s.entities ==> g in r.0.entities && r.0.entities[g] == s.entities[g]
  {
    match loaded
    case ParseError => (s, Returned(false))
    case OtherError => (s, Escaped)
    case Parsed(root) =>
      match Get(root, "Scene")
      case BadSubscript => (s, Escaped)
      case Undefined => (s, Returned(false))
      case Found(sceneName) =>
        match AsString(Found(sceneName))
        case Thrown => (s, Escaped)
        case Value(_) =>
          match Get(root, "Entities")
          case BadSubscript => (s, Escaped)
          case Undefined => (s, Returned(false))
          case Found(entities) =>
            match Items(entities)
            case Thrown => (s, Escaped)
            case Value(items) => LoadEntities(s, items, d)
  }

  /** A null scene name, as in `Scene: ~`, is defined and reads as "null",
      so a file with it and an empty entity list loads. */
  lemma NullSceneNameLoads(d: Defaults)
    ensures Deserialize(Scene.NewScene(), Parsed(Map([("Scene", Null), ("Entities", Seq([]))])), d)
      == (Scene.NewScene(), Returned(true))
  {
  }

  // ---------------------------------------------------------------------------
  // Reading back what was written

  /** What a written component reads back as in a scene whose viewport is
      `w` × `h`: itself, except that a camera is the fresh camera fitted to
      the viewport, so its aspect ratio comes from the viewport and not from
      the file. */
  function Reloaded(c: Component, w: nat, h: nat): (r: Component)
    ensures KindOf(r) == KindOf(c)
  {
    match c
    case Camera(cc) => Camera(cc.(camera := SceneCamera.SetViewportSize(cc.camera, w, h)))
    case _ => c
  }

  /** The camera every "CameraComponent" section starts from is the default
      camera fitted to the viewport. */
  lemma StartCameraAspect(s: Scene.Scene, d: Defaults, cc: CameraComponent)
    ensures cc.(camera := cc.camera.(aspect := StartCamera(s, d).camera.aspect))
      == cc.(camera := SceneCamera.SetViewportSize(cc.camera, s.viewportWidth, s.viewportHeight))
  {
  }

  /** The set `m` with the kind `k` of a written entity `cs` put in,
      reloaded, when `cs` has that kind. */
  function Put(m: ComponentSet, cs: ComponentSet, k: Kind, w: nat, h: nat): ComponentSet {
    if k in cs then m[k := Reloaded(cs[k], w, h)] else m
  }

  /** The node under a kind's key in a written entity. */
  function SectionNode(cs: ComponentSet, k: Kind): Node
    requires IdKind in cs && cs[IdKind].IdComponent?
  {
    var l := Get(EncodeEntity(cs), KeyOf(k));
    if l.Found? then l.node else Null
  }

  lemma TransformSectionRead(t: Transform, cs: ComponentSet, w: nat, h: nat)
    requires Writable(cs) && TransformKind in cs
    ensures ReadTransformComponent(t, SectionNode(cs, TransformKind)) == Partial(Reloaded(cs[TransformKind], w, h), false)
  {
    EntityLookup(cs, TransformKind);
    ReadTransformRoundTrip(t, cs[TransformKind].transform);
  }

  lemma CameraSectionRead(s: Scene.Scene, d: Defaults, cs: ComponentSet)
    requires Writable(cs) && CameraKind in cs
    ensures ReadCameraComponent(StartCamera(s, d), SectionNode(cs, CameraKind))
      == Partial(Reloaded(cs[CameraKind], s.viewportWidth, s.viewportHeight), false)
  {
    EntityLookup(cs, CameraKind);
    ReadCameraRoundTrip(StartCamera(s, d), cs[CameraKind].camera);
    StartCameraAspect(s, d, cs[CameraKind].camera);
  }

  lemma SpriteSectionRead(cs: ComponentSet, w: nat, h: nat)
    requires Writable(cs) && SpriteKind in cs
    ensures ReadSpriteComponent(DefaultSpriteColor(), SectionNode(cs, SpriteKind)) == Partial(Reloaded(cs[SpriteKind], w, h), false)
  {
    EntityLookup(cs, SpriteKind);
    ReadSpriteRoundTrip(DefaultSpriteColor(), cs[SpriteKind].color);
  }

  lemma CircleSectionRead(c0: CircleRenderer, cs: ComponentSet, w: nat, h: nat)
    requires Writable(cs) && CircleKind in cs
    ensures ReadCircleComponent(c0, SectionNode(cs, CircleKind)) == Partial(Reloaded(cs[CircleKind], w, h), false)
  {
    EntityLookup(cs, CircleKind);
    ReadCircleRoundTrip(c0, cs[CircleKind].circle);
  }

  lemma BodySectionRead(b0: Rigidbody2D, cs: ComponentSet, w: nat, h: nat)
    requires Writable(cs) && RigidbodyKind in cs
    ensures ReadBodyComponent(b0, SectionNode(cs, RigidbodyKind)) == Partial(Reloaded(cs[RigidbodyKind], w, h), false)
  {
    EntityLookup(cs, RigidbodyKind);
    ReadBodyRoundTrip(b0, cs[RigidbodyKind].body);
  }

  lemma BoxSectionRead(b0: BoxCollider2D, cs: ComponentSet, w: nat, h: nat)
    requires Writable(cs) && BoxColliderKind in cs
    ensures ReadBoxComponent(b0, SectionNode(cs, BoxColliderKind)) == Partial(Reloaded(cs[BoxColliderKind], w, h), false)
  {
    EntityLookup(cs, BoxColliderKind);
    ReadBoxRoundTrip(b0, cs[BoxColliderKind].box);
  }

  /** A kind the written entity has reads back, from its section, as the
      reloaded component. */
  lemma ComponentRoundTrip(s: Scene.Scene, t: Transform, cs: ComponentSet, k: Kind, d: Defaults)
    requires IsSectionKind(k) && k in cs
    requires Writable(cs)
    ensures ReadComponent(t, StartCamera(s, d), k, d, SectionNode(cs, k))
      == Partial(Reloaded(cs[k], s.viewportWidth, s.viewportHeight), false)
  {
    var w := s.viewportWidth;
    var h := s.viewportHeight;
    match k
    case TransformKind => TransformSectionRead(t, cs, w, h);
    case CameraKind => CameraSectionRead(s, d, cs);
    case SpriteKind => SpriteSectionRead(cs, w, h);
    case CircleKind => CircleSectionRead(d.circle, cs, w, h);
    case RigidbodyKind => BodySectionRead(d.body, cs, w, h);
    case BoxColliderKind => BoxSectionRead(d.box, cs, w, h);
  }

  /** One section of an entity's written map reads back into the set being
      built: its kind gets the reloaded component when the entity had one,
      and nothing changes when it did not. Nothing throws. */
  lemma SectionRoundTrip(s: Scene.Scene, m: ComponentSet, cs: ComponentSet, k: Kind, d: Defaults)
    requires WellKinded(m) && IsSectionKind(k)
    requires Writable(cs)
    ensures ReadSection(s, Partial(m, false), EncodeEntity(cs), k, d)
      == Partial(Put(m, cs, k, s.viewportWidth, s.viewportHeight), false)
  {
    EntityLookup(cs, k);
    if k in cs {
      var t := if TransformKind in m then m[TransformKind].transform else DefaultTransform();
      ComponentRoundTrip(s, t, cs, k, d);
      ReadFoundSection(s, m, EncodeEntity(cs), k, d, SectionNode(cs, k));
    }
  }

  /** A section that is there is read from the transform built so far. */
  lemma ReadFoundSection(s: Scene.Scene, m: ComponentSet, e: Node, k: Kind, d: Defaults, n: Node)
    requires WellKinded(m) && IsSectionKind(k)
    requires Get(e, KeyOf(k)) == Found(n)
    ensures var t := if TransformKind in m then m[TransformKind].transform else DefaultTransform();
      var c := ReadComponent(t, StartCamera(s, d), k, d, n);
      ReadSection(s, Partial(m, false), e, k, d) == Partial(m[k := c.value], c.threw)
  {
  }

  /** `m` with the kinds `ks` of a written entity put in, in order. */
  function PutAll(m: ComponentSet, cs: ComponentSet, ks: seq<Kind>, w: nat, h: nat): ComponentSet
    decreases |ks|
  {
    if |ks| == 0 then m else PutAll(Put(m, cs, ks[0], w, h), cs, ks[1..], w, h)
  }

  /** Reading the sections `ks` of a written entity puts each kind in. */
  lemma {:induction false} ReadSectionsRoundTrip(s: Scene.Scene, m: ComponentSet, cs: ComponentSet, ks: seq<Kind>, d: Defaults)
    requires WellKinded(m) && forall i :: 0 <= i < |ks| ==> IsSectionKind(ks[i])
    requires Writable(cs)
    ensures ReadSections(s, Partial(m, false), EncodeEntity(cs), ks, d)
      == Partial(PutAll(m, cs, ks, s.viewportWidth, s.viewportHeight), false)
    decreases |ks|
  {
    if |ks| > 0 {
      SectionRoundTrip(s, m, cs, ks[0], d);
      PutKeepsKinds(m, cs, ks[0], s.viewportWidth, s.viewportHeight);
      ReadSectionsRoundTrip(s, Put(m, cs, ks[0], s.viewportWidth, s.viewportHeight), cs, ks[1..], d);
    }
  }

  lemma PutKeepsKinds(m: ComponentSet, cs: ComponentSet, k: Kind, w: nat, h: nat)
    requires WellKinded(m) && WellKinded(cs)
    ensures WellKinded(Put(m, cs, k, w, h))
  {
  }

  /** Reading all sections of a written entity, in order, puts each kind it
      has in, and nothing throws. */
  lemma ReadComponentsRoundTrip(s: Scene.Scene, created: ComponentSet, cs: ComponentSet, d: Defaults)
    requires WellKinded(created)
    requires Writable(cs)
    ensures ReadComponents(s, created, EncodeEntity(cs), d)
      == Partial(PutAll(created, cs, SectionOrder, s.viewportWidth, s.viewportHeight), false)
  {
    ReadSectionsRoundTrip(s, created, cs, SectionOrder, d);
  }

  /** A component set `serializeEntity` accepts: it has an id, and each
      component sits under its own kind. */
  predicate Writable(cs: ComponentSet) {
    IdKind in cs && cs[IdKind].IdComponent? && WellKinded(cs)
  }

  /** What `PutAll` holds: the kinds of `m`, and the listed kinds the written
      entity has, those reloaded. */
  lemma {:induction false} PutAllLookup(m: ComponentSet, cs: ComponentSet, ks: seq<Kind>, w: nat, h: nat, k: Kind)
    decreases |ks|
    ensures k in PutAll(m, cs, ks, w, h) <==> k in m || (k in ks && k in cs)
    ensures k in ks && k in cs ==> PutAll(m, cs, ks, w, h)[k] == Reloaded(cs[k], w, h)
    ensures (k !in ks || k !in cs) && k in m ==> PutAll(m, cs, ks, w, h)[k] == m[k]
  {
    if |ks| > 0 {
      PutAllLookup(Put(m, cs, ks[0], w, h), cs, ks[1..], w, h, k);
      assert ks == [ks[0]] + ks[1..];
    }
  }

  /** The name a written entity is created with when read back: its tag, or
      "Entity" when the tag is empty or missing. */
  function CreatedName(cs: ComponentSet): string
    requires WellKinded(cs)
  {
    if TagKind in cs && cs[TagKind].tag != [] then cs[TagKind].tag else "Entity"
  }

  /** The set `createEntityWithUUID` gives a written entity. */
  function Created(cs: ComponentSet): ComponentSet
    requires Writable(cs)
  {
    map[IdKind := cs[IdKind], TransformKind := TransformComponent(DefaultTransform()), TagKind := TagComponent(CreatedName(cs))]
  }

  /** A written entity as it is read back into a scene whose viewport is
      `w` × `h`. */
  function ReloadedEntity(cs: ComponentSet, w: nat, h: nat): ComponentSet
    requires Writable(cs)
  {
    PutAll(Created(cs), cs, SectionOrder, w, h)
  }

  /** Reading a written entity back keeps its id, gives it its tag (or
      "Entity"), keeps its transform (or gives the default one), keeps every
      other section component, with cameras fitted to the viewport, and drops
      the native script, which is never written. */
  lemma ReloadedEntityContents(cs: ComponentSet, w: nat, h: nat, k: Kind)
    requires Writable(cs)
    ensures var r := ReloadedEntity(cs, w, h);
      && (k in r <==> k in {IdKind, TagKind, TransformKind} || (k in cs && k != NativeScriptKind))
      && (k in r ==> KindOf(r[k]) == k)
      && (k == IdKind ==> r[k] == cs[IdKind])
      && (k == TagKind ==> r[k] == TagComponent(CreatedName(cs)))
      && (k == TransformKind ==> r[k] == if k in cs then cs[k] else TransformComponent(DefaultTransform()))
      && (k in cs && k != IdKind && k != TagKind && k != NativeScriptKind ==> r[k] == Reloaded(cs[k], w, h))
  {
    assert k in SectionOrder <==> IsSectionKind(k);
    PutAllSections(cs, SectionOrder, w, h, k);
  }

  /** `ReloadedEntityContents` for any list `ks` of the section kinds. */
  lemma PutAllSections(cs: ComponentSet, ks: seq<Kind>, w: nat, h: nat, k: Kind)
    requires Writable(cs) && (k in ks <==> IsSectionKind(k))
    ensures var r := PutAll(Created(cs), cs, ks, w, h);
      && (k in r <==> k in {IdKind, TagKind, TransformKind} || (k in cs && k != NativeScriptKind))
      && (k in r ==> KindOf(r[k]) == k)
      && (k == IdKind ==> r[k] == cs[IdKind])
      && (k == TagKind ==> r[k] == TagComponent(CreatedName(cs)))
      && (k == TransformKind ==> r[k] == if k in cs then cs[k] else TransformComponent(DefaultTransform()))
      && (k in cs && k != IdKind && k != TagKind && k != NativeScriptKind ==> r[k] == Reloaded(cs[k], w, h))
  {
    PutAllLookup(Created(cs), cs, ks, w, h, k);
    if k in cs {
      assert KindOf(cs[k]) == k;
    }
  }

  /** An entity with a transform, a non-empty tag, no camera and no native
      script reads back exactly as it was written. */
  lemma ReloadKeepsPlainEntity(cs: ComponentSet, w: nat, h: nat)
    requires Writable(cs)
    requires TransformKind in cs && TagKind in cs && cs[TagKind].tag != []
    requires CameraKind !in cs && NativeScriptKind !in cs
    ensures ReloadedEntity(cs, w, h) == cs
  {
    forall k ensures k in ReloadedEntity(cs, w, h) <==> k in cs {
      ReloadedEntityContents(cs, w, h, k);
    }
    forall k | k in cs ensures ReloadedEntity(cs, w, h)[k] == cs[k] {
      ReloadedEntityContents(cs, w, h, k);
    }
  }

  /** The name a written entity's tag section gives back (empty when missing). */
  function WrittenName(cs: ComponentSet): string
    requires WellKinded(cs)
  {
    if TagKind in cs then cs[TagKind].tag else []
  }

  lemma EntityHeaderRead(cs: ComponentSet)
    requires Writable(cs)
    ensures AsU64(Get(EncodeEntity(cs), "Entity")) == Value(cs[IdKind].id)
    ensures TagName(EncodeEntity(cs)) == Value(WrittenName(cs))
  {
    EntityLookup(cs, TagKind);
  }

  lemma CreatedFromHeader(s: Scene.Scene, cs: ComponentSet)
    requires Scene.Valid(s)
    requires Writable(cs)
    ensures var c := Scene.CreateEntityWithUUID(s, cs[IdKind].id, WrittenName(cs));
      c.0.entities[c.1] == Created(cs)
  {
    Scene.CreatedWithUUIDSet(s, cs[IdKind].id, WrittenName(cs));
  }

  /** `LoadEntity` once its id and name have been read. */
  lemma LoadEntityAfterHeader(s: Scene.Scene, e: Node, d: Defaults, id: UUID, name: string)
    requires Scene.Valid(s)
    requires AsU64(Get(e, "Entity")) == Value(id) && TagName(e) == Value(name)
    ensures var c := Scene.CreateEntityWithUUID(s, id, name);
      var p := ReadComponents(c.0, c.0.entities[c.1], e, d);
      LoadEntity(s, e, d) == (c.0.(entities := c.0.entities[c.1 := p.value]), !p.threw)
  {
  }

  /** Reference for the load loop: `cs` added under the next fresh handle,
      at the end of the order. */
  function Append(s: Scene.Scene, cs: ComponentSet): (r: Scene.Scene)
    ensures |r.order| == |s.order| + 1 && r.order[..|s.order|] == s.order && r.order[|s.order|] == s.next
    ensures r.next == s.next + 1 && s.next in r.entities && r.entities[s.next] == cs
    ensures forall g :: g in s.entities && g != s.next ==> g in r.entities && r.entities[g] == s.entities[g]
  {
    s.(entities := s.entities[s.next := cs], order := s.order + [s.next], next := s.next + 1)
  }

  /** Creating an entity and then replacing its set is appending that set. */
  lemma CreateThenFill(s: Scene.Scene, id: UUID, name: string, x: ComponentSet)
    requires Scene.Valid(s)
    ensures var c := Scene.CreateEntityWithUUID(s, id, name);
      c.0.(entities := c.0.entities[c.1 := x]) == Append(s, x)
  {
    var c := Scene.CreateEntityWithUUID(s, id, name);
    assert c.0.entities[c.1 := x] == s.entities[s.next := x];
  }

  /** A written entity loads as exactly that: its reloaded set appended. */
  lemma LoadEntityIsAppend(s: Scene.Scene, cs: ComponentSet, d: Defaults)
    requires Scene.Valid(s) && Writable(cs)
    ensures LoadEntity(s, EncodeEntity(cs), d) == (Append(s, ReloadedEntity(cs, s.viewportWidth, s.viewportHeight)), true)
  {
    var e := EncodeEntity(cs);
    var x := ReloadedEntity(cs, s.viewportWidth, s.viewportHeight);
    EntityHeaderRead(cs);
    LoadEntityAfterHeader(s, e, d, cs[IdKind].id, WrittenName(cs));
    var c := Scene.CreateEntityWithUUID(s, cs[IdKind].id, WrittenName(cs));
    CreatedFromHeader(s, cs);
    ReadComponentsRoundTrip(c.0, c.0.entities[c.1], cs, d);
    CreateThenFill(s, cs[IdKind].id, WrittenName(cs), x);
  }

  /** A written entity at the head of the list is appended, and the loop
      goes on with the rest. */
  lemma LoadHeadIsAppend(s: Scene.Scene, cs: ComponentSet, rest: seq<Node>, d: Defaults)
    requires Scene.Valid(s) && Writable(cs)
    ensures Scene.Valid(Append(s, ReloadedEntity(cs, s.viewportWidth, s.viewportHeight)))
    ensures LoadEntities(s, [EncodeEntity(cs)] + rest, d)
         == LoadEntities(Append(s, ReloadedEntity(cs, s.viewportWidth, s.viewportHeight)), rest, d)
  {
    var items := [EncodeEntity(cs)] + rest;
    assert items[0] == EncodeEntity(cs) && items[1..] == rest;
    LoadEntityIsAppend(s, cs, d);
  }

  /** The entity list written for a list of component sets. */
  function EncodeAll(css: seq<ComponentSet>): (items: seq<Node>)
    requires forall i :: 0 <= i < |css| ==> Writable(css[i])
    ensures |items| == |css|
  {
    if |css| == 0 then []
    else
      assert Writable(css[0]);
      [EncodeEntity(css[0])] + EncodeAll(css[1..])
  }

  lemma {:induction false} EncodeAllAt(css: seq<ComponentSet>, i: nat)
    requires forall j :: 0 <= j < |css| ==> Writable(css[j])
    requires i < |css|
    ensures EncodeAll(css)[i] == EncodeEntity(css[i])
  {
    if i > 0 {
      EncodeAllAt(css[1..], i - 1);
    }
  }

  /** Reference for the whole loop: the reloaded sets appended in list
      order. */
  function AppendAll(s: Scene.Scene, css: seq<ComponentSet>): Scene.Scene
    requires forall i :: 0 <= i < |css| ==> Writable(css[i])
    decreases |css|
  {
    if |css| == 0 then s
    else
      assert Writable(css[0]);
      AppendAll(Append(s, ReloadedEntity(css[0], s.viewportWidth, s.viewportHeight)), css[1..])
  }

  /** The written sets, each reloaded into a `w` × `h` viewport. */
  function Reloads(css: seq<ComponentSet>, w: nat, h: nat): (xs: seq<ComponentSet>)
    requires forall i :: 0 <= i < |css| ==> Writable(css[i])
    ensures |xs| == |css|
    ensures forall i :: 0 <= i < |css| ==> xs[i] == ReloadedEntity(css[i], w, h)
  {
    seq(|css|, i requires 0 <= i < |css| => ReloadedEntity(css[i], w, h))
  }

  /** The sets `xs` appended one after another. */
  function AppendSets(s: Scene.Scene, xs: seq<ComponentSet>): Scene.Scene
    decreases |xs|
  {
    if |xs| == 0 then s else AppendSets(Append(s, xs[0]), xs[1..])
  }

  /** Loading appends the reloaded sets. */
  lemma {:induction false} AppendAllIsAppendSets(s: Scene.Scene, css: seq<ComponentSet>)
    requires forall i :: 0 <= i < |css| ==> Writable(css[i])
    decreases |css|
    ensures AppendAll(s, css) == AppendSets(s, Reloads(css, s.viewportWidth, s.viewportHeight))
  {
    if |css| > 0 {
      AppendAllStep(s, css);
      var x := ReloadedEntity(css[0], s.viewportWidth, s.viewportHeight);
      var s1 := Append(s, x);
      AppendAllIsAppendSets(s1, css[1..]);
      var xs := Reloads(css, s.viewportWidth, s.viewportHeight);
      assert xs[1..] == Reloads(css[1..], s.viewportWidth, s.viewportHeight);
      assert xs[0] == x;
    }
  }

  /** The appended entities come after the old order, under handles from
      `s.next` on, leaving older handles and the viewport alone. */
  lemma {:induction false} AppendSetsFrame(s: Scene.Scene, xs: seq<ComponentSet>)
    decreases |xs|
    ensures var r := AppendSets(s, xs);
      && |r.order| == |s.order| + |xs| && r.order[..|s.order|] == s.order
      && r.next == s.next + |xs|
      && r.viewportWidth == s.viewportWidth && r.viewportHeight == s.viewportHeight
      && forall g :: g in s.entities && g < s.next ==> g in r.entities && r.entities[g] == s.entities[g]
  {
    if |xs| > 0 {
      var s1 := Append(s, xs[0]);
      AppendSetsFrame(s1, xs[1..]);
      var r := AppendSets(s1, xs[1..]);
      assert r.order[..|s.order|] == r.order[..|s1.order|][..|s.order|];
    }
  }

  /** The `i`-th appended entity holds the `i`-th set. */
  lemma {:induction false} AppendSetsAt(s: Scene.Scene, xs: seq<ComponentSet>, i: nat)
    requires i < |xs|
    decreases i
    ensures var r := AppendSets(s, xs);
      |s.order| + i < |r.order|
      && r.order[|s.order| + i] in r.entities
      && r.entities[r.order[|s.order| + i]] == xs[i]
  {
    var s1 := Append(s, xs[0]);
    var r := AppendSets(s1, xs[1..]);
    AppendSetsFrame(s1, xs[1..]);
    if i == 0 {
      assert r.order[|s.order|] == r.order[..|s1.order|][|s.order|];
    } else {
      AppendSetsAt(s1, xs[1..], i - 1);
      assert |s1.order| + (i - 1) == |s.order| + i;
      assert xs[1..][i - 1] == xs[i];
    }
  }

  /** The frame of `AppendAll`, from that of `AppendSets`. */
  lemma AppendAllFrame(s: Scene.Scene, css: seq<ComponentSet>)
    requires forall i :: 0 <= i < |css| ==> Writable(css[i])
    ensures var r := AppendAll(s, css);
      && |r.order| == |s.order| + |css| && r.order[..|s.order|] == s.order
      && r.next == s.next + |css|
      && r.viewportWidth == s.viewportWidth && r.viewportHeight == s.viewportHeight
      && forall g :: g in s.entities && g < s.next ==> g in r.entities && r.entities[g] == s.entities[g]
  {
    AppendAllIsAppendSets(s, css);
    AppendSetsFrame(s, Reloads(css, s.viewportWidth, s.viewportHeight));
  }

  lemma WritableTail(css: seq<ComponentSet>)
    requires forall j :: 0 <= j < |css| ==> Writable(css[j])
    requires 0 < |css|
    ensures forall j :: 0 <= j < |css[1..]| ==> Writable(css[1..][j])
  {
    forall j | 0 <= j < |css[1..]| ensures Writable(css[1..][j]) {
      assert css[1..][j] == css[j + 1];
    }
  }

  /** The `i`-th appended entity holds the `i`-th set, reloaded. */
  lemma AppendAllAt(s: Scene.Scene, css: seq<ComponentSet>, i: nat)
    requires forall j :: 0 <= j < |css| ==> Writable(css[j])
    requires i < |css|
    ensures var r := AppendAll(s, css);
      |s.order| + i < |r.order|
      && r.order[|s.order| + i] in r.entities
      && r.entities[r.order[|s.order| + i]] == ReloadedEntity(css[i], s.viewportWidth, s.viewportHeight)
  {
    AppendAllIsAppendSets(s, css);
    AppendSetsAt(s, Reloads(css, s.viewportWidth, s.viewportHeight), i);
  }

  /** `AppendAll` appends the first set, then the rest after it. */
  lemma AppendAllStep(s: Scene.Scene, css: seq<ComponentSet>)
    requires forall j :: 0 <= j < |css| ==> Writable(css[j])
    requires 0 < |css|
    ensures Writable(css[0])
    ensures forall j :: 0 <= j < |css[1..]| ==> Writable(css[1..][j])
    ensures var s1 := Append(s, ReloadedEntity(css[0], s.viewportWidth, s.viewportHeight));
      && AppendAll(s, css) == AppendAll(s1, css[1..])
      && |s1.order| == |s.order| + 1
      && s1.viewportWidth == s.viewportWidth && s1.viewportHeight == s.viewportHeight
  {
    assert Writable(css[0]);
    WritableTail(css);
  }

  /** A list of written entities loads exactly as the reference appends
      them, and the loop returns. */
  lemma {:induction false} LoadEntitiesRoundTrip(s: Scene.Scene, css: seq<ComponentSet>, d: Defaults)
    requires Scene.Valid(s)
    requires forall i :: 0 <= i < |css| ==> Writable(css[i])
    decreases |css|
    ensures LoadEntities(s, EncodeAll(css), d) == (AppendAll(s, css), Returned(true))
  {
    if |css| > 0 {
      var rest := EncodeAll(css[1..]);
      assert EncodeAll(css) == [EncodeEntity(css[0])] + rest;
      assert Writable(css[0]);
      LoadHeadIsAppend(s, css[0], rest, d);
      LoadEntitiesRoundTrip(Append(s, ReloadedEntity(css[0], s.viewportWidth, s.viewportHeight)), css[1..], d);
    }
  }

  /** The component sets of a scene, in view order. */
  function OrderedSets(s: Scene.Scene): (css: seq<ComponentSet>)
    requires Scene.Valid(s) && AllHaveIds(s)
    ensures |css| == |s.order|
    ensures forall i :: 0 <= i < |css| ==> css[i] == s.entities[s.order[i]] && Writable(css[i])
  {
    seq(|s.order|, i requires 0 <= i < |s.order| => s.entities[s.order[i]])
  }

  /** Writing a scene and reading the file into a scene `t` appends, after
      `t`'s own entities, one entity per written entity in the same order,
      each holding its reloaded set, and `deserialize` returns true. */
  lemma SceneRoundTrip(s: Scene.Scene, t: Scene.Scene, d: Defaults)
    requires Scene.Valid(s) && AllHaveIds(s) && Scene.Valid(t)
    ensures Deserialize(t, Parsed(Serialize(s)), d) == (AppendAll(t, OrderedSets(s)), Returned(true))
  {
    var n := Serialize(s);
    var items := Items(Get(n, "Entities").node).value;
    var css := OrderedSets(s);
    forall i | 0 <= i < |css| ensures items[i] == EncodeAll(css)[i] {
      EncodeAllAt(css, i);
    }
    assert items == EncodeAll(css);
    LoadEntitiesRoundTrip(t, css, d);
  }

  /** So the `i`-th entity of the scene read back is the `i`-th written
      entity, reloaded. */
  lemma SceneRoundTripAt(s: Scene.Scene, t: Scene.Scene, d: Defaults, i: nat)
    requires Scene.Valid(s) && AllHaveIds(s) && Scene.Valid(t) && i < |s.order|
    ensures var r := Deserialize(t, Parsed(Serialize(s)), d).0;
      && |r.order| == |t.order| + |s.order|
      && r.entities[r.order[|t.order| + i]]
         == ReloadedEntity(s.entities[s.order[i]], t.viewportWidth, t.viewportHeight)
  {
    SceneRoundTrip(s, t, d);
    AppendAllFrame(t, OrderedSets(s));
    AppendAllAt(t, OrderedSets(s), i);
  }
}
