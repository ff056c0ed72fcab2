/** The scene: a registry of entities, each with a set of components, plus
    the viewport size that cameras added later are fitted to. */
module Scene {
  import opened Wrappers
  import opened Components
  import SceneCamera
  import Timestep

  /** A registry handle. */
  type Handle = nat

  /** `uint32_t` viewport sizes. */
  type U32 = n: nat | n < 0x1_0000_0000

  /** An `Entity` value: a registry handle (null is `None`) and the address
      of the scene it lives in. */
  datatype Entity = Entity(handle: Option<Handle>, scene: nat)

  /** `operator bool`: the handle is not null. */
  predicate Truthy(e: Entity) {
    e.handle.Some?
  }

  /** `operator==`: same handle and same scene. */
  predicate SameEntity(a: Entity, b: Entity) {
    a.handle == b.handle && a.scene == b.scene
  }

  /** `operator==` is equality of the pair and `operator!=` is its negation;
      a default entity is falsy. */
  lemma EntityEquality(a: Entity, b: Entity)
    ensures SameEntity(a, b) <==> a == b
    ensures !SameEntity(a, b) <==> a != b
    ensures !Truthy(Entity(None, a.scene)) && Truthy(Entity(Some(0), a.scene))
  {
  }

  /** `order` lists the live handles in creation order, which stands for the
      registry's iteration order; `next` is a handle never handed out yet. */
  datatype Scene = Scene(
    entities: map<Handle, ComponentSet>,
    order: seq<Handle>,
    next: Handle,
    viewportWidth: U32,
    viewportHeight: U32)

  predicate Distinct(hs: seq<Handle>) {
    forall i, j :: 0 <= i < j < |hs| ==> hs[i] != hs[j]
  }

  predicate Valid(s: Scene) {
    && Distinct(s.order)
    && (forall h :: h in s.order ==> h in s.entities)
    && (forall h :: h in s.entities ==> h in s.order && h < s.next && WellKinded(s.entities[h]))
  }

  /** The constructor: no entities and a 0 × 0 viewport. */
  function NewScene(): (s: Scene)
    ensures Valid(s) && s.order == [] && s.viewportWidth == 0 && s.viewportHeight == 0
  {
    Scene(map[], [], 0, 0, 0)
  }

  /** `hasComponent<T>` for a live handle. */
  predicate Has(s: Scene, h: Handle, k: Kind)
    requires h in s.entities
  {
    k in s.entities[h]
  }

  /** Every other entity, the order, the handle supply and the viewport are
      as they were. */
  predicate OthersUnchanged(s: Scene, s': Scene, h: Handle) {
    && s'.order == s.order && s'.next == s.next
    && s'.viewportWidth == s.viewportWidth && s'.viewportHeight == s.viewportHeight
    && s'.entities.Keys == s.entities.Keys
    && (forall g :: g in s.entities && g != h ==> s'.entities[g] == s.entities[g])
  }

  /** Every kind other than `k` is present in both sets or in neither, with the
      same value. */
  predicate KindsUnchanged(cs: ComponentSet, cs': ComponentSet, k: Kind) {
    forall j :: j != k ==> (j in cs <==> j in cs') && (j in cs ==> cs[j] == cs'[j])
  }

  /** `onComponentAdded<T>`: a camera is fitted to the stored viewport; every
      other kind is left as it is. */
  function OnComponentAdded(s: Scene, c: Component): (c': Component)
    ensures KindOf(c') == KindOf(c)
    ensures !c.Camera? ==> c' == c
    ensures c.Camera? ==>
      && c'.camera.primary == c.camera.primary
      && c'.camera.fixedAspectRatio == c.camera.fixedAspectRatio
      && c'.camera.camera == SceneCamera.SetViewportSize(c.camera.camera, s.viewportWidth, s.viewportHeight)
  {
    match c
    case Camera(cc) => Camera(cc.(camera := SceneCamera.SetViewportSize(cc.camera, s.viewportWidth, s.viewportHeight)))
    case _ => c
  }

  /** `addComponent<T>`: the entity must not have a `T` yet; the component is
      emplaced and the added-hook runs on it. */
  function AddComponent(s: Scene, h: Handle, c: Component): (r: (Scene, Component))
    requires h in s.entities && !Has(s, h, KindOf(c))
    ensures h in r.0.entities && Has(r.0, h, KindOf(c))
    ensures r.1 == OnComponentAdded(s, c) && r.0.entities[h][KindOf(c)] == r.1
    ensures KindsUnchanged(s.entities[h], r.0.entities[h], KindOf(c))
    ensures OthersUnchanged(s, r.0, h)
    ensures Valid(s) ==> Valid(r.0)
  {
    var c' := OnComponentAdded(s, c);
    (s.(entities := s.entities[h := s.entities[h][KindOf(c) := c']]), c')
  }

  /** `addOrReplaceComponent<T>`: no precondition; the component is emplaced
      or overwritten and the added-hook runs on it. */
  function AddOrReplaceComponent(s: Scene, h: Handle, c: Component): (r: (Scene, Component))
    requires h in s.entities
    ensures h in r.0.entities && Has(r.0, h, KindOf(c))
    ensures r.1 == OnComponentAdded(s, c) && r.0.entities[h][KindOf(c)] == r.1
    ensures KindsUnchanged(s.entities[h], r.0.entities[h], KindOf(c))
    ensures OthersUnchanged(s, r.0, h)
    ensures Valid(s) ==> Valid(r.0)
  {
    var c' := OnComponentAdded(s, c);
    (s.(entities := s.entities[h := s.entities[h][KindOf(c) := c']]), c')
  }

  /** `getComponent<T>`: the entity must have a `T`. */
  function GetComponent(s: Scene, h: Handle, k: Kind): (c: Component)
    requires Valid(s) && h in s.entities && Has(s, h, k)
    ensures KindOf(c) == k && c in s.entities[h].Values
  {
    s.entities[h][k]
  }

  /** `removeComponent<T>`: the entity must have a `T`; afterwards it has none
      and keeps every other component. */
  function RemoveComponent(s: Scene, h: Handle, k: Kind): (s': Scene)
    requires h in s.entities && Has(s, h, k)
    ensures h in s'.entities && !Has(s', h, k)
    ensures KindsUnchanged(s.entities[h], s'.entities[h], k)
    ensures OthersUnchanged(s, s', h)
    ensures Valid(s) ==> Valid(s')
  {
    s.(entities := s.entities[h := s.entities[h] - {k}])
  }

  /** Adding a component and removing it again gives the scene back, and on
      an entity without the component, add-or-replace is add. */
  lemma AddThenRemove(s: Scene, h: Handle, c: Component)
    requires h in s.entities && !Has(s, h, KindOf(c))
    ensures RemoveComponent(AddComponent(s, h, c).0, h, KindOf(c)) == s
    ensures AddOrReplaceComponent(s, h, c) == AddComponent(s, h, c)
  {
    var e := s.entities[h];
    var c' := OnComponentAdded(s, c);
    AddThenRemoveKey(e, KindOf(c), c');
    assert s.entities[h := e] == s.entities;
  }

  lemma AddThenRemoveKey(m: ComponentSet, k: Kind, v: Component)
    requires k !in m
    ensures m[k := v] - {k} == m
  {
  }

  /** `getUUID`: the id held by the entity's `IDComponent`. */
  function UUIDOf(s: Scene, h: Handle): (id: UUID)
    requires Valid(s) && h in s.entities && Has(s, h, IdKind)
    ensures s.entities[h][IdKind] == IdComponent(id)
  {
    GetComponent(s, h, IdKind).id
  }

  /** `getName`: the tag held by the entity's `TagComponent`. */
  function NameOf(s: Scene, h: Handle): (name: string)
    requires Valid(s) && h in s.entities && Has(s, h, TagKind)
    ensures s.entities[h][TagKind] == TagComponent(name)
  {
    GetComponent(s, h, TagKind).tag
  }

  /** `createEntity(name)`: a fresh handle with a default transform and a tag,
      "Entity" when the name is empty. */
  function CreateEntity(s: Scene, name: string): (r: (Scene, Handle))
    requires Valid(s)
    ensures Valid(r.0) && r.1 !in s.entities && r.1 in r.0.entities
    ensures r.1 == s.next && r.0.next == s.next + 1
    ensures r.0.order == s.order + [r.1] && r.0.entities.Keys == s.entities.Keys + {r.1}
    ensures r.0.entities[r.1].Keys == {TransformKind, TagKind}
    ensures r.0.entities[r.1][TransformKind] == TransformComponent(DefaultTransform())
    ensures name != [] ==> NameOf(r.0, r.1) == name
    ensures name == [] ==> NameOf(r.0, r.1) == "Entity"
    ensures forall g :: g in s.entities ==> g in r.0.entities && r.0.entities[g] == s.entities[g]
    ensures r.0.viewportWidth == s.viewportWidth && r.0.viewportHeight == s.viewportHeight
  {
    var h := s.next;
    var tag := TagComponent(if name == [] then "Entity" else name);
    var cs := map[TransformKind := TransformComponent(DefaultTransform()), TagKind := tag];
    assert OnComponentAdded(s, tag) == tag;
    InsertFresh(s, cs);
    (s.(entities := s.entities[h := cs], order := s.order + [h], next := h + 1), h)
  }

  /** Putting a well-kinded set in under the next handle, at the end of the
      order, keeps the scene valid and every other entity as it was. */
  lemma InsertFresh(s: Scene, cs: ComponentSet)
    requires Valid(s) && WellKinded(cs)
    ensures var s' := s.(entities := s.entities[s.next := cs], order := s.order + [s.next], next := s.next + 1);
      && Valid(s')
      && s.next !in s.entities
      && s'.entities.Keys == s.entities.Keys + {s.next}
      && forall g :: g in s.entities ==> g in s'.entities && s'.entities[g] == s.entities[g]
  {
    FreshHandle(s);
    AppendDistinct(s.order, s.next);
  }

  /** The next handle is not in use. */
  lemma FreshHandle(s: Scene)
    requires Valid(s)
    ensures s.next !in s.order && s.next !in s.entities
  {
  }

  lemma AppendDistinct(hs: seq<Handle>, h: Handle)
    requires Distinct(hs) && h !in hs
    ensures Distinct(hs + [h])
  {
  }

  /** `createEntityWithUUID(uuid, name)`: as `createEntity`, and the entity
      also carries the given id. */
  function CreateEntityWithUUID(s: Scene, uuid: UUID, name: string): (r: (Scene, Handle))
    requires Valid(s)
    ensures Valid(r.0) && r.1 !in s.entities && r.1 in r.0.entities
    ensures r.1 == s.next && r.0.next == s.next + 1
    ensures r.0.order == s.order + [r.1] && r.0.entities.Keys == s.entities.Keys + {r.1}
    ensures r.0.entities[r.1].Keys == {IdKind, TransformKind, TagKind}
    ensures UUIDOf(r.0, r.1) == uuid
    ensures r.0.entities[r.1][TransformKind] == TransformComponent(DefaultTransform())
    ensures name != [] ==> NameOf(r.0, r.1) == name
    ensures name == [] ==> NameOf(r.0, r.1) == "Entity"
    ensures forall g :: g in s.entities ==> g in r.0.entities && r.0.entities[g] == s.entities[g]
    ensures r.0.viewportWidth == s.viewportWidth && r.0.viewportHeight == s.viewportHeight
  {
    var (s1, h) := CreateEntity(s, name);
    (AddComponent(s1, h, IdComponent(uuid)).0, h)
  }

  /** The set a created entity starts with, written out. */
  lemma CreatedWithUUIDSet(s: Scene, uuid: UUID, name: string)
    requires Valid(s)
    ensures var r := CreateEntityWithUUID(s, uuid, name);
      r.0.entities[r.1] == map[IdKind := IdComponent(uuid), TransformKind := TransformComponent(DefaultTransform()),
                               TagKind := TagComponent(if name == [] then "Entity" else name)]
  {
    var r := CreateEntityWithUUID(s, uuid, name);
    var m := r.0.entities[r.1];
    var tag := if name == [] then "Entity" else name;
    assert m[IdKind] == IdComponent(uuid);
    assert m[TagKind] == TagComponent(tag);
    ThreeKinds(m, IdComponent(uuid), TransformComponent(DefaultTransform()), TagComponent(tag));
  }

  /** A set of exactly the id, transform and tag kinds is determined by its
      three components. */
  lemma ThreeKinds(m: ComponentSet, id: Component, transform: Component, tag: Component)
    requires m.Keys == {IdKind, TransformKind, TagKind}
    requires m[IdKind] == id && m[TransformKind] == transform && m[TagKind] == tag
    ensures m == map[IdKind := id, TransformKind := transform, TagKind := tag]
  {
  }

  /** A handle list with every `h` taken out, in the same order. */
  function Without(hs: seq<Handle>, h: Handle): seq<Handle> {
    if |hs| == 0 then []
    else if hs[0] == h then Without(hs[1..], h)
    else [hs[0]] + Without(hs[1..], h)
  }

  /** Taking a handle out keeps exactly the other handles and keeps them distinct. */
  lemma {:induction false} WithoutContents(hs: seq<Handle>, h: Handle)
    ensures forall g :: g in Without(hs, h) <==> g in hs && g != h
    ensures Distinct(hs) ==> Distinct(Without(hs, h))
  {
    if |hs| > 0 {
      WithoutContents(hs[1..], h);
      if Distinct(hs) {
        assert Distinct(hs[1..]) by {
          forall i, j | 0 <= i < j < |hs[1..]| ensures hs[1..][i] != hs[1..][j] {
            assert hs[1..][i] == hs[i + 1] && hs[1..][j] == hs[j + 1];
          }
        }
        assert hs[0] !in hs[1..] by {
          forall i | 0 <= i < |hs[1..]| ensures hs[1..][i] != hs[0] {
            assert hs[1..][i] == hs[i + 1];
          }
        }
      }
    }
  }

  /** `destroyEntity`: the entity and all its components go; every other
      entity stays as it was, in the same order. */
  function DestroyEntity(s: Scene, h: Handle): (s': Scene)
    requires Valid(s) && h in s.entities
    ensures Valid(s') && h !in s'.entities
    ensures s'.entities.Keys == s.entities.Keys - {h}
    ensures forall g :: g in s'.entities ==> s'.entities[g] == s.entities[g]
    ensures s'.order == Without(s.order, h) && |s'.order| == |s.order| - 1
  {
    WithoutContents(s.order, h);
    WithoutLength(s.order, h);
    s.(entities := s.entities - {h}, order := Without(s.order, h))
  }

  lemma {:induction false} WithoutLength(hs: seq<Handle>, h: Handle)
    requires Distinct(hs) && h in hs
    ensures |Without(hs, h)| == |hs| - 1
  {
    WithoutContents(hs, h);
    if hs[0] != h {
      assert Distinct(hs[1..]) by {
        forall i, j | 0 <= i < j < |hs[1..]| ensures hs[1..][i] != hs[1..][j] {
          assert hs[1..][i] == hs[i + 1] && hs[1..][j] == hs[j + 1];
        }
      }
      WithoutLength(hs[1..], h);
    } else {
      assert h !in hs[1..] by {
        forall i | 0 <= i < |hs[1..]| ensures hs[1..][i] != h {
          assert hs[1..][i] == hs[i + 1];
        }
      }
      WithoutAbsent(hs[1..], h);
    }
  }

  lemma {:induction false} WithoutAbsent(hs: seq<Handle>, h: Handle)
    requires h !in hs
    ensures Without(hs, h) == hs
  {
    if |hs| > 0 {
      WithoutAbsent(hs[1..], h);
      assert hs == [hs[0]] + hs[1..];
    }
  }

  /** A created entity can be destroyed again, which gives back the entities
      and the order the scene had. */
  lemma CreateThenDestroy(s: Scene, name: string)
    requires Valid(s)
    ensures var (s1, h) := CreateEntity(s, name);
      var s2 := DestroyEntity(s1, h);
      s2.entities == s.entities && s2.order == s.order
  {
    var (s1, h) := CreateEntity(s, name);
    assert h !in s.order;
    WithoutAbsent(s.order, h);
    WithoutAppend(s.order, h);
    var s2 := DestroyEntity(s1, h);
    assert s2.entities == s.entities;
  }

  lemma {:induction false} WithoutAppend(hs: seq<Handle>, h: Handle)
    ensures Without(hs + [h], h) == Without(hs, h)
  {
    if |hs| == 0 {
      assert [h][1..] == [];
    } else {
      WithoutAppend(hs[1..], h);
      assert (hs + [h])[1..] == hs[1..] + [h];
    }
  }

  /** The camera component of a component set with its viewport fitted to
      `width` × `height`, unless it keeps a fixed aspect ratio. */
  function ResizeCamera(cs: ComponentSet, width: U32, height: U32): ComponentSet {
    if CameraKind in cs && cs[CameraKind].Camera? && !cs[CameraKind].camera.fixedAspectRatio then
      var cc := cs[CameraKind].camera;
      cs[CameraKind := Camera(cc.(camera := SceneCamera.SetViewportSize(cc.camera, width, height)))]
    else cs
  }

  /** `onViewportResize`: store the size and fit every camera that does not
      keep a fixed aspect ratio. */
  function OnViewportResize(s: Scene, width: U32, height: U32): (s': Scene)
    ensures s'.viewportWidth == width && s'.viewportHeight == height
    ensures s'.order == s.order && s'.next == s.next && s'.entities.Keys == s.entities.Keys
    ensures forall h :: h in s.entities ==> KindsUnchanged(s.entities[h], s'.entities[h], CameraKind)
    ensures forall h :: h in s.entities ==> (CameraKind in s.entities[h] <==> CameraKind in s'.entities[h])
    ensures forall h :: h in s.entities && CameraKind in s.entities[h] && s.entities[h][CameraKind].Camera? ==>
      var cc := s.entities[h][CameraKind].camera;
      && s'.entities[h][CameraKind].Camera?
      && var cc' := s'.entities[h][CameraKind].camera;
      && cc'.primary == cc.primary && cc'.fixedAspectRatio == cc.fixedAspectRatio
      && (cc.fixedAspectRatio ==> cc' == cc)
      && (!cc.fixedAspectRatio ==> cc'.camera == SceneCamera.SetViewportSize(cc.camera, width, height))
    ensures Valid(s) ==> Valid(s')
  {
    s.(entities := map h | h in s.entities :: ResizeCamera(s.entities[h], width, height),
       viewportWidth := width, viewportHeight := height)
  }

  /** After a resize, a camera added later is fitted exactly like the cameras
      that were there during the resize. */
  lemma ResizeThenAddAgree(s: Scene, width: U32, height: U32, h: Handle, g: Handle, c: CameraComponent)
    requires h in s.entities && !Has(s, h, CameraKind)
    requires g in s.entities && CameraKind in s.entities[g] && s.entities[g][CameraKind].Camera?
    requires !s.entities[g][CameraKind].camera.fixedAspectRatio
    ensures var s' := OnViewportResize(s, width, height);
      var added := AddComponent(s', h, Camera(c)).1;
      added.camera.camera.aspect == s'.entities[g][CameraKind].camera.camera.aspect
  {
  }

  /** An entity takes part in drawing when it has a transform and a sprite. */
  predicate IsSprite(s: Scene, h: Handle) {
    h in s.entities && TransformKind in s.entities[h] && SpriteKind in s.entities[h]
  }

  /** An entity the camera loop accepts: a transform and a primary camera. */
  predicate IsPrimaryCamera(s: Scene, h: Handle) {
    && h in s.entities && TransformKind in s.entities[h] && CameraKind in s.entities[h]
    && s.entities[h][CameraKind].Camera? && s.entities[h][CameraKind].camera.primary
  }

  /** The first handle of `hs` that is a primary camera. */
  function FirstPrimary(s: Scene, hs: seq<Handle>): (r: Option<nat>)
    ensures r.None? <==> forall i :: 0 <= i < |hs| ==> !IsPrimaryCamera(s, hs[i])
    ensures r.Some? ==> r.value < |hs| && IsPrimaryCamera(s, hs[r.value])
    ensures r.Some? ==> forall i :: 0 <= i < r.value ==> !IsPrimaryCamera(s, hs[i])
  {
    if |hs| == 0 then None
    else if IsPrimaryCamera(s, hs[0]) then Some(0)
    else match FirstPrimary(s, hs[1..])
      case None => None
      case Some(k) => Some(k + 1)
  }

  /** The camera `onUpdate` renders with: the first entity in view order
      that has a transform and a primary camera. */
  function PrimaryCamera(s: Scene): (r: Option<Handle>)
    ensures r.None? <==> forall h :: h in s.order ==> !IsPrimaryCamera(s, h)
    ensures r.Some? ==> r.value in s.order && IsPrimaryCamera(s, r.value)
  {
    match FirstPrimary(s, s.order)
    case None => None
    case Some(k) => Some(s.order[k])
  }

  /** The handles of `hs` that are drawn as sprites, in order. */
  function Sprites(s: Scene, hs: seq<Handle>): (r: seq<Handle>)
    ensures forall h :: h in r <==> h in hs && IsSprite(s, h)
    ensures |r| <= |hs|
  {
    if |hs| == 0 then []
    else (if IsSprite(s, hs[0]) then [hs[0]] else []) + Sprites(s, hs[1..])
  }

  predicate HasScript(cs: ComponentSet) {
    NativeScriptKind in cs && cs[NativeScriptKind].NativeScriptComponent?
  }

  function ScriptOf(cs: ComponentSet): NativeScript
    requires HasScript(cs)
  {
    cs[NativeScriptKind].native
  }

  /** A script without an instance must be bound: `instantiateScript` is
      called on it. */
  predicate Instantiable(cs: ComponentSet) {
    HasScript(cs) && ScriptOf(cs).instance.None? ==> ScriptOf(cs).script.Some?
  }

  datatype ScriptCall = CreateCall(entity: Handle) | UpdateCall(entity: Handle, ts: Timestep.Timestep)

  /** One native script's turn: instantiate it (with the fresh address
      `address`) and call `onCreate` if it has no instance, then `onUpdate`. */
  function TickScript(cs: ComponentSet, h: Handle, ts: Timestep.Timestep, address: nat): (r: (ComponentSet, seq<ScriptCall>, nat))
    requires Instantiable(cs)
    ensures !HasScript(cs) ==> r == (cs, [], address)
    ensures HasScript(cs) ==>
      && HasScript(r.0) && ScriptOf(r.0).instance.Some?
      && ScriptOf(r.0).script == ScriptOf(cs).script
      && KindsUnchanged(cs, r.0, NativeScriptKind)
      && (ScriptOf(cs).instance.Some? ==> r == (cs, [UpdateCall(h, ts)], address))
      && (ScriptOf(cs).instance.None? ==>
            r.1 == [CreateCall(h), UpdateCall(h, ts)] && ScriptOf(r.0).instance == Some(address) && r.2 == address + 1)
  {
    if !HasScript(cs) then (cs, [], address)
    else
      var n := ScriptOf(cs);
      if n.instance.Some? then (cs, [UpdateCall(h, ts)], address)
      else
        (cs[NativeScriptKind := NativeScriptComponent(n.(instance := Some(address)))],
         [CreateCall(h), UpdateCall(h, ts)], address + 1)
  }

  /** Every entity of `hs` that has no script instance can instantiate one. */
  predicate ScriptsReady(ents: map<Handle, ComponentSet>, hs: seq<Handle>) {
    forall h :: h in hs && h in ents ==> Instantiable(ents[h])
  }

  /** The native-script pass of `onUpdate`, entity by entity in view order. */
  function RunScripts(ents: map<Handle, ComponentSet>, hs: seq<Handle>, ts: Timestep.Timestep, address: nat)
    : (r: (map<Handle, ComponentSet>, seq<ScriptCall>, nat))
    requires ScriptsReady(ents, hs)
    ensures r.0.Keys == ents.Keys
    ensures forall g :: g in ents && g !in hs ==> r.0[g] == ents[g]
  {
    if |hs| == 0 then (ents, [], address)
    else
      var h := hs[0];
      if h in ents then
        var (cs, calls, a) := TickScript(ents[h], h, ts, address);
        var ents1 := ents[h := cs];
        assert ScriptsReady(ents1, hs[1..]) by {
          forall g | g in hs[1..] && g in ents1 ensures Instantiable(ents1[g]) {
            assert g in hs;
          }
        }
        var (ents2, calls2, a2) := RunScripts(ents1, hs[1..], ts, a);
        (ents2, calls + calls2, a2)
      else
        RunScripts(ents, hs[1..], ts, address)
  }

  /** Every `onCreate` call is followed straight away by the same entity's
      `onUpdate`. */
  predicate CreatesPaired(calls: seq<ScriptCall>, ts: Timestep.Timestep) {
    forall i :: 0 <= i < |calls| && calls[i].CreateCall? ==> i + 1 < |calls| && calls[i + 1] == UpdateCall(calls[i].entity, ts)
  }

  lemma PairedConcat(a: seq<ScriptCall>, b: seq<ScriptCall>, ts: Timestep.Timestep)
    requires CreatesPaired(a, ts) && CreatesPaired(b, ts)
    requires |a| > 0 ==> !a[|a| - 1].CreateCall?
    ensures CreatesPaired(a + b, ts)
  {
    var all := a + b;
    forall i | 0 <= i < |all| && all[i].CreateCall?
      ensures i + 1 < |all| && all[i + 1] == UpdateCall(all[i].entity, ts)
    {
      if i >= |a| {
        assert all[i] == b[i - |a|];
        assert all[i + 1] == b[i + 1 - |a|];
      }
    }
  }

  lemma DistinctTail(hs: seq<Handle>)
    requires Distinct(hs) && |hs| > 0
    ensures Distinct(hs[1..]) && hs[0] !in hs[1..]
  {
    forall i, j | 0 <= i < j < |hs[1..]| ensures hs[1..][i] != hs[1..][j] {
      assert hs[1..][i] == hs[i + 1] && hs[1..][j] == hs[j + 1];
    }
    forall i | 0 <= i < |hs[1..]| ensures hs[1..][i] != hs[0] {
      assert hs[1..][i] == hs[i + 1];
    }
  }

  /** The calls the script pass makes over distinct handles: every scripted
      entity gets one `onUpdate`, and `onCreate` goes exactly to the scripts
      that had no instance. */
  lemma {:induction false} RunScriptsCalls(ents: map<Handle, ComponentSet>, hs: seq<Handle>, ts: Timestep.Timestep, address: nat)
    requires ScriptsReady(ents, hs) && Distinct(hs)
    ensures var (_, calls, _) := RunScripts(ents, hs, ts, address);
      && (forall h :: UpdateCall(h, ts) in calls <==> h in hs && h in ents && HasScript(ents[h]))
      && (forall h :: CreateCall(h) in calls <==> h in hs && h in ents && HasScript(ents[h]) && ScriptOf(ents[h]).instance.None?)
      && (forall c :: c in calls ==> c.CreateCall? || c.ts == ts)
  {
    if |hs| > 0 {
      var h := hs[0];
      DistinctTail(hs);
      if h in ents {
        var (cs, calls, a) := TickScript(ents[h], h, ts, address);
        var ents1 := ents[h := cs];
        assert ScriptsReady(ents1, hs[1..]) by {
          forall g | g in hs[1..] && g in ents1 ensures Instantiable(ents1[g]) {
            assert g in hs;
          }
        }
        RunScriptsCalls(ents1, hs[1..], ts, a);
      } else {
        RunScriptsCalls(ents, hs[1..], ts, address);
      }
    }
  }

  /** Every `onCreate` of the script pass comes right before the same
      entity's `onUpdate`. */
  lemma {:induction false} RunScriptsPaired(ents: map<Handle, ComponentSet>, hs: seq<Handle>, ts: Timestep.Timestep, address: nat)
    requires ScriptsReady(ents, hs)
    ensures var (_, calls, _) := RunScripts(ents, hs, ts, address);
      CreatesPaired(calls, ts) && (|calls| > 0 ==> !calls[|calls| - 1].CreateCall?)
  {
    if |hs| > 0 {
      var h := hs[0];
      if h in ents {
        var (cs, calls, a) := TickScript(ents[h], h, ts, address);
        var ents1 := ents[h := cs];
        assert ScriptsReady(ents1, hs[1..]) by {
          forall g | g in hs[1..] && g in ents1 ensures Instantiable(ents1[g]) {
            assert g in hs;
          }
        }
        RunScriptsPaired(ents1, hs[1..], ts, a);
        var (ents2, calls2, a2) := RunScripts(ents1, hs[1..], ts, a);
        assert RunScripts(ents, hs, ts, address).1 == calls + calls2;
        PairedConcat(calls, calls2, ts);
      } else {
        RunScriptsPaired(ents, hs[1..], ts, address);
      }
    }
  }

  /** The entities after the script pass over distinct handles: every script
      has an instance, a script that had one is untouched, and nothing but
      the script component changes in any entity. */
  lemma {:induction false} RunScriptsState(ents: map<Handle, ComponentSet>, hs: seq<Handle>, ts: Timestep.Timestep, address: nat)
    requires ScriptsReady(ents, hs) && Distinct(hs)
    ensures var (ents', _, _) := RunScripts(ents, hs, ts, address);
      && (forall h :: h in hs && h in ents && HasScript(ents[h]) ==>
            HasScript(ents'[h]) && ScriptOf(ents'[h]).instance.Some?
            && ScriptOf(ents'[h]).script == ScriptOf(ents[h]).script
            && KindsUnchanged(ents[h], ents'[h], NativeScriptKind)
            && (ScriptOf(ents[h]).instance.Some? ==> ents'[h] == ents[h]))
      && (forall h :: h in ents && !HasScript(ents[h]) ==> ents'[h] == ents[h])
  {
    if |hs| > 0 {
      var h := hs[0];
      DistinctTail(hs);
      if h in ents {
        var (cs, calls, a) := TickScript(ents[h], h, ts, address);
        var ents1 := ents[h := cs];
        assert ScriptsReady(ents1, hs[1..]) by {
          forall g | g in hs[1..] && g in ents1 ensures Instantiable(ents1[g]) {
            assert g in hs;
          }
        }
        RunScriptsState(ents1, hs[1..], ts, a);
        var (ents2, calls2, a2) := RunScripts(ents1, hs[1..], ts, a);
        assert RunScripts(ents, hs, ts, address).0 == ents2;
        forall g | g in hs && g in ents && HasScript(ents[g])
          ensures HasScript(ents2[g]) && ScriptOf(ents2[g]).instance.Some?
        {
          if g != h {
            assert g in hs[1..];
          }
        }
      } else {
        RunScriptsState(ents, hs[1..], ts, address);
      }
    }
  }

  /** What one frame draws: the primary camera and the sprites, in order. */
  datatype Frame = Frame(camera: Handle, sprites: seq<Handle>)

  datatype Update = Update(scene: Scene, calls: seq<ScriptCall>, frame: Option<Frame>, nextAddress: nat)

  /** `onUpdate(ts)`: run the native scripts, then, if there is a primary
      camera, draw every sprite with it; with none, nothing is drawn. */
  function OnUpdate(s: Scene, ts: Timestep.Timestep, address: nat): (u: Update)
    requires ScriptsReady(s.entities, s.order)
    ensures u.scene.order == s.order && u.scene.entities.Keys == s.entities.Keys
    ensures u.frame.None? <==> PrimaryCamera(u.scene).None?
    ensures u.frame.Some? ==>
      && u.frame.value.camera == PrimaryCamera(u.scene).value
      && (forall h :: h in u.frame.value.sprites <==> h in s.order && IsSprite(u.scene, h))
  {
    var (ents, calls, a) := RunScripts(s.entities, s.order, ts, address);
    var s' := s.(entities := ents);
    var frame := match PrimaryCamera(s') case None => None case Some(c) => Some(Frame(c, Sprites(s', s'.order)));
    Update(s', calls, frame, a)
  }

  /** Only the first update of a scene creates its scripts: a second update
      calls `onUpdate` on the same scripts and `onCreate` on none. */
  lemma SecondUpdateCreatesNothing(s: Scene, ts: Timestep.Timestep, ts2: Timestep.Timestep, address: nat)
    requires Valid(s) && ScriptsReady(s.entities, s.order)
    ensures var u := OnUpdate(s, ts, address);
      && ScriptsReady(u.scene.entities, u.scene.order)
      && var u2 := OnUpdate(u.scene, ts2, u.nextAddress);
      && (forall h :: CreateCall(h) !in u2.calls)
      && (forall h :: UpdateCall(h, ts2) in u2.calls <==> UpdateCall(h, ts) in u.calls)
  {
    var u := OnUpdate(s, ts, address);
    RunScriptsCalls(s.entities, s.order, ts, address);
    RunScriptsState(s.entities, s.order, ts, address);
    assert ScriptsReady(u.scene.entities, u.scene.order) by {
      forall h | h in u.scene.order && h in u.scene.entities ensures Instantiable(u.scene.entities[h]) {
        if !HasScript(s.entities[h]) {
          assert u.scene.entities[h] == s.entities[h];
        }
      }
    }
    RunScriptsCalls(u.scene.entities, u.scene.order, ts2, u.nextAddress);
    var u2 := OnUpdate(u.scene, ts2, u.nextAddress);
    forall h ensures UpdateCall(h, ts2) in u2.calls <==> UpdateCall(h, ts) in u.calls {
      if h in s.order && h in s.entities && !HasScript(s.entities[h]) {
        assert u.scene.entities[h] == s.entities[h];
      }
    }
  }
}
