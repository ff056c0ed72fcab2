/** The editor layer: switching between editing and playing a scene with the
    gizmo saved and restored, the keyboard shortcuts, opening and saving
    scene files, and choosing an entity by clicking the viewport. Everything
    the layer asks of the outside world — held keys, the gizmo's state, the
    file dialogs, what reading a file gives, the pixel under the mouse —
    comes in as data. */
module EditorLayer {
  import opened Wrappers
  import opened Vectors
  import Events
  import Scene
  import SceneSerializer
  import Yaml
  import Paths
  import EditorCamera
  import Framebuffer

  datatype SceneState = Edit | Play

  /** The gizmo operation; `NoGizmo` is the -1 that hides the gizmo. */
  datatype Gizmo = NoGizmo | Translate | Rotate | Scale

  /** What the active-scene pointer refers to: the editor scene itself, or a
      scene of its own (a runtime copy, or a scene made apart from the editor
      scene). */
  datatype Active = EditorsScene | Own(scene: Scene.Scene)

  /** `editorScene` is `None` while the pointer is null. `viewportWidth` and
      `viewportHeight` are the viewport panel's float size; `hovered` is the
      entity under the mouse and `selected` the hierarchy panel's selection,
      `None` for the null entity. */
  datatype Editor = Editor(
    state: SceneState,
    gizmo: Gizmo,
    lastGizmo: Gizmo,
    editorScene: Option<Scene.Scene>,
    active: Active,
    path: Paths.Path,
    selected: Option<Scene.Handle>,
    hovered: Option<Scene.Handle>,
    viewportHovered: bool,
    viewportWidth: real,
    viewportHeight: real,
    camera: EditorCamera.Camera)

  /** What reading the chosen scene file into a new scene gives: the scene
      and how `deserialize` ended — `SceneSerializer.Deserialize` on a fresh
      scene, as `OpenReadsFile` states. */
  type Read = (Scene.Scene, Yaml.Ending)

  /** What the layer reads from outside during one call. */
  datatype Io = Io(
    held: set<Events.Code>,
    gizmoInUse: bool,
    gizmoOver: bool,
    openChoice: Option<Paths.Path>,
    saveChoice: Option<Paths.Path>,
    read: Read,
    duplicate: (Scene.Scene, Scene.Handle) -> Scene.Scene,
    orient: EditorCamera.Orient)

  /** A scene written to a file. */
  datatype Save = Save(path: Paths.Path, scene: Scene.Scene)

  /** The state after a call and the files it wrote, in order. */
  datatype Step = Step(editor: Editor, saves: seq<Save>)

  const KEY_D: Events.Code := 68
  const KEY_E: Events.Code := 69
  const KEY_N: Events.Code := 78
  const KEY_O: Events.Code := 79
  const KEY_Q: Events.Code := 81
  const KEY_R: Events.Code := 82
  const KEY_S: Events.Code := 83
  const KEY_W: Events.Code := 87
  const KEY_LEFT_SHIFT: Events.Code := 340
  const KEY_LEFT_CONTROL: Events.Code := 341
  const KEY_LEFT_ALT: Events.Code := 342
  const KEY_RIGHT_SHIFT: Events.Code := 344
  const KEY_RIGHT_CONTROL: Events.Code := 345
  const MOUSE_BUTTON_LEFT: Events.Code := 0

  /** The layer always has an editor scene, and while editing the active
      scene is that editor scene, so edits land in the scene that is saved. */
  predicate Valid(e: Editor) {
    e.editorScene.Some? && (e.state == Edit ==> e.active == EditorsScene)
  }

  /** The scene the active-scene pointer refers to. */
  function ActiveScene(e: Editor): (s: Scene.Scene)
    requires Valid(e)
    ensures e.active == EditorsScene ==> s == e.editorScene.value
    ensures e.active.Own? ==> s == e.active.scene
  {
    match e.active
    case EditorsScene => e.editorScene.value
    case Own(s) => s
  }

  /** The `(uint32_t)` cast of a viewport dimension; a value outside the
      32-bit range, where the cast is undefined, gives 0. */
  function ToU32(x: real): (n: Scene.U32)
    ensures 0.0 <= x < 4294967296.0 ==> n as real <= x < n as real + 1.0
  {
    if 0.0 <= x < 4294967296.0 then x.Floor else 0
  }

  /** A fresh scene fitted to the viewport. */
  function FittedScene(s: Scene.Scene, e: Editor): Scene.Scene {
    Scene.OnViewportResize(s, ToU32(e.viewportWidth), ToU32(e.viewportHeight))
  }

  // ---------------------------------------------------------------------------
  // Construction

  /** The scene the attach step makes: empty, or read from the file named on
      the command line, keeping whatever was read before a failure. A read
      that throws is not followed out of `onAttach`: the scene built so far
      is the result. */
  function StartScene(commandLine: Option<Yaml.Loaded>, d: SceneSerializer.Defaults): (s: Scene.Scene)
    ensures Scene.Valid(s)
    ensures commandLine.None? ==> s == Scene.NewScene()
  {
    match commandLine
    case None => Scene.NewScene()
    case Some(loaded) => SceneSerializer.Deserialize(Scene.NewScene(), loaded, d).0
  }

  /** The constructor and `onAttach` as written: the start scene becomes the
      active scene only, and the editor-scene pointer stays null. */
  function AttachAsWritten(commandLine: Option<Yaml.Loaded>, d: SceneSerializer.Defaults, orient: EditorCamera.Orient): (e: Editor)
    ensures e.editorScene.None? && e.active == Own(StartScene(commandLine, d))
    ensures e.state == Edit && e.gizmo == Translate && e.lastGizmo == Translate
  {
    Editor(Edit, Translate, Translate, None, Own(StartScene(commandLine, d)), [], None, None, false, 0.0, 0.0,
           EditorCamera.NewCamera(30.0, 1.778, 0.1, 1000.0, orient))
  }

  /** The constructor and `onAttach` with the start scene made the editor
      scene and the active scene the editor scene, as `newScene` and
      `openScene` arrange. */
  function Attach(commandLine: Option<Yaml.Loaded>, d: SceneSerializer.Defaults, orient: EditorCamera.Orient): (e: Editor)
    ensures Valid(e)
    ensures e.editorScene == Some(StartScene(commandLine, d)) && ActiveScene(e) == StartScene(commandLine, d)
    ensures e.state == Edit && e.gizmo == Translate && e.lastGizmo == Translate
    ensures e.path == [] && e.selected.None?
  {
    AttachAsWritten(commandLine, d, orient).(editorScene := Some(StartScene(commandLine, d)), active := EditorsScene)
  }

  // ---------------------------------------------------------------------------
  // Edit and Play

  /** `onScenePlay`: remember the gizmo and hide it, and run a copy of the
      editor scene. `Scene::copy` is not part of this model: the copy is the
      same scene value, and a null editor scene gives no successor. */
  function OnScenePlay(e: Editor): (r: Option<Editor>)
    ensures r.Some? <==> e.editorScene.Some?
    ensures r.Some? ==> var p := r.value;
      && p.state == Play && p.gizmo == NoGizmo && p.lastGizmo == e.gizmo
      && p.active == Own(e.editorScene.value)
      && p == e.(state := Play, gizmo := NoGizmo, lastGizmo := e.gizmo, active := p.active)
  {
    match e.editorScene
    case None => None
    case Some(s) => Some(e.(state := Play, lastGizmo := e.gizmo, gizmo := NoGizmo, active := Own(s)))
  }

  /** `onSceneStop`: back to editing the editor scene with the remembered
      gizmo. */
  function OnSceneStop(e: Editor): (r: Editor)
    ensures r.state == Edit && r.gizmo == e.lastGizmo && r.active == EditorsScene
    ensures r == e.(state := Edit, gizmo := e.lastGizmo, active := EditorsScene)
    ensures e.editorScene.Some? ==> Valid(r)
  {
    e.(state := Edit, gizmo := e.lastGizmo, active := EditorsScene)
  }

  /** Playing and then stopping gives back the editing state exactly, gizmo
      included; only the remembered gizmo has changed. */
  lemma PlayThenStop(e: Editor)
    requires Valid(e) && e.state == Edit
    ensures OnScenePlay(e).Some?
    ensures OnSceneStop(OnScenePlay(e).value) == e.(lastGizmo := e.gizmo)
    ensures OnSceneStop(OnScenePlay(e).value).gizmo == e.gizmo
  {
  }

  /** The editor scene is left alone while playing: the runtime works on its
      own copy. */
  lemma PlayKeepsEditorScene(e: Editor)
    requires Valid(e)
    ensures OnScenePlay(e).Some? && Valid(OnScenePlay(e).value)
    ensures OnScenePlay(e).value.editorScene == e.editorScene
    ensures ActiveScene(OnScenePlay(e).value) == e.editorScene.value
  {
  }

  /** Straight after attaching, the layer as written has no editor scene, so
      pressing Play copies from a null scene. */
  lemma PlayAfterAttachAsWritten(commandLine: Option<Yaml.Loaded>, d: SceneSerializer.Defaults, orient: EditorCamera.Orient)
    ensures !Valid(AttachAsWritten(commandLine, d, orient))
    ensures OnScenePlay(AttachAsWritten(commandLine, d, orient)).None?
    ensures OnScenePlay(Attach(commandLine, d, orient)).Some?
  {
  }

  /** The toolbar button: Play while editing, Stop while playing. */
  function Toolbar(e: Editor): (r: Option<Editor>)
    ensures e.state == Edit ==> r == OnScenePlay(e)
    ensures e.state == Play ==> r == Some(OnSceneStop(e))
    ensures Valid(e) ==> r.Some? && Valid(r.value)
    ensures r.Some? ==> r.value.state != e.state
  {
    if e.state == Edit then OnScenePlay(e) else Some(OnSceneStop(e))
  }

  /** Pressing the toolbar button twice from editing returns to editing with
      the same gizmo. */
  lemma ToolbarTwice(e: Editor)
    requires Valid(e) && e.state == Edit
    ensures Toolbar(e).Some? && Toolbar(Toolbar(e).value).Some?
    ensures var back := Toolbar(Toolbar(e).value).value;
      back.state == Edit && back.gizmo == e.gizmo && back.active == e.active
  {
  }

  // ---------------------------------------------------------------------------
  // Scene files

  /** `newScene`: a fresh editor scene fitted to the viewport, made active,
      and no path. The play state is not touched. */
  function NewScene(e: Editor): (r: Editor)
    ensures r.editorScene == Some(FittedScene(Scene.NewScene(), e)) && r.active == EditorsScene
    ensures r.path == []
    ensures r == e.(editorScene := r.editorScene, active := EditorsScene, path := [])
    ensures Valid(e) ==> Valid(r)
  {
    e.(editorScene := Some(FittedScene(Scene.NewScene(), e)), active := EditorsScene, path := [])
  }

  /** `openScene(path)`: stop playing first; a file without the ".yaml"
      extension is refused; otherwise the file is read into a new scene, and
      only a successful read replaces the editor scene, the active scene and
      the path. An exception from the read is not followed further: the
      state is the one after the stop. */
  function OpenScene(e: Editor, path: Paths.Path, read: Read): (r: Editor)
    ensures r.state == Edit && r.gizmo == (if e.state == Edit then e.gizmo else e.lastGizmo)
    ensures Paths.Extension(path) != ".yaml" ==> r == (if e.state == Edit then e else OnSceneStop(e))
    ensures Paths.Extension(path) == ".yaml" && read.1 == Yaml.Returned(true) ==>
      r.editorScene == Some(FittedScene(read.0, e)) && r.active == EditorsScene && r.path == path
    ensures read.1 != Yaml.Returned(true) ==>
      r.editorScene == e.editorScene && r.path == e.path && r.active == (if e.state == Edit then e.active else EditorsScene)
    ensures Valid(e) ==> Valid(r)
  {
    var e1 := if e.state != Edit then OnSceneStop(e) else e;
    if Paths.Extension(path) != ".yaml" then e1
    else if read.1 == Yaml.Returned(true) then
      e1.(editorScene := Some(FittedScene(read.0, e1)), active := EditorsScene, path := path)
    else e1
  }

  /** Opening a ".yaml" file whose text reads through replaces the editor
      scene with the fitted scene `deserialize` builds from a fresh one; a
      file that does not parse never replaces anything, whatever the path. */
  lemma OpenReadsFile(e: Editor, path: Paths.Path, loaded: Yaml.Loaded, d: SceneSerializer.Defaults)
    ensures var read := SceneSerializer.Deserialize(Scene.NewScene(), loaded, d);
      Paths.Extension(path) == ".yaml" && read.1 == Yaml.Returned(true) ==>
        && Scene.Valid(read.0)
        && OpenScene(e, path, read).editorScene == Some(FittedScene(read.0, e))
    ensures var r := OpenScene(e, path, SceneSerializer.Deserialize(Scene.NewScene(), Yaml.ParseError, d));
      r.editorScene == e.editorScene && r.path == e.path
  {
  }

  /** `openScene()`: the file dialog, then `openScene(path)` on a choice. */
  function OpenSceneDialog(e: Editor, io: Io): (r: Editor)
    ensures io.openChoice.None? ==> r == e
    ensures io.openChoice.Some? ==> r == OpenScene(e, io.openChoice.value, io.read)
    ensures Valid(e) ==> Valid(r)
  {
    match io.openChoice
    case None => e
    case Some(p) => OpenScene(e, p, io.read)
  }

  /** `saveSceneAs`: on a dialog choice, write the active scene there and
      remember the path; a cancelled dialog changes and writes nothing. */
  function SaveSceneAs(e: Editor, io: Io): (r: Step)
    requires Valid(e)
    ensures io.saveChoice.None? ==> r == Step(e, [])
    ensures io.saveChoice.Some? ==>
      r == Step(e.(path := io.saveChoice.value), [Save(io.saveChoice.value, ActiveScene(e))])
    ensures Valid(r.editor)
  {
    match io.saveChoice
    case None => Step(e, [])
    case Some(p) => Step(e.(path := p), [Save(p, ActiveScene(e))])
  }

  /** `saveScene`: write the active scene to the remembered path, or ask for
      one when there is none. */
  function SaveScene(e: Editor, io: Io): (r: Step)
    requires Valid(e)
    ensures e.path != [] ==> r == Step(e, [Save(e.path, ActiveScene(e))])
    ensures e.path == [] ==> r == SaveSceneAs(e, io)
    ensures Valid(r.editor)
  {
    if e.path != [] then Step(e, [Save(e.path, ActiveScene(e))]) else SaveSceneAs(e, io)
  }

  /** Once a scene has a path, saving never opens the dialog: the dialog's
      answer makes no difference. */
  lemma SaveWithPathIgnoresDialog(e: Editor, io: Io, other: Option<Paths.Path>)
    requires Valid(e) && e.path != []
    ensures SaveScene(e, io) == SaveScene(e, io.(saveChoice := other))
  {
  }

  /** After "save as", a plain save goes to the same file with the same
      scene. */
  lemma SaveAsThenSave(e: Editor, io: Io, io2: Io)
    requires Valid(e) && io.saveChoice.Some? && io.saveChoice.value != []
    ensures var first := SaveSceneAs(e, io);
      SaveScene(first.editor, io2).saves == first.saves
  {
  }

  /** `onDuplicateEntity`: only while editing, and only with an entity
      selected. `duplicateEntity` itself is not part of this model. */
  function DuplicateEntity(e: Editor, io: Io): (r: Editor)
    requires Valid(e)
    ensures e.state != Edit || e.selected.None? ==> r == e
    ensures e.state == Edit && e.selected.Some? ==>
      r == e.(editorScene := Some(io.duplicate(e.editorScene.value, e.selected.value)))
    ensures Valid(r)
  {
    if e.state != Edit then e
    else match e.selected
      case None => e
      case Some(h) => e.(editorScene := Some(io.duplicate(e.editorScene.value, h)))
  }

  // ---------------------------------------------------------------------------
  // Keyboard shortcuts

  predicate Control(io: Io) {
    KEY_LEFT_CONTROL in io.held || KEY_RIGHT_CONTROL in io.held
  }

  predicate Shift(io: Io) {
    KEY_LEFT_SHIFT in io.held || KEY_RIGHT_SHIFT in io.held
  }

  /** The gizmo a key selects, for the four gizmo keys. */
  function GizmoKey(key: Events.Code): Option<Gizmo> {
    if key == KEY_Q then Some(NoGizmo)
    else if key == KEY_W then Some(Translate)
    else if key == KEY_E then Some(Rotate)
    else if key == KEY_R then Some(Scale)
    else None
  }

  /** The shortcut a first press of `key` triggers. */
  function Shortcut(e: Editor, key: Events.Code, io: Io): (r: Step)
    requires Valid(e)
    ensures Valid(r.editor)
  {
    if key == KEY_S then
      if Control(io) then (if Shift(io) then SaveSceneAs(e, io) else SaveScene(e, io)) else Step(e, [])
    else if key == KEY_N then
      Step(if Control(io) then NewScene(e) else e, [])
    else if key == KEY_O then
      Step(if Control(io) then OpenSceneDialog(e, io) else e, [])
    else if key == KEY_D then
      Step(if Control(io) then DuplicateEntity(e, io) else e, [])
    else match GizmoKey(key)
      case Some(g) => Step(if !io.gizmoInUse then e.(gizmo := g) else e, [])
      case None => Step(e, [])
  }

  /** `onKeyPressed` as written: a repeated press answers false; every other
      path falls off the end of the function without a return value, which
      `None` stands for. */
  function OnKeyPressedAsWritten(e: Editor, key: Events.Code, repeatCount: int, io: Io): (r: (Step, Option<bool>))
    requires Valid(e)
    ensures repeatCount > 0 ==> r == (Step(e, []), Some(false))
    ensures repeatCount <= 0 ==> r == (Shortcut(e, key, io), None)
  {
    if repeatCount > 0 then (Step(e, []), Some(false)) else (Shortcut(e, key, io), None)
  }

  /** `onKeyPressed` with the missing return supplied: shortcuts do not
      consume the key. */
  function OnKeyPressed(e: Editor, key: Events.Code, repeatCount: int, io: Io): (r: (Step, bool))
    requires Valid(e)
    ensures repeatCount > 0 ==> r.0 == Step(e, [])
    ensures repeatCount <= 0 ==> r.0 == Shortcut(e, key, io)
    ensures !r.1
    ensures Valid(r.0.editor)
  {
    if repeatCount > 0 then (Step(e, []), false) else (Shortcut(e, key, io), false)
  }

  /** The two agree on what the key does, and the corrected one always has an
      answer where the written one has none for every first press. */
  lemma KeyPressedReturnValue(e: Editor, key: Events.Code, repeatCount: int, io: Io)
    requires Valid(e)
    ensures OnKeyPressed(e, key, repeatCount, io).0 == OnKeyPressedAsWritten(e, key, repeatCount, io).0
    ensures OnKeyPressedAsWritten(e, key, repeatCount, io).1.None? <==> repeatCount <= 0
    ensures OnKeyPressedAsWritten(e, key, repeatCount, io).1.Some? ==>
      OnKeyPressedAsWritten(e, key, repeatCount, io).1.value == OnKeyPressed(e, key, repeatCount, io).1
  {
  }

  /** A held-down key repeating does nothing. */
  lemma RepeatsIgnored(e: Editor, key: Events.Code, repeatCount: int, io: Io)
    requires Valid(e) && repeatCount > 0
    ensures OnKeyPressed(e, key, repeatCount, io) == (Step(e, []), false)
  {
  }

  /** Without Control, S, N, O and D do nothing. */
  lemma NoControlNoCommand(e: Editor, key: Events.Code, io: Io)
    requires Valid(e) && !Control(io)
    requires key in {KEY_S, KEY_N, KEY_O, KEY_D}
    ensures Shortcut(e, key, io) == Step(e, [])
  {
  }

  /** With Control: S saves (with Shift, saves as), N makes a new scene, O
      opens one and D duplicates the selection. */
  lemma ControlCommands(e: Editor, io: Io)
    requires Valid(e) && Control(io)
    ensures Shortcut(e, KEY_S, io) == if Shift(io) then SaveSceneAs(e, io) else SaveScene(e, io)
    ensures Shortcut(e, KEY_N, io) == Step(NewScene(e), [])
    ensures Shortcut(e, KEY_O, io) == Step(OpenSceneDialog(e, io), [])
    ensures Shortcut(e, KEY_D, io) == Step(DuplicateEntity(e, io), [])
  {
  }

  /** Q, W, E and R set the gizmo to none, translate, rotate and scale, and
      leave everything else alone; while the gizmo is being dragged they do
      nothing. Control makes no difference to them. */
  lemma GizmoKeys(e: Editor, io: Io)
    requires Valid(e)
    ensures !io.gizmoInUse ==>
      && Shortcut(e, KEY_Q, io) == Step(e.(gizmo := NoGizmo), [])
      && Shortcut(e, KEY_W, io) == Step(e.(gizmo := Translate), [])
      && Shortcut(e, KEY_E, io) == Step(e.(gizmo := Rotate), [])
      && Shortcut(e, KEY_R, io) == Step(e.(gizmo := Scale), [])
    ensures io.gizmoInUse ==> forall k :: GizmoKey(k).Some? ==> Shortcut(e, k, io) == Step(e, [])
  {
  }

  /** Any other key does nothing. */
  lemma OtherKeysIgnored(e: Editor, key: Events.Code, io: Io)
    requires Valid(e) && key !in {KEY_S, KEY_N, KEY_O, KEY_D, KEY_Q, KEY_W, KEY_E, KEY_R}
    ensures Shortcut(e, key, io) == Step(e, [])
  {
  }

  // ---------------------------------------------------------------------------
  // Viewport size

  /** The viewport panel has a size and the framebuffer does not match it. */
  predicate NeedsFit(e: Editor, fb: Framebuffer.Spec) {
    && e.viewportWidth > 0.0 && e.viewportHeight > 0.0
    && (fb.width as real != e.viewportWidth || fb.height as real != e.viewportHeight)
  }

  /** The resize step of `onUpdate`: when the panel has a size the
      framebuffer does not, the framebuffer, the editor camera and the active
      scene are all brought to the panel's size. */
  function FitViewport(e: Editor, fb: Framebuffer.Spec): (r: (Editor, Framebuffer.Spec))
    requires Valid(e)
    ensures Valid(r.0)
    ensures !NeedsFit(e, fb) ==> r == (e, fb)
    ensures NeedsFit(e, fb) ==>
      && r.1 == Framebuffer.Resize(fb, ToU32(e.viewportWidth), ToU32(e.viewportHeight))
      && r.0.camera == EditorCamera.SetViewportSize(e.camera, e.viewportWidth, e.viewportHeight)
      && ActiveScene(r.0) == FittedScene(ActiveScene(e), e)
      && (e.active.Own? ==> r.0.editorScene == e.editorScene)
      && r.0 == e.(camera := r.0.camera, editorScene := r.0.editorScene, active := r.0.active)
  {
    if !NeedsFit(e, fb) then (e, fb)
    else
      var fb' := Framebuffer.Resize(fb, ToU32(e.viewportWidth), ToU32(e.viewportHeight));
      var camera := EditorCamera.SetViewportSize(e.camera, e.viewportWidth, e.viewportHeight);
      match e.active
      case EditorsScene => (e.(camera := camera, editorScene := Some(FittedScene(e.editorScene.value, e))), fb')
      case Own(s) => (e.(camera := camera, active := Own(FittedScene(s, e))), fb')
  }

  /** A panel of whole-pixel size the framebuffer accepts is fitted once:
      the next frame finds nothing to do. */
  lemma FitViewportSettles(e: Editor, fb: Framebuffer.Spec)
    requires Valid(e)
    requires e.viewportWidth == ToU32(e.viewportWidth) as real && e.viewportHeight == ToU32(e.viewportHeight) as real
    requires Framebuffer.ValidSize(ToU32(e.viewportWidth), ToU32(e.viewportHeight))
    ensures var r := FitViewport(e, fb); FitViewport(r.0, r.1) == r
  {
  }

  // ---------------------------------------------------------------------------
  // Selection and picking

  /** `canSelectEntity`: the viewport is hovered, the mouse is not over the
      gizmo and Alt (which drives the camera) is not held. */
  predicate CanSelectEntity(e: Editor, io: Io) {
    e.viewportHovered && !io.gizmoOver && KEY_LEFT_ALT !in io.held
  }

  /** `onMouseButtonPressed`: a left click that may select makes the hovered
      entity (possibly none) the selection; the click is never consumed. */
  function OnMouseButtonPressed(e: Editor, button: Events.Code, io: Io): (r: (Editor, bool))
    ensures button == MOUSE_BUTTON_LEFT && CanSelectEntity(e, io) ==> r.0 == e.(selected := e.hovered)
    ensures !(button == MOUSE_BUTTON_LEFT && CanSelectEntity(e, io)) ==> r.0 == e
    ensures !r.1
    ensures Valid(e) ==> Valid(r.0)
  {
    if button == MOUSE_BUTTON_LEFT && CanSelectEntity(e, io) then (e.(selected := e.hovered), false) else (e, false)
  }

  /** The entity a pixel of the id attachment names: -1 is the null entity,
      and other values are cast to a 32-bit handle. */
  function PixelEntity(pixel: int): (r: Option<Scene.Handle>)
    ensures r.None? <==> pixel == -1
    ensures 0 <= pixel < 0x1_0000_0000 ==> r == Some(pixel)
    ensures r.Some? ==> r.value < 0x1_0000_0000
  {
    if pixel == -1 then None else Some(pixel % 0x1_0000_0000)
  }

  /** The mouse position in viewport pixels, origin at the bottom left. */
  function MousePixel(e: Editor, mouse: Vec2, boundsMin: Vec2): (int, int) {
    (Truncate(mouse.x - boundsMin.x), Truncate(e.viewportHeight - (mouse.y - boundsMin.y)))
  }

  predicate InViewport(e: Editor, x: int, y: int) {
    0 <= x < Truncate(e.viewportWidth) && 0 <= y < Truncate(e.viewportHeight)
  }

  /** The picking step of `onUpdate`: inside the viewport the hovered entity
      becomes the one drawn under the mouse; outside it the hovered entity is
      kept and no pixel is read. */
  function Pick(e: Editor, mouse: Vec2, boundsMin: Vec2, readPixel: (int, int) -> int): (r: Editor)
    ensures var (x, y) := MousePixel(e, mouse, boundsMin);
      && (InViewport(e, x, y) ==> r == e.(hovered := PixelEntity(readPixel(x, y))))
      && (!InViewport(e, x, y) ==> r == e)
    ensures Valid(e) ==> Valid(r)
  {
    var (x, y) := MousePixel(e, mouse, boundsMin);
    if InViewport(e, x, y) then e.(hovered := PixelEntity(readPixel(x, y))) else e
  }

  /** Picking only looks at the viewport's own pixels: two id images that
      agree inside the viewport pick the same entity. */
  lemma PickReadsOnlyViewport(e: Editor, mouse: Vec2, boundsMin: Vec2, read1: (int, int) -> int, read2: (int, int) -> int)
    requires forall x, y :: InViewport(e, x, y) ==> read1(x, y) == read2(x, y)
    ensures Pick(e, mouse, boundsMin, read1) == Pick(e, mouse, boundsMin, read2)
  {
  }

  /** Clicking selects what picking found under the mouse, when the click may
      select. */
  lemma PickThenClick(e: Editor, mouse: Vec2, boundsMin: Vec2, readPixel: (int, int) -> int, io: Io)
    requires CanSelectEntity(e, io)
    requires var (x, y) := MousePixel(e, mouse, boundsMin); InViewport(e, x, y)
    ensures var (x, y) := MousePixel(e, mouse, boundsMin);
      OnMouseButtonPressed(Pick(e, mouse, boundsMin, readPixel), MOUSE_BUTTON_LEFT, io).0.selected
        == PixelEntity(readPixel(x, y))
  {
  }

  // ---------------------------------------------------------------------------
  // Events

  /** The layer's own dispatch: key presses and mouse-button presses go to
      their handlers, which both answer false; other events pass by. */
  function DispatchInput(e: Editor, ev: Events.Event, io: Io): (r: (Step, Events.Event))
    requires Valid(e)
    ensures r.1.payload == ev.payload
    ensures Valid(r.0.editor)
    ensures ev.payload.KeyPressedEvent? ==>
      r.0 == OnKeyPressed(e, ev.payload.keyCode, ev.payload.repeatCount, io).0 && !r.1.handled
    ensures ev.payload.MouseButtonPressedEvent? ==>
      r.0 == Step(OnMouseButtonPressed(e, ev.payload.button, io).0, []) && !r.1.handled
    ensures !ev.payload.KeyPressedEvent? && !ev.payload.MouseButtonPressedEvent? ==> r == (Step(e, []), ev)
  {
    match ev.payload
    case KeyPressedEvent(key, n) =>
      var (step, answer) := OnKeyPressed(e, key, n, io);
      var (_, ev2) := Events.Dispatch(ev, Events.KeyPressed, p => answer);
      (step, ev2)
    case MouseButtonPressedEvent(button) =>
      var (e2, answer) := OnMouseButtonPressed(e, button, io);
      var (_, ev2) := Events.Dispatch(ev, Events.MouseButtonPressed, p => answer);
      (Step(e2, []), ev2)
    case _ => (Step(e, []), ev)
  }

  /** `onEvent`: the editor camera sees the event first (it takes only
      scrolls), then the layer's own handlers. */
  function OnEvent(e: Editor, ev: Events.Event, io: Io): (r: (Step, Events.Event))
    requires Valid(e)
    ensures r.1.payload == ev.payload
    ensures Valid(r.0.editor)
    ensures ev.payload.KeyPressedEvent? || ev.payload.MouseButtonPressedEvent? ==> !r.1.handled
    ensures ev.payload.MouseScrolledEvent? ==>
      r.0 == Step(e.(camera := EditorCamera.OnEvent(e.camera, ev, io.orient).0), []) && !r.1.handled
    ensures ev.payload.KeyPressedEvent? ==>
      r.0 == OnKeyPressed(e, ev.payload.keyCode, ev.payload.repeatCount, io).0
    ensures ev.payload.MouseButtonPressedEvent? ==>
      r.0 == Step(OnMouseButtonPressed(e, ev.payload.button, io).0, [])
    ensures !ev.payload.KeyPressedEvent? && !ev.payload.MouseButtonPressedEvent? && !ev.payload.MouseScrolledEvent? ==>
      r == (Step(e, []), ev)
  {
    var (cam, ev1) := EditorCamera.OnEvent(e.camera, ev, io.orient);
    DispatchInput(e.(camera := cam), ev1, io)
  }
}
