/** The application: event propagation through the layer stack, the window
    close and resize handlers, and one turn of the run loop. */
module Application {
  import opened Wrappers
  import Events
  import LayerStack
  import Timestep

  type LayerId = LayerStack.LayerId

  /** `attached` lists, in order, the layers whose `onAttach` has run. */
  datatype App = App(
    stack: LayerStack.Stack,
    running: bool,
    minimised: bool,
    lastFrameTime: real,
    attached: seq<LayerId>)

  predicate Valid(a: App) {
    LayerStack.Valid(a.stack)
  }

  /** A layer's `onEvent`: given the layer and the event it receives, the
      event's handled flag afterwards. */
  type LayerHandler = (LayerId, Events.Event) -> bool

  /** `pushLayer`: null is ignored; otherwise push, then attach. */
  function PushLayer(a: App, layer: Option<LayerId>): (a': App)
    requires Valid(a)
    ensures Valid(a')
    ensures layer.None? ==> a' == a
    ensures layer.Some? ==> a' == a.(stack := LayerStack.PushLayer(a.stack, layer.value),
                                     attached := a.attached + [layer.value])
  {
    match layer
    case None => a
    case Some(l) => a.(stack := LayerStack.PushLayer(a.stack, l), attached := a.attached + [l])
  }

  /** `pushOverlay`: null is ignored; otherwise push as an overlay, then attach. */
  function PushOverlay(a: App, overlay: Option<LayerId>): (a': App)
    requires Valid(a)
    ensures Valid(a')
    ensures overlay.None? ==> a' == a
    ensures overlay.Some? ==> a' == a.(stack := LayerStack.PushOverlay(a.stack, overlay.value),
                                       attached := a.attached + [overlay.value])
  {
    match overlay
    case None => a
    case Some(o) => a.(stack := LayerStack.PushOverlay(a.stack, o), attached := a.attached + [o])
  }

  /** The constructor: running, not minimised, last frame at time 0, with the
      ImGui layer pushed as the only overlay. */
  function NewApplication(imGuiLayer: LayerId): (a: App)
    ensures Valid(a) && a.running && !a.minimised && a.lastFrameTime == 0.0
    ensures LayerStack.LayerRegion(a.stack) == [] && LayerStack.OverlayRegion(a.stack) == [imGuiLayer]
    ensures a.attached == [imGuiLayer]
  {
    PushOverlay(App(LayerStack.NewStack(), true, false, 0.0, []), Some(imGuiLayer))
  }

  /** `close`. */
  function Close(a: App): (a': App)
    ensures !a'.running && a' == a.(running := false)
  {
    a.(running := false)
  }

  /** `onWindowClose`: close, and report the event handled. */
  function OnWindowClose(a: App): (r: (App, bool))
    ensures r.0 == Close(a) && r.1
  {
    (Close(a), true)
  }

  /** `onWindowResized`: minimised exactly when a side is zero; the event is
      never reported handled. */
  function OnWindowResized(a: App, width: nat, height: nat): (r: (App, bool))
    ensures r.0.minimised <==> width == 0 || height == 0
    ensures r.0 == a.(minimised := r.0.minimised) && !r.1
  {
    (a.(minimised := width == 0 || height == 0), false)
  }

  /** The loop over the layers from the top (the end of the vector) down,
      stopping before any layer once the event is handled. The result is the
      final event and the layers that received it, in the order they did:
      every layer but the last one visited left the event unhandled, and the
      last one's answer is the event's final state. */
  function Propagate(layers: seq<LayerId>, e: Events.Event, handler: LayerHandler): (r: (Events.Event, seq<LayerId>))
    ensures r.0.payload == e.payload
    ensures |r.1| <= |layers|
    ensures forall j :: 0 <= j < |r.1| ==> r.1[j] == layers[|layers| - 1 - j]
    ensures e.handled ==> r == (e, [])
    ensures |r.1| < |layers| ==> r.0.handled
    ensures !e.handled ==> forall j :: 0 <= j < |r.1| - 1 ==> !handler(r.1[j], Events.Event(e.payload, false))
    ensures !e.handled && |r.1| > 0 ==> r.0.handled == handler(r.1[|r.1| - 1], Events.Event(e.payload, false))
    decreases |layers|
  {
    if |layers| == 0 || e.handled then (e, [])
    else
      var top := layers[|layers| - 1];
      var e1 := Events.SetHandled(e, handler(top, e));
      var (e2, rest) := Propagate(layers[..|layers| - 1], e1, handler);
      (e2, [top] + rest)
  }

  /** `onEvent`: the close and resize handlers first, then the layers top down,
      stopping after the first layer that handles the event. */
  function OnEvent(a: App, e: Events.Event, handler: LayerHandler): (r: (App, Events.Event, seq<LayerId>))
    ensures var (a', e', visited) := r;
      && (e.payload.WindowCloseEvent? ==> !a'.running && e'.handled && visited == [])
      && (e.payload.WindowResizeEvent? ==>
            a' == a.(minimised := e.payload.width == 0 || e.payload.height == 0))
      && (!e.payload.WindowCloseEvent? && !e.payload.WindowResizeEvent? ==> a' == a)
      && e'.payload == e.payload
      && |visited| <= |a.stack.layers|
      && (forall j :: 0 <= j < |visited| ==> visited[j] == a.stack.layers[|a.stack.layers| - 1 - j])
      && (|visited| < |a.stack.layers| ==> e'.handled)
      && (forall j :: 0 <= j < |visited| - 1 ==> !handler(visited[j], Events.Event(e.payload, false)))
      && (|visited| > 0 ==> e'.handled == handler(visited[|visited| - 1], Events.Event(e.payload, false)))
  {
    var (closed, e1) := Events.Dispatch(e, Events.WindowClose, _ => true);
    var a1 := if closed then OnWindowClose(a).0 else a;
    var (resized, e2) := Events.Dispatch(e1, Events.WindowResize, _ => false);
    var a2 := if resized then OnWindowResized(a1, e.payload.width, e.payload.height).0 else a1;
    var (e3, visited) := Propagate(a2.stack.layers, e2, handler);
    (a2, e3, visited)
  }

  /** When no layer handles the event, every layer receives it, top first. */
  lemma {:induction false} UnhandledReachesEveryLayer(layers: seq<LayerId>, e: Events.Event, handler: LayerHandler)
    requires !e.handled
    requires forall l :: l in layers ==> !handler(l, Events.Event(e.payload, false))
    ensures |Propagate(layers, e, handler).1| == |layers|
    ensures !Propagate(layers, e, handler).0.handled
    decreases |layers|
  {
    if |layers| > 0 {
      var top := layers[|layers| - 1];
      assert top in layers;
      var e1 := Events.SetHandled(e, handler(top, e));
      assert e1 == e;
      forall l | l in layers[..|layers| - 1]
        ensures !handler(l, Events.Event(e.payload, false))
      {
        assert l in layers;
      }
      UnhandledReachesEveryLayer(layers[..|layers| - 1], e1, handler);
    }
  }

  /** When the top layer handles the event, no other layer sees it. */
  lemma TopHandlerStops(layers: seq<LayerId>, e: Events.Event, handler: LayerHandler)
    requires |layers| > 0 && !e.handled && handler(layers[|layers| - 1], e)
    ensures Propagate(layers, e, handler).1 == [layers[|layers| - 1]]
    ensures Propagate(layers, e, handler).0.handled
  {
  }

  /** A close event stops the application and reaches no layer, whatever the
      layers would do with it. */
  lemma CloseReachesNoLayer(a: App, handler: LayerHandler)
    ensures var (a', e', visited) := OnEvent(a, Events.NewEvent(Events.WindowCloseEvent), handler);
      !a'.running && e'.handled && visited == [] && a' == Close(a)
  {
  }

  /** What one turn of the run loop does. */
  datatype Frame = Frame(
    app: App,
    timestep: Timestep.Timestep,
    updated: seq<LayerId>,
    imGuiRendered: seq<LayerId>,
    windowUpdated: bool)

  /** One turn of `run` at clock reading `now` (the loop only turns while
      running): the timestep is the time since the last frame; a minimised
      application updates and renders no layer, but the window is still updated. */
  function RunFrame(a: App, now: real): (r: Option<Frame>)
    ensures r.Some? <==> a.running
    ensures r.Some? ==> var f := r.value;
      && Timestep.Seconds(f.timestep) == now - a.lastFrameTime
      && f.app == a.(lastFrameTime := now)
      && f.windowUpdated
      && (a.minimised ==> f.updated == [] && f.imGuiRendered == [])
      && (!a.minimised ==> f.updated == a.stack.layers && f.imGuiRendered == a.stack.layers)
  {
    if !a.running then None
    else
      var ts := Timestep.Timestep(now - a.lastFrameTime);
      var layers := if a.minimised then [] else a.stack.layers;
      Some(Frame(a.(lastFrameTime := now), ts, layers, layers, true))
  }

  /** Resizing to zero and back resumes layer updates; the timesteps of two
      consecutive frames add up to the time between their start and end. */
  lemma MinimiseAndRestore(a: App, w: nat, h: nat, t1: real, t2: real)
    requires a.running && w > 0 && h > 0
    ensures var a1 := OnWindowResized(a, 0, h).0;
      RunFrame(a1, t1).value.updated == []
    ensures var a2 := OnWindowResized(OnWindowResized(a, 0, h).0, w, h).0;
      RunFrame(a2, t1).value.updated == a.stack.layers
    ensures var f1 := RunFrame(a, t1).value;
      var f2 := RunFrame(f1.app, t2).value;
      Timestep.Seconds(f1.timestep) + Timestep.Seconds(f2.timestep) == t2 - a.lastFrameTime
  {
  }
}
