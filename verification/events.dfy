/** Events: their types, category bit flags, the handled flag, the dispatcher
    and the text each event prints. */
module Events {
  import Text

  datatype EventType =
    | NoType
    | WindowClose | WindowResize | WindowFocus | WindowLostFocus | WindowMoved
    | AppTick | AppUpdate | AppRender
    | KeyPressed | KeyReleased | KeyTyped
    | MouseButtonPressed | MouseButtonReleased | MouseMoved | MouseScrolled

  /** The category bits. */
  const CategoryApplication: bv32 := 1
  const CategoryInput: bv32 := 2
  const CategoryKeyboard: bv32 := 4
  const CategoryMouse: bv32 := 8
  const CategoryMouseButton: bv32 := 16

  /** Key and mouse-button codes are 16-bit. */
  type Code = n: nat | n < 0x1_0000

  /** The concrete events with the data their constructors store. */
  datatype Payload =
    | KeyPressedEvent(keyCode: Code, repeatCount: int)
    | KeyReleasedEvent(keyCode: Code)
    | KeyTypedEvent(keyCode: Code)
    | MouseMovedEvent(x: real, y: real)
    | MouseScrolledEvent(offsetX: real, offsetY: real)
    | MouseButtonPressedEvent(button: Code)
    | MouseButtonReleasedEvent(button: Code)
    | WindowResizeEvent(width: nat, height: nat)
    | WindowCloseEvent
    | AppTickEvent
    | AppUpdateEvent
    | AppRenderEvent

  /** An event and its handled flag. */
  datatype Event = Event(payload: Payload, handled: bool)

  /** A freshly constructed event is not handled. */
  function NewEvent(p: Payload): (e: Event)
    ensures e.payload == p && !e.handled
  {
    Event(p, false)
  }

  function TypeOf(p: Payload): EventType {
    match p
    case KeyPressedEvent(_, _) => KeyPressed
    case KeyReleasedEvent(_) => KeyReleased
    case KeyTypedEvent(_) => KeyTyped
    case MouseMovedEvent(_, _) => MouseMoved
    case MouseScrolledEvent(_, _) => MouseScrolled
    case MouseButtonPressedEvent(_) => MouseButtonPressed
    case MouseButtonReleasedEvent(_) => MouseButtonReleased
    case WindowResizeEvent(_, _) => WindowResize
    case WindowCloseEvent => WindowClose
    case AppTickEvent => AppTick
    case AppUpdateEvent => AppUpdate
    case AppRenderEvent => AppRender
  }

  /** `getName`: the spelling of the event type. */
  function Name(t: EventType): string {
    match t
    case NoType => "None"
    case WindowClose => "WindowClose"
    case WindowResize => "WindowResize"
    case WindowFocus => "WindowFocus"
    case WindowLostFocus => "WindowLostFocus"
    case WindowMoved => "WindowMoved"
    case AppTick => "AppTick"
    case AppUpdate => "AppUpdate"
    case AppRender => "AppRender"
    case KeyPressed => "KeyPressed"
    case KeyReleased => "KeyReleased"
    case KeyTyped => "KeyTyped"
    case MouseButtonPressed => "MouseButtonPressed"
    case MouseButtonReleased => "MouseButtonReleased"
    case MouseMoved => "MouseMoved"
    case MouseScrolled => "MouseScrolled"
  }

  /** `getCategoryFlags`. */
  function CategoryFlags(p: Payload): bv32 {
    match p
    case KeyPressedEvent(_, _) => CategoryKeyboard | CategoryInput
    case KeyReleasedEvent(_) => CategoryKeyboard | CategoryInput
    case KeyTypedEvent(_) => CategoryKeyboard | CategoryInput
    case MouseMovedEvent(_, _) => CategoryMouse | CategoryInput
    case MouseScrolledEvent(_, _) => CategoryMouse | CategoryInput
    case MouseButtonPressedEvent(_) => CategoryMouse | CategoryInput | CategoryMouseButton
    case MouseButtonReleasedEvent(_) => CategoryMouse | CategoryInput | CategoryMouseButton
    case _ => CategoryApplication
  }

  /** `isInCategory`: the flags share a bit with the category. */
  predicate IsInCategory(e: Event, category: bv32) {
    CategoryFlags(e.payload) & category != 0
  }

  /** The categories are five distinct single bits. */
  lemma CategoriesAreDistinctBits()
    ensures CategoryApplication == 1 << 0 && CategoryInput == 1 << 1 && CategoryKeyboard == 1 << 2
    ensures CategoryMouse == 1 << 3 && CategoryMouseButton == 1 << 4
    ensures CategoryApplication & CategoryInput == 0 && CategoryInput & CategoryKeyboard == 0
    ensures CategoryKeyboard & CategoryMouse == 0 && CategoryMouse & CategoryMouseButton == 0
    ensures CategoryApplication & CategoryMouseButton == 0 && CategoryInput & CategoryMouse == 0
  {
  }

  /** Which categories each event is in: key events are Keyboard and Input,
      button events Mouse, Input and MouseButton, moved and scrolled events
      Mouse and Input only, and application events Application only. */
  lemma CategoryMembership(e: Event)
    ensures TypeOf(e.payload) in {KeyPressed, KeyReleased, KeyTyped} <==>
      IsInCategory(e, CategoryKeyboard)
    ensures IsInCategory(e, CategoryInput) <==> !IsInCategory(e, CategoryApplication)
    ensures IsInCategory(e, CategoryMouseButton) <==>
      TypeOf(e.payload) in {MouseButtonPressed, MouseButtonReleased}
    ensures IsInCategory(e, CategoryMouse) <==>
      TypeOf(e.payload) in {MouseMoved, MouseScrolled, MouseButtonPressed, MouseButtonReleased}
    ensures IsInCategory(e, CategoryApplication) <==>
      TypeOf(e.payload) in {WindowResize, WindowClose, AppTick, AppUpdate, AppRender}
  {
  }

  /** `setHandled`. */
  function SetHandled(e: Event, handled: bool): (e': Event)
    ensures e'.handled == handled && e'.payload == e.payload
  {
    e.(handled := handled)
  }

  /** `EventDispatcher::dispatch<T>(func)`: when the event is a `T`, its handled
      flag becomes the handler's answer (a previous `true` included) and the
      result is true; otherwise nothing changes and the result is false. */
  function Dispatch(e: Event, t: EventType, handler: Payload -> bool): (r: (bool, Event))
    ensures r.0 <==> TypeOf(e.payload) == t
    ensures r.0 ==> r.1 == Event(e.payload, handler(e.payload))
    ensures !r.0 ==> r.1 == e
  {
    if TypeOf(e.payload) == t then (true, SetHandled(e, handler(e.payload))) else (false, e)
  }

  /** A matching dispatch can clear a handled flag, and a second dispatch with
      the same handler gives the same event again. */
  lemma DispatchOverwritesHandled(p: Payload, handler: Payload -> bool)
    ensures var (_, e) := Dispatch(Event(p, true), TypeOf(p), handler);
      e.handled == handler(p) && Dispatch(e, TypeOf(p), handler).1 == e
  {
  }

  /** `toString`. Floats go through `fmt`, the stream's float formatting. */
  function ToString(p: Payload, fmt: real -> string): string {
    match p
    case KeyPressedEvent(k, n) =>
      "KeyPressedEvent: " + Text.NatToString(k) + " (" + Text.IntToString(n) + " repeats)"
    case KeyReleasedEvent(k) => "KeyReleasedEvent: " + Text.NatToString(k)
    case KeyTypedEvent(k) => "KeyTypedEvent: " + Text.NatToString(k)
    case MouseMovedEvent(x, y) => "MouseMovedEvent: " + fmt(x) + ", " + fmt(y)
    case MouseScrolledEvent(x, y) => "MouseScrolledEvent: " + fmt(x) + ", " + fmt(y)
    case MouseButtonPressedEvent(b) => "MouseButtonPressedEvent: " + Text.NatToString(b)
    case MouseButtonReleasedEvent(b) => "MouseButtonReleasedEvent: " + Text.NatToString(b)
    case WindowResizeEvent(w, h) =>
      "WindowResizeEvent: " + Text.NatToString(w) + ", " + Text.NatToString(h)
    case _ => Name(TypeOf(p))
  }

  /** Events whose text carries only integers. */
  predicate IntegerText(p: Payload) {
    !p.MouseMovedEvent? && !p.MouseScrolledEvent?
  }

  /** The text of a key-pressed event determines its key code and repeat count. */
  lemma KeyPressedTextDetermines(a: Code, n: int, b: Code, m: int, fmt: real -> string)
    requires ToString(KeyPressedEvent(a, n), fmt) == ToString(KeyPressedEvent(b, m), fmt)
    ensures a == b && n == m
  {
    var pre := "KeyPressedEvent: ";
    var ka, kb := Text.NatToString(a), Text.NatToString(b);
    var ra, rb := " (" + Text.IntToString(n) + " repeats)", " (" + Text.IntToString(m) + " repeats)";
    KeyPressedTextSplit(a, n, fmt);
    KeyPressedTextSplit(b, m, fmt);
    Text.Unprefix(pre, ka + ra, kb + rb);
    Text.DigitRunSplit(ka, ra, kb, rb);
    Text.NatToStringInjective(a, b);
    RepeatsTextDetermines(n, m);
  }

  lemma KeyPressedTextSplit(a: Code, n: int, fmt: real -> string)
    ensures ToString(KeyPressedEvent(a, n), fmt)
      == "KeyPressedEvent: " + (Text.NatToString(a) + (" (" + Text.IntToString(n) + " repeats)"))
  {
    Regroup("KeyPressedEvent: ", Text.NatToString(a), " (", Text.IntToString(n), " repeats)");
  }

  lemma Regroup(p: string, k: string, x: string, s: string, y: string)
    ensures p + k + x + s + y == p + (k + (x + s + y))
  {
  }

  lemma RepeatsTextDetermines(n: int, m: int)
    requires " (" + Text.IntToString(n) + " repeats)" == " (" + Text.IntToString(m) + " repeats)"
    ensures n == m
  {
    var sa, sb := Text.IntToString(n), Text.IntToString(m);
    assert " (" + sa + " repeats)" == " (" + (sa + " repeats)");
    assert " (" + sb + " repeats)" == " (" + (sb + " repeats)");
    Text.Unprefix(" (", sa + " repeats)", sb + " repeats)");
    Text.Unsuffix(sa, sb, " repeats)");
    Text.IntToStringInjective(n, m);
  }

  /** The text of a resize event determines its width and height. */
  lemma ResizeTextDetermines(w: nat, h: nat, w2: nat, h2: nat, fmt: real -> string)
    requires ToString(WindowResizeEvent(w, h), fmt) == ToString(WindowResizeEvent(w2, h2), fmt)
    ensures w == w2 && h == h2
  {
    var pre := "WindowResizeEvent: ";
    var a, b := Text.NatToString(w), Text.NatToString(w2);
    var ra, rb := ", " + Text.NatToString(h), ", " + Text.NatToString(h2);
    var s := ToString(WindowResizeEvent(w, h), fmt);
    assert s == pre + (a + ra);
    assert s == pre + (b + rb);
    Text.Unprefix(pre, a + ra, b + rb);
    Text.DigitRunSplit(a, ra, b, rb);
    Text.NatToStringInjective(w, w2);
    Text.Unprefix(", ", Text.NatToString(h), Text.NatToString(h2));
    Text.NatToStringInjective(h, h2);
  }

  /** A one-code event's text determines its code. */
  lemma CodeTextDetermines(pre: string, a: Code, b: Code)
    requires pre + Text.NatToString(a) == pre + Text.NatToString(b)
    ensures a == b
  {
    Text.Unprefix(pre, Text.NatToString(a), Text.NatToString(b));
    Text.NatToStringInjective(a, b);
  }

  /** Within one event type, events with only integer data print differently
      whenever they differ: the text is a faithful record of the event. */
  lemma ToStringInjective(p: Payload, q: Payload, fmt: real -> string)
    requires IntegerText(p) && TypeOf(p) == TypeOf(q)
    requires ToString(p, fmt) == ToString(q, fmt)
    ensures p == q
  {
    match p
    case KeyPressedEvent(a, n) => KeyPressedTextDetermines(a, n, q.keyCode, q.repeatCount, fmt);
    case KeyReleasedEvent(a) => CodeTextDetermines("KeyReleasedEvent: ", a, q.keyCode);
    case KeyTypedEvent(a) => CodeTextDetermines("KeyTypedEvent: ", a, q.keyCode);
    case MouseButtonPressedEvent(a) => CodeTextDetermines("MouseButtonPressedEvent: ", a, q.button);
    case MouseButtonReleasedEvent(a) => CodeTextDetermines("MouseButtonReleasedEvent: ", a, q.button);
    case WindowResizeEvent(w, h) => ResizeTextDetermines(w, h, q.width, q.height, fmt);
    case _ =>
  }

  /** Example texts. */
  lemma ToStringExamples(fmt: real -> string)
    ensures ToString(KeyPressedEvent(65, 2), fmt) == "KeyPressedEvent: 65 (2 repeats)"
    ensures ToString(WindowResizeEvent(1280, 720), fmt) == "WindowResizeEvent: 1280, 720"
    ensures ToString(WindowCloseEvent, fmt) == "WindowClose"
  {
    KeyPressedExample(fmt);
    ResizeExample(fmt);
  }

  lemma KeyPressedExample(fmt: real -> string)
    ensures ToString(KeyPressedEvent(65, 2), fmt) == "KeyPressedEvent: 65 (2 repeats)"
  {
  }

  lemma ResizeExample(fmt: real -> string)
    ensures ToString(WindowResizeEvent(1280, 720), fmt) == "WindowResizeEvent: 1280, 720"
  {
  }
}
