/** The layer stack: one vector holding the layers first and the overlays
    after them, split by an insert index. */
module LayerStack {
  import opened Wrappers

  /** A layer is known by its address. */
  type LayerId = nat

  /** `_layerInsertIndex` is a `size_t`. */
  const SIZE_T_MODULUS: nat := 0x1_0000_0000_0000_0000

  datatype Stack = Stack(layers: seq<LayerId>, insertIndex: nat)

  predicate Valid(s: Stack) {
    s.insertIndex <= |s.layers|
  }

  /** The layers proper, bottom first. */
  function LayerRegion(s: Stack): seq<LayerId>
    requires Valid(s)
  {
    s.layers[..s.insertIndex]
  }

  /** The overlays, bottom first. */
  function OverlayRegion(s: Stack): seq<LayerId>
    requires Valid(s)
  {
    s.layers[s.insertIndex..]
  }

  function NewStack(): (s: Stack)
    ensures Valid(s) && LayerRegion(s) == [] && OverlayRegion(s) == []
  {
    Stack([], 0)
  }

  /** `std::find`: the first position holding `x`. */
  function IndexOf(xs: seq<LayerId>, x: LayerId): (r: Option<nat>)
    ensures r.None? <==> x !in xs
    ensures r.Some? ==> r.value < |xs| && xs[r.value] == x && x !in xs[..r.value]
  {
    if |xs| == 0 then None
    else if xs[0] == x then Some(0)
    else match IndexOf(xs[1..], x)
      case None => None
      case Some(k) =>
        assert xs[..k + 1] == [xs[0]] + xs[1..][..k];
        Some(k + 1)
  }

  /** The list with its first `x` taken out, by recursion: a reference for `erase`. */
  function RemoveFirst(xs: seq<LayerId>, x: LayerId): seq<LayerId> {
    if |xs| == 0 then []
    else if xs[0] == x then xs[1..]
    else [xs[0]] + RemoveFirst(xs[1..], x)
  }

  /** Erasing at the first position is the recursive removal. */
  lemma {:induction false} EraseIsRemoveFirst(xs: seq<LayerId>, x: LayerId)
    requires x in xs
    ensures var k := IndexOf(xs, x).value; xs[..k] + xs[k + 1..] == RemoveFirst(xs, x)
  {
    if xs[0] != x {
      EraseIsRemoveFirst(xs[1..], x);
      var k := IndexOf(xs[1..], x).value;
      assert xs[..k + 1] + xs[k + 2..] == [xs[0]] + (xs[1..][..k] + xs[1..][k + 1..]);
    }
  }

  /** Removing an element found in the front part touches only the front part;
      removing one absent from the front part touches only the back part. */
  lemma {:induction false} RemoveFirstSplit(xs: seq<LayerId>, i: nat, x: LayerId)
    requires i <= |xs|
    ensures x in xs[..i] ==> RemoveFirst(xs, x) == RemoveFirst(xs[..i], x) + xs[i..]
    ensures x !in xs[..i] ==> RemoveFirst(xs, x) == xs[..i] + RemoveFirst(xs[i..], x)
  {
    if i > 0 && xs[0] != x {
      RemoveFirstSplit(xs[1..], i - 1, x);
      assert xs[1..][..i - 1] == xs[..i][1..];
      assert xs[..i] == [xs[0]] + xs[..i][1..];
    }
  }

  /** `pushLayer`: insert at the insert index and advance it. */
  function PushLayer(s: Stack, l: LayerId): (s': Stack)
    requires Valid(s)
    ensures Valid(s')
    ensures LayerRegion(s') == LayerRegion(s) + [l]
    ensures OverlayRegion(s') == OverlayRegion(s)
    ensures |s'.layers| == |s.layers| + 1
  {
    var i := s.insertIndex;
    Stack(s.layers[..i] + [l] + s.layers[i..], i + 1)
  }

  /** `pushOverlay`: append at the end; the insert index stays. */
  function PushOverlay(s: Stack, o: LayerId): (s': Stack)
    ensures s'.layers == s.layers + [o] && s'.insertIndex == s.insertIndex
    ensures Valid(s) ==>
      && Valid(s')
      && LayerRegion(s') == LayerRegion(s)
      && OverlayRegion(s') == OverlayRegion(s) + [o]
  {
    Stack(s.layers + [o], s.insertIndex)
  }

  /** `popLayer`: erase the first occurrence and step the insert index back
      (a `size_t`, so stepping back from 0 wraps). Absent: nothing changes. */
  function PopLayer(s: Stack, l: LayerId): (s': Stack)
    ensures l !in s.layers ==> s' == s
    ensures l in s.layers ==> s'.layers == RemoveFirst(s.layers, l)
    ensures l in s.layers && s.insertIndex > 0 ==> s'.insertIndex == s.insertIndex - 1
  {
    match IndexOf(s.layers, l)
    case None => s
    case Some(k) =>
      EraseIsRemoveFirst(s.layers, l);
      Stack(s.layers[..k] + s.layers[k + 1..],
            if s.insertIndex == 0 then SIZE_T_MODULUS - 1 else s.insertIndex - 1)
  }

  /** `popOverlay`: erase the first occurrence; the insert index stays. */
  function PopOverlay(s: Stack, o: LayerId): (s': Stack)
    ensures o !in s.layers ==> s' == s
    ensures o in s.layers ==> s'.layers == RemoveFirst(s.layers, o)
    ensures s'.insertIndex == s.insertIndex
  {
    match IndexOf(s.layers, o)
    case None => s
    case Some(k) =>
      EraseIsRemoveFirst(s.layers, o);
      Stack(s.layers[..k] + s.layers[k + 1..], s.insertIndex)
  }

  /** Popping a layer that sits in the layer region removes it from there and
      leaves the overlays alone. */
  lemma PopLayerKeepsRegions(s: Stack, l: LayerId)
    requires Valid(s) && l in LayerRegion(s)
    ensures Valid(PopLayer(s, l))
    ensures LayerRegion(PopLayer(s, l)) == RemoveFirst(LayerRegion(s), l)
    ensures OverlayRegion(PopLayer(s, l)) == OverlayRegion(s)
  {
    RemoveFirstSplit(s.layers, s.insertIndex, l);
    RemoveFirstLength(LayerRegion(s), l);
    var s' := PopLayer(s, l);
    assert s'.layers == RemoveFirst(LayerRegion(s), l) + OverlayRegion(s);
  }

  /** Popping an overlay that is not also in the layer region removes it from
      the overlays and leaves the layers alone. */
  lemma PopOverlayKeepsRegions(s: Stack, o: LayerId)
    requires Valid(s) && o !in LayerRegion(s)
    ensures Valid(PopOverlay(s, o))
    ensures LayerRegion(PopOverlay(s, o)) == LayerRegion(s)
    ensures OverlayRegion(PopOverlay(s, o)) == RemoveFirst(OverlayRegion(s), o)
  {
    RemoveFirstSplit(s.layers, s.insertIndex, o);
    var s' := PopOverlay(s, o);
    if o in s.layers {
      assert s'.layers == LayerRegion(s) + RemoveFirst(OverlayRegion(s), o);
    } else {
      assert o !in OverlayRegion(s);
      RemoveFirstAbsent(OverlayRegion(s), o);
    }
  }

  lemma {:induction false} RemoveFirstLength(xs: seq<LayerId>, x: LayerId)
    ensures x in xs ==> |RemoveFirst(xs, x)| == |xs| - 1
    ensures x !in xs ==> RemoveFirst(xs, x) == xs
  {
    if |xs| > 0 && xs[0] != x {
      RemoveFirstLength(xs[1..], x);
      assert xs == [xs[0]] + xs[1..];
    }
  }

  lemma RemoveFirstAbsent(xs: seq<LayerId>, x: LayerId)
    requires x !in xs
    ensures RemoveFirst(xs, x) == xs
  {
    RemoveFirstLength(xs, x);
  }

  /** Using `popLayer` on an overlay takes the insert index one step too far
      back, so the topmost layer is then counted among the overlays. */
  lemma PopLayerOnOverlayMisplaces()
    ensures var s := PushOverlay(PushLayer(NewStack(), 1), 2);
      var s' := PopLayer(s, 2);
      Valid(s') && LayerRegion(s') == [] && OverlayRegion(s') == [1]
  {
    var s := PushOverlay(PushLayer(NewStack(), 1), 2);
    assert s.layers == [1, 2];
  }

  /** The stack operations as a script. */
  datatype Op = PushL(id: LayerId) | PushO(id: LayerId) | PopL(id: LayerId) | PopO(id: LayerId)

  /** The abstract view: a list of layers and a list of overlays. */
  datatype View = View(layers: seq<LayerId>, overlays: seq<LayerId>)

  /** Pops name a member of the region they are meant for (or nothing at all). */
  predicate WellAimed(v: View, op: Op) {
    match op
    case PopL(l) => l in v.layers || l !in v.overlays
    case PopO(o) => o !in v.layers
    case _ => true
  }

  function StepView(v: View, op: Op): View {
    match op
    case PushL(l) => View(v.layers + [l], v.overlays)
    case PushO(o) => View(v.layers, v.overlays + [o])
    case PopL(l) => View(RemoveFirst(v.layers, l), v.overlays)
    case PopO(o) => View(v.layers, RemoveFirst(v.overlays, o))
  }

  function Step(s: Stack, op: Op): Stack
    requires Valid(s)
  {
    match op
    case PushL(l) => PushLayer(s, l)
    case PushO(o) => PushOverlay(s, o)
    case PopL(l) => PopLayer(s, l)
    case PopO(o) => PopOverlay(s, o)
  }

  /** One well-aimed step keeps the stack equal to "layers, then overlays" of
      the abstract view, with the insert index at the boundary. */
  lemma StepRefines(s: Stack, v: View, op: Op)
    requires Valid(s) && LayerRegion(s) == v.layers && OverlayRegion(s) == v.overlays
    requires WellAimed(v, op)
    ensures Valid(Step(s, op))
    ensures LayerRegion(Step(s, op)) == StepView(v, op).layers
    ensures OverlayRegion(Step(s, op)) == StepView(v, op).overlays
  {
    assert s.layers == v.layers + v.overlays;
    match op
    case PushL(l) =>
    case PushO(o) =>
    case PopL(l) =>
      if l in v.layers {
        PopLayerKeepsRegions(s, l);
      } else {
        assert l !in s.layers;
        RemoveFirstAbsent(v.layers, l);
      }
    case PopO(o) => PopOverlayKeepsRegions(s, o);
  }

  /** Any script of well-aimed operations, run from an empty stack, keeps every
      layer before every overlay, each list in push order. */
  lemma {:induction false} RunRefines(ops: seq<Op>)
    requires forall k :: 0 <= k < |ops| ==> WellAimed(RunView(ops[..k]), ops[k])
    ensures Valid(Run(ops))
    ensures LayerRegion(Run(ops)) == RunView(ops).layers
    ensures OverlayRegion(Run(ops)) == RunView(ops).overlays
  {
    if |ops| > 0 {
      var init := ops[..|ops| - 1];
      forall k | 0 <= k < |init|
        ensures WellAimed(RunView(init[..k]), init[k])
      {
        assert init[..k] == ops[..k];
      }
      RunRefines(init);
      assert ops[..|ops| - 1] == init;
      StepRefines(Run(init), RunView(init), ops[|ops| - 1]);
    }
  }

  function Run(ops: seq<Op>): (s: Stack)
    ensures Valid(s) || |ops| > 0
  {
    if |ops| == 0 then NewStack()
    else
      var s := Run(ops[..|ops| - 1]);
      if Valid(s) then Step(s, ops[|ops| - 1]) else s
  }

  function RunView(ops: seq<Op>): View {
    if |ops| == 0 then View([], [])
    else StepView(RunView(ops[..|ops| - 1]), ops[|ops| - 1])
  }
}
