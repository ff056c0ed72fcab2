/** Vertex attribute layouts: the shader data type table, buffer elements and the
    offset/stride computation of a buffer layout. */
module BufferLayout {

  datatype ShaderDataType =
    | NoType
    | Int | Int2 | Int3 | Int4
    | Float | Float2 | Float3 | Float4
    | Mat3 | Mat4
    | Bool

  /** Size in bytes of one attribute of type `t`. */
  function ShaderDataTypeSize(t: ShaderDataType): nat {
    match t
    case NoType => 0
    case Int => 4
    case Int2 => 4 * 2
    case Int3 => 4 * 3
    case Int4 => 4 * 4
    case Float => 4
    case Float2 => 4 * 2
    case Float3 => 4 * 3
    case Float4 => 4 * 4
    case Mat3 => 4 * 3 * 3
    case Mat4 => 4 * 4 * 4
    case Bool => 1
  }

  /** Number of scalar components of one attribute of type `t`. */
  function ComponentCount(t: ShaderDataType): nat {
    match t
    case NoType => 0
    case Int => 1
    case Int2 => 2
    case Int3 => 3
    case Int4 => 4
    case Float => 1
    case Float2 => 2
    case Float3 => 3
    case Float4 => 4
    case Mat3 => 9
    case Mat4 => 16
    case Bool => 1
  }

  /** The integer, float and matrix types are built from 4-byte scalars. */
  predicate IsFourByteScalarType(t: ShaderDataType) {
    t.Int? || t.Int2? || t.Int3? || t.Int4? ||
    t.Float? || t.Float2? || t.Float3? || t.Float4? ||
    t.Mat3? || t.Mat4?
  }

  /** Size is four bytes per component exactly for the 4-byte scalar types;
      Bool (one byte, one component) and NoType (zero, zero) are the exceptions. */
  lemma SizeIsFourPerComponent(t: ShaderDataType)
    ensures IsFourByteScalarType(t) <==> ShaderDataTypeSize(t) == 4 * ComponentCount(t) && t != NoType
    ensures t == Bool ==> ShaderDataTypeSize(t) == 1 && ComponentCount(t) == 1
    ensures ShaderDataTypeSize(t) == 0 <==> t == NoType
    ensures ComponentCount(t) == 0 <==> t == NoType
  {
  }

  datatype BufferElement = BufferElement(
    name: string,
    typ: ShaderDataType,
    size: nat,
    offset: nat,
    normalized: bool)

  /** The default-constructed element. */
  function DefaultElement(): (e: BufferElement)
    ensures e.name == "" && e.typ == NoType && e.size == 0 && e.offset == 0 && !e.normalized
    ensures ComponentCount(e.typ) == 0
  {
    BufferElement("", NoType, 0, 0, false)
  }

  /** `BufferElement(type, name, normalized = false)`: the size is taken from the
      type table and the offset is left for the layout to fill in. */
  function MakeElement(t: ShaderDataType, name: string, normalized: bool := false): (e: BufferElement)
    ensures e.typ == t && e.name == name && e.normalized == normalized
    ensures e.offset == 0
    ensures e.size == ShaderDataTypeSize(t)
    ensures t != NoType ==> e.size > 0
  {
    BufferElement(name, t, ShaderDataTypeSize(t), 0, normalized)
  }

  /** Sum of the sizes of the first `n` elements. */
  function SizesBefore(es: seq<BufferElement>, n: nat): nat
    requires n <= |es|
  {
    if n == 0 then 0 else SizesBefore(es, n - 1) + es[n - 1].size
  }

  /** Element `i` placed at the end of the elements before it. */
  function Placed(es: seq<BufferElement>, i: nat): BufferElement
    requires i < |es|
  {
    es[i].(offset := SizesBefore(es, i))
  }

  ghost predicate PlacedAfterPredecessors(es: seq<BufferElement>, laid: seq<BufferElement>)
    requires |laid| == |es|
  {
    forall i :: 0 <= i < |es| ==> laid[i] == Placed(es, i)
  }

  datatype Layout = Layout(elements: seq<BufferElement>, stride: nat)

  /** The default layout: no elements, stride 0. */
  function EmptyLayout(): (l: Layout)
    ensures l.elements == [] && l.stride == 0
  {
    Layout([], 0)
  }

  /** `calculateOffsetsAndStride`: one pass that writes each element's offset as the
      running total of sizes and accumulates the stride. */
  method CalculateOffsetsAndStride(es: seq<BufferElement>) returns (laid: seq<BufferElement>, stride: nat)
    ensures |laid| == |es|
    ensures PlacedAfterPredecessors(es, laid)
    ensures stride == SizesBefore(es, |es|)
  {
    var offset := 0;
    stride := 0;
    laid := [];
    var k := 0;
    while k < |es|
      invariant 0 <= k <= |es|
      invariant |laid| == k
      invariant offset == SizesBefore(es, k)
      invariant stride == SizesBefore(es, k)
      invariant forall i :: 0 <= i < k ==> laid[i] == Placed(es, i)
    {
      laid := laid + [es[k].(offset := offset)];
      offset := offset + es[k].size;
      stride := stride + es[k].size;
      k := k + 1;
    }
  }

  /** The layout built from an element list (the initializer-list constructor). */
  function NewLayout(es: seq<BufferElement>): (l: Layout)
    ensures |l.elements| == |es|
    ensures PlacedAfterPredecessors(es, l.elements)
    ensures l.stride == SizesBefore(es, |es|)
  {
    Layout(seq(|es|, i requires 0 <= i < |es| => Placed(es, i)), SizesBefore(es, |es|))
  }

  lemma {:induction false} SizesBeforeMonotone(es: seq<BufferElement>, i: nat, j: nat)
    requires i <= j <= |es|
    ensures SizesBefore(es, i) <= SizesBefore(es, j)
    decreases j - i
  {
    if i < j {
      SizesBeforeMonotone(es, i, j - 1);
    }
  }

  /** Offsets never decrease, the first is 0, every element ends within the stride,
      and the element after `i` starts exactly where `i` ends. */
  lemma LayoutOffsetsWithinStride(es: seq<BufferElement>)
    ensures var l := NewLayout(es);
      && (|es| > 0 ==> l.elements[0].offset == 0)
      && (forall i, j :: 0 <= i <= j < |es| ==> l.elements[i].offset <= l.elements[j].offset)
      && (forall i :: 0 <= i < |es| ==> l.elements[i].offset + l.elements[i].size <= l.stride)
      && (forall i :: 0 <= i < |es| - 1 ==> l.elements[i + 1].offset == l.elements[i].offset + l.elements[i].size)
  {
    var l := NewLayout(es);
    assert forall i :: 0 <= i < |es| ==> l.elements[i].offset == SizesBefore(es, i);
    forall i, j | 0 <= i <= j < |es|
      ensures l.elements[i].offset <= l.elements[j].offset
    {
      SizesBeforeMonotone(es, i, j);
    }
    forall i | 0 <= i < |es|
      ensures l.elements[i].offset + l.elements[i].size <= l.stride
    {
      SizesBeforeMonotone(es, i + 1, |es|);
    }
  }

  /** Only offsets are written: names, types, sizes and flags keep their order. */
  lemma LayoutKeepsElementData(es: seq<BufferElement>)
    ensures var l := NewLayout(es);
      forall i :: 0 <= i < |es| ==>
        && l.elements[i].name == es[i].name
        && l.elements[i].typ == es[i].typ
        && l.elements[i].size == es[i].size
        && l.elements[i].normalized == es[i].normalized
  {
  }

  /** The stride of a layout is the sum of its element sizes, with no padding. */
  function SumSizes(es: seq<BufferElement>): nat {
    if |es| == 0 then 0 else es[0].size + SumSizes(es[1..])
  }

  lemma {:induction false} StrideIsSumOfSizes(es: seq<BufferElement>)
    ensures NewLayout(es).stride == SumSizes(es)
    decreases |es|
  {
    SizesBeforeSplit(es);
  }

  lemma {:induction false} SizesBeforeSplit(es: seq<BufferElement>)
    ensures SizesBefore(es, |es|) == SumSizes(es)
    decreases |es|
  {
    if |es| > 0 {
      SizesBeforeSplit(es[1..]);
      SizesBeforeTail(es, |es|);
    }
  }

  lemma {:induction false} SizesBeforeTail(es: seq<BufferElement>, n: nat)
    requires 1 <= n <= |es|
    ensures SizesBefore(es, n) == es[0].size + SizesBefore(es[1..], n - 1)
    decreases n
  {
    if n > 1 {
      SizesBeforeTail(es, n - 1);
    }
  }

  /** The layout of the 2D batch renderer's quad vertex. */
  function QuadElements(): seq<BufferElement> {
    [ MakeElement(Float3, "a_Position"),
      MakeElement(Float4, "a_Color"),
      MakeElement(Float2, "a_TexCoord"),
      MakeElement(Float, "a_TexIndex"),
      MakeElement(Float, "a_TilingFactor") ]
  }

  lemma QuadLayoutOffsets()
    ensures var l := NewLayout(QuadElements());
      && |l.elements| == 5
      && l.elements[0].offset == 0
      && l.elements[1].offset == 12
      && l.elements[2].offset == 28
      && l.elements[3].offset == 36
      && l.elements[4].offset == 40
      && l.stride == 44
  {
    var es := QuadElements();
    assert SizesBefore(es, 1) == 12;
    assert SizesBefore(es, 2) == 28;
    assert SizesBefore(es, 3) == 36;
    assert SizesBefore(es, 4) == 40;
    assert SizesBefore(es, 5) == 44;
  }
}
