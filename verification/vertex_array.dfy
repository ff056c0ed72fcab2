/** OpenGL vertex arrays: the GL base type of each shader data type and the
    attribute pointers `addVertexBuffer` declares for a buffer's layout. */
module VertexArray {
  import opened Wrappers
  import opened BufferLayout

  const GL_INT: nat := 0x1404
  const GL_FLOAT: nat := 0x1406
  const GL_BOOL: nat := 0x8B56

  /** `ShaderDataTypeToOpenGLBaseType`; the type without a case asserts and gives 0. */
  function OpenGLBaseType(t: ShaderDataType): (g: nat)
    ensures g == GL_INT <==> t.Int? || t.Int2? || t.Int3? || t.Int4?
    ensures g == GL_FLOAT <==> t.Float? || t.Float2? || t.Float3? || t.Float4? || t.Mat3? || t.Mat4?
    ensures g == GL_BOOL <==> t == Bool
    ensures g == 0 <==> t == NoType
  {
    match t
    case Int => GL_INT
    case Int2 => GL_INT
    case Int3 => GL_INT
    case Int4 => GL_INT
    case Float => GL_FLOAT
    case Float2 => GL_FLOAT
    case Float3 => GL_FLOAT
    case Float4 => GL_FLOAT
    case Mat3 => GL_FLOAT
    case Mat4 => GL_FLOAT
    case Bool => GL_BOOL
    case NoType => 0
  }

  /** The GL base type agrees with the size table: every 4-byte scalar type is
      an int or a float, and only Bool is one byte wide. */
  lemma BaseTypeMatchesSize(t: ShaderDataType)
    ensures IsFourByteScalarType(t) <==> OpenGLBaseType(t) == GL_INT || OpenGLBaseType(t) == GL_FLOAT
    ensures OpenGLBaseType(t) == GL_BOOL <==> ShaderDataTypeSize(t) == 1
  {
  }

  /** One `glVertexAttribPointer` call. */
  datatype AttribPointer = AttribPointer(
    index: nat,
    componentCount: nat,
    baseType: nat,
    normalized: bool,
    stride: nat,
    offset: nat)

  datatype VertexBuffer = VertexBuffer(id: nat, layout: Layout)
  datatype IndexBuffer = IndexBuffer(id: nat, count: nat)

  datatype VertexArrayState = VertexArrayState(
    vertexBuffers: seq<VertexBuffer>,
    indexBuffer: Option<IndexBuffer>)

  function NewVertexArray(): (va: VertexArrayState)
    ensures va.vertexBuffers == [] && va.indexBuffer.None?
  {
    VertexArrayState([], None)
  }

  /** The pointer declared for element `k` of a layout. */
  function AttribFor(l: Layout, k: nat): AttribPointer
    requires k < |l.elements|
  {
    var e := l.elements[k];
    AttribPointer(k, ComponentCount(e.typ), OpenGLBaseType(e.typ), e.normalized, l.stride, e.offset)
  }

  /** `addVertexBuffer`: the layout must not be empty; attribute indices count
      from 0 on every call, one per element in layout order, and the buffer is
      appended to the list. */
  method AddVertexBuffer(va: VertexArrayState, vb: VertexBuffer)
    returns (va': VertexArrayState, attribs: seq<AttribPointer>)
    requires |vb.layout.elements| > 0
    ensures |attribs| == |vb.layout.elements|
    ensures forall k :: 0 <= k < |attribs| ==>
      && attribs[k].index == k
      && attribs[k].componentCount == ComponentCount(vb.layout.elements[k].typ)
      && attribs[k].baseType == OpenGLBaseType(vb.layout.elements[k].typ)
      && attribs[k].normalized == vb.layout.elements[k].normalized
      && attribs[k].stride == vb.layout.stride
      && attribs[k].offset == vb.layout.elements[k].offset
    ensures va'.vertexBuffers == va.vertexBuffers + [vb]
    ensures va'.indexBuffer == va.indexBuffer
  {
    var index := 0;
    attribs := [];
    while index < |vb.layout.elements|
      invariant 0 <= index <= |vb.layout.elements|
      invariant |attribs| == index
      invariant forall k :: 0 <= k < index ==> attribs[k] == AttribFor(vb.layout, k)
    {
      attribs := attribs + [AttribFor(vb.layout, index)];
      index := index + 1;
    }
    va' := va.(vertexBuffers := va.vertexBuffers + [vb]);
  }

  /** `setIndexBuffer` replaces the stored index buffer and keeps the vertex buffers. */
  function SetIndexBuffer(va: VertexArrayState, ib: IndexBuffer): (va': VertexArrayState)
    ensures va'.indexBuffer == Some(ib)
    ensures va'.vertexBuffers == va.vertexBuffers
  {
    va.(indexBuffer := Some(ib))
  }

  /** Adding a vertex buffer grows the list by one at the end and keeps every
      earlier entry; a later `setIndexBuffer` is what `getIndexBuffer` returns. */
  method AddThenSetIndexBuffer(va: VertexArrayState, vb: VertexBuffer, ib: IndexBuffer)
    returns (va': VertexArrayState)
    requires |vb.layout.elements| > 0
    ensures |va'.vertexBuffers| == |va.vertexBuffers| + 1
    ensures va'.vertexBuffers[..|va.vertexBuffers|] == va.vertexBuffers
    ensures va'.vertexBuffers[|va.vertexBuffers|] == vb
    ensures va'.indexBuffer == Some(ib)
  {
    var withBuffer, _ := AddVertexBuffer(va, vb);
    va' := SetIndexBuffer(withBuffer, ib);
  }
}
