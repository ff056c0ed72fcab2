/** The 2D batch renderer: the quad index pattern built at start-up, the batch
    that `beginScene` resets and `drawQuad` fills (texture slots and vertices),
    the upload size of `endScene`, and the statistics counters. */
module Renderer2D {
  import opened Wrappers
  import opened Texture
  import BufferLayout
  import RendererApi
  import opened Vectors

  const MaxQuads: nat := 10000
  const MaxVertices: nat := MaxQuads * 4
  const MaxIndices: nat := MaxQuads * 6
  const MaxTextureSlots: nat := 32

  /** `sizeof(QuadVertex)`: eleven 4-byte floats. */
  const QuadVertexSize: nat := 44

  /** The batch vertex's byte size is the stride of the layout declared for it. */
  lemma QuadVertexSizeIsLayoutStride()
    ensures BufferLayout.NewLayout(BufferLayout.QuadElements()).stride == QuadVertexSize
    ensures MaxVertices == 4 * MaxQuads && MaxIndices == 6 * MaxQuads
  {
    BufferLayout.QuadLayoutOffsets();
  }

  // ---------------------------------------------------------------------------
  // Index pattern

  /** The two triangles (0,1,2) and (2,3,0) of a quad, relative to its first vertex. */
  function Pattern(j: nat): nat
    requires j < 6
  {
    [0, 1, 2, 2, 3, 0][j]
  }

  /** Index `i` of the generated buffer: quad `i / 6`, corner `Pattern(i % 6)`. */
  function IndexAt(i: nat): nat {
    4 * (i / 6) + Pattern(i % 6)
  }

  /** The six indices of quad `q`. */
  function QuadBlock(q: nat): seq<nat> {
    [4 * q + 0, 4 * q + 1, 4 * q + 2, 4 * q + 2, 4 * q + 3, 4 * q + 0]
  }

  /** The index buffer for the first `q` quads, block by block. */
  function QuadIndices(q: nat): (r: seq<nat>)
    ensures |r| == 6 * q
  {
    if q == 0 then [] else QuadIndices(q - 1) + QuadBlock(q - 1)
  }

  /** The block-by-block buffer is the index pattern. */
  lemma {:induction false} QuadIndicesAt(q: nat)
    ensures forall i :: 0 <= i < 6 * q ==> QuadIndices(q)[i] == IndexAt(i)
  {
    if q > 0 {
      QuadIndicesAt(q - 1);
      var r := QuadIndices(q);
      forall i | 0 <= i < 6 * q
        ensures r[i] == IndexAt(i)
      {
        if i < 6 * (q - 1) {
          assert r[i] == QuadIndices(q - 1)[i];
        } else {
          var j := i - 6 * (q - 1);
          assert r[i] == QuadBlock(q - 1)[j];
          BlockAt(q - 1, j);
        }
      }
    }
  }

  lemma BlockAt(q: nat, j: nat)
    requires j < 6
    ensures QuadBlock(q)[j] == IndexAt(6 * q + j)
  {
    assert (6 * q + j) / 6 == q && (6 * q + j) % 6 == j;
  }

  /** The start-up loop: six indices per quad, the vertex offset advancing by 4. */
  method GenerateIndices(quads: nat) returns (indices: seq<nat>)
    ensures |indices| == 6 * quads
    ensures forall i :: 0 <= i < |indices| ==> indices[i] == IndexAt(i)
  {
    indices := [];
    var offset := 0;
    var i := 0;
    ghost var q := 0;
    while i < 6 * quads
      invariant i == 6 * q && q <= quads
      invariant offset == 4 * q
      invariant indices == QuadIndices(q)
    {
      indices := indices + [offset + 0, offset + 1, offset + 2, offset + 2, offset + 3, offset + 0];
      offset := offset + 4;
      i := i + 6;
      q := q + 1;
    }
    QuadIndicesAt(quads);
  }

  /** Quad `q`'s six indices are 4q + [0,1,2,2,3,0], and every index names one of
      the `4 * quads` vertices. */
  lemma IndicesOfQuad(quads: nat, q: nat)
    requires q < quads
    ensures forall j :: 0 <= j < 6 ==> IndexAt(6 * q + j) == 4 * q + Pattern(j)
    ensures forall i :: 0 <= i < 6 * quads ==> IndexAt(i) < 4 * quads
  {
    forall j | 0 <= j < 6
      ensures IndexAt(6 * q + j) == 4 * q + Pattern(j)
    {
      BlockAt(q, j);
    }
    forall i | 0 <= i < 6 * quads
      ensures IndexAt(i) < 4 * quads
    {
      IndexBelow(i, quads);
    }
  }

  lemma IndexBelow(i: nat, quads: nat)
    requires i < 6 * quads
    ensures IndexAt(i) < 4 * quads
  {
    var k, j := i / 6, i % 6;
    assert i == 6 * k + j && j < 6;
    assert k < quads;
    assert Pattern(j) <= 3;
  }

  // ---------------------------------------------------------------------------
  // The batch

  /** One batch vertex; `texIndex` is the slot number (stored as a float, which
      holds the small slot numbers exactly). */
  datatype QuadVertex = QuadVertex(
    position: Vec3,
    color: Vec4,
    texCoord: Vec2,
    texIndex: nat,
    tilingFactor: real)

  /** The per-scene batch: the index count, the vertices written since the
      buffer base, and the occupied texture slots `textureSlots[0 .. textureSlotIndex)`. */
  datatype Batch = Batch(indexCount: nat, vertices: seq<QuadVertex>, slots: seq<Texture2D>)

  /** `beginScene`: no indices, write cursor at the base, and only the white
      texture (slot 0) occupied. */
  function BeginScene(white: Texture2D): (b: Batch)
    ensures b.indexCount == 0 && b.vertices == [] && b.slots == [white]
  {
    Batch(0, [], [white])
  }

  /** The texture-slot lookup of `drawQuad`: the first occupied slot holding an
      equal texture, if any. */
  function SlotOf(slots: seq<Texture2D>, t: Texture2D): (r: Option<nat>)
    ensures r.Some? ==> r.value < |slots| && Equals(slots[r.value], OpenGLTexture(t))
    ensures r.Some? ==> forall j :: 0 <= j < r.value ==> !Equals(slots[j], OpenGLTexture(t))
    ensures r.None? ==> forall j :: 0 <= j < |slots| ==> !Equals(slots[j], OpenGLTexture(t))
    decreases |slots|
  {
    if |slots| == 0 then None
    else if Equals(slots[0], OpenGLTexture(t)) then Some(0)
    else match SlotOf(slots[1..], t)
      case None => None
      case Some(k) => Some(k + 1)
  }

  /** The four corners as the source writes them: bottom-left takes the whole
      `position`, including its z, while the other three are placed at z = 0. */
  function QuadCornersAsWritten(position: Vec3, size: Vec2, color: Vec4, texIndex: nat, tiling: real): seq<QuadVertex> {
    [ QuadVertex(position, color, Vec2(0.0, 0.0), texIndex, tiling),
      QuadVertex(Vec3(position.x + size.x, position.y, 0.0), color, Vec2(1.0, 0.0), texIndex, tiling),
      QuadVertex(Vec3(position.x + size.x, position.y + size.y, 0.0), color, Vec2(1.0, 1.0), texIndex, tiling),
      QuadVertex(Vec3(position.x, position.y + size.y, 0.0), color, Vec2(0.0, 1.0), texIndex, tiling) ]
  }

  /** The four corners with every corner in the plane z = position.z. */
  function QuadCorners(position: Vec3, size: Vec2, color: Vec4, texIndex: nat, tiling: real): seq<QuadVertex> {
    [ QuadVertex(position, color, Vec2(0.0, 0.0), texIndex, tiling),
      QuadVertex(Vec3(position.x + size.x, position.y, position.z), color, Vec2(1.0, 0.0), texIndex, tiling),
      QuadVertex(Vec3(position.x + size.x, position.y + size.y, position.z), color, Vec2(1.0, 1.0), texIndex, tiling),
      QuadVertex(Vec3(position.x, position.y + size.y, position.z), color, Vec2(0.0, 1.0), texIndex, tiling) ]
  }

  /** The four corners are bottom-left, bottom-right, top-right, top-left of the
      rectangle at `position` with extent `size`, with texture coordinates
      (0,0), (1,0), (1,1), (0,1), sharing colour, slot and tiling factor. */
  predicate IsQuad(vs: seq<QuadVertex>, position: Vec3, size: Vec2, color: Vec4, texIndex: nat, tiling: real) {
    && |vs| == 4
    && vs[0].position.x == position.x && vs[0].position.y == position.y
    && vs[1].position.x == position.x + size.x && vs[1].position.y == position.y
    && vs[2].position.x == position.x + size.x && vs[2].position.y == position.y + size.y
    && vs[3].position.x == position.x && vs[3].position.y == position.y + size.y
    && vs[0].texCoord == Vec2(0.0, 0.0) && vs[1].texCoord == Vec2(1.0, 0.0)
    && vs[2].texCoord == Vec2(1.0, 1.0) && vs[3].texCoord == Vec2(0.0, 1.0)
    && (forall k :: 0 <= k < 4 ==> vs[k].color == color && vs[k].texIndex == texIndex && vs[k].tilingFactor == tiling)
  }

  /** All four corners lie in one plane parallel to the screen, at depth `z`. */
  predicate Flat(vs: seq<QuadVertex>, z: real) {
    forall k :: 0 <= k < |vs| ==> vs[k].position.z == z
  }

  /** Both corner generators lay out the same rectangle; only the corrected one
      keeps it flat at the requested depth, and the two differ whenever z != 0. */
  lemma CornersDepth(position: Vec3, size: Vec2, color: Vec4, texIndex: nat, tiling: real)
    ensures IsQuad(QuadCornersAsWritten(position, size, color, texIndex, tiling), position, size, color, texIndex, tiling)
    ensures IsQuad(QuadCorners(position, size, color, texIndex, tiling), position, size, color, texIndex, tiling)
    ensures Flat(QuadCorners(position, size, color, texIndex, tiling), position.z)
    ensures Flat(QuadCornersAsWritten(position, size, color, texIndex, tiling), position.z) <==> position.z == 0.0
  {
    var w := QuadCornersAsWritten(position, size, color, texIndex, tiling);
    if Flat(w, position.z) {
      assert w[1].position.z == 0.0;
    }
  }

  /** Where `drawQuad` would put the texture: its existing slot, or the next free one. */
  function SlotFor(b: Batch, t: Texture2D): (slot: nat)
    ensures SlotOf(b.slots, t).Some? ==> slot == SlotOf(b.slots, t).value
    ensures SlotOf(b.slots, t).None? ==> slot == |b.slots|
  {
    match SlotOf(b.slots, t)
    case Some(i) => i
    case None => |b.slots|
  }

  /** `drawQuad` needs a free slot when the texture is not yet in one. */
  predicate SlotAvailable(b: Batch, t: Texture2D) {
    SlotOf(b.slots, t).Some? || |b.slots| < MaxTextureSlots
  }

  predicate VertexRoom(b: Batch) {
    |b.vertices| + 4 <= MaxVertices
  }

  /** `drawQuad` as written: nothing checks that a new texture still has a slot
      or that the vertex buffer has room, so either overflow writes past its
      array. Such a write is `None` here. */
  function DrawQuadAsWritten(b: Batch, position: Vec3, size: Vec2, t: Texture2D, color: Vec4, tiling: real): (r: Option<Batch>)
    ensures r.Some? <==> SlotAvailable(b, t) && VertexRoom(b)
    ensures r.Some? ==>
      && r.value.indexCount == b.indexCount + 6
      && |r.value.vertices| == |b.vertices| + 4
      && r.value.vertices[..|b.vertices|] == b.vertices
      && IsQuad(r.value.vertices[|b.vertices|..], position, size, color, SlotFor(b, t), tiling)
      && (SlotOf(b.slots, t).Some? ==> r.value.slots == b.slots)
      && (SlotOf(b.slots, t).None? ==> r.value.slots == b.slots + [t])
  {
    if !(SlotAvailable(b, t) && VertexRoom(b)) then None
    else
      var slot := SlotFor(b, t);
      var slots := if slot == |b.slots| then b.slots + [t] else b.slots;
      var corners := QuadCornersAsWritten(position, size, color, slot, tiling);
      CornersDepth(position, size, color, slot, tiling);
      assert (b.vertices + corners)[|b.vertices|..] == corners;
      Some(Batch(b.indexCount + 6, b.vertices + corners, slots))
  }

  /** Draws the quads for `ts` one after another, the as-written way. */
  function DrawAllAsWritten(b: Batch, ts: seq<Texture2D>): Option<Batch>
    decreases |ts|
  {
    if |ts| == 0 then Some(b)
    else match DrawAllAsWritten(b, ts[..|ts| - 1])
      case None => None
      case Some(b') =>
        DrawQuadAsWritten(b', Vec3(0.0, 0.0, 0.0), Vec2(1.0, 1.0), ts[|ts| - 1], Vec4(1.0, 1.0, 1.0, 1.0), 1.0)
  }

  /** Textures with pairwise distinct renderer ids, none equal to the white texture. */
  predicate DistinctTextures(white: Texture2D, ts: seq<Texture2D>) {
    && (forall i :: 0 <= i < |ts| ==> ts[i].rendererId != white.rendererId)
    && (forall i, j :: 0 <= i < j < |ts| ==> ts[i].rendererId != ts[j].rendererId)
  }

  /** Every distinct texture takes a fresh slot, in drawing order. */
  lemma {:induction false} DistinctTexturesFillSlots(white: Texture2D, ts: seq<Texture2D>)
    requires DistinctTextures(white, ts)
    requires |ts| < MaxTextureSlots
    ensures DrawAllAsWritten(BeginScene(white), ts).Some?
    ensures DrawAllAsWritten(BeginScene(white), ts).value.slots == [white] + ts
    ensures |DrawAllAsWritten(BeginScene(white), ts).value.vertices| == 4 * |ts|
    decreases |ts|
  {
    if |ts| > 0 {
      var init := ts[..|ts| - 1];
      var last := ts[|ts| - 1];
      assert DistinctTextures(white, init);
      DistinctTexturesFillSlots(white, init);
      var b' := DrawAllAsWritten(BeginScene(white), init).value;
      NewTextureHasNoSlot(white, ts, b'.slots);
      FillSlotStep(white, ts, b');
    }
  }

  /** One step of `DistinctTexturesFillSlots`: the last texture takes the next slot. */
  lemma FillSlotStep(white: Texture2D, ts: seq<Texture2D>, b': Batch)
    requires 0 < |ts| < MaxTextureSlots
    requires DrawAllAsWritten(BeginScene(white), ts[..|ts| - 1]) == Some(b')
    requires SlotOf(b'.slots, ts[|ts| - 1]).None?
    requires b'.slots == [white] + ts[..|ts| - 1] && |b'.vertices| == 4 * (|ts| - 1)
    ensures DrawAllAsWritten(BeginScene(white), ts).Some?
    ensures DrawAllAsWritten(BeginScene(white), ts).value.slots == [white] + ts
    ensures |DrawAllAsWritten(BeginScene(white), ts).value.vertices| == 4 * |ts|
  {
    var init := ts[..|ts| - 1];
    var last := ts[|ts| - 1];
    var r := DrawQuadAsWritten(b', Vec3(0.0, 0.0, 0.0), Vec2(1.0, 1.0), last, Vec4(1.0, 1.0, 1.0, 1.0), 1.0);
    assert DrawAllAsWritten(BeginScene(white), ts) == r;
    assert SlotAvailable(b', last) && VertexRoom(b');
    PrefixAndLast(white, ts);
  }

  lemma PrefixAndLast<T>(x: T, ts: seq<T>)
    requires |ts| > 0
    ensures [x] + ts[..|ts| - 1] + [ts[|ts| - 1]] == [x] + ts
  {
    assert ts == ts[..|ts| - 1] + [ts[|ts| - 1]];
  }

  /** The last of distinct textures is in none of the slots the others took. */
  lemma NewTextureHasNoSlot(white: Texture2D, ts: seq<Texture2D>, slots: seq<Texture2D>)
    requires DistinctTextures(white, ts) && |ts| > 0
    requires slots == [white] + ts[..|ts| - 1]
    ensures SlotOf(slots, ts[|ts| - 1]).None?
  {
    var last := ts[|ts| - 1];
    forall j | 0 <= j < |slots|
      ensures !Equals(slots[j], OpenGLTexture(last))
    {
      if j > 0 {
        assert slots[j] == ts[j - 1];
      }
    }
  }

  /** The overflow is reachable: a scene that draws 32 textures besides the white
      one asks for a 33rd slot, which the as-written `drawQuad` writes out of bounds. */
  lemma ThirtyTwoDistinctTexturesOverflow(white: Texture2D, ts: seq<Texture2D>)
    requires DistinctTextures(white, ts)
    requires |ts| == MaxTextureSlots
    ensures DrawAllAsWritten(BeginScene(white), ts).None?
  {
    var init := ts[..|ts| - 1];
    assert DistinctTextures(white, init);
    DistinctTexturesFillSlots(white, init);
    var b' := DrawAllAsWritten(BeginScene(white), init).value;
    NewTextureHasNoSlot(white, ts, b'.slots);
  }

  // ---------------------------------------------------------------------------
  // The corrected batcher: flush and start a new batch when full

  /** A batch that `drawQuad` can keep extending: slot 0 is the white texture,
      at most 32 slots are occupied, the vertices fit the buffer and come in
      fours, and there are six indices per four vertices. */
  predicate ValidBatch(b: Batch, white: Texture2D) {
    && 1 <= |b.slots| <= MaxTextureSlots
    && b.slots[0] == white
    && |b.vertices| <= MaxVertices
    && |b.vertices| % 4 == 0
    && 2 * b.indexCount == 3 * |b.vertices|
  }

  /** The renderer state: the current batch, whether `beginScene` has pointed
      the write cursor at the vertex buffer (it is null before that), and the
      draw counts flushed so far. */
  datatype Renderer = Renderer(white: Texture2D, batch: Batch, begun: bool, draws: seq<nat>)

  /** A renderer a quad can be drawn into: a scene has begun and its batch
      keeps the batch invariant. */
  predicate ValidRenderer(r: Renderer) {
    r.begun && ValidBatch(r.batch, r.white)
  }

  /** `init` with the white texture: slot 0 holds it, the index count is 0 and
      the next slot 1, but the write cursor is still null, so no quad can be
      drawn until a scene begins. */
  function StartRenderer(white: Texture2D): (r: Renderer)
    ensures !r.begun && !ValidRenderer(r) && r.draws == []
    ensures r.white == white && r.batch.indexCount == 0 && r.batch.slots == [white]
  {
    Renderer(white, Batch(0, [], [white]), false, [])
  }

  /** `beginScene` on the renderer: a fresh batch with the write cursor at the
      buffer base; the draws made so far are kept. */
  function BeginRendererScene(r: Renderer): (r': Renderer)
    ensures ValidRenderer(r') && r'.white == r.white && r'.draws == r.draws
    ensures r'.batch.vertices == [] && r'.batch.indexCount == 0 && r'.batch.slots == [r.white]
  {
    r.(batch := BeginScene(r.white), begun := true)
  }

  /** `flush`: one indexed draw of the batch's index count (zero meaning the
      whole `MaxIndices` buffer). */
  function Flush(r: Renderer): (r': Renderer)
    ensures r'.draws == r.draws + [RendererApi.DrawCount(r.batch.indexCount, MaxIndices)]
    ensures r'.batch == r.batch && r'.white == r.white
  {
    r.(draws := r.draws + [RendererApi.DrawCount(r.batch.indexCount, MaxIndices)])
  }

  /** `drawQuad` that flushes the full batch and begins a new one before it
      would overflow either the texture slots or the vertex buffer. */
  function DrawQuad(r: Renderer, position: Vec3, size: Vec2, t: Texture2D, color: Vec4, tiling: real): (r': Renderer)
    requires ValidRenderer(r)
    ensures ValidRenderer(r')
    ensures r'.white == r.white
    ensures SlotAvailable(r.batch, t) && VertexRoom(r.batch) ==> r'.draws == r.draws
    ensures !(SlotAvailable(r.batch, t) && VertexRoom(r.batch)) ==>
      r'.draws == r.draws + [RendererApi.DrawCount(r.batch.indexCount, MaxIndices)]
    ensures var base := if SlotAvailable(r.batch, t) && VertexRoom(r.batch) then r.batch else BeginScene(r.white);
      && r'.batch.indexCount == base.indexCount + 6
      && |r'.batch.vertices| == |base.vertices| + 4
      && r'.batch.vertices[..|base.vertices|] == base.vertices
      && IsQuad(r'.batch.vertices[|base.vertices|..], position, size, color, SlotFor(base, t), tiling)
      && Flat(r'.batch.vertices[|base.vertices|..], position.z)
  {
    var r0 := if SlotAvailable(r.batch, t) && VertexRoom(r.batch) then r
      else Flush(r).(batch := BeginScene(r.white));
    r0.(batch := AddQuad(r0.batch, r.white, position, size, t, color, tiling))
  }

  /** The quad appended to a batch with room for it: four flat corners, six
      indices, and the texture in its slot. */
  function AddQuad(b: Batch, white: Texture2D, position: Vec3, size: Vec2, t: Texture2D, color: Vec4, tiling: real): (b': Batch)
    requires ValidBatch(b, white) && SlotAvailable(b, t) && VertexRoom(b)
    ensures ValidBatch(b', white)
    ensures b'.indexCount == b.indexCount + 6
    ensures |b'.vertices| == |b.vertices| + 4 && b'.vertices[..|b.vertices|] == b.vertices
    ensures IsQuad(b'.vertices[|b.vertices|..], position, size, color, SlotFor(b, t), tiling)
    ensures Flat(b'.vertices[|b.vertices|..], position.z)
  {
    var slot := SlotFor(b, t);
    var slots := if slot == |b.slots| then b.slots + [t] else b.slots;
    var corners := QuadCorners(position, size, color, slot, tiling);
    CornersDepth(position, size, color, slot, tiling);
    assert (b.vertices + corners)[|b.vertices|..] == corners;
    assert slots[0] == white;
    Batch(b.indexCount + 6, b.vertices + corners, slots)
  }

  /** Where the as-written `drawQuad` is defined, the corrected one adds no draw
      and fills the batch the same way: same index count, same slots, same
      vertices up to the depth of the three far corners. */
  lemma DrawQuadAgreesWhenRoom(r: Renderer, position: Vec3, size: Vec2, t: Texture2D, color: Vec4, tiling: real)
    requires ValidRenderer(r)
    requires DrawQuadAsWritten(r.batch, position, size, t, color, tiling).Some?
    ensures var w := DrawQuadAsWritten(r.batch, position, size, t, color, tiling).value;
      var c := DrawQuad(r, position, size, t, color, tiling);
      && c.draws == r.draws
      && c.batch.indexCount == w.indexCount
      && c.batch.slots == w.slots
      && |c.batch.vertices| == |w.vertices|
      && (position.z == 0.0 ==> c.batch.vertices == w.vertices)
  {
    var slot := SlotFor(r.batch, t);
    assert QuadCorners(position, size, color, slot, tiling) == QuadCornersAsWritten(position, size, color, slot, tiling)
      <== position.z == 0.0;
  }

  /** A colour-only quad uses the white texture, which is always in slot 0, with
      tiling factor 1. */
  function DrawColorQuad(r: Renderer, position: Vec3, size: Vec2, color: Vec4): (r': Renderer)
    requires ValidRenderer(r)
    ensures ValidRenderer(r')
    ensures VertexRoom(r.batch) ==> r'.draws == r.draws && r'.batch.slots == r.batch.slots
    ensures |r'.batch.vertices| >= 4
    ensures IsQuad(r'.batch.vertices[|r'.batch.vertices| - 4..], position, size, color, 0, 1.0)
  {
    ColorQuadRoom(r);
    DrawQuad(r, position, size, r.white, color, 1.0)
  }

  /** The white texture is found in slot 0, and a valid batch with room for
      no more vertices is exactly one holding `MaxQuads` quads. */
  lemma ColorQuadRoom(r: Renderer)
    requires ValidRenderer(r)
    ensures SlotOf(r.batch.slots, r.white) == Some(0)
    ensures VertexRoom(r.batch) || |r.batch.vertices| == MaxVertices
  {
  }

  /** The 2D-position overloads place the quad at depth 0. */
  function DrawColorQuad2D(r: Renderer, position: Vec2, size: Vec2, color: Vec4): (r': Renderer)
    requires ValidRenderer(r)
    ensures ValidRenderer(r')
    ensures |r'.batch.vertices| >= 4
    ensures Flat(r'.batch.vertices[|r'.batch.vertices| - 4..], 0.0)
    ensures r'.batch.vertices[|r'.batch.vertices| - 4].position == Vec3(position.x, position.y, 0.0)
  {
    ColorQuadRoom(r);
    DrawColorQuad(r, Vec3(position.x, position.y, 0.0), size, color)
  }

  /** What `endScene` hands on: the bytes uploaded (the vertices written times the
      vertex size) and the draw issued by the flush. */
  datatype SceneEnd = SceneEnd(uploadBytes: nat, drawCount: nat, boundSlots: nat)

  /** `endScene`: every vertex written is uploaded and every occupied slot is
      bound; the draw covers the indices written, or the whole index buffer
      when none were. For a batch of whole quads with six indices each, that
      is 176 bytes and six indices per quad. */
  function EndScene(b: Batch): (e: SceneEnd)
    ensures e.uploadBytes == |b.vertices| * QuadVertexSize
    ensures e.drawCount == (if b.indexCount == 0 then MaxIndices else b.indexCount)
    ensures e.boundSlots == |b.slots|
    ensures |b.vertices| % 4 == 0 && 2 * b.indexCount == 3 * |b.vertices| ==>
      var n := |b.vertices| / 4;
      && e.uploadBytes == 4 * QuadVertexSize * n
      && (n > 0 ==> e.drawCount == 6 * n)
      && (n == 0 ==> e.drawCount == MaxIndices)
  {
    SceneEnd(|b.vertices| * QuadVertexSize, RendererApi.DrawCount(b.indexCount, MaxIndices), |b.slots|)
  }

  /** For a valid batch of `n` quads, `endScene` uploads 176·n bytes and draws
      6·n indices; an empty scene draws the whole index buffer. */
  lemma EndSceneCounts(r: Renderer)
    requires ValidRenderer(r)
    ensures var n := |r.batch.vertices| / 4;
      && EndScene(r.batch).uploadBytes == 4 * QuadVertexSize * n
      && (n > 0 ==> EndScene(r.batch).drawCount == 6 * n)
      && (n == 0 ==> EndScene(r.batch).drawCount == MaxIndices)
  {
  }

  // ---------------------------------------------------------------------------
  // Statistics

  const UINT32_MODULUS: nat := 0x1_0000_0000

  /** `Renderer2D::Statistics`, two `uint32_t` counters. */
  datatype Statistics = Statistics(drawCalls: nat, quadCount: nat)

  function NewStatistics(): (s: Statistics)
    ensures s.drawCalls == 0 && s.quadCount == 0
  {
    Statistics(0, 0)
  }

  function TotalVertexCount(s: Statistics): nat {
    (s.quadCount * 4) % UINT32_MODULUS
  }

  function TotalIndexCount(s: Statistics): nat {
    (s.quadCount * 6) % UINT32_MODULUS
  }

  /** Four vertices and six indices per quad, so two index counts make three
      vertex counts while the 32-bit products do not wrap. */
  lemma StatisticsRatio(s: Statistics)
    requires s.quadCount * 6 < UINT32_MODULUS
    ensures TotalVertexCount(s) == 4 * s.quadCount
    ensures TotalIndexCount(s) == 6 * s.quadCount
    ensures 2 * TotalIndexCount(s) == 3 * TotalVertexCount(s)
  {
  }

  /** Past 2^32 / 6 quads the index total wraps, and the ratio breaks. */
  lemma StatisticsWrap()
    ensures TotalIndexCount(Statistics(0, 0x4000_0000)) == 0x1_8000_0000 % UINT32_MODULUS
    ensures TotalIndexCount(Statistics(0, 0x4000_0000)) == 0x8000_0000
    ensures TotalVertexCount(Statistics(0, 0x4000_0000)) == 0
  {
  }
}
