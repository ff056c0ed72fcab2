/** `RawBuffer`, a non-owning (pointer, size) pair over heap blocks, and
    `ScopedBuffer`, which releases its buffer when it goes out of scope. */
module RawBuffer {
  import opened Wrappers

  /** The heap of byte blocks, keyed by address; `next` is never yet used.
      A freed address is never handed out again, so a stale pointer always
      names a freed block: freeing through it is always a double free here,
      where a real heap may have reused the address for a later block. */
  datatype Heap = Heap(blocks: map<nat, seq<bv8>>, next: nat)

  predicate HeapOk(h: Heap) {
    forall a :: a in h.blocks ==> a < h.next
  }

  /** A null data pointer is `None`. The default buffer is null with size 0. */
  datatype Buffer = Buffer(data: Option<nat>, size: nat)

  function NullBuffer(): (b: Buffer)
    ensures b.data.None? && b.size == 0 && !Truthy(b)
  {
    Buffer(None, 0)
  }

  /** `operator bool`: the data pointer is not null (the size plays no part). */
  predicate Truthy(b: Buffer) {
    b.data.Some?
  }

  /** The buffer's pointer refers to a live block of its size (or is null with size 0). */
  predicate Live(h: Heap, b: Buffer) {
    match b.data
    case None => b.size == 0
    case Some(a) => a in h.blocks && |h.blocks[a]| == b.size
  }

  /** `release`: `delete[]` the block (nothing for null), then null and size 0.
      Deleting a pointer that is not a live block (a copy that was already
      released elsewhere) is a double free, here `None`. */
  function Release(h: Heap, b: Buffer): (r: Option<(Heap, Buffer)>)
    requires HeapOk(h)
    ensures r.Some? <==> b.data.None? || b.data.value in h.blocks
    ensures r.Some? ==> r.value.1 == NullBuffer() && HeapOk(r.value.0) && r.value.0.next == h.next
    ensures r.Some? && b.data.Some? ==> r.value.0.blocks == h.blocks - {b.data.value}
    ensures r.Some? && b.data.None? ==> r.value.0 == h
  {
    match b.data
    case None => Some((h, NullBuffer()))
    case Some(a) => if a in h.blocks then Some((Heap(h.blocks - {a}, h.next), NullBuffer())) else None
  }

  /** `allocate(size)`: release the old block, then take a fresh block of `size`
      bytes. The bytes `new uint8_t[size]` leaves indeterminate are `initial`. */
  function Allocate(h: Heap, b: Buffer, size: nat, initial: seq<bv8>): (r: Option<(Heap, Buffer)>)
    requires HeapOk(h)
    requires |initial| == size
    ensures r.Some? <==> Release(h, b).Some?
    ensures r.Some? ==> var (h', b') := r.value;
      && HeapOk(h')
      && b'.size == size && Truthy(b') && Live(h', b')
      && b'.data.value !in h.blocks
      && h'.blocks[b'.data.value] == initial
      && (forall a :: a in h.blocks && Some(a) != b.data ==> a in h'.blocks && h'.blocks[a] == h.blocks[a])
      && (b.data.Some? ==> b.data.value !in h'.blocks)
  {
    match Release(h, b)
    case None => None
    case Some((h1, _)) =>
      var a := h1.next;
      Some((Heap(h1.blocks[a := initial], a + 1), Buffer(Some(a), size)))
  }

  /** The sized constructor allocates on a null buffer. */
  function NewBuffer(h: Heap, size: nat, initial: seq<bv8>): (r: (Heap, Buffer))
    requires HeapOk(h)
    requires |initial| == size
    ensures HeapOk(r.0) && Live(r.0, r.1) && r.1.size == size && Truthy(r.1)
    ensures r.1.data.value !in h.blocks && r.0.blocks[r.1.data.value] == initial
    ensures forall a :: a in h.blocks ==> a in r.0.blocks && r.0.blocks[a] == h.blocks[a]
  {
    Allocate(h, NullBuffer(), size, initial).value
  }

  /** The bytes a live buffer refers to. */
  function Contents(h: Heap, b: Buffer): seq<bv8>
    requires Live(h, b)
  {
    match b.data
    case None => []
    case Some(a) => h.blocks[a]
  }

  /** `Copy(other)`: a fresh block of the same size, filled by `memcpy`. The
      copy's own scratch bytes before the `memcpy` are `scratch`. */
  function Copy(h: Heap, other: Buffer, scratch: seq<bv8>): (r: (Heap, Buffer))
    requires HeapOk(h) && Live(h, other)
    requires |scratch| == other.size
    ensures HeapOk(r.0) && Live(r.0, r.1)
    ensures r.1.size == other.size
    ensures Contents(r.0, r.1) == Contents(h, other)
    ensures r.1.data.Some? && r.1.data != other.data && r.1.data.value !in h.blocks
    ensures forall a :: a in h.blocks ==> a in r.0.blocks && r.0.blocks[a] == h.blocks[a]
  {
    var (h1, result) := NewBuffer(h, other.size, scratch);
    var a := result.data.value;
    (h1.(blocks := h1.blocks[a := Contents(h, other)]), result)
  }

  /** A copied buffer is independent: releasing the original leaves the copy's
      bytes intact. A shallow copy (the copy constructor) shares the block, so
      releasing through one leaves the other dangling. */
  lemma CopyIsDeepShallowIsNot(h: Heap, b: Buffer, scratch: seq<bv8>)
    requires HeapOk(h) && Live(h, b) && b.data.Some?
    requires |scratch| == b.size
    ensures var (h1, c) := Copy(h, b, scratch);
      var r := Release(h1, b);
      && r.Some? && Live(r.value.0, c) && Contents(r.value.0, c) == Contents(h, b)
    ensures var alias := b;
      var r := Release(h, b);
      && r.Some? && !Live(r.value.0, alias)
      && Release(r.value.0, alias).None?
  {
  }

  /** Releasing twice through the same buffer is harmless, and `allocate(0)`
      still gives a truthy buffer of size 0. */
  lemma ReleaseTwiceAndAllocateZero(h: Heap, b: Buffer)
    requires HeapOk(h) && Live(h, b)
    ensures var r := Release(h, b);
      r.Some? && Release(r.value.0, r.value.1) == Some((r.value.0, NullBuffer()))
    ensures var r := Allocate(h, b, 0, []);
      r.Some? && Truthy(r.value.1) && r.value.1.size == 0
  {
  }

  /** A `ScopedBuffer` owns one buffer and releases it when destroyed. */
  datatype ScopedBuffer = ScopedBuffer(buffer: Buffer)

  function DestroyScoped(h: Heap, s: ScopedBuffer): (r: Option<Heap>)
    requires HeapOk(h)
    ensures r.Some? <==> Release(h, s.buffer).Some?
    ensures r.Some? ==> r.value == Release(h, s.buffer).value.0
    ensures r.Some? ==> !Live(r.value, s.buffer) || s.buffer.data.None?
  {
    match Release(h, s.buffer)
    case None => None
    case Some((h', _)) => Some(h')
  }

  /** A scoped buffer built from a fresh allocation frees exactly that block,
      and the rest of the heap is untouched. */
  lemma ScopedBufferFreesItsBlock(h: Heap, size: nat, initial: seq<bv8>)
    requires HeapOk(h) && |initial| == size
    ensures var (h1, b) := NewBuffer(h, size, initial);
      var r := DestroyScoped(h1, ScopedBuffer(b));
      r.Some? && r.value.blocks == h.blocks
  {
    var (h1, b) := NewBuffer(h, size, initial);
    assert h1.blocks - {b.data.value} == h.blocks;
  }
}
