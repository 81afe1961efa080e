/**
 * `BufferRef`: a non-owning view of `length` bytes starting at the address `data`.
 * The view never checks its length against anything, and `slice` neither.
 */
module BufferRefs {
  import opened Blocks

  /** The fields `m_data` and `m_length`. */
  datatype BufferRef = BufferRef(data: int, length: nat)

  /** `BufferRef(Ptr *data, usize length)`, and its `Ptr const *` overload: both stored unchanged. */
  function FromPointer(data: int, length: nat): BufferRef
  {
    BufferRef(data, length)
  }

  /** `BufferRef(Ptr *data)`: a view of one object; `pointeeSize` is `sizeof(Ptr)`. */
  function FromObject(data: int, pointeeSize: nat): BufferRef
  {
    BufferRef(data, pointeeSize)
  }

  /** `BufferRef(Block const &)`: the block's address and size. */
  function FromBlock(b: Block): BufferRef
  {
    BufferRef(b.addr, b.size)
  }

  /** `BufferRef(std::string const &)`: `chars` is the address of the string's characters (`string.data()`). */
  function FromString(chars: int, s: string): BufferRef
  {
    BufferRef(chars, |s|)
  }

  function Length(r: BufferRef): nat
  {
    r.length
  }

  /** A view of `length` bytes at the same address. */
  function Slice(r: BufferRef, length: nat): BufferRef
  {
    BufferRef(r.data, length)
  }

  /** The pointer-and-length constructors store both arguments unchanged. */
  lemma FromPointerStores(data: int, length: nat)
    ensures FromPointer(data, length).data == data
    ensures Length(FromPointer(data, length)) == length
  {
  }

  /** A view of one object spans `sizeof` of its type. */
  lemma FromObjectSpansPointee(data: int, pointeeSize: nat)
    ensures FromObject(data, pointeeSize) == FromPointer(data, pointeeSize)
    ensures Length(FromObject(data, pointeeSize)) == pointeeSize
  {
  }

  /** A view of a block has the block's address and size, and different blocks give different views. */
  lemma FromBlockMatches(b: Block, c: Block)
    ensures FromBlock(b).data == Address(b) && Length(FromBlock(b)) == b.size
    ensures FromBlock(b) == FromBlock(c) <==> b == c
  {
  }

  /** A view of a string spans its length in characters. */
  lemma FromStringLength(chars: int, s: string)
    ensures FromString(chars, s).data == chars
    ensures Length(FromString(chars, s)) == |s|
  {
  }

  /**
   * `slice(n)` keeps the address and has length `n`, with no bound against the original
   * length; slicing twice is slicing once to the last length, and slicing to the current
   * length gives the same view.
   */
  lemma SliceProperties(r: BufferRef, n: nat, m: nat)
    ensures Slice(r, n).data == r.data && Length(Slice(r, n)) == n
    ensures Slice(Slice(r, n), m) == Slice(r, m)
    ensures Slice(r, Length(r)) == r
  {
  }
}
