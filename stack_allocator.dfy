/**
 * `StackAllocator<capacity, align>`: a bump cursor over a fixed buffer.
 * `alloc` hands out the block at the cursor and moves the cursor to the next aligned
 * position; `free` rolls the cursor back only for the block on top (LIFO).
 */
module StackAllocators {
  import opened Blocks
  import opened MemoryUtils
  import opened AllocatorInterface

  /** The buffer's address `m_buf`, the template parameters and the cursor `m_ptr`. */
  datatype Arena = Arena(buf: int, capacity: nat, align: nat, ptr: int)

  /** The template parameter `align` is a power of two (a `static_assert` in the source). */
  type StackState = a: Arena | PowerOfTwo(a.align) witness Arena(0, 0, 1, 0)

  /** One past the last byte of the buffer: `m_buf + capacity`. */
  function End(s: Arena): int
  {
    s.buf + s.capacity
  }

  /** A freshly constructed allocator: the cursor is the buffer address rounded up. */
  function StackInit(buf: int, capacity: nat, align: nat): StackState
    requires PowerOfTwo(align)
  {
    Arena(buf, capacity, align, AlignFront(buf, align))
  }

  function StackAlloc(s: StackState, size: nat): (StackState, Block)
  {
    var next := AlignFront(s.ptr + size, s.align);
    if next <= End(s) then (s.(ptr := next), Block(s.ptr, size)) else (s, NullBlock)
  }

  /** `owns` with the upper bound the source evidently intends: `m_buf + capacity`, inclusive. */
  predicate StackOwns(s: Arena, b: Block)
  {
    s.buf <= b.addr <= End(s)
  }

  /**
   * `owns` as written: `&m_buf + capacity` steps over `capacity` whole arrays of
   * `capacity` bytes, so the upper bound is `m_buf + capacity * capacity`.
   */
  predicate StackOwnsAsWritten(s: Arena, b: Block)
  {
    s.buf <= b.addr <= s.buf + s.capacity * s.capacity
  }

  function StackFree(s: StackState, b: Block): (StackState, Block)
  {
    var prev := AlignBack(s.ptr - b.size, s.align);
    if prev == b.addr then (s.(ptr := prev), NullBlock) else (s, b)
  }

  /** The operations record used when a `StackAllocator` is a child of a composite. */
  function StackOps(): AllocOps<StackState>
  {
    AllocOps(
      (s: StackState, size: nat) => StackAlloc(s, size),
      (s: StackState, b: Block) => StackOwns(s, b),
      (s: StackState, b: Block) => var (s', b') := StackFree(s, b); Freed(s', b', false))
  }

  /**
   * The cursor invariant: it is a multiple of `align` and never beyond the end of the
   * buffer, except for the initial cursor when rounding the buffer address up already passes it.
   */
  ghost predicate StackValid(s: StackState)
  {
    s.ptr % s.align == 0 && (s.ptr <= End(s) || s.ptr <= AlignFront(s.buf, s.align))
  }

  lemma StackInitValid(buf: int, capacity: nat, align: nat)
    requires PowerOfTwo(align)
    ensures StackValid(StackInit(buf, capacity, align))
    ensures StackInit(buf, capacity, align).ptr % align == 0
  {
  }

  /**
   * A successful `alloc` returns exactly `{m_ptr, size}` and moves the cursor to the aligned
   * next position; otherwise it returns `null_block` and changes nothing.
   */
  lemma StackAllocOutcome(s: StackState, size: nat)
    ensures var next := AlignFront(s.ptr + size, s.align);
      if next <= End(s) then StackAlloc(s, size) == (s.(ptr := next), Block(s.ptr, size))
      else StackAlloc(s, size) == (s, NullBlock)
  {
  }

  lemma StackAllocPreservesValid(s: StackState, size: nat)
    requires StackValid(s)
    ensures StackValid(StackAlloc(s, size).0)
    ensures StackAlloc(s, size).0 == s.(ptr := StackAlloc(s, size).0.ptr)
  {
  }

  /** `free` rolls the cursor back to the block and nulls it exactly when the block is on top; otherwise nothing changes. */
  lemma StackFreeOutcome(s: StackState, b: Block)
    ensures var prev := AlignBack(s.ptr - b.size, s.align);
      if prev == b.addr then StackFree(s, b) == (s.(ptr := b.addr), NullBlock)
      else StackFree(s, b) == (s, b)
  {
  }

  lemma StackFreePreservesValid(s: StackState, b: Block)
    requires StackValid(s)
    ensures StackValid(StackFree(s, b).0)
    ensures StackFree(s, b).0.ptr <= s.ptr
  {
  }

  /** Freeing `null_block` leaves the cursor, and the block, as they were. */
  lemma StackFreeNull(s: StackState)
    requires StackValid(s)
    ensures StackFree(s, NullBlock) == (s, NullBlock)
  {
  }

  /** An aligned anchor is the only multiple of `align` in `[anchor, anchor + align)`. */
  lemma AlignBackToAnchor(anchor: int, x: int, align: nat)
    requires PowerOfTwo(align) && anchor % align == 0
    requires anchor <= x < anchor + align
    ensures AlignBack(x, align) == anchor
  {
    MultipleGap(anchor, AlignBack(x, align), align);
    MultipleGap(AlignBack(x, align), anchor, align);
  }

  /** LIFO round trip: freeing the block an `alloc` just returned restores the cursor. */
  lemma StackLifo(s: StackState, size: nat)
    requires StackValid(s)
    requires AlignFront(s.ptr + size, s.align) <= End(s)
    ensures var (s1, b) := StackAlloc(s, size); StackFree(s1, b) == (s, NullBlock)
  {
    AlignFrontShift(s.ptr, size, s.align);
    AlignBackToAnchor(s.ptr, s.ptr + AlignSize(size, s.align) - size, s.align);
  }

  /** Freeing `b2` and then `b1`, in that order, restores the cursor to where it was before both. */
  lemma StackLifoTwice(s: StackState, n1: nat, n2: nat)
    requires StackValid(s)
    requires AlignFront(s.ptr + n1, s.align) <= End(s)
    requires AlignFront(StackAlloc(s, n1).0.ptr + n2, s.align) <= End(s)
    ensures var (s1, b1) := StackAlloc(s, n1);
      var (s2, b2) := StackAlloc(s1, n2);
      var (s3, c2) := StackFree(s2, b2);
      var (s4, c1) := StackFree(s3, b1);
      s3 == s1 && s4 == s && c1 == NullBlock && c2 == NullBlock
  {
    StackLifo(s, n1);
    StackAllocPreservesValid(s, n1);
    StackLifo(StackAlloc(s, n1).0, n2);
  }

  /** Below a non-empty top block, `free` is a no-op: neither the cursor nor the block changes. */
  lemma StackFreeNotTop(s: StackState, n1: nat, n2: nat)
    requires StackValid(s)
    requires AlignFront(s.ptr + n1, s.align) <= End(s)
    requires AlignFront(StackAlloc(s, n1).0.ptr + n2, s.align) <= End(s)
    requires n2 > 0
    ensures var (s1, b1) := StackAlloc(s, n1);
      var (s2, b2) := StackAlloc(s1, n2);
      StackFree(s2, b1) == (s2, b1)
  {
    var a := s.align;
    var p1 := s.ptr;
    AlignFrontShift(p1, n1, a);
    var s1 := StackAlloc(s, n1).0;
    assert s1.ptr == p1 + AlignSize(n1, a);
    AlignFrontShift(s1.ptr, n2, a);
    MultipleGap(0, AlignSize(n2, a), a);
    var s2 := StackAlloc(s1, n2).0;
    assert s2.ptr >= s1.ptr + a;
    assert AlignBack(s2.ptr - n1, a) > p1;
  }

  /** The LIFO check is positional: below an empty top block the earlier block is freed. */
  lemma StackFreeBelowEmptyTop(s: StackState, n1: nat)
    requires StackValid(s)
    requires AlignFront(s.ptr + n1, s.align) <= End(s)
    ensures var (s1, b1) := StackAlloc(s, n1);
      var (s2, b2) := StackAlloc(s1, 0);
      b2 == Block(s1.ptr, 0) && StackFree(s2, b1) == (s, NullBlock)
  {
    StackAllocPreservesValid(s, n1);
    assert StackAlloc(StackAlloc(s, n1).0, 0).0 == StackAlloc(s, n1).0;
    StackLifo(s, n1);
  }

  /** A block a successful `alloc` returns lies inside the buffer and is owned. */
  lemma StackAllocatedIsOwned(s: StackState, size: nat)
    requires StackValid(s) && s.buf <= s.ptr
    requires AlignFront(s.ptr + size, s.align) <= End(s)
    ensures var b := StackAlloc(s, size).1; StackOwns(s, b) && b.addr + b.size <= End(s)
  {
  }

  /** `owns` accepts exactly the addresses from the buffer start to its end, both inclusive. */
  lemma StackOwnsBounds(s: StackState, b: Block)
    ensures StackOwns(s, b) <==> s.buf <= b.addr && b.addr <= s.buf + s.capacity
    ensures StackOwns(s, Block(End(s), 0)) && !StackOwns(s, Block(End(s) + 1, 0))
  {
  }

  /** As written, `owns` claims addresses past the end of any buffer of capacity 2 or more. */
  lemma StackOwnsAsWrittenOverreaches(s: StackState)
    requires s.capacity >= 2
    ensures StackOwnsAsWritten(s, Block(End(s) + 1, 0))
    ensures !StackOwns(s, Block(End(s) + 1, 0))
  {
    MulMonotone(2, s.capacity, s.capacity);
  }

  /** The mutable allocator: the buffer address and template parameters are fixed, the cursor moves. */
  class StackAllocator {
    const buf: int
    const capacity: nat
    const align: nat
    var ptr: int

    ghost predicate Valid()
      reads this
    {
      PowerOfTwo(align) && StackValid(State())
    }

    /** The abstract value of this allocator. */
    function State(): StackState
      reads this
      requires PowerOfTwo(align)
    {
      Arena(buf, capacity, align, ptr)
    }

    constructor (buf: int, capacity: nat, align: nat)
      requires PowerOfTwo(align)
      ensures Valid()
      ensures this.buf == buf && this.capacity == capacity && this.align == align
      ensures State() == StackInit(buf, capacity, align)
    {
      this.buf := buf;
      this.capacity := capacity;
      this.align := align;
      ptr := AlignFront(buf, align);
    }

    method Alloc(size: nat) returns (b: Block)
      requires Valid()
      modifies this
      ensures Valid()
      ensures (State(), b) == StackAlloc(old(State()), size)
    {
      var end := buf + capacity;
      var next := AlignFront(ptr + size, align);
      if next <= end {
        b := Block(ptr, size);
        ptr := next;
      } else {
        b := NullBlock;
      }
    }

    predicate Owns(b: Block)
      reads this
      requires PowerOfTwo(align)
      ensures Owns(b) == StackOwns(State(), b)
    {
      buf <= b.addr && b.addr <= buf + capacity
    }

    /** Returns the new value of the caller's block. */
    method Free(b: Block) returns (b': Block)
      requires Valid()
      modifies this
      ensures Valid()
      ensures (State(), b') == StackFree(old(State()), b)
    {
      var prev := AlignBack(ptr - b.size, align);
      b' := b;
      if prev == b.addr {
        ptr := prev;
        b' := NullBlock;
      }
    }
  }
}
