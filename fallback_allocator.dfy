/**
 * `FallbackAllocator<Primary, Secondary>`: asks the primary child first and the secondary
 * child only when the primary's block has a null address.
 */
module FallbackAllocators {
  import opened Blocks
  import opened MemoryUtils
  import opened AllocatorInterface
  import opened StackAllocators

  /** The two children `m_primary` and `m_secondary`. */
  datatype Pair<P, S> = Pair(primary: P, secondary: S)

  /** The primary can serve the request, and so can the secondary when the primary's block is null. */
  ghost predicate FallbackServes<P, S>(po: AllocOps<P>, so: AllocOps<S>, st: Pair<P, S>, size: nat)
  {
    po.alloc.requires(st.primary, size) &&
    (po.alloc(st.primary, size).1.addr == 0 ==> so.alloc.requires(st.secondary, size))
  }

  /** The primary's state changes even when its block is null: its `alloc` ran. */
  function FallbackAlloc<P, S>(po: AllocOps<P>, so: AllocOps<S>, st: Pair<P, S>, size: nat): (Pair<P, S>, Block)
    requires FallbackServes(po, so, st, size)
  {
    var (primary, block) := po.alloc(st.primary, size);
    if block.addr != 0 then (st.(primary := primary), block)
    else
      var (secondary, other) := so.alloc(st.secondary, size);
      (Pair(primary, secondary), other)
  }

  predicate FallbackOwns<P, S>(po: AllocOps<P>, so: AllocOps<S>, st: Pair<P, S>, b: Block)
  {
    po.owns(st.primary, b) || so.owns(st.secondary, b)
  }

  /** The secondary frees whatever the primary does not own, without asking whether it owns it. */
  function FallbackFree<P, S>(po: AllocOps<P>, so: AllocOps<S>, st: Pair<P, S>, b: Block): Freed<Pair<P, S>>
  {
    if po.owns(st.primary, b) then
      var f := po.free(st.primary, b);
      Freed(st.(primary := f.state), f.block, f.thrown)
    else
      var f := so.free(st.secondary, b);
      Freed(st.(secondary := f.state), f.block, f.thrown)
  }

  /** The operations record used when a `FallbackAllocator` is itself a child. */
  function FallbackOps<P, S>(po: AllocOps<P>, so: AllocOps<S>): AllocOps<Pair<P, S>>
  {
    AllocOps(
      (st: Pair<P, S>, size: nat) requires FallbackServes(po, so, st, size) => FallbackAlloc(po, so, st, size),
      (st: Pair<P, S>, b: Block) => FallbackOwns(po, so, st, b),
      (st: Pair<P, S>, b: Block) => FallbackFree(po, so, st, b))
  }

  /** A non-null primary block is the result, and the secondary is not consulted. */
  lemma FallbackPrimaryServes<P, S>(po: AllocOps<P>, so: AllocOps<S>, st: Pair<P, S>, size: nat)
    requires po.alloc.requires(st.primary, size) && po.alloc(st.primary, size).1.addr != 0
    ensures FallbackServes(po, so, st, size)
    ensures FallbackAlloc(po, so, st, size) == (Pair(po.alloc(st.primary, size).0, st.secondary), po.alloc(st.primary, size).1)
  {
  }

  /** After a null primary block, the result is exactly the secondary's `alloc(size)`. */
  lemma FallbackSecondaryServes<P, S>(po: AllocOps<P>, so: AllocOps<S>, st: Pair<P, S>, size: nat)
    requires FallbackServes(po, so, st, size) && po.alloc(st.primary, size).1.addr == 0
    ensures FallbackAlloc(po, so, st, size) ==
      (Pair(po.alloc(st.primary, size).0, so.alloc(st.secondary, size).0), so.alloc(st.secondary, size).1)
  {
  }

  /** `owns` is the disjunction of the children's `owns`. */
  lemma FallbackOwnsIff<P, S>(po: AllocOps<P>, so: AllocOps<S>, st: Pair<P, S>, b: Block)
    ensures FallbackOwns(po, so, st, b) <==> po.owns(st.primary, b) || so.owns(st.secondary, b)
  {
  }

  /**
   * `free` runs exactly one child's `free`, the primary's iff the primary owns the block;
   * the other child is unchanged.
   */
  lemma FallbackFreeRoutes<P, S>(po: AllocOps<P>, so: AllocOps<S>, st: Pair<P, S>, b: Block)
    ensures var f := FallbackFree(po, so, st, b);
      if po.owns(st.primary, b) then
        f == Freed(Pair(po.free(st.primary, b).state, st.secondary), po.free(st.primary, b).block, po.free(st.primary, b).thrown)
      else
        f == Freed(Pair(st.primary, so.free(st.secondary, b).state), so.free(st.secondary, b).block, so.free(st.secondary, b).thrown)
  {
  }

  /**
   * With a `StackAllocator` as primary, a request larger than its capacity (from a cursor
   * inside the buffer) always reaches the secondary, and the stack is left as it was.
   */
  lemma FallbackPastStackCapacity<S>(so: AllocOps<S>, st: Pair<StackState, S>, size: nat)
    requires st.primary.buf <= st.primary.ptr && size > st.primary.capacity
    requires so.alloc.requires(st.secondary, size)
    ensures FallbackServes(StackOps(), so, st, size)
    ensures FallbackAlloc(StackOps(), so, st, size) ==
      (Pair(st.primary, so.alloc(st.secondary, size).0), so.alloc(st.secondary, size).1)
  {
    assert StackAlloc(st.primary, size) == (st.primary, NullBlock);
  }

  /** The composite over two mutable children. */
  class FallbackAllocator<P, S> {
    const po: AllocOps<P>
    const so: AllocOps<S>
    var primary: P
    var secondary: S

    /** The abstract value of this allocator. */
    function State(): Pair<P, S>
      reads this
    {
      Pair(primary, secondary)
    }

    constructor (po: AllocOps<P>, so: AllocOps<S>, primary: P, secondary: S)
      ensures this.po == po && this.so == so
      ensures State() == Pair(primary, secondary)
    {
      this.po := po;
      this.so := so;
      this.primary := primary;
      this.secondary := secondary;
    }

    method Alloc(size: nat) returns (b: Block)
      requires FallbackServes(po, so, State(), size)
      modifies this
      ensures (State(), b) == FallbackAlloc(po, so, old(State()), size)
    {
      var r := po.alloc(primary, size);
      primary := r.0;
      if r.1.addr != 0 {
        return r.1;
      }
      var s := so.alloc(secondary, size);
      secondary := s.0;
      b := s.1;
    }

    predicate Owns(b: Block)
      reads this
      ensures Owns(b) == FallbackOwns(po, so, State(), b)
    {
      po.owns(primary, b) || so.owns(secondary, b)
    }

    /** Returns the new value of the caller's block, and whether the child's `free` threw. */
    method Free(b: Block) returns (b': Block, thrown: bool)
      modifies this
      ensures Freed(State(), b', thrown) == FallbackFree(po, so, old(State()), b)
    {
      if po.owns(primary, b) {
        var f := po.free(primary, b);
        primary, b', thrown := f.state, f.block, f.thrown;
      } else {
        var f := so.free(secondary, b);
        secondary, b', thrown := f.state, f.block, f.thrown;
      }
    }

    /** `get_primary`: the primary child as currently held. */
    function GetPrimary(): (p: P)
      reads this
      ensures p == State().primary
    {
      primary
    }

    /** `get_secondary`: the secondary child as currently held. */
    function GetSecondary(): (s: S)
      reads this
      ensures s == State().secondary
    {
      secondary
    }
  }
}
