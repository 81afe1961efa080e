/**
 * `NullAllocator`: a stateless allocator that never allocates. It "owns" only the
 * absence of an allocation, and `free` resets the caller's block.
 */
module NullAllocators {
  import opened Blocks
  import opened AllocatorInterface

  /** The allocator has no fields: its state is the unit value. */
  type NullState = ()

  function NullAlloc(size: nat): Block
  {
    NullBlock
  }

  predicate NullOwns(b: Block)
  {
    b.addr == 0
  }

  /** `free` overwrites both fields of the caller's block. */
  function NullFree(b: Block): Block
  {
    Block(0, 0)
  }

  /** The operations record used when a `NullAllocator` is a child of a composite. */
  function NullOps(): AllocOps<NullState>
  {
    AllocOps(
      (st: NullState, size: nat) => (st, NullAlloc(size)),
      (st: NullState, b: Block) => NullOwns(b),
      (st: NullState, b: Block) => Freed(st, NullFree(b), false))
  }

  /** `alloc` returns `null_block` whatever the size. */
  lemma NullAllocAlwaysFails(size: nat)
    ensures NullAlloc(size) == NullBlock
    ensures NullOps().alloc((), size) == ((), NullBlock)
  {
  }

  /** `owns` looks only at the address: it holds exactly for null addresses, whatever the size. */
  lemma NullOwnsIffNullAddress(b: Block)
    ensures NullOwns(b) <==> b.addr == 0
    ensures NullOwns(b) <==> NullOwns(b.(size := 0))
  {
  }

  /** `free` yields `null_block`, is idempotent, and the freed block is owned afterwards. */
  lemma NullFreeResets(b: Block)
    ensures NullFree(b) == NullBlock
    ensures NullFree(NullFree(b)) == NullFree(b)
    ensures NullOwns(NullFree(b))
  {
  }

  /** No operation of the record changes the (empty) state or reports an exception. */
  lemma NullOpsKeepState(st: NullState, size: nat, b: Block)
    ensures NullOps().alloc(st, size).0 == st
    ensures NullOps().free(st, b) == Freed(st, NullBlock, false)
  {
  }
}
