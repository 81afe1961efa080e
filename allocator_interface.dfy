/**
 * The three-operation capability every allocator provides: `alloc(size) -> Block`,
 * `owns(Block&)` and `free(Block&)`.
 *
 * A C++ template such as `FallbackAllocator<Primary, Secondary>` is generic in the
 * allocator types it holds. Here an allocator type is a state type `S` together with
 * an `AllocOps<S>` record of its three operations, and a composite is generic in the
 * state types of its children and takes their records as parameters.
 *
 * `alloc` is a partial function: its precondition states which requests the allocator
 * serves without running into undefined behaviour (only `FreeList` has such requests).
 * `free` takes the caller's block by reference in the source; here it returns the new
 * value of that block together with the new allocator state.
 */
module AllocatorInterface {
  import opened Blocks

  /** The outcome of `free`: the new state, the new value of the caller's block, and whether an exception escaped. */
  datatype Freed<S> = Freed(state: S, block: Block, thrown: bool)

  /** The operations of one allocator type over its state type `S`. */
  datatype AllocOps<!S> = AllocOps(
    alloc: (S, nat) --> (S, Block),
    owns: (S, Block) -> bool,
    free: (S, Block) -> Freed<S>)

  /** The allocator, from state `st`, serves `k` consecutive requests of `size` bytes, each with a non-null address. */
  ghost predicate Serves<S>(ops: AllocOps<S>, st: S, size: nat, k: nat)
    decreases k
  {
    k == 0 ||
    (ops.alloc.requires(st, size) &&
     ops.alloc(st, size).1.addr != 0 &&
     Serves(ops, ops.alloc(st, size).0, size, k - 1))
  }

  /** The state after `k` consecutive requests of `size` bytes, and the blocks they returned, in order. */
  function Repeat<S>(ops: AllocOps<S>, st: S, size: nat, k: nat): (r: (S, seq<Block>))
    requires Serves(ops, st, size, k)
    ensures |r.1| == k
    ensures forall j :: 0 <= j < k ==> r.1[j].addr != 0
    decreases k
  {
    if k == 0 then (st, [])
    else
      var (st1, b) := ops.alloc(st, size);
      var (st2, bs) := Repeat(ops, st1, size, k - 1);
      (st2, [b] + bs)
  }
}
