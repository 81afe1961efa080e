# Composable allocators, events, input and utilities: a verified Dafny model

This project models the allocator library of the engine (`src/memory`) and a handful of small
self-contained pieces around it, and proves in Dafny what each of them does.

The allocator library is a set of allocators. Each has the same three operations:

- `alloc(size)` returns a `Block`, an address and a size;
- `owns(block)` says whether a block is the allocator's;
- `free(block)` gives a block back and updates the caller's `Block&`.

Allocators compose by template parameters. The model's representation:

- A C++ allocator type is a state type together with an `AllocOps` record of its three
  operations (`allocator_interface.dfy`).
- Composite allocators are generic in the state types of their children and take their
  children's records as parameters.
- Every stateful allocator is modelled twice:
  - as a pure specification function over a state datatype, which composes and which the
    lemmas are about;
  - as a class with the source's own fields, whose methods update those fields in place and
    are proved to agree with the specification functions.
- A `free` returns the new value of the caller's block.
- Where a child can throw, the result carries a `thrown` flag.

| file | source | what is modelled |
|---|---|---|
| `blocks.dfy` | `src/memory/block.hpp` | `Block`, `null_block`, `operator==`, `operator u8*` |
| `memory_utils.dfy` | `src/memory/utils.hpp` | `is_power_of_two` (its loop), `align_front`, `align_back`, `align_size` |
| `allocator_interface.dfy` | `src/memory/allocator_interface.hpp` | the three-operation record, repeated requests |
| `null_allocator.dfy` | `src/memory/null_allocator.cpp` | `NullAllocator` |
| `stack_allocator.dfy` | `src/memory/stack_allocator.cpp` | `StackAllocator`: bump cursor, LIFO `free` |
| `free_list.dfy` | `src/memory/free_list.cpp` | `FreeList`: intrusive list, batch refill, capacity counter, the list iterator |
| `fallback_allocator.dfy` | `src/memory/fallback_allocator.cpp` | `FallbackAllocator` |
| `cascading_allocator.dfy` | `src/memory/cascading_allocator.cpp` | `CascadingAllocator`: the walks of `alloc`, `owns`, `free` |
| `affix_allocator.dfy` | `src/memory/affix_allocator.cpp` | `AffixAllocator`: layout arithmetic, affix construction and verification |
| `buffer_ref.dfy` | `src/memory/buffer_ref.cpp` | `BufferRef` constructors, `length`, `slice` |
| `event.dfy` | `src/event/event.cpp` | the name and category tables, the `Event` class |
| `input.dfy` | `src/platform/input.hpp` | `Button` edge detection |
| `string_util.dfy` | `src/util/string.hpp` | `to_lower` |
| `uuid.dfy` | `src/util/uuid.hpp` | the string `generate_uuid` builds (RFC 4122, section 4.4; variant of section 4.1.1) |
| `math_vec.dfy` | `src/util/math.hpp` | integer `Vec`: element-wise arithmetic, `pop`, `set`, component aliases |

Some behaviours are modelled as the code is written, not as a reader might expect:

- `CascadingAllocator::alloc` walks on while the node it asked succeeded and has its flag set.
  Each answer replaces the previous one.
- `CascadingAllocator::owns` returns in the first iteration of its loop, so only the first node
  is consulted.
- `FreeList` checks its capacity with `m_allocs++ == Cap`. The counter is incremented by the
  iteration that breaks too, so it passes `Cap` and the check never matches again
  (`FreeLists.CapOvershoot`).
- `AffixAllocator::free` with `V` set calls `verify_prefix` twice and `verify_suffix` never.
  Verification is a destructor call; nothing is checked.

Two places where the code evidently does not do what was meant are listed under "Findings".
Each is modelled both ways.

## Model

| member | source | states |
|---|---|---|
| `Blocks.Same` | src/memory/block.hpp:29-32 | the field-wise `operator==` holds exactly when the two blocks are the same value |
| `Blocks.NullBlockFields` | src/memory/block.hpp:23-36 | `null_block` has a null address and size 0, and its byte pointer is null |
| `Blocks.SameIsReflexiveAndSymmetric` | src/memory/block.hpp:29-32 | block equality is reflexive and symmetric |
| `Blocks.SameAsNullIff` | src/memory/block.hpp:29-36 | a block equals `null_block` iff its address is null and its size is 0 |
| `MemoryUtils.PowerOfTwoIffPow2` | src/memory/utils.hpp:22-29 | the power-of-two test holds exactly for the numbers 2^k; not for 0, and for 1 |
| `MemoryUtils.IsPowerOfTwo` | src/memory/utils.hpp:22-29 | the halving loop answers true exactly for powers of two |
| `MemoryUtils.AlignFront` | src/memory/utils.hpp:31-50 | the result is a multiple of `align` in `[addr, addr + align)`; it is the input when it is aligned already or `align` is 1 |
| `MemoryUtils.AlignBack` | src/memory/utils.hpp:52-71 | the result is a multiple of `align` in `(addr - align, addr]`; it is the input when it is aligned already or `align` is 1 |
| `MemoryUtils.AlignSize` | src/memory/utils.hpp:73-89 | the result is a multiple of `align` in `[size, size + align)`; it is the input when it is aligned already or `align` is 1 |
| `MemoryUtils.AlignSizeIsLeast` | src/memory/utils.hpp:73-83 | `align_size(s)` is at most every multiple of `align` that is at least `s` |
| `MemoryUtils.AlignIdempotent` | src/memory/utils.hpp:32-83 | rounding twice is rounding once, for all three roundings |
| `MemoryUtils.AlignFrontShift` | src/memory/utils.hpp:32-83 | an aligned base plus a size, rounded up, is the base plus the rounded-up size |
| `NullAllocators.NullAllocAlwaysFails` | src/memory/null_allocator.cpp:8-11 | `alloc` returns `null_block` whatever the size |
| `NullAllocators.NullOwnsIffNullAddress` | src/memory/null_allocator.cpp:13-16 | `owns` holds iff the address is null, whatever the size |
| `NullAllocators.NullFreeResets` | src/memory/null_allocator.cpp:18-22 | `free` yields `null_block`, is idempotent, and the freed block is owned |
| `NullAllocators.NullOpsKeepState` | src/memory/null_allocator.hpp:14-20 | no operation changes the empty state or throws |
| `StackAllocators.StackInitValid` | src/memory/stack_allocator.hpp:18-20 | the initial cursor `align_front(m_buf)` is aligned and satisfies the cursor invariant |
| `StackAllocators.StackAllocOutcome` | src/memory/stack_allocator.cpp:9-22 | success returns `{m_ptr, size}` and moves the cursor to `align_front(m_ptr + size)`; otherwise `null_block` and no change |
| `StackAllocators.StackAllocPreservesValid` | src/memory/stack_allocator.cpp:11-18 | `alloc` keeps the cursor aligned and within the buffer, and changes nothing but the cursor |
| `StackAllocators.StackFreeOutcome` | src/memory/stack_allocator.cpp:34-42 | `free` rolls back to the block and nulls it iff `align_back(m_ptr - size)` is its address; otherwise nothing changes |
| `StackAllocators.StackFreePreservesValid` | src/memory/stack_allocator.cpp:36-41 | `free` keeps the cursor invariant and never moves the cursor forward |
| `StackAllocators.StackFreeNull` | src/memory/stack_allocator.cpp:36-38 | freeing `null_block` changes neither the cursor nor the block |
| `StackAllocators.StackLifo` | src/memory/stack_allocator.cpp:9-42 | freeing the block an `alloc` just returned restores the cursor and nulls the block |
| `StackAllocators.StackLifoTwice` | src/memory/stack_allocator.cpp:9-42 | two allocations freed in reverse order restore the cursor step by step |
| `StackAllocators.StackFreeNotTop` | src/memory/stack_allocator.cpp:36-41 | freeing a block below a non-empty top block changes nothing |
| `StackAllocators.StackFreeBelowEmptyTop` | src/memory/stack_allocator.cpp:36-41 | below an empty top block, freeing the earlier block does roll back: the check is positional |
| `StackAllocators.StackAllocatedIsOwned` | src/memory/stack_allocator.cpp:9-31 | a block `alloc` returns lies inside the buffer and is owned |
| `StackAllocators.StackOwnsBounds` | src/memory/stack_allocator.cpp:24-31 | `owns` accepts exactly the addresses from `m_buf` to `m_buf + capacity`, both inclusive (corrected reading) |
| `StackAllocators.StackOwnsAsWrittenOverreaches` | src/memory/stack_allocator.cpp:27-30 | as written, with capacity 2 or more, `owns` accepts an address past the end of the buffer |
| `StackAllocators.StackAllocator.constructor` | src/memory/stack_allocator.hpp:18-20 | a new allocator has its cursor at `align_front(m_buf)` and satisfies the invariant |
| `StackAllocators.StackAllocator.Alloc` | src/memory/stack_allocator.cpp:8-22 | the new cursor and the block are those of `StackAlloc`; the invariant is kept |
| `StackAllocators.StackAllocator.Owns` | src/memory/stack_allocator.cpp:24-31 | agrees with `StackOwns` |
| `StackAllocators.StackAllocator.Free` | src/memory/stack_allocator.cpp:33-42 | the new cursor and the caller's block are those of `StackFree`; the invariant is kept |
| `FreeLists.Requested` | src/memory/free_list.cpp:90-93 | a refill from iteration `i` asks the backing allocator at most `BS - i` times |
| `FreeLists.RequestedClosedForm` | src/memory/free_list.cpp:90-93 | the backing allocator is asked `BS - i` times, or `Cap - m_allocs` times when the counter reaches `Cap` first |
| `FreeLists.BatchAsks` | src/memory/free_list.cpp:90-95 | the refill makes exactly those requests, each for `sizeof(Node) + Max` bytes |
| `FreeLists.BatchCounter` | src/memory/free_list.cpp:88-93 | `m_allocs` grows by one per iteration that runs, the breaking one included; after a break it is `Cap + 1` |
| `FreeLists.CapOvershoot` | src/memory/free_list.cpp:91 | at `Cap` a refill asks for nothing; one past `Cap` it asks for all `BS` nodes again |
| `FreeLists.BatchAtCap` | src/memory/free_list.cpp:88-107 | a refill that breaks at once returns `null_block` and changes only the counter |
| `FreeLists.BatchStep` | src/memory/free_list.cpp:90-105 | one iteration obtains the next node, carves it, keeps it as the result (iteration 0) or pushes it, and the rest of the refill goes on from there |
| `FreeLists.BatchFrame` | src/memory/free_list.cpp:95-104 | the refill writes the header and link only of the nodes it obtains |
| `FreeLists.BatchCarves` | src/memory/free_list.cpp:95-97 | every header the refill writes is `{node + sizeof(Node), Max}`, and earlier headers are kept |
| `FreeLists.BatchKeepsFirst` | src/memory/free_list.cpp:99-104 | from iteration 1 on, the block collected at iteration 0 is the result |
| `FreeLists.BatchPushes` | src/memory/free_list.cpp:99-104 | from iteration 1 on, every node obtained is pushed at the head in order, each linking to the one before |
| `FreeLists.BatchFromEmpty` | src/memory/free_list.cpp:88-107 | a refill returns the first node's payload (or `null_block` when it obtains none) and pushes the later nodes in order |
| `FreeLists.PoolAllocOutOfRange` | src/memory/free_list.cpp:79-112 | a size outside `[Min, Max]` gets `null_block` and changes nothing |
| `FreeLists.PoolAllocPops` | src/memory/free_list.cpp:82-86 | on a non-empty list `alloc` returns the head's stored block and the list loses exactly its first node |
| `FreeLists.PoolOwnsIff` | src/memory/free_list.cpp:114-122 | `owns` holds iff the size is in `[Min, Max]` and the backing allocator owns the block |
| `FreeLists.PoolFreeOutcome` | src/memory/free_list.cpp:124-139 | `free` of an owned block links its node to the old head, makes it the head and nulls the block; otherwise nothing changes |
| `FreeLists.PoolFreePushes` | src/memory/free_list.cpp:127-138 | after `free`, the list is the freed node followed by the old list |
| `FreeLists.FreeThenAlloc` | src/memory/free_list.cpp:82-138 | an in-range `alloc` right after `free` returns the freed node's stored block, the freed block itself for a carved node, and restores the head |
| `FreeLists.PoolKeepsCarved` | src/memory/free_list.cpp:79-139 | a fresh pool is empty, and `alloc` and `free` keep every node header equal to its own payload |
| `FreeLists.AdvanceAdds` | src/memory/free_list.cpp:27-44 | advancing by `a` and then by `b` steps is advancing by `a + b` |
| `FreeLists.AdvanceFollowsWalk` | src/memory/free_list.cpp:27-33 | `j` increments from the head land on the `j`-th node of the list |
| `FreeLists.PostIncrementCounterexample` | src/memory/free_list.cpp:35-44 | on a one-node list the intended `it++` reaches the end, unlike the as-written one that stays put |
| `FreeLists.NodeIterator.constructor` | src/memory/free_list.cpp:10-13 | the iterator is positioned on the given node |
| `FreeLists.NodeIterator.Equals` | src/memory/free_list.cpp:15-25 | two iterators are equal iff they are on the same node |
| `FreeLists.NodeIterator.Deref` | src/memory/free_list.cpp:46-50 | `*it` is the block stored in the current node's header |
| `FreeLists.NodeIterator.Increment` | src/memory/free_list.cpp:27-33 | `++it` follows `next`, staying at null once there |
| `FreeLists.NodeIterator.PostIncrementAsWritten` | src/memory/free_list.cpp:35-44 | as written, `it++(step)` returns a fresh iterator on the same node, whatever the step |
| `FreeLists.NodeIterator.PostIncrement` | src/memory/free_list.cpp:35-44 | as intended, `it++(step)` returns a fresh iterator `step` nodes on (stopping at null) and leaves the original in place |
| `FreeLists.FreeList.constructor` | src/memory/free_list.hpp:72-74 | a new pool has an empty list, no nodes and counter 0 |
| `FreeLists.FreeList.Alloc` | src/memory/free_list.cpp:78-112 | the new list, counter, node headers and the block are those of the specification `PoolAlloc`, refill loop included |
| `FreeLists.FreeList.Owns` | src/memory/free_list.cpp:114-122 | agrees with `PoolOwns` |
| `FreeLists.FreeList.Free` | src/memory/free_list.cpp:124-139 | the new list and the caller's block are those of `PoolFree` |
| `FreeLists.FreeList.Begin` | src/memory/free_list.cpp:63-67 | a fresh iterator on the head node |
| `FreeLists.FreeList.End` | src/memory/free_list.cpp:69-73 | a fresh iterator on null |
| `FallbackAllocators.FallbackPrimaryServes` | src/memory/fallback_allocator.cpp:11-13 | a non-null primary block is the result, and the secondary is not consulted |
| `FallbackAllocators.FallbackSecondaryServes` | src/memory/fallback_allocator.cpp:14-16 | after a null primary block the result is exactly the secondary's `alloc(size)` |
| `FallbackAllocators.FallbackOwnsIff` | src/memory/fallback_allocator.cpp:19-23 | `owns` is the disjunction of the children's `owns` |
| `FallbackAllocators.FallbackFreeRoutes` | src/memory/fallback_allocator.cpp:25-33 | exactly one child's `free` runs, the primary's iff it owns the block, and the other child is unchanged |
| `FallbackAllocators.FallbackPastStackCapacity` | src/memory/fallback_allocator.cpp:8-17 | with a stack primary, a request larger than its capacity goes to the secondary and leaves the stack unchanged |
| `FallbackAllocators.FallbackAllocator.constructor` | src/memory/fallback_allocator.hpp:17-19 | the composite holds the two given children |
| `FallbackAllocators.FallbackAllocator.Alloc` | src/memory/fallback_allocator.cpp:8-17 | the new children and the block are those of `FallbackAlloc` |
| `FallbackAllocators.FallbackAllocator.Owns` | src/memory/fallback_allocator.cpp:19-23 | agrees with `FallbackOwns` |
| `FallbackAllocators.FallbackAllocator.Free` | src/memory/fallback_allocator.cpp:25-33 | the new children, the caller's block and the thrown flag are those of `FallbackFree` |
| `FallbackAllocators.FallbackAllocator.GetPrimary` | src/memory/fallback_allocator.cpp:34-38 | the primary child as currently held |
| `FallbackAllocators.FallbackAllocator.GetSecondary` | src/memory/fallback_allocator.cpp:40-44 | the secondary child as currently held |
| `CascadingAllocators.AllocFrom` | src/memory/cascading_allocator.cpp:16-28 | the walk of `alloc` keeps the length of the list |
| `CascadingAllocators.CascadeAlloc` | src/memory/cascading_allocator.cpp:9-29 | `alloc` keeps the length of the list |
| `CascadingAllocators.FreeFrom` | src/memory/cascading_allocator.cpp:57-67 | the walk of `free` keeps the length of the list |
| `CascadingAllocators.CascadeFree` | src/memory/cascading_allocator.cpp:50-68 | `free` keeps the length of the list |
| `CascadingAllocators.AllocFromWalk` | src/memory/cascading_allocator.cpp:16-28 | the nodes up to the last one asked are each asked once, all before it succeeded with flag set, the result is the last one's block, and later nodes are untouched |
| `CascadingAllocators.CascadeEmpty` | src/memory/cascading_allocator.cpp:9-55 | on an empty list `alloc` returns `null_block`, `owns` holds only for `null_block`, and `free` throws for any other block |
| `CascadingAllocators.AllocFailureStops` | src/memory/cascading_allocator.cpp:18-22 | a failing node ends the walk with `null_block`, whatever its flag |
| `CascadingAllocators.AllocStopsAtClearFlag` | src/memory/cascading_allocator.cpp:23-25 | a succeeding node with its flag clear ends the walk with its block |
| `CascadingAllocators.AllocOverwritesOnSetFlag` | src/memory/cascading_allocator.cpp:17-28 | a succeeding node with its flag set passes on to the next node, whose answer replaces its own |
| `CascadingAllocators.CascadeOwnsFirstOnly` | src/memory/cascading_allocator.cpp:31-48 | `owns` is the first node's flag and `owns`; the other nodes never matter |
| `CascadingAllocators.FreeFromFrame` | src/memory/cascading_allocator.cpp:57-67 | `free` never touches a node after the first one whose flag is clear |
| `CascadingAllocators.FreeUnownedIsNoop` | src/memory/cascading_allocator.cpp:57-67 | when no node owns the block, `free` changes nothing and does not throw |
| `CascadingAllocators.FreeFirstNode` | src/memory/cascading_allocator.cpp:58-66 | an owning first node frees the block, and the block as it then stands goes on to the next node when the flag is set |
| `CascadingAllocators.CascadingAllocator.constructor` | src/memory/cascading_allocator.hpp:23-25 | the composite holds the given node list |
| `CascadingAllocators.CascadingAllocator.Alloc` | src/memory/cascading_allocator.cpp:9-29 | the new node list and the block are those of `CascadeAlloc` |
| `CascadingAllocators.CascadingAllocator.Owns` | src/memory/cascading_allocator.cpp:31-48 | agrees with `CascadeOwns` |
| `CascadingAllocators.CascadingAllocator.Free` | src/memory/cascading_allocator.cpp:50-68 | the new node list, the caller's block and the thrown flag are those of `CascadeFree` |
| `AffixAllocators.SizeOfAllocVoid` | src/memory/affix_allocator.cpp:68-74 | `size_of<void>` is 0, the request is at least the caller's size, and exactly it with two `void` affixes |
| `AffixAllocators.OriginalOfOffset` | src/memory/affix_allocator.cpp:76-92 | `original_block(offset_block(b, n)) == b` whenever `b.size == size_of_alloc(n)` |
| `AffixAllocators.OffsetOfOriginal` | src/memory/affix_allocator.cpp:76-92 | the original block has size `size_of_alloc(b.size)`, and cutting the caller's part out of it gives `b` back |
| `AffixAllocators.AffixLayout` | src/memory/affix_allocator.cpp:94-104 | the prefix is at offset 0, the caller's bytes follow it, and the suffix starts right after them and ends at the block's end |
| `AffixAllocators.AffixAllocOutcome` | src/memory/affix_allocator.cpp:122-134 | `alloc` asks for `size_of_alloc(n)`; a null inner block is returned as is, otherwise the offset block is returned after constructing the affixes |
| `AffixAllocators.AffixOwnsIff` | src/memory/affix_allocator.cpp:136-142 | `owns(b)` is the inner `owns` of the original block |
| `AffixAllocators.AffixOwnsAllocated` | src/memory/affix_allocator.cpp:122-142 | a block `alloc` returns is owned when the inner allocator owns its inner block |
| `AffixAllocators.AffixFreeOutcome` | src/memory/affix_allocator.cpp:144-159 | `free` of an unowned block changes nothing; of an owned one it frees the original block and gives the caller what the inner `free` left |
| `AffixAllocators.AffixVerifyEvents` | src/memory/affix_allocator.cpp:150-153 | with `V` set, `free` destroys the prefix twice at the original address and never the suffix |
| `AffixAllocators.AffixAllocThenFree` | src/memory/affix_allocator.cpp:122-159 | freeing the block `alloc` returned hands the inner allocator exactly the inner block it gave out |
| `AffixAllocators.AffixAllocator.constructor` | src/memory/affix_allocator.hpp:54 | the decorator holds the given inner allocator and no affix has been constructed |
| `AffixAllocators.AffixAllocator.Alloc` | src/memory/affix_allocator.cpp:122-134 | the new inner state, the lifecycle log and the block are those of `AffixAlloc` |
| `AffixAllocators.AffixAllocator.Owns` | src/memory/affix_allocator.cpp:136-142 | agrees with `AffixOwns` |
| `AffixAllocators.AffixAllocator.Free` | src/memory/affix_allocator.cpp:144-159 | the new inner state, the log, the caller's block and the thrown flag are those of `AffixFree` |
| `BufferRefs.FromPointerStores` | src/memory/buffer_ref.cpp:10-20 | the pointer-and-length constructors store both unchanged, and `length()` returns the length |
| `BufferRefs.FromObjectSpansPointee` | src/memory/buffer_ref.cpp:22-26 | a view of one object has length `sizeof(Ptr)` |
| `BufferRefs.FromBlockMatches` | src/memory/buffer_ref.cpp:28-30 | a view of a block has the block's address and size; distinct blocks give distinct views |
| `BufferRefs.FromStringLength` | src/memory/buffer_ref.cpp:32-35 | a view of a string has the string's length |
| `BufferRefs.SliceProperties` | src/memory/buffer_ref.cpp:59-62 | `slice(n)` keeps the address and has length `n` with no bound; slices compose and a full slice is the view itself |
| `Events.CategoryGroups` | src/event/event.cpp:50-78 | each category is exactly the set of types its cases list; `Custom` falls to the `Custom` category |
| `Events.NamedTypesAreAllButCustom` | src/event/event.cpp:20-48 | the name is "Unimplemented" iff the type is `Custom`, and never empty |
| `Events.TypeNamedFinds` | src/event/event.cpp:26-42 | looking up the name of every named type gives that type back |
| `Events.DistinctNames` | src/event/event.cpp:26-43 | different types have different names, except that none matches `Custom`'s only through the table |
| `Events.NameOfInjective` | src/event/event.cpp:20-48 | the name table is one-to-one on the named types |
| `Events.Event.constructor` | src/event/event.cpp:7-11 | a default event has type and category `None` and the name "None" from the member initialiser |
| `Events.Event.OfType` | src/event/event.cpp:13-18 | the category and the name are derived from the type by the two tables |
| `Events.Event.SetType` | src/event/event.cpp:80-83 | only the type changes |
| `Events.Event.SetName` | src/event/event.cpp:85-88 | only the name changes |
| `Events.Event.ToString` | src/event/event.cpp:90-97 | the stored name when non-empty, otherwise the type's table name; never empty |
| `Input.UpdateDetectsRisingEdge` | src/platform/input.hpp:32-36 | after `update`, `pressed` iff `down` and not the previous `down`; `last` is `down`; the tick fields, `down`, id and name are untouched |
| `Input.TickDetectsRisingEdge` | src/platform/input.hpp:38-42 | after `tick`, `pressed_tick` iff a rising edge since the previous `tick`; the update fields are untouched |
| `Input.RepeatedUpdateIsQuiet` | src/platform/input.hpp:32-42 | a second `update` (or `tick`) with `down` unchanged reports no press |
| `Input.UpdateTickCommute` | src/platform/input.hpp:32-42 | `update` and `tick` commute |
| `Input.Button.constructor` | src/platform/input.hpp:28-30 | the id and name are stored; the flags keep their indeterminate values |
| `Input.Button.Update` | src/platform/input.hpp:32-36 | the new fields are those of `Updated` |
| `Input.Button.Tick` | src/platform/input.hpp:38-42 | the new fields are those of `Ticked` |
| `StringUtil.ToLower` | src/util/string.hpp:20-31 | the result has the input's length and each character is the "C"-locale `tolower` of the input's |
| `StringUtil.LowerCharCases` | src/util/string.hpp:25-27 | 'A' to 'Z' map to 'a' to 'z', every other character is unchanged, and no result is uppercase |
| `StringUtil.ToLowerRemovesUpper` | src/util/string.hpp:25-27 | the result has no uppercase letter, and a string without one is left as it is |
| `StringUtil.ToLowerIdempotent` | src/util/string.hpp:20-31 | `to_lower` is idempotent |
| `StringUtil.ToLowerConcat` | src/util/string.hpp:25-27 | `to_lower` distributes over concatenation |
| `Uuid.HexDigit` | src/util/uuid.hpp:27 | a value written in hex mode is one lowercase hex digit |
| `Uuid.UuidLayout` | src/util/uuid.hpp:23-51 | 36 characters: hyphens at 8, 13, 18, 23, '4' at 14, and the digit of draw `k` at its position |
| `Uuid.UuidFormat` | src/util/uuid.hpp:20-51 | hyphens exactly at 8, 13, 18, 23, '4' at 14, one of "89ab" at 19, and a lowercase hex digit everywhere else |
| `Uuid.UuidDrawsRoundTrip` | src/util/uuid.hpp:23-51 | reading the digits back gives exactly the draws: the string determines them |
| `Uuid.WriteDigits` | src/util/uuid.hpp:29-31 | each counted loop appends the digits of the next `count` draws in order |
| `Uuid.GenerateUuid` | src/util/uuid.hpp:23-51 | the string built step by step is the layout `UuidOf` of the draws |
| `MathVec.Zip` | src/util/math.hpp:80-91 | the vector form has one component per component |
| `MathVec.Broadcast` | src/util/math.hpp:61-70 | the scalar form has one component per component |
| `MathVec.QuotTruncates` | src/util/math.hpp:181-190 | integer `/` truncates toward zero: the remainder is smaller than the divisor and has the dividend's sign |
| `MathVec.QuotOfProduct` | src/util/math.hpp:200-211 | dividing an exact multiple by its factor gives the other factor back, whatever the signs |
| `MathVec.SubUndoesAdd` | src/util/math.hpp:80-131 | adding then subtracting the same vector restores the vector |
| `MathVec.DivUndoesMul` | src/util/math.hpp:160-211 | multiplying then dividing by the same non-zero vector restores the vector |
| `MathVec.ScalarInverses` | src/util/math.hpp:61-190 | the same for a scalar: `+ s` then `- s`, and `* s` then `/ s` for non-zero `s` |
| `MathVec.BroadcastIsZipWithConstant` | src/util/math.hpp:61-91 | the scalar form is the vector form against a constant vector |
| `MathVec.Vec.constructor` | src/util/math.hpp:234-239 | the components are the arguments, in order |
| `MathVec.Vec.ApplyScalar` | src/util/math.hpp:61-70 | `add`/`sub`/`mul`/`div` with a scalar combine every component with it, in place |
| `MathVec.Vec.ApplyVector` | src/util/math.hpp:80-91 | `add`/`sub`/`mul`/`div` with a vector combine component `k` with component `k`, in place, also when the other vector is this one |
| `MathVec.Vec.Copy` | src/util/math.hpp:520-526 | the by-value copy of the left operand is a fresh vector with the same components |
| `MathVec.Vec.Binary` | src/util/math.hpp:520-526 | `lhs op rhs` is a fresh vector holding the element-wise result |
| `MathVec.Vec.BinaryScalar` | src/util/math.hpp:536-542 | `lhs op value` is a fresh vector holding the scalar result |
| `MathVec.Vec.Pop` | src/util/math.hpp:250-257 | a fresh vector of the first `Count - 1` components in order |
| `MathVec.Vec.Set` | src/util/math.hpp:332-339 | every component is replaced, in order |
| `MathVec.AliasesAgree` | src/util/math.hpp:378-472 | `x`, `y`, `z`, `w` are components 0 to 3, and `r`, `g`, `b`, `a` are `x`, `y`, `z`, `w` |

## Left out

- Memory contents. The bytes of blocks, placement new and destructors are not modelled.
  - Addresses are unbounded integers; 0 is null.
  - Pointer arithmetic is unbounded, so 64-bit wrap-around is not modelled.
  - The affix objects become a log of construct and destroy events at addresses.
  - `construct_suffix` at `block.size - size_of<S>` is unsigned in C++. With an inner block
    smaller than the suffix, the model's negative offset names the same address modulo 2^64
    only.
- The `FreeList` node headers are two maps from node addresses.
  - One holds the stored `block`, the other the `next` pointer.
  - A header field that was never written reads as null; in C++ it is indeterminate memory.
  - `sizeof(Node)` is fixed at 24, the 64-bit layout.
- FreeList.Alloc: the backing allocator's result is dereferenced unchecked. A refill therefore
  requires that every request the backing allocator gets returns a non-null block. A null result
  is undefined behaviour and is not modelled.
- FreeLists.BatchPushes: states the push order under the hypothesis that the backing allocator
  returns distinct node addresses. With a repeated address, the link would be overwritten.
- The multiset of nodes a `FreeList` recycles is not stated as a permutation. The list is
  described by `Walk`, which gives the first `k` nodes of the chain for any bound `k`.
- CascadingAllocators.CascadingAllocator.Alloc requires that every node the walk reaches can
  serve the request. Only a `FreeList` child has a precondition.
- The `std::variant` over several allocator types becomes one state type with one operations
  record that does the dispatch.
- `CascadingAllocator::owns` calls `std::visit` on the whole node, not on `node.first`. The model
  reads it as the visit of the node's allocator.
- `get_primary` and `get_secondary` return references in C++. Aliasing through them is not
  modelled; the model returns the child's value.
- `Event() = default` in the class conflicts with the out-of-line `Event::Event()`. Both give
  type `None`, category `None` and the name "None".
  - `set_category` and `category_to_string` are declared in the header but defined nowhere.
  - Event `operator==` and the rest of the event routing framework are not part of this model.
- Button: the flags are left uninitialised by the constructor. Their indeterminate values are a
  constructor parameter. The defaulted constructor is not modelled.
- StringUtil.ToLower: `std::tolower` is taken in the default "C" locale on characters. Other
  locales, and the byte encoding of `std::string`, are not modelled.
- The random number generator of `generate_uuid` is outside the model. The 31 values it would
  draw are a parameter.
- Vec:
  - The element type is an unbounded integer, and the two element types `T` and `U` of the
    mixed operators are the same.
  - Integer overflow is not modelled.
  - Division requires non-zero divisors, since division by zero is undefined.
  - One `Op` parameter stands for the four private helpers and their operators.
  - `Pop` requires at least one component.
  - The floating-point parts (`length`, `norm`), `to_string`, `push` (which reads past the end)
    and `get_value` (which cannot compile) are not modelled.
  - `operator+=` and its siblings return a copy of `*this`; only the update in place is modelled.
- `BufferRef::as_ref` and `as_ptr` are unchecked casts and are not modelled.
- Templates parameters such as `sizeof` of the affix types, `capacity`, `align`, `BS`, `Min`,
  `Max` and `Cap` are ordinary parameters.
  - The `static_assert` that `align` is a power of two is a precondition.
  - `StackAllocator::owns` declares its two locals `constexpr` although they depend on the
    argument. The model reads them as ordinary locals.
- Exceptions are modelled only where the core throws (`CascadingAllocator::free`): a `thrown`
  flag records them, and nothing after the throw runs.
- The result type, file I/O, event routing, the platform layer, logging, lazy iterators,
  scope guards, clocks, demangling and the build tooling are not part of this model. The code
  is single-threaded, so no concurrency is modelled.

## Findings

| source | as written | input that shows it | evidently intended | confidence | as-written member | corrected member |
|---|---|---|---|---|---|---|
| src/memory/stack_allocator.cpp:28 | `&m_buf + capacity` steps over `capacity` arrays of `capacity` bytes, so `owns` accepts addresses up to `m_buf + capacity * capacity` | any allocator with capacity 2 or more and the address one past `m_buf + capacity` (`StackAllocators.StackOwnsAsWrittenOverreaches`) | `m_buf + capacity`, the end of the buffer as in `alloc` | high, not executed | `StackAllocators.StackOwnsAsWrittenOverreaches` | `StackAllocators.StackOwnsBounds` |
| src/memory/free_list.cpp:36-44 | the loop body `advanced++` invokes the same postfix operator with step 0 on the copy and discards its result, so the copy never moves | a one-node list at address 100 and `it++(1)`: the end is intended, the node is returned (`FreeLists.PostIncrementCounterexample`) | advance the copy by `++advanced` `step` times, stopping at null | high, not executed | `FreeLists.NodeIterator.PostIncrementAsWritten` | `FreeLists.NodeIterator.PostIncrement` |
