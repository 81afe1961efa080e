/**
 * `AffixAllocator<Allocator, P, S, V>`: a decorator that asks its inner allocator for
 * room for a prefix object of type `P`, the caller's bytes and a suffix object of type
 * `S`, constructs the two affixes in place and hands out the middle part.
 *
 * The affix objects themselves are not modelled; their construction and destruction are
 * recorded as a log of lifecycle events with the address at which each one happens.
 * `construct_at<void>` and `destruct_at<void>` do nothing, so a `void` affix leaves no event.
 */
module AffixAllocators {
  import opened Blocks
  import opened AllocatorInterface

  /** The affix type parameter: `void`, or a type whose `sizeof` is `bytes`. */
  datatype AffixType = Void | Sized(bytes: nat)

  /** The template parameters `P`, `S` and `V`. */
  datatype AffixConfig = AffixConfig(prefix: AffixType, suffix: AffixType, verify: bool)

  datatype Part = Prefix | Suffix

  /** A placement-new (`Construct`) or an explicit destructor call (`Destroy`) at an address. */
  datatype Lifecycle = Construct(part: Part, at: int) | Destroy(part: Part, at: int)

  /** The inner allocator `m_allocator` and the record of affix lifecycle calls so far. */
  datatype AffixState<A> = AffixState(inner: A, log: seq<Lifecycle>)

  /** `detail::size_of<T>()`: `sizeof(T)`, and 0 for `void`. */
  function SizeOf(t: AffixType): nat
  {
    match t
    case Void => 0
    case Sized(n) => n
  }

  /** The number of bytes requested from the inner allocator for `size` caller bytes. */
  function SizeOfAlloc(cfg: AffixConfig, size: nat): nat
  {
    size + SizeOf(cfg.prefix) + SizeOf(cfg.suffix)
  }

  /** The caller's part of an inner block: `size` bytes just after the prefix. */
  function OffsetBlock(cfg: AffixConfig, b: Block, size: nat): Block
  {
    Block(b.addr + SizeOf(cfg.prefix), size)
  }

  /** The inner block a caller's block was cut from: the prefix and suffix added back. */
  function OriginalBlock(cfg: AffixConfig, b: Block): Block
  {
    Block(b.addr - SizeOf(cfg.prefix), b.size + SizeOf(cfg.prefix) + SizeOf(cfg.suffix))
  }

  /** `construct_at<T>(block, offset)` / `destruct_at<T>(block, offset)`: one event, none for `void`. */
  function LifecycleAt(t: AffixType, destroy: bool, part: Part, b: Block, offset: int): seq<Lifecycle>
  {
    if t == Void then []
    else if destroy then [Destroy(part, b.addr + offset)]
    else [Construct(part, b.addr + offset)]
  }

  /** `construct_prefix` at offset 0 followed by `construct_suffix` at offset `block.size - size_of<S>`. */
  function ConstructAffixes(cfg: AffixConfig, b: Block): seq<Lifecycle>
  {
    LifecycleAt(cfg.prefix, false, Prefix, b, 0) +
    LifecycleAt(cfg.suffix, false, Suffix, b, b.size - SizeOf(cfg.suffix))
  }

  /** The `if (V)` branch of `free` as written: `verify_prefix` twice, `verify_suffix` never. */
  function VerifyAffixes(cfg: AffixConfig, b: Block): seq<Lifecycle>
  {
    if cfg.verify then
      LifecycleAt(cfg.prefix, true, Prefix, b, 0) + LifecycleAt(cfg.prefix, true, Prefix, b, 0)
    else []
  }

  /** The inner allocator's `alloc` is defined for the enlarged request. */
  ghost predicate AffixServes<A>(ops: AllocOps<A>, cfg: AffixConfig, st: AffixState<A>, size: nat)
  {
    ops.alloc.requires(st.inner, SizeOfAlloc(cfg, size))
  }

  /** `alloc` stops at `block == null_block`, comparing both fields, not just the address. */
  function AffixAlloc<A>(ops: AllocOps<A>, cfg: AffixConfig, st: AffixState<A>, size: nat): (AffixState<A>, Block)
    requires AffixServes(ops, cfg, st, size)
  {
    var (inner, block) := ops.alloc(st.inner, SizeOfAlloc(cfg, size));
    if block == NullBlock then (AffixState(inner, st.log), block)
    else (AffixState(inner, st.log + ConstructAffixes(cfg, block)), OffsetBlock(cfg, block, size))
  }

  predicate AffixOwns<A>(ops: AllocOps<A>, cfg: AffixConfig, st: AffixState<A>, b: Block)
  {
    ops.owns(st.inner, OriginalBlock(cfg, b))
  }

  /**
   * An owned block is passed to the inner `free` as its original block, and the caller's
   * block then takes the value the inner `free` left there (`block = original`), unless
   * the inner `free` threw first.
   */
  function AffixFree<A>(ops: AllocOps<A>, cfg: AffixConfig, st: AffixState<A>, b: Block): Freed<AffixState<A>>
  {
    var original := OriginalBlock(cfg, b);
    if ops.owns(st.inner, original) then
      var f := ops.free(st.inner, original);
      Freed(AffixState(f.state, st.log + VerifyAffixes(cfg, original)), if f.thrown then b else f.block, f.thrown)
    else Freed(st, b, false)
  }

  /** The operations record used when an `AffixAllocator` is a child of a composite. */
  function AffixOps<A>(ops: AllocOps<A>, cfg: AffixConfig): AllocOps<AffixState<A>>
  {
    AllocOps(
      (st: AffixState<A>, size: nat) requires AffixServes(ops, cfg, st, size) => AffixAlloc(ops, cfg, st, size),
      (st: AffixState<A>, b: Block) => AffixOwns(ops, cfg, st, b),
      (st: AffixState<A>, b: Block) => AffixFree(ops, cfg, st, b))
  }

  /** `size_of<void>` is 0, so with two `void` affixes the inner request is the caller's size. */
  lemma SizeOfAllocVoid(cfg: AffixConfig, size: nat)
    ensures SizeOf(Void) == 0
    ensures SizeOfAlloc(cfg, size) >= size
    ensures cfg.prefix == Void && cfg.suffix == Void ==> SizeOfAlloc(cfg, size) == size
  {
  }

  /** Round trip: an inner block of the enlarged size is recovered from the caller's block cut from it. */
  lemma OriginalOfOffset(cfg: AffixConfig, b: Block, size: nat)
    requires b.size == SizeOfAlloc(cfg, size)
    ensures OriginalBlock(cfg, OffsetBlock(cfg, b, size)) == b
  {
  }

  /** Round trip the other way: cutting the caller's part out of an original block gives the block back. */
  lemma OffsetOfOriginal(cfg: AffixConfig, b: Block)
    ensures OriginalBlock(cfg, b).size == SizeOfAlloc(cfg, b.size)
    ensures OffsetBlock(cfg, OriginalBlock(cfg, b), b.size) == b
  {
  }

  /**
   * Layout of an inner block of the enlarged size: the prefix occupies its first
   * `size_of<P>` bytes, the caller's bytes follow, and the suffix starts right after them
   * and ends exactly at the inner block's end.
   */
  lemma AffixLayout(cfg: AffixConfig, b: Block, size: nat)
    requires b.size == SizeOfAlloc(cfg, size)
    ensures var user := OffsetBlock(cfg, b, size);
      var suffixAt := b.addr + (b.size - SizeOf(cfg.suffix));
      b.addr + SizeOf(cfg.prefix) == user.addr &&
      user.addr + user.size == suffixAt &&
      suffixAt + SizeOf(cfg.suffix) == b.addr + b.size
    ensures ConstructAffixes(cfg, b) ==
      (if cfg.prefix == Void then [] else [Construct(Prefix, b.addr)]) +
      (if cfg.suffix == Void then [] else [Construct(Suffix, b.addr + SizeOf(cfg.prefix) + size)])
  {
  }

  /**
   * `alloc(n)` asks the inner allocator for exactly `size_of_alloc(n)` bytes; a null inner
   * block is returned as is with no affix constructed, any other one yields the offset block
   * and constructs the prefix and the suffix in it.
   */
  lemma AffixAllocOutcome<A>(ops: AllocOps<A>, cfg: AffixConfig, st: AffixState<A>, size: nat)
    requires AffixServes(ops, cfg, st, size)
    ensures var (inner, block) := ops.alloc(st.inner, SizeOfAlloc(cfg, size));
      var (st', b) := AffixAlloc(ops, cfg, st, size);
      st'.inner == inner &&
      (block == NullBlock ==> b == NullBlock && st'.log == st.log) &&
      (block != NullBlock ==> b == Block(block.addr + SizeOf(cfg.prefix), size) &&
                              st'.log == st.log + ConstructAffixes(cfg, block))
  {
  }

  /** `owns(b)` is the inner allocator's `owns` of the original block. */
  lemma AffixOwnsIff<A>(ops: AllocOps<A>, cfg: AffixConfig, st: AffixState<A>, b: Block)
    ensures AffixOwns(ops, cfg, st, b) <==>
      ops.owns(st.inner, Block(b.addr - SizeOf(cfg.prefix), b.size + SizeOf(cfg.prefix) + SizeOf(cfg.suffix)))
  {
  }

  /** The offset block of an inner block the inner allocator owns is owned by the affix allocator. */
  lemma AffixOwnsAllocated<A>(ops: AllocOps<A>, cfg: AffixConfig, st: AffixState<A>, size: nat)
    requires AffixServes(ops, cfg, st, size)
    requires var (inner, block) := ops.alloc(st.inner, SizeOfAlloc(cfg, size));
      block != NullBlock && ops.owns(inner, block) && block.size == SizeOfAlloc(cfg, size)
    ensures var (st', b) := AffixAlloc(ops, cfg, st, size); AffixOwns(ops, cfg, st', b)
  {
    var block := ops.alloc(st.inner, SizeOfAlloc(cfg, size)).1;
    OriginalOfOffset(cfg, block, size);
  }

  /**
   * `free` of an unowned block changes nothing; of an owned one it frees the original block
   * in the inner allocator and gives the caller the block value the inner `free` left.
   */
  lemma AffixFreeOutcome<A>(ops: AllocOps<A>, cfg: AffixConfig, st: AffixState<A>, b: Block)
    ensures var original := OriginalBlock(cfg, b);
      var f := AffixFree(ops, cfg, st, b);
      var g := ops.free(st.inner, original);
      (!ops.owns(st.inner, original) ==> f == Freed(st, b, false)) &&
      (ops.owns(st.inner, original) ==>
        f.state.inner == g.state && f.thrown == g.thrown && (!g.thrown ==> f.block == g.block))
  {
  }

  /**
   * With `V` set and a non-`void` prefix, `free` destroys the prefix twice at the original
   * address and never the suffix; with `V` clear it destroys nothing.
   */
  lemma AffixVerifyEvents<A>(ops: AllocOps<A>, cfg: AffixConfig, st: AffixState<A>, b: Block)
    requires ops.owns(st.inner, OriginalBlock(cfg, b))
    ensures var a := b.addr - SizeOf(cfg.prefix);
      var log := AffixFree(ops, cfg, st, b).state.log;
      log == st.log + (if cfg.verify && cfg.prefix != Void then [Destroy(Prefix, a), Destroy(Prefix, a)] else [])
    ensures forall e :: e in AffixFree(ops, cfg, st, b).state.log[|st.log|..] ==> e == Destroy(Prefix, e.at)
  {
    var log := AffixFree(ops, cfg, st, b).state.log;
    assert log[|st.log|..] == VerifyAffixes(cfg, OriginalBlock(cfg, b));
  }

  /** Alloc followed by free of the returned block hands the inner allocator exactly the inner block it gave out. */
  lemma AffixAllocThenFree<A>(ops: AllocOps<A>, cfg: AffixConfig, st: AffixState<A>, size: nat)
    requires AffixServes(ops, cfg, st, size)
    requires var (inner, block) := ops.alloc(st.inner, SizeOfAlloc(cfg, size));
      block != NullBlock && ops.owns(inner, block) && block.size == SizeOfAlloc(cfg, size)
    ensures var (inner, block) := ops.alloc(st.inner, SizeOfAlloc(cfg, size));
      var (st1, b) := AffixAlloc(ops, cfg, st, size);
      AffixFree(ops, cfg, st1, b).state.inner == ops.free(inner, block).state
  {
    var block := ops.alloc(st.inner, SizeOfAlloc(cfg, size)).1;
    OriginalOfOffset(cfg, block, size);
  }

  /** The mutable decorator: the inner allocator is a field, updated by `alloc` and `free`. */
  class AffixAllocator<A> {
    const ops: AllocOps<A>
    const cfg: AffixConfig
    var inner: A
    var log: seq<Lifecycle>

    /** The abstract value of this allocator. */
    function State(): AffixState<A>
      reads this
    {
      AffixState(inner, log)
    }

    constructor (ops: AllocOps<A>, cfg: AffixConfig, inner: A)
      ensures this.ops == ops && this.cfg == cfg
      ensures State() == AffixState(inner, [])
    {
      this.ops := ops;
      this.cfg := cfg;
      this.inner := inner;
      log := [];
    }

    method Alloc(size: nat) returns (b: Block)
      requires AffixServes(ops, cfg, State(), size)
      modifies this
      ensures (State(), b) == AffixAlloc(ops, cfg, old(State()), size)
    {
      var r := ops.alloc(inner, SizeOfAlloc(cfg, size));
      inner := r.0;
      var block := r.1;
      if block == NullBlock {
        return block;
      }
      ghost var before := log;
      log := log + LifecycleAt(cfg.prefix, false, Prefix, block, 0);
      log := log + LifecycleAt(cfg.suffix, false, Suffix, block, block.size - SizeOf(cfg.suffix));
      assert log == before + ConstructAffixes(cfg, block);
      b := OffsetBlock(cfg, block, size);
    }

    predicate Owns(b: Block)
      reads this
      ensures Owns(b) == AffixOwns(ops, cfg, State(), b)
    {
      ops.owns(inner, OriginalBlock(cfg, b))
    }

    /** Returns the new value of the caller's block, and whether the inner `free` threw. */
    method Free(b: Block) returns (b': Block, thrown: bool)
      modifies this
      ensures Freed(State(), b', thrown) == AffixFree(ops, cfg, old(State()), b)
    {
      var original := OriginalBlock(cfg, b);
      b', thrown := b, false;
      if ops.owns(inner, original) {
        ghost var before := log;
        if cfg.verify {
          log := log + LifecycleAt(cfg.prefix, true, Prefix, original, 0);
          log := log + LifecycleAt(cfg.prefix, true, Prefix, original, 0);
        }
        assert log == before + VerifyAffixes(cfg, original);
        var f := ops.free(inner, original);
        inner, thrown := f.state, f.thrown;
        if !thrown {
          b' := f.block;
        }
      }
    }
  }
}
