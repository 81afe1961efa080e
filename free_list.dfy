/**
 * `FreeList<Allocator, BS, Min, Max, Cap>`: a pool of fixed-size blocks of `Max` bytes
 * threaded on an intrusive singly linked list, refilled `BS` nodes at a time from a
 * backing allocator.
 *
 * Each node occupies `sizeof(Node) + Max` bytes obtained from the backing allocator: the
 * `Node` header `{Block block; Node *next;}` and then the payload. The model keeps the two
 * header fields of every node in two maps from the node's address, `headers` (the stored
 * `block`) and `links` (the `next` pointer). A header field that was never written reads
 * as null. The payload bytes themselves are not modelled.
 */
module FreeLists {
  import opened Blocks
  import opened AllocatorInterface

  /** `sizeof(Node)` on a 64-bit target: a pointer and a `usize` for the block, and a pointer for `next`. */
  const NodeSize: nat := 24

  /** The template parameters `BS`, `Min`, `Max` and `Cap`. */
  datatype PoolConfig = PoolConfig(batch: nat, min: nat, max: nat, cap: nat)

  /** `m_allocator`, `m_head`, the node headers in memory, and `m_allocs`. */
  datatype Pool<B> = Pool(
    backing: B,
    head: int,
    headers: map<int, Block>,
    links: map<int, int>,
    allocs: nat)

  /** A freshly constructed pool: empty list, no nodes, counter 0. */
  function PoolInit<B>(backing: B): Pool<B>
  {
    Pool(backing, 0, map[], map[], 0)
  }

  /** `node->block`. */
  function Stored<B>(p: Pool<B>, node: int): Block
  {
    if node in p.headers then p.headers[node] else NullBlock
  }

  /** `node->next`. */
  function Link<B>(p: Pool<B>, node: int): int
  {
    if node in p.links then p.links[node] else 0
  }

  /** The size of every request made to the backing allocator: `sizeof(Node) + Max`. */
  function NodeRequest(cfg: PoolConfig): nat
  {
    NodeSize + cfg.max
  }

  /** The node addresses of a sequence of blocks, in order. */
  function Addrs(bs: seq<Block>): (r: seq<int>)
    ensures |r| == |bs|
    ensures forall j :: 0 <= j < |bs| ==> r[j] == bs[j].addr
  {
    if bs == [] then [] else [bs[0].addr] + Addrs(bs[1..])
  }

  /** The node obtained by the next request to the backing allocator. */
  function NextNode<B>(ops: AllocOps<B>, cfg: PoolConfig, p: Pool<B>): int
    requires ops.alloc.requires(p.backing, NodeRequest(cfg))
  {
    ops.alloc(p.backing, NodeRequest(cfg)).1.addr
  }

  /**
   * One node obtained from the backing allocator and its header block written:
   * `current->block = {node_block + sizeof(Node), Max}`; the counter has been incremented.
   */
  function CarveNode<B>(ops: AllocOps<B>, cfg: PoolConfig, p: Pool<B>): Pool<B>
    requires ops.alloc.requires(p.backing, NodeRequest(cfg))
  {
    var (backing, nodeBlock) := ops.alloc(p.backing, NodeRequest(cfg));
    p.(backing := backing,
       headers := p.headers[nodeBlock.addr := Block(nodeBlock.addr + NodeSize, cfg.max)],
       allocs := p.allocs + 1)
  }

  /** `node->next = m_head; m_head = node`. */
  function PushNode<B>(p: Pool<B>, node: int): Pool<B>
  {
    p.(links := p.links[node := p.head], head := node)
  }

  /**
   * How many times the refill loop, from iteration `i` with counter value `allocs`,
   * calls the backing allocator before it ends or breaks on `m_allocs++ == Cap`.
   */
  function Requested(cfg: PoolConfig, allocs: nat, i: nat): (r: nat)
    requires i <= cfg.batch
    ensures r <= cfg.batch - i
    decreases cfg.batch - i
  {
    if i == cfg.batch || allocs == cfg.cap then 0 else 1 + Requested(cfg, allocs + 1, i + 1)
  }

  /**
   * The refill loop `for (i = i; i < BS; ++i)` of `alloc`, from iteration `i` with the
   * block `first` collected so far. Iteration 0 keeps its node's payload as the result;
   * every later node is pushed at the head. The counter is incremented by every iteration
   * that runs, the breaking one included.
   */
  function Batch<B>(ops: AllocOps<B>, cfg: PoolConfig, p: Pool<B>, i: nat, first: Block): (Pool<B>, Block)
    requires i <= cfg.batch
    requires Serves(ops, p.backing, NodeRequest(cfg), Requested(cfg, p.allocs, i))
    decreases cfg.batch - i
  {
    if i == cfg.batch then (p, first)
    else if p.allocs == cfg.cap then (p.(allocs := p.allocs + 1), first)
    else
      var node := NextNode(ops, cfg, p);
      if i == 0 then Batch(ops, cfg, CarveNode(ops, cfg, p), i + 1, Block(node + NodeSize, cfg.max))
      else Batch(ops, cfg, PushNode(CarveNode(ops, cfg, p), node), i + 1, first)
  }

  /**
   * An in-range request on an empty list needs the backing allocator to serve every
   * node request of the refill with a non-null block: the source dereferences the result
   * unchecked.
   */
  ghost predicate PoolServes<B>(ops: AllocOps<B>, cfg: PoolConfig, p: Pool<B>, size: nat)
  {
    cfg.min <= size <= cfg.max && p.head == 0 ==>
      Serves(ops, p.backing, NodeRequest(cfg), Requested(cfg, p.allocs, 0))
  }

  function PoolAlloc<B>(ops: AllocOps<B>, cfg: PoolConfig, p: Pool<B>, size: nat): (Pool<B>, Block)
    requires PoolServes(ops, cfg, p, size)
  {
    if size >= cfg.min && size <= cfg.max then
      if p.head != 0 then (p.(head := Link(p, p.head)), Stored(p, p.head))
      else Batch(ops, cfg, p, 0, NullBlock)
    else (p, NullBlock)
  }

  predicate PoolOwns<B>(ops: AllocOps<B>, cfg: PoolConfig, p: Pool<B>, b: Block)
  {
    if b.size >= cfg.min && b.size <= cfg.max then ops.owns(p.backing, b) else false
  }

  /** `free` pushes the node whose payload is `b` at the head and nulls the caller's block. */
  function PoolFree<B>(ops: AllocOps<B>, cfg: PoolConfig, p: Pool<B>, b: Block): (Pool<B>, Block)
  {
    if PoolOwns(ops, cfg, p, b) then
      (PushNode(p, b.addr - NodeSize), NullBlock)
    else (p, b)
  }

  /** The operations record used when a `FreeList` is a child of a composite. */
  function PoolOps<B>(ops: AllocOps<B>, cfg: PoolConfig): AllocOps<Pool<B>>
  {
    AllocOps(
      (p: Pool<B>, size: nat) requires PoolServes(ops, cfg, p, size) => PoolAlloc(ops, cfg, p, size),
      (p: Pool<B>, b: Block) => PoolOwns(ops, cfg, p, b),
      (p: Pool<B>, b: Block) => var (p', b') := PoolFree(ops, cfg, p, b); Freed(p', b', false))
  }

  /** Every node header the pool has written records the node's own payload: `{node + sizeof(Node), Max}`. */
  ghost predicate Carved<B>(cfg: PoolConfig, p: Pool<B>)
  {
    forall n :: n in p.headers ==> p.headers[n] == Block(n + NodeSize, cfg.max)
  }

  /** The first `k` nodes of the list threaded through `links` from `cur`, stopping early at null. */
  function Walk(links: map<int, int>, cur: int, k: nat): (r: seq<int>)
    ensures |r| <= k
    ensures forall j :: 0 <= j < |r| ==> r[j] != 0
    decreases k
  {
    if k == 0 || cur == 0 then [] else [cur] + Walk(links, if cur in links then links[cur] else 0, k - 1)
  }

  // ---------------------------------------------------------------- the refill count

  /** The loop calls the backing allocator `BS - i` times, or fewer when the counter reaches `Cap` first. */
  lemma {:induction false} RequestedClosedForm(cfg: PoolConfig, allocs: nat, i: nat)
    requires i <= cfg.batch
    ensures Requested(cfg, allocs, i) ==
      if allocs <= cfg.cap && cfg.cap - allocs < cfg.batch - i then cfg.cap - allocs else cfg.batch - i
    decreases cfg.batch - i
  {
    if i < cfg.batch && allocs != cfg.cap {
      RequestedClosedForm(cfg, allocs + 1, i + 1);
    }
  }

  /** The refill asks the backing allocator exactly `Requested` times, for `sizeof(Node) + Max` bytes each. */
  lemma {:induction false} BatchAsks<B>(ops: AllocOps<B>, cfg: PoolConfig, p: Pool<B>, i: nat, first: Block)
    requires i <= cfg.batch
    requires Serves(ops, p.backing, NodeRequest(cfg), Requested(cfg, p.allocs, i))
    ensures Batch(ops, cfg, p, i, first).0.backing ==
      Repeat(ops, p.backing, NodeRequest(cfg), Requested(cfg, p.allocs, i)).0
    decreases cfg.batch - i
  {
    if i < cfg.batch && p.allocs != cfg.cap {
      var node := NextNode(ops, cfg, p);
      if i == 0 {
        BatchAsks(ops, cfg, CarveNode(ops, cfg, p), i + 1, Block(node + NodeSize, cfg.max));
      } else {
        BatchAsks(ops, cfg, PushNode(CarveNode(ops, cfg, p), node), i + 1, first);
      }
    }
  }

  /**
   * `m_allocs` grows by one on every iteration that runs, the breaking one included: after a
   * break it is `Cap + 1`, otherwise it grew by the number of iterations.
   */
  lemma {:induction false} BatchCounter<B>(ops: AllocOps<B>, cfg: PoolConfig, p: Pool<B>, i: nat, first: Block)
    requires i <= cfg.batch
    requires Serves(ops, p.backing, NodeRequest(cfg), Requested(cfg, p.allocs, i))
    ensures Batch(ops, cfg, p, i, first).0.allocs ==
      if p.allocs <= cfg.cap && cfg.cap - p.allocs < cfg.batch - i then cfg.cap + 1 else p.allocs + (cfg.batch - i)
    decreases cfg.batch - i
  {
    if i < cfg.batch && p.allocs != cfg.cap {
      var node := NextNode(ops, cfg, p);
      if i == 0 {
        BatchCounter(ops, cfg, CarveNode(ops, cfg, p), i + 1, Block(node + NodeSize, cfg.max));
      } else {
        BatchCounter(ops, cfg, PushNode(CarveNode(ops, cfg, p), node), i + 1, first);
      }
    }
  }

  /**
   * Because of the post-increment, the cap stops at most one refill: once a refill has broken
   * on `Cap`, the counter is past it and every later refill asks for all `BS` nodes.
   */
  lemma CapOvershoot(cfg: PoolConfig)
    requires cfg.batch > 0
    ensures Requested(cfg, cfg.cap, 0) == 0
    ensures Requested(cfg, cfg.cap + 1, 0) == cfg.batch
  {
    RequestedClosedForm(cfg, cfg.cap + 1, 0);
  }

  /** A refill that breaks at once leaves only the counter changed and returns `null_block`. */
  lemma BatchAtCap<B>(ops: AllocOps<B>, cfg: PoolConfig, p: Pool<B>)
    requires cfg.batch > 0 && p.allocs == cfg.cap
    ensures Batch(ops, cfg, p, 0, NullBlock) == (p.(allocs := cfg.cap + 1), NullBlock)
  {
  }

  // ---------------------------------------------------------------- what the refill writes

  /** The blocks of a refill step: the first one obtained, then those of the rest of the refill. */
  lemma BatchBlocksStep<B>(ops: AllocOps<B>, cfg: PoolConfig, p: Pool<B>, i: nat)
    requires i < cfg.batch && p.allocs != cfg.cap
    requires Serves(ops, p.backing, NodeRequest(cfg), Requested(cfg, p.allocs, i))
    ensures var k := Requested(cfg, p.allocs, i);
      var bs := Repeat(ops, p.backing, NodeRequest(cfg), k).1;
      var carved := CarveNode(ops, cfg, p);
      k > 0 && Requested(cfg, carved.allocs, i + 1) == k - 1 &&
      Serves(ops, carved.backing, NodeRequest(cfg), k - 1) &&
      bs == [ops.alloc(p.backing, NodeRequest(cfg)).1] + Repeat(ops, carved.backing, NodeRequest(cfg), k - 1).1 &&
      bs[0].addr == NextNode(ops, cfg, p) &&
      PushNode(carved, NextNode(ops, cfg, p)).allocs == carved.allocs &&
      PushNode(carved, NextNode(ops, cfg, p)).backing == carved.backing
  {
  }

  /** The addresses of the nodes a refill from iteration `i` obtains, in order. */
  function RefillNodes<B>(ops: AllocOps<B>, cfg: PoolConfig, p: Pool<B>, i: nat): seq<int>
    requires i <= cfg.batch
    requires Serves(ops, p.backing, NodeRequest(cfg), Requested(cfg, p.allocs, i))
  {
    Addrs(Repeat(ops, p.backing, NodeRequest(cfg), Requested(cfg, p.allocs, i)).1)
  }

  /** One iteration of the refill that neither ends nor breaks: it obtains the next node and carries on from the next pool. */
  lemma BatchStep<B>(ops: AllocOps<B>, cfg: PoolConfig, p: Pool<B>, i: nat, first: Block)
    requires i < cfg.batch && p.allocs != cfg.cap
    requires Serves(ops, p.backing, NodeRequest(cfg), Requested(cfg, p.allocs, i))
    ensures ops.alloc.requires(p.backing, NodeRequest(cfg))
    ensures var node := NextNode(ops, cfg, p);
      var carved := CarveNode(ops, cfg, p);
      var next := if i == 0 then carved else PushNode(carved, node);
      var after := if i == 0 then Block(node + NodeSize, cfg.max) else first;
      Serves(ops, next.backing, NodeRequest(cfg), Requested(cfg, next.allocs, i + 1)) &&
      Batch(ops, cfg, p, i, first) == Batch(ops, cfg, next, i + 1, after) &&
      RefillNodes(ops, cfg, p, i) == [node] + RefillNodes(ops, cfg, next, i + 1)
  {
    BatchBlocksStep(ops, cfg, p, i);
    var bs := Repeat(ops, p.backing, NodeRequest(cfg), Requested(cfg, p.allocs, i)).1;
    assert Addrs(bs) == [bs[0].addr] + Addrs(bs[1..]);
  }

  lemma DistinctCons(node: int, rest: seq<int>)
    requires Distinct([node] + rest)
    ensures Distinct(rest) && node !in rest
  {
    var all := [node] + rest;
    forall a, b | 0 <= a < b < |rest|
      ensures rest[a] != rest[b]
    {
      assert rest[a] == all[a + 1] && rest[b] == all[b + 1];
    }
    forall j | 0 <= j < |rest|
      ensures rest[j] != node
    {
      assert rest[j] == all[j + 1] && node == all[0];
    }
  }

  /** The refill writes only the headers and links of the nodes it obtains. */
  lemma {:induction false} BatchFrame<B>(ops: AllocOps<B>, cfg: PoolConfig, p: Pool<B>, i: nat, first: Block, n: int)
    requires i <= cfg.batch
    requires Serves(ops, p.backing, NodeRequest(cfg), Requested(cfg, p.allocs, i))
    requires n !in RefillNodes(ops, cfg, p, i)
    ensures Link(Batch(ops, cfg, p, i, first).0, n) == Link(p, n)
    ensures Stored(Batch(ops, cfg, p, i, first).0, n) == Stored(p, n)
    decreases cfg.batch - i
  {
    if i < cfg.batch && p.allocs != cfg.cap {
      BatchStep(ops, cfg, p, i, first);
      var node := NextNode(ops, cfg, p);
      var carved := CarveNode(ops, cfg, p);
      var next := if i == 0 then carved else PushNode(carved, node);
      var after := if i == 0 then Block(node + NodeSize, cfg.max) else first;
      assert n != node && n !in RefillNodes(ops, cfg, next, i + 1);
      BatchFrame(ops, cfg, next, i + 1, after, n);
    }
  }

  /**
   * Every payload the refill creates is `{node + sizeof(Node), Max}`, recorded in its node's
   * header; headers written earlier are kept.
   */
  lemma {:induction false} BatchCarves<B>(ops: AllocOps<B>, cfg: PoolConfig, p: Pool<B>, i: nat, first: Block)
    requires i <= cfg.batch
    requires Serves(ops, p.backing, NodeRequest(cfg), Requested(cfg, p.allocs, i))
    requires Carved(cfg, p)
    ensures Carved(cfg, Batch(ops, cfg, p, i, first).0)
    ensures p.headers.Keys <= Batch(ops, cfg, p, i, first).0.headers.Keys
    ensures forall n :: n in RefillNodes(ops, cfg, p, i) ==> n in Batch(ops, cfg, p, i, first).0.headers
    decreases cfg.batch - i
  {
    if i < cfg.batch && p.allocs != cfg.cap {
      BatchStep(ops, cfg, p, i, first);
      var node := NextNode(ops, cfg, p);
      var carved := CarveNode(ops, cfg, p);
      var next := if i == 0 then carved else PushNode(carved, node);
      var after := if i == 0 then Block(node + NodeSize, cfg.max) else first;
      BatchCarves(ops, cfg, next, i + 1, after);
    }
  }

  /** From iteration 1 on, the result collected at iteration 0 is kept. */
  lemma {:induction false} BatchKeepsFirst<B>(ops: AllocOps<B>, cfg: PoolConfig, p: Pool<B>, i: nat, first: Block)
    requires 1 <= i <= cfg.batch
    requires Serves(ops, p.backing, NodeRequest(cfg), Requested(cfg, p.allocs, i))
    ensures Batch(ops, cfg, p, i, first).1 == first
    decreases cfg.batch - i
  {
    if i < cfg.batch && p.allocs != cfg.cap {
      BatchKeepsFirst(ops, cfg, PushNode(CarveNode(ops, cfg, p), NextNode(ops, cfg, p)), i + 1, first);
    }
  }

  /**
   * The nodes `nodes` were pushed at the head in order onto a list whose head was `oldHead`:
   * the last one is at the head and each links to the one pushed before it.
   */
  ghost predicate PushedInOrder<B>(r: Pool<B>, nodes: seq<int>, oldHead: int)
  {
    r.head == (if |nodes| == 0 then oldHead else nodes[|nodes| - 1]) &&
    (|nodes| > 0 ==> Link(r, nodes[0]) == oldHead) &&
    forall j :: 0 < j < |nodes| ==> Link(r, nodes[j]) == nodes[j - 1]
  }

  predicate Distinct(nodes: seq<int>)
  {
    forall a, b :: 0 <= a < b < |nodes| ==> nodes[a] != nodes[b]
  }

  lemma PushedCons<B>(r: Pool<B>, node: int, nodes: seq<int>, oldHead: int)
    requires PushedInOrder(r, nodes, node) && Link(r, node) == oldHead
    ensures PushedInOrder(r, [node] + nodes, oldHead)
  {
    var all := [node] + nodes;
    forall j | 0 < j < |all|
      ensures Link(r, all[j]) == all[j - 1]
    {
      assert all[j] == nodes[j - 1];
      if j > 1 {
        assert all[j - 1] == nodes[j - 2];
      }
    }
  }

  /**
   * From iteration 1 on, every node obtained is pushed at the head in order (given distinct
   * node addresses, since a repeated address would have its link overwritten).
   */
  lemma {:induction false} BatchPushes<B>(ops: AllocOps<B>, cfg: PoolConfig, p: Pool<B>, i: nat, first: Block)
    requires 1 <= i <= cfg.batch
    requires Serves(ops, p.backing, NodeRequest(cfg), Requested(cfg, p.allocs, i))
    requires Distinct(RefillNodes(ops, cfg, p, i))
    ensures PushedInOrder(Batch(ops, cfg, p, i, first).0, RefillNodes(ops, cfg, p, i), p.head)
    decreases cfg.batch - i
  {
    if i < cfg.batch && p.allocs != cfg.cap {
      BatchStep(ops, cfg, p, i, first);
      var node := NextNode(ops, cfg, p);
      var pushed := PushNode(CarveNode(ops, cfg, p), node);
      var rest := RefillNodes(ops, cfg, pushed, i + 1);
      DistinctCons(node, rest);
      BatchPushes(ops, cfg, pushed, i + 1, first);
      BatchFrame(ops, cfg, pushed, i + 1, first, node);
      PushedCons(Batch(ops, cfg, pushed, i + 1, first).0, node, rest, p.head);
    }
  }

  /**
   * A refill on an empty list returns the payload of the first node obtained (or
   * `null_block` when none is obtained) and pushes every later node at the head in order.
   */
  lemma BatchFromEmpty<B>(ops: AllocOps<B>, cfg: PoolConfig, p: Pool<B>)
    requires Serves(ops, p.backing, NodeRequest(cfg), Requested(cfg, p.allocs, 0))
    ensures var nodes := RefillNodes(ops, cfg, p, 0);
      var r := Batch(ops, cfg, p, 0, NullBlock);
      (nodes == [] ==> r.1 == NullBlock && r.0.head == p.head) &&
      (nodes != [] ==> r.1 == Block(nodes[0] + NodeSize, cfg.max)) &&
      (nodes != [] && Distinct(nodes) ==> PushedInOrder(r.0, nodes[1..], p.head))
  {
    if 0 < cfg.batch && p.allocs != cfg.cap {
      BatchStep(ops, cfg, p, 0, NullBlock);
      var node := NextNode(ops, cfg, p);
      var payload := Block(node + NodeSize, cfg.max);
      var carved := CarveNode(ops, cfg, p);
      var rest := RefillNodes(ops, cfg, carved, 1);
      assert RefillNodes(ops, cfg, p, 0)[1..] == rest;
      BatchKeepsFirst(ops, cfg, carved, 1, payload);
      if Distinct(RefillNodes(ops, cfg, p, 0)) {
        DistinctCons(node, rest);
        BatchPushes(ops, cfg, carved, 1, payload);
      }
    }
  }

  // ---------------------------------------------------------------- alloc, owns, free

  /** A size outside `[Min, Max]` gets `null_block` and changes nothing. */
  lemma PoolAllocOutOfRange<B>(ops: AllocOps<B>, cfg: PoolConfig, p: Pool<B>, size: nat)
    requires size < cfg.min || size > cfg.max
    ensures PoolServes(ops, cfg, p, size)
    ensures PoolAlloc(ops, cfg, p, size) == (p, NullBlock)
  {
  }

  /**
   * With a non-empty list, `alloc` returns the head node's stored block, moves the head to the
   * next node, and the list loses exactly its first node.
   */
  lemma PoolAllocPops<B>(ops: AllocOps<B>, cfg: PoolConfig, p: Pool<B>, size: nat, k: nat)
    requires cfg.min <= size <= cfg.max && p.head != 0
    ensures PoolServes(ops, cfg, p, size)
    ensures PoolAlloc(ops, cfg, p, size) == (p.(head := Link(p, p.head)), Stored(p, p.head))
    ensures var p' := PoolAlloc(ops, cfg, p, size).0; Walk(p'.links, p'.head, k) == Walk(p.links, p.head, k + 1)[1..]
  {
  }

  /** `owns` holds exactly for sizes in `[Min, Max]` that the backing allocator owns. */
  lemma PoolOwnsIff<B>(ops: AllocOps<B>, cfg: PoolConfig, p: Pool<B>, b: Block)
    ensures PoolOwns(ops, cfg, p, b) <==> cfg.min <= b.size <= cfg.max && ops.owns(p.backing, b)
  {
  }

  /** `free` of an owned block pushes its node and nulls the block; otherwise nothing changes. */
  lemma PoolFreeOutcome<B>(ops: AllocOps<B>, cfg: PoolConfig, p: Pool<B>, b: Block)
    ensures PoolOwns(ops, cfg, p, b) ==>
      PoolFree(ops, cfg, p, b) == (p.(links := p.links[b.addr - NodeSize := p.head], head := b.addr - NodeSize), NullBlock)
    ensures !PoolOwns(ops, cfg, p, b) ==> PoolFree(ops, cfg, p, b) == (p, b)
    ensures PoolFree(ops, cfg, p, b).0.backing == p.backing && PoolFree(ops, cfg, p, b).0.allocs == p.allocs
  {
  }

  /** Rewriting the link of a node the walk does not visit does not change the walk. */
  lemma {:induction false} WalkIgnoresOtherLinks(links: map<int, int>, cur: int, k: nat, n: int, v: int)
    requires n !in Walk(links, cur, k)
    ensures Walk(links[n := v], cur, k) == Walk(links, cur, k)
    decreases k
  {
    if k > 0 && cur != 0 {
      WalkIgnoresOtherLinks(links, if cur in links then links[cur] else 0, k - 1, n, v);
    }
  }

  /** After `free` of an owned block, the list is its node followed by the old list. */
  lemma PoolFreePushes<B>(ops: AllocOps<B>, cfg: PoolConfig, p: Pool<B>, b: Block, k: nat)
    requires PoolOwns(ops, cfg, p, b) && b.addr - NodeSize != 0
    requires b.addr - NodeSize !in Walk(p.links, p.head, k)
    ensures var p' := PoolFree(ops, cfg, p, b).0;
      Walk(p'.links, p'.head, k + 1) == [b.addr - NodeSize] + Walk(p.links, p.head, k)
  {
    WalkIgnoresOtherLinks(p.links, p.head, k, b.addr - NodeSize, p.head);
  }

  /**
   * An in-range `alloc` right after `free` of an owned block returns the block stored in that
   * block's node and restores the old head; for a block the pool itself carved, that is the
   * very block that was freed.
   */
  lemma FreeThenAlloc<B>(ops: AllocOps<B>, cfg: PoolConfig, p: Pool<B>, b: Block, size: nat)
    requires PoolOwns(ops, cfg, p, b) && b.addr - NodeSize != 0
    requires cfg.min <= size <= cfg.max
    ensures PoolServes(ops, cfg, PoolFree(ops, cfg, p, b).0, size)
    ensures var p' := PoolFree(ops, cfg, p, b).0;
      PoolAlloc(ops, cfg, p', size) == (p'.(head := p.head), Stored(p, b.addr - NodeSize))
    ensures Carved(cfg, p) && b.addr - NodeSize in p.headers && b.size == cfg.max ==>
      PoolAlloc(ops, cfg, PoolFree(ops, cfg, p, b).0, size).1 == b
  {
  }

  /** A fresh pool is empty and carved, and neither `alloc` nor `free` ever invalidates a node header. */
  lemma PoolKeepsCarved<B>(ops: AllocOps<B>, cfg: PoolConfig, p: Pool<B>, size: nat, b: Block)
    requires Carved(cfg, p)
    requires PoolServes(ops, cfg, p, size)
    ensures Carved(cfg, PoolInit<B>(p.backing)) && Walk(PoolInit<B>(p.backing).links, 0, 1) == []
    ensures Carved(cfg, PoolAlloc(ops, cfg, p, size).0)
    ensures Carved(cfg, PoolFree(ops, cfg, p, b).0)
  {
    if cfg.min <= size <= cfg.max && p.head == 0 {
      BatchCarves(ops, cfg, p, 0, NullBlock);
    }
  }

  // ---------------------------------------------------------------- the list iterator

  /** `++it`: follow `next`, staying at null once there. */
  function Next<B>(p: Pool<B>, cur: int): int
  {
    if cur != 0 then Link(p, cur) else 0
  }

  /** `step` pre-increments from `cur`, stopping early at null: what `it++` with a step evidently intends. */
  function Advance<B>(p: Pool<B>, cur: int, step: nat): int
    decreases step
  {
    if step == 0 || cur == 0 then cur else Advance(p, Next(p, cur), step - 1)
  }

  /** Advancing by `a` and then by `b` is advancing by `a + b`. */
  lemma {:induction false} AdvanceAdds<B>(p: Pool<B>, cur: int, a: nat, b: nat)
    ensures Advance(p, Advance(p, cur, a), b) == Advance(p, cur, a + b)
    decreases a
  {
    if a > 0 && cur != 0 {
      AdvanceAdds(p, Next(p, cur), a - 1, b);
    } else if cur == 0 {
      assert Advance(p, 0, b) == 0;
      assert Advance(p, 0, a + b) == 0;
    }
  }

  /** The iterator visits the nodes of the list in order: `j` steps from the head land on node `j`. */
  lemma {:induction false} AdvanceFollowsWalk<B>(p: Pool<B>, cur: int, k: nat, j: nat)
    requires j < |Walk(p.links, cur, k)|
    ensures Advance(p, cur, j) == Walk(p.links, cur, k)[j]
    decreases j
  {
    if j > 0 {
      AdvanceFollowsWalk(p, Link(p, cur), k - 1, j - 1);
    }
  }

  /** On a one-node list the intended `it++` reaches the end, yet as written it stays on the node. */
  lemma PostIncrementCounterexample()
    ensures var p := Pool((), 100, map[], map[100 := 0], 0);
      Advance(p, p.head, 1) == 0 && Advance(p, p.head, 1) != p.head
  {
  }

  /** `FreeListHelper::iterator`, positioned on a node (or on null, the end). */
  class NodeIterator {
    var current: int

    constructor (current: int)
      ensures this.current == current
    {
      this.current := current;
    }

    predicate Equals(other: NodeIterator)
      reads this, other
      ensures Equals(other) <==> current == other.current
    {
      current == other.current
    }

    /** `*it`: the block stored in the current node. */
    function Deref<B>(p: Pool<B>): (b: Block)
      reads this
      requires current != 0
      ensures current in p.headers ==> b == p.headers[current]
    {
      Stored(p, current)
    }

    /** Prefix `++it`. */
    method Increment<B>(p: Pool<B>)
      modifies this
      ensures current == Next(p, old(current))
    {
      current := if current != 0 then Link(p, current) else 0;
    }

    /**
     * Postfix `it++(step)` as written: the loop body `advanced++` invokes this same const
     * operator with step 0 on the copy and discards the result, so the copy never moves.
     */
    method PostIncrementAsWritten<B>(p: Pool<B>, step: nat) returns (r: NodeIterator)
      ensures fresh(r) && r.current == current
      decreases step
    {
      r := new NodeIterator(current);
      var i := 0;
      while i < step && r.current != 0
        invariant fresh(r) && r.current == current
        decreases step - i
      {
        var discarded := r.PostIncrementAsWritten(p, 0);
        i := i + 1;
      }
    }

    /** Postfix `it++(step)` as intended: a copy advanced `step` times, stopping at null. */
    method PostIncrement<B>(p: Pool<B>, step: nat) returns (r: NodeIterator)
      ensures fresh(r) && r.current == Advance(p, current, step)
      ensures current == old(current)
    {
      r := new NodeIterator(current);
      var i := 0;
      while i < step && r.current != 0
        invariant 0 <= i <= step
        invariant fresh(r) && Advance(p, r.current, step - i) == Advance(p, current, step)
        decreases step - i
      {
        r.Increment(p);
        i := i + 1;
      }
    }
  }

  /** The pool: the backing allocator and the list and counter the operations update in place. */
  class FreeList<B> {
    const ops: AllocOps<B>
    const cfg: PoolConfig
    var backing: B
    var head: int
    var headers: map<int, Block>
    var links: map<int, int>
    var allocs: nat

    /** The abstract value of this pool. */
    function State(): Pool<B>
      reads this
    {
      Pool(backing, head, headers, links, allocs)
    }

    constructor (ops: AllocOps<B>, cfg: PoolConfig, backing: B)
      ensures this.ops == ops && this.cfg == cfg
      ensures State() == PoolInit(backing)
    {
      this.ops := ops;
      this.cfg := cfg;
      this.backing := backing;
      head := 0;
      headers := map[];
      links := map[];
      allocs := 0;
    }

    method Alloc(size: nat) returns (b: Block)
      requires PoolServes(ops, cfg, State(), size)
      modifies this
      ensures (State(), b) == PoolAlloc(ops, cfg, old(State()), size)
    {
      if size >= cfg.min && size <= cfg.max {
        if head != 0 {
          b := Stored(State(), head);
          head := Link(State(), head);
          return;
        }
        var first := NullBlock;
        for i := 0 to cfg.batch
          invariant Serves(ops, backing, NodeRequest(cfg), Requested(cfg, allocs, i))
          invariant Batch(ops, cfg, State(), i, first) == Batch(ops, cfg, old(State()), 0, NullBlock)
        {
          ghost var before := State();
          var was := allocs;
          allocs := allocs + 1;
          if was == cfg.cap {
            assert Batch(ops, cfg, before, i, first) == (State(), first);
            break;
          }
          var r := ops.alloc(backing, NodeRequest(cfg));
          backing := r.0;
          var current := r.1.addr;
          headers := headers[current := Block(current + NodeSize, cfg.max)];
          if i == 0 {
            first := headers[current];
          } else {
            links := links[current := head];
            head := current;
          }
        }
        b := first;
      } else {
        b := NullBlock;
      }
    }

    predicate Owns(b: Block)
      reads this
      ensures Owns(b) == PoolOwns(ops, cfg, State(), b)
    {
      b.size >= cfg.min && b.size <= cfg.max && ops.owns(backing, b)
    }

    /** Returns the new value of the caller's block. */
    method Free(b: Block) returns (b': Block)
      modifies this
      ensures (State(), b') == PoolFree(ops, cfg, old(State()), b)
    {
      b' := b;
      if Owns(b) {
        var current := b.addr - NodeSize;
        links := links[current := head];
        head := current;
        b' := NullBlock;
      }
    }

    /** `FreeListHelper::begin`: an iterator on the head node. */
    method Begin() returns (it: NodeIterator)
      ensures fresh(it) && it.current == head
    {
      it := new NodeIterator(head);
    }

    /** `FreeListHelper::end`: an iterator on null. */
    method End() returns (it: NodeIterator)
      ensures fresh(it) && it.current == 0
    {
      it := new NodeIterator(0);
    }
  }
}
