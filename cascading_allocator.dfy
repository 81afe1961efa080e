/**
 * `CascadingAllocator<Allocators...>`: an ordered list of (allocator, flag) nodes.
 *
 * The allocator of a node is a `std::variant` over a closed set of allocator types and
 * every operation reaches it through `std::visit`. Here the variant is one state type `V`
 * with one operations record that performs the dispatch; the flag is `continues`.
 *
 * The walks below follow the code as written: `alloc` walks on while the node it asked
 * succeeded and has its flag set, each answer replacing the previous one; `owns` looks at the
 * first node only; `free` walks up to the first node whose flag is clear.
 */
module CascadingAllocators {
  import opened Blocks
  import opened AllocatorInterface

  /** `std::pair<std::variant<Allocators...>, bool>`. */
  datatype CascadeNode<V> = CascadeNode(alloc: V, continues: bool)

  /** Every node that the walk of `alloc` reaches can serve a request of `size` bytes. */
  ghost predicate CascadeServes<V>(ops: AllocOps<V>, nodes: seq<CascadeNode<V>>, size: nat)
    decreases |nodes|
  {
    |nodes| == 0 ||
    (ops.alloc.requires(nodes[0].alloc, size) &&
     (ops.alloc(nodes[0].alloc, size).1 != NullBlock && nodes[0].continues ==>
        CascadeServes(ops, nodes[1..], size)))
  }

  /** The walk of `alloc` over the remaining nodes, with `result` the block obtained so far. */
  function AllocFrom<V>(ops: AllocOps<V>, nodes: seq<CascadeNode<V>>, size: nat, result: Block): (r: (seq<CascadeNode<V>>, Block))
    requires CascadeServes(ops, nodes, size)
    ensures |r.0| == |nodes|
    decreases |nodes|
  {
    if |nodes| == 0 then ([], result)
    else
      var (state, block) := ops.alloc(nodes[0].alloc, size);
      var visited := nodes[0].(alloc := state);
      if block == NullBlock || !nodes[0].continues then ([visited] + nodes[1..], block)
      else
        var (rest, last) := AllocFrom(ops, nodes[1..], size, block);
        ([visited] + rest, last)
  }

  /** `alloc`: `null_block` on an empty list; the walk otherwise, starting from `Block result {}`. */
  function CascadeAlloc<V>(ops: AllocOps<V>, nodes: seq<CascadeNode<V>>, size: nat): (r: (seq<CascadeNode<V>>, Block))
    requires CascadeServes(ops, nodes, size)
    ensures |r.0| == |nodes|
  {
    if |nodes| == 0 then (nodes, NullBlock) else AllocFrom(ops, nodes, size, Block(0, 0))
  }

  /** `owns` as written: the loop returns in its first iteration. */
  predicate CascadeOwns<V>(ops: AllocOps<V>, nodes: seq<CascadeNode<V>>, b: Block)
  {
    if |nodes| == 0 then b == NullBlock
    else if !nodes[0].continues then false
    else ops.owns(nodes[0].alloc, b)
  }

  /**
   * The walk of `free` over the remaining nodes: each node that owns the block, as it
   * stands after the earlier frees, frees it; the walk ends after the first node whose flag
   * is clear, or when a child's `free` throws.
   */
  function FreeFrom<V>(ops: AllocOps<V>, nodes: seq<CascadeNode<V>>, b: Block): (r: Freed<seq<CascadeNode<V>>>)
    ensures |r.state| == |nodes|
    decreases |nodes|
  {
    if |nodes| == 0 then Freed([], b, false)
    else
      var f := if ops.owns(nodes[0].alloc, b) then ops.free(nodes[0].alloc, b) else Freed(nodes[0].alloc, b, false);
      var visited := nodes[0].(alloc := f.state);
      if f.thrown || !nodes[0].continues then Freed([visited] + nodes[1..], f.block, f.thrown)
      else
        var rest := FreeFrom(ops, nodes[1..], f.block);
        Freed([visited] + rest.state, rest.block, rest.thrown)
  }

  /** `free`: a non-null block on an empty list throws `std::runtime_error`. */
  function CascadeFree<V>(ops: AllocOps<V>, nodes: seq<CascadeNode<V>>, b: Block): (r: Freed<seq<CascadeNode<V>>>)
    ensures |r.state| == |nodes|
  {
    if |nodes| == 0 && b != NullBlock then Freed(nodes, b, true) else FreeFrom(ops, nodes, b)
  }

  /** The operations record used when a `CascadingAllocator` is itself a child. */
  function CascadeOps<V>(ops: AllocOps<V>): AllocOps<seq<CascadeNode<V>>>
  {
    AllocOps(
      (nodes: seq<CascadeNode<V>>, size: nat) requires CascadeServes(ops, nodes, size) => CascadeAlloc(ops, nodes, size),
      (nodes: seq<CascadeNode<V>>, b: Block) => CascadeOwns(ops, nodes, b),
      (nodes: seq<CascadeNode<V>>, b: Block) => CascadeFree(ops, nodes, b))
  }

  /** The index of the last node the walk of `alloc` asks. */
  function AllocStop<V>(ops: AllocOps<V>, nodes: seq<CascadeNode<V>>, size: nat): (j: nat)
    requires |nodes| > 0 && CascadeServes(ops, nodes, size)
    ensures j < |nodes|
    decreases |nodes|
  {
    if |nodes| == 1 then 0
    else if ops.alloc(nodes[0].alloc, size).1 == NullBlock || !nodes[0].continues then 0
    else 1 + AllocStop(ops, nodes[1..], size)
  }

  /**
   * The walk of `alloc`, in full: every node up to the last one asked (`AllocStop`) is asked
   * once, every node before that one succeeded and has its flag set, the last one asked failed
   * or has its flag clear unless it is the last node of the list, the result is that node's
   * block whatever came before, and the nodes after it are not touched.
   */
  lemma {:induction false} AllocFromWalk<V>(ops: AllocOps<V>, nodes: seq<CascadeNode<V>>, size: nat, result: Block)
    requires |nodes| > 0 && CascadeServes(ops, nodes, size)
    ensures var j := AllocStop(ops, nodes, size);
      forall m :: 0 <= m <= j ==> ops.alloc.requires(nodes[m].alloc, size)
    ensures var j := AllocStop(ops, nodes, size);
      var r := AllocFrom(ops, nodes, size, result);
      r.1 == ops.alloc(nodes[j].alloc, size).1 &&
      (forall m :: 0 <= m <= j ==> r.0[m] == nodes[m].(alloc := ops.alloc(nodes[m].alloc, size).0)) &&
      (forall m :: j < m < |nodes| ==> r.0[m] == nodes[m]) &&
      (forall m :: 0 <= m < j ==> ops.alloc(nodes[m].alloc, size).1 != NullBlock && nodes[m].continues) &&
      (j < |nodes| - 1 ==> ops.alloc(nodes[j].alloc, size).1 == NullBlock || !nodes[j].continues)
    decreases |nodes|
  {
    var j := AllocStop(ops, nodes, size);
    if j > 0 {
      var (state, block) := ops.alloc(nodes[0].alloc, size);
      var tail := nodes[1..];
      AllocFromWalk(ops, tail, size, block);
      assert AllocStop(ops, tail, size) == j - 1;
      var r := AllocFrom(ops, nodes, size, result);
      var rt := AllocFrom(ops, tail, size, block);
      assert r.0 == [nodes[0].(alloc := state)] + rt.0;
      forall m | 1 <= m < |nodes|
        ensures r.0[m] == rt.0[m - 1] && nodes[m] == tail[m - 1]
      {
      }
    }
  }

  /** On an empty list `alloc` returns `null_block`, `owns` holds for `null_block` alone, and `free` throws unless the block is null. */
  lemma CascadeEmpty<V>(ops: AllocOps<V>, size: nat, b: Block)
    ensures CascadeServes(ops, [], size)
    ensures CascadeAlloc(ops, [], size) == ([], NullBlock)
    ensures CascadeOwns(ops, [], b) <==> b == NullBlock
    ensures CascadeFree(ops, [], b) == Freed([], b, b != NullBlock)
  {
  }

  /** A failing node ends the walk with `null_block`, whatever its flag. */
  lemma AllocFailureStops<V>(ops: AllocOps<V>, nodes: seq<CascadeNode<V>>, size: nat, result: Block)
    requires |nodes| > 0 && ops.alloc.requires(nodes[0].alloc, size)
    requires ops.alloc(nodes[0].alloc, size).1 == NullBlock
    ensures CascadeServes(ops, nodes, size)
    ensures AllocFrom(ops, nodes, size, result).1 == NullBlock
    ensures AllocFrom(ops, nodes, size, result).0[1..] == nodes[1..]
  {
  }

  /** A succeeding node with its flag clear ends the walk with its block. */
  lemma AllocStopsAtClearFlag<V>(ops: AllocOps<V>, nodes: seq<CascadeNode<V>>, size: nat, result: Block)
    requires |nodes| > 0 && !nodes[0].continues && ops.alloc.requires(nodes[0].alloc, size)
    ensures CascadeServes(ops, nodes, size)
    ensures AllocFrom(ops, nodes, size, result).1 == ops.alloc(nodes[0].alloc, size).1
    ensures AllocFrom(ops, nodes, size, result).0[1..] == nodes[1..]
  {
  }

  /**
   * A succeeding node with its flag set does not end the walk: the next node is asked too, and
   * the block its walk returns replaces the first node's block.
   */
  lemma AllocOverwritesOnSetFlag<V>(ops: AllocOps<V>, nodes: seq<CascadeNode<V>>, size: nat, result: Block)
    requires |nodes| > 1 && nodes[0].continues
    requires CascadeServes(ops, nodes, size)
    requires ops.alloc(nodes[0].alloc, size).1 != NullBlock
    ensures AllocFrom(ops, nodes, size, result).1 == AllocFrom(ops, nodes[1..], size, ops.alloc(nodes[0].alloc, size).1).1
    ensures AllocFrom(ops, nodes, size, result).1 == ops.alloc(nodes[1].alloc, size).1 || |nodes| > 2
  {
  }

  /** `owns` consults the first node alone: the other nodes never change its answer. */
  lemma CascadeOwnsFirstOnly<V>(ops: AllocOps<V>, nodes: seq<CascadeNode<V>>, others: seq<CascadeNode<V>>, b: Block)
    requires |nodes| > 0
    ensures CascadeOwns(ops, nodes, b) <==> nodes[0].continues && ops.owns(nodes[0].alloc, b)
    ensures CascadeOwns(ops, [nodes[0]] + others, b) == CascadeOwns(ops, nodes, b)
  {
  }

  /** The index of the last node the walk of `free` can visit: the first whose flag is clear. */
  function FreeStop<V>(nodes: seq<CascadeNode<V>>): (j: nat)
    requires |nodes| > 0
    ensures j < |nodes|
    ensures forall m :: 0 <= m < j ==> nodes[m].continues
    ensures j < |nodes| - 1 ==> !nodes[j].continues
    decreases |nodes|
  {
    if |nodes| == 1 || !nodes[0].continues then 0 else 1 + FreeStop(nodes[1..])
  }

  /** The walk of `free` never touches a node after the first one whose flag is clear. */
  lemma {:induction false} FreeFromFrame<V>(ops: AllocOps<V>, nodes: seq<CascadeNode<V>>, b: Block)
    requires |nodes| > 0
    ensures forall m :: FreeStop(nodes) < m < |nodes| ==> FreeFrom(ops, nodes, b).state[m] == nodes[m]
    decreases |nodes|
  {
    var f := if ops.owns(nodes[0].alloc, b) then ops.free(nodes[0].alloc, b) else Freed(nodes[0].alloc, b, false);
    if !f.thrown && nodes[0].continues && |nodes| > 1 {
      var tail := nodes[1..];
      FreeFromFrame(ops, tail, f.block);
      var r := FreeFrom(ops, nodes, b);
      var rt := FreeFrom(ops, tail, f.block);
      assert r.state == [nodes[0].(alloc := f.state)] + rt.state;
      forall m | 1 <= m < |nodes|
        ensures r.state[m] == rt.state[m - 1] && nodes[m] == tail[m - 1]
      {
      }
    }
  }

  /** When no node owns the block, `free` changes nothing and does not throw. */
  lemma {:induction false} FreeUnownedIsNoop<V>(ops: AllocOps<V>, nodes: seq<CascadeNode<V>>, b: Block)
    requires forall m :: 0 <= m < |nodes| ==> !ops.owns(nodes[m].alloc, b)
    ensures FreeFrom(ops, nodes, b) == Freed(nodes, b, false)
    decreases |nodes|
  {
    if |nodes| > 0 {
      var tail := nodes[1..];
      assert forall m :: 0 <= m < |tail| ==> tail[m] == nodes[m + 1];
      FreeUnownedIsNoop(ops, tail, b);
      assert nodes == [nodes[0]] + tail;
    }
  }

  /** The first node frees the block it owns, and the block as it then stands goes on to the next node when the flag is set. */
  lemma FreeFirstNode<V>(ops: AllocOps<V>, nodes: seq<CascadeNode<V>>, b: Block)
    requires |nodes| > 0 && ops.owns(nodes[0].alloc, b)
    ensures var f := ops.free(nodes[0].alloc, b);
      var r := FreeFrom(ops, nodes, b);
      r.state[0] == nodes[0].(alloc := f.state) &&
      (f.thrown || !nodes[0].continues ==> r == Freed([nodes[0].(alloc := f.state)] + nodes[1..], f.block, f.thrown)) &&
      (!f.thrown && nodes[0].continues ==> r.state[1..] == FreeFrom(ops, nodes[1..], f.block).state)
  {
  }

  /** One step of the walk of `alloc`, seen from the loop: the node before the rest and the nodes already visited. */
  lemma AllocFromStep<V>(ops: AllocOps<V>, pre: seq<CascadeNode<V>>, x: CascadeNode<V>, rest: seq<CascadeNode<V>>, size: nat, result: Block)
    requires CascadeServes(ops, [x] + rest, size)
    ensures ops.alloc.requires(x.alloc, size)
    ensures var (state, block) := ops.alloc(x.alloc, size);
      var whole := AllocFrom(ops, [x] + rest, size, result);
      if block == NullBlock || !x.continues then
        pre + whole.0 == pre + [x.(alloc := state)] + rest && whole.1 == block
      else
        CascadeServes(ops, rest, size) &&
        pre + whole.0 == pre + [x.(alloc := state)] + AllocFrom(ops, rest, size, block).0 &&
        whole.1 == AllocFrom(ops, rest, size, block).1
  {
    assert ([x] + rest)[1..] == rest;
    var (state, block) := ops.alloc(x.alloc, size);
    var tail := if block == NullBlock || !x.continues then rest else AllocFrom(ops, rest, size, block).0;
    assert AllocFrom(ops, [x] + rest, size, result).0 == [x.(alloc := state)] + tail;
    assert pre + ([x.(alloc := state)] + tail) == pre + [x.(alloc := state)] + tail;
  }

  /** One step of the walk of `free`, seen from the loop. */
  lemma FreeFromStep<V>(ops: AllocOps<V>, pre: seq<CascadeNode<V>>, x: CascadeNode<V>, rest: seq<CascadeNode<V>>, b: Block)
    ensures var f := if ops.owns(x.alloc, b) then ops.free(x.alloc, b) else Freed(x.alloc, b, false);
      var whole := FreeFrom(ops, [x] + rest, b);
      if f.thrown || !x.continues then
        Freed(pre + whole.state, whole.block, whole.thrown) == Freed(pre + [x.(alloc := f.state)] + rest, f.block, f.thrown)
      else
        Freed(pre + whole.state, whole.block, whole.thrown) ==
          Freed(pre + [x.(alloc := f.state)] + FreeFrom(ops, rest, f.block).state,
            FreeFrom(ops, rest, f.block).block, FreeFrom(ops, rest, f.block).thrown)
  {
    assert ([x] + rest)[1..] == rest;
    var f := if ops.owns(x.alloc, b) then ops.free(x.alloc, b) else Freed(x.alloc, b, false);
    var tail := if f.thrown || !x.continues then rest else FreeFrom(ops, rest, f.block).state;
    assert FreeFrom(ops, [x] + rest, b).state == [x.(alloc := f.state)] + tail;
    assert pre + ([x.(alloc := f.state)] + tail) == pre + [x.(alloc := f.state)] + tail;
  }

  /** The invariant of the loop in `alloc`: the nodes before `i` visited, and the walk from `i` on still to come. */
  ghost predicate AllocLoop<V>(ops: AllocOps<V>, nodes: seq<CascadeNode<V>>, i: nat, size: nat, result: Block,
                               goal: (seq<CascadeNode<V>>, Block))
  {
    i <= |nodes| && CascadeServes(ops, nodes[i..], size) &&
    nodes[..i] + AllocFrom(ops, nodes[i..], size, result).0 == goal.0 &&
    AllocFrom(ops, nodes[i..], size, result).1 == goal.1
  }

  /** One iteration of the loop in `alloc`: either it returns the walk's outcome, or the invariant holds one node further on. */
  lemma AllocLoopStep<V>(ops: AllocOps<V>, nodes: seq<CascadeNode<V>>, i: nat, size: nat, result: Block,
                         goal: (seq<CascadeNode<V>>, Block))
    requires i < |nodes| && AllocLoop(ops, nodes, i, size, result, goal)
    ensures ops.alloc.requires(nodes[i].alloc, size)
    ensures var (state, block) := ops.alloc(nodes[i].alloc, size);
      var next := nodes[i := nodes[i].(alloc := state)];
      if block == NullBlock || !nodes[i].continues then (next, block) == goal
      else AllocLoop(ops, next, i + 1, size, block, goal)
  {
    var pre, x, rest := nodes[..i], nodes[i], nodes[i + 1..];
    assert nodes[i..] == [x] + rest;
    AllocFromStep(ops, pre, x, rest, size, result);
    var (state, block) := ops.alloc(x.alloc, size);
    var next := nodes[i := x.(alloc := state)];
    assert next[..i + 1] == pre + [x.(alloc := state)];
    assert next[i + 1..] == rest;
    assert next == pre + [x.(alloc := state)] + rest;
  }

  /** The invariant of the loop in `free`. */
  ghost predicate FreeLoop<V>(ops: AllocOps<V>, nodes: seq<CascadeNode<V>>, i: nat, b: Block, goal: Freed<seq<CascadeNode<V>>>)
  {
    i <= |nodes| &&
    Freed(nodes[..i] + FreeFrom(ops, nodes[i..], b).state, FreeFrom(ops, nodes[i..], b).block,
      FreeFrom(ops, nodes[i..], b).thrown) == goal
  }

  /** One iteration of the loop in `free`. */
  lemma FreeLoopStep<V>(ops: AllocOps<V>, nodes: seq<CascadeNode<V>>, i: nat, b: Block, goal: Freed<seq<CascadeNode<V>>>)
    requires i < |nodes| && FreeLoop(ops, nodes, i, b, goal)
    ensures var f := if ops.owns(nodes[i].alloc, b) then ops.free(nodes[i].alloc, b) else Freed(nodes[i].alloc, b, false);
      var next := nodes[i := nodes[i].(alloc := f.state)];
      if f.thrown || !nodes[i].continues then Freed(next, f.block, f.thrown) == goal
      else FreeLoop(ops, next, i + 1, f.block, goal)
  {
    var pre, x, rest := nodes[..i], nodes[i], nodes[i + 1..];
    assert nodes[i..] == [x] + rest;
    FreeFromStep(ops, pre, x, rest, b);
    var f := if ops.owns(x.alloc, b) then ops.free(x.alloc, b) else Freed(x.alloc, b, false);
    var next := nodes[i := x.(alloc := f.state)];
    assert next[..i + 1] == pre + [x.(alloc := f.state)];
    assert next[i + 1..] == rest;
    assert next == pre + [x.(alloc := f.state)] + rest;
  }

  /** The composite over a list of mutable nodes; the list is given at construction. */
  class CascadingAllocator<V> {
    const ops: AllocOps<V>
    var nodes: seq<CascadeNode<V>>

    constructor (ops: AllocOps<V>, nodes: seq<CascadeNode<V>>)
      ensures this.ops == ops && this.nodes == nodes
    {
      this.ops := ops;
      this.nodes := nodes;
    }

    method Alloc(size: nat) returns (result: Block)
      requires CascadeServes(ops, nodes, size)
      modifies this
      ensures (nodes, result) == CascadeAlloc(ops, old(nodes), size)
    {
      if |nodes| == 0 {
        return NullBlock;
      }
      ghost var goal := CascadeAlloc(ops, nodes, size);
      assert goal == AllocFrom(ops, nodes, size, Block(0, 0));
      result := Block(0, 0);
      var i := 0;
      assert nodes[..0] == [] && nodes[0..] == nodes;
      while i < |nodes|
        invariant AllocLoop(ops, nodes, i, size, result, goal)
        decreases |nodes| - i
      {
        AllocLoopStep(ops, nodes, i, size, result, goal);
        var r := ops.alloc(nodes[i].alloc, size);
        result := r.1;
        nodes := nodes[i := nodes[i].(alloc := r.0)];
        if result == NullBlock || !nodes[i].continues {
          return;
        }
        i := i + 1;
      }
      assert nodes[..i] == nodes && nodes[i..] == [];
      assert AllocFrom(ops, nodes[i..], size, result) == ([], result);
      assert nodes[..i] + [] == nodes;
    }

    predicate Owns(b: Block)
      reads this
      ensures Owns(b) == CascadeOwns(ops, nodes, b)
    {
      if |nodes| == 0 then b == NullBlock
      else nodes[0].continues && ops.owns(nodes[0].alloc, b)
    }

    /** Returns the new value of the caller's block, and whether an exception escaped. */
    method Free(b: Block) returns (b': Block, thrown: bool)
      modifies this
      ensures Freed(nodes, b', thrown) == CascadeFree(ops, old(nodes), b)
    {
      if |nodes| == 0 && b != NullBlock {
        return b, true;
      }
      ghost var goal := CascadeFree(ops, nodes, b);
      assert goal == FreeFrom(ops, nodes, b);
      assert [] + goal.state == goal.state;
      b', thrown := b, false;
      var i := 0;
      assert nodes[..0] == [] && nodes[0..] == nodes;
      while i < |nodes|
        invariant !thrown && FreeLoop(ops, nodes, i, b', goal)
        decreases |nodes| - i
      {
        FreeLoopStep(ops, nodes, i, b', goal);
        var owned := ops.owns(nodes[i].alloc, b');
        if owned {
          var f := ops.free(nodes[i].alloc, b');
          nodes := nodes[i := nodes[i].(alloc := f.state)];
          b', thrown := f.block, f.thrown;
        } else {
          assert nodes[i := nodes[i].(alloc := nodes[i].alloc)] == nodes;
        }
        if thrown || !nodes[i].continues {
          return;
        }
        i := i + 1;
      }
      assert nodes[..i] == nodes && nodes[i..] == [];
      assert FreeFrom(ops, nodes[i..], b') == Freed([], b', false);
      assert nodes[..i] + [] == nodes;
    }
  }
}
