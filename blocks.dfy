/**
 * The `Block` value type shared by every allocator: an address and a byte count.
 * Addresses are mathematical integers; 0 plays the role of the null pointer.
 */
module Blocks {

  /** An allocated (or absent) memory region. */
  datatype Block = Block(addr: int, size: nat)

  /** The canonical "no allocation" value: null address, size 0. */
  const NullBlock: Block := Block(0, 0)

  /** Conversion of a block to a byte pointer: its address. */
  function Address(b: Block): int
  {
    b.addr
  }

  /** The source's `operator==`: field-wise comparison. It coincides with value equality. */
  predicate Same(a: Block, b: Block)
    ensures Same(a, b) <==> a == b
  {
    a.addr == b.addr && a.size == b.size
  }

  lemma NullBlockFields()
    ensures NullBlock.addr == 0 && NullBlock.size == 0
    ensures Address(NullBlock) == 0
  {
  }

  /** Field-wise equality is reflexive and symmetric. */
  lemma SameIsReflexiveAndSymmetric(a: Block, b: Block)
    ensures Same(a, a)
    ensures Same(a, b) <==> Same(b, a)
  {
  }

  /** A block equals `null_block` exactly when its address is null and its size is 0. */
  lemma SameAsNullIff(b: Block)
    ensures Same(b, NullBlock) <==> b.addr == 0 && b.size == 0
  {
  }
}
