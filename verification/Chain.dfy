/** Blocks, hash-linked chains and the hypotheses about hashes that the rest of the model uses. */
module Chain {
  import opened Common

  /** A 256-bit hash. The code only compares hashes for equality. */
  type Hash = nat

  /** A block as the indexers see it; `uncles` holds the hashes the block lists. */
  datatype Block = Block(number: nat, hash: Hash, parent: Hash, totalDifficulty: nat, uncles: seq<Hash>)

  /** A block together with the uncle blocks that were fetched for it. */
  datatype Item = Item(block: Block, uncles: seq<Block>)

  /** `next` is the child of `prev`: one higher, and naming it as parent. */
  predicate Follows(next: Block, prev: Block) {
    next.number == prev.number + 1 && next.parent == prev.hash
  }

  predicate FollowsAt(chain: seq<Block>, i: nat) {
    0 < i < |chain| && Follows(chain[i], chain[i - 1])
  }

  /** A chain from the genesis block up: block `i` sits at height `i` and follows block `i - 1`. */
  predicate IsChain(chain: seq<Block>) {
    && (forall i :: 0 <= i < |chain| ==> chain[i].number == i)
    && (forall i :: 0 < i < |chain| ==> FollowsAt(chain, i))
  }

  /** Two blocks that can exist together: equal hashes mean the same block, and a parent sits
      exactly one height below its child. */
  predicate Compatible(a: Block, b: Block) {
    && (a.hash == b.hash ==> a == b)
    && (b.parent == a.hash ==> b.number == a.number + 1)
  }

  /** What is assumed of all the blocks ever seen: any two are compatible, and no height reaches
      the end of `u64`. */
  ghost predicate World(u: iset<Block>) {
    && (forall a, b {:trigger Compatible(a, b)} :: a in u && b in u ==> Compatible(a, b))
    && (forall a :: a in u ==> a.number < U64_MAX)
  }
}
