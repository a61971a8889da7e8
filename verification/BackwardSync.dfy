/** The backward sync of the block indexer (crates/block-indexer/src/indexer.rs): a walk down the
    provider's chain that repairs the canonical height map, and that can be stopped and resumed. */
module BackwardSync {
  import opened Common
  import opened Chain
  import opened BlockStore

  /** What the node answers during one round: its chain from genesis, the uncles of a block, and the
      blocks off its chain that it still knows by their hash. */
  datatype Provider = Provider(chain: seq<Block>, uncles: map<(Hash, nat), Block>, orphans: map<Hash, Block>)

  predicate ValidProvider(p: Provider) {
    p.chain != [] && IsChain(p.chain)
  }

  function BestOf(p: Provider): Block
    requires p.chain != []
  {
    p.chain[|p.chain| - 1]
  }

  /** The next block of the walk; a height the node no longer has falls back to its best block. */
  function NextDown(p: Provider, n: nat): Block
    requires p.chain != []
  {
    if n < |p.chain| then p.chain[n] else BestOf(p)
  }

  function FindHash(chain: seq<Block>, h: Hash): (r: Option<Block>)
    ensures r.Some? ==> r.value in chain && r.value.hash == h
    ensures r.None? ==> forall b :: b in chain ==> b.hash != h
  {
    if chain == [] then None
    else if chain[|chain| - 1].hash == h then Some(chain[|chain| - 1])
    else FindHash(chain[..|chain| - 1], h)
  }

  /** `get_block_by_hash`, which answers for blocks on and off the chain. */
  function BlockOf(p: Provider, h: Hash): Option<Block> {
    if FindHash(p.chain, h).Some? then FindHash(p.chain, h)
    else if h in p.orphans then Some(p.orphans[h])
    else None
  }

  /** The uncles fetched for `b`, among its first `k`: those the node has and `b` lists. */
  function UnclesUpTo(p: Provider, b: Block, k: nat): seq<Block> {
    if k == 0 then []
    else
      UnclesUpTo(p, b, k - 1) +
      if (b.hash, k - 1) in p.uncles && p.uncles[(b.hash, k - 1)].hash in b.uncles
      then [p.uncles[(b.hash, k - 1)]] else []
  }

  function ItemOf(p: Provider, b: Block): Item {
    Item(b, UnclesUpTo(p, b, |b.uncles|))
  }

  function SaveAll(db: Db, bs: seq<Block>): Db {
    if bs == [] then db else SaveBlock(SaveAll(db, bs[..|bs| - 1]), bs[|bs| - 1])
  }

  function SaveAsCanonical(db: Db, b: Block): Db {
    SetCanonical(SaveBlock(db, b), b)
  }

  /** Saving the uncles of a block, and the block as canonical. */
  function Record(db: Db, item: Item): Db {
    SaveAsCanonical(SaveAll(db, item.uncles), item.block)
  }

  datatype Ended = Skipped | Completed | Interrupted | Aborted | NoBest

  datatype Walk = Walk(db: Db, found: seq<Item>, ended: Ended, alive: nat)

  /** The stored block at the height of `b` is missing or has another hash. */
  predicate Differs(db: Db, b: Block) {
    CanonicalAt(db, b.number).None? || CanonicalAt(db, b.number).value.hash != b.hash
  }

  /** The database after the iteration at block `b`, when that iteration is not the last. */
  function AfterVisit(db: Db, p: Provider, b: Block): Db {
    if Differs(db, b) then Record(db, ItemOf(p, b)) else db
  }

  function Finding(db: Db, p: Provider, b: Block): seq<Item> {
    if Differs(db, b) then [ItemOf(p, b)] else []
  }

  /** The loop of `backward_sync` from block `b` down. `alive` is the number of times the shutdown
      flag is still going to be found off. `found` collects the blocks to notify, lowest first. */
  function WalkBack(db: Db, p: Provider, init: Hash, b: Block, best: nat, alive: nat, found: seq<Item>): Walk
    requires ValidProvider(p)
    decreases b.number
  {
    if !Differs(db, b) && b.number <= best then Walk(db, found, Completed, alive)
    else
      var db1, found1 := AfterVisit(db, p, b), Finding(db, p, b) + found;
      if alive == 0 then Walk(db1.(checkpoint := Some(b)), found1, Interrupted, 0)
      else if init == b.hash || b.number == 0 then Walk(db1, found1, Aborted, alive - 1)
      else WalkBack(db1, p, init, NextDown(p, b.number - 1), best, alive - 1, found1)
  }

  /** One call of `backward_sync`; `found` is now what is sent to the consumer. */
  function Sync(db: Db, p: Provider, init: Hash, starting: Block, alive: nat): Walk
    requires ValidProvider(p)
  {
    if alive == 0 then Walk(db, [], Skipped, 0)
    else if db.best.None? then Walk(db, [], NoBest, alive - 1)
    else
      var w := WalkBack(db, p, init, starting, db.best.value.number, alive - 1, []);
      if w.ended.Completed? then w.(db := w.db.(checkpoint := None, best := Some(starting)))
      else w.(found := [])
  }

  // ---- what a walk does to the canonical map ----

  predicate BlockOk(u: iset<Block>, db: Db, h: Hash) {
    h in db.blocks ==> db.blocks[h] in u && db.blocks[h].hash == h
  }

  predicate HeightOk(db: Db, n: nat) {
    n in db.heights ==> db.heights[n] in db.blocks && db.blocks[db.heights[n]].number == n
  }

  /** The database holds blocks of the world under their own hash, and heights that lead to a
      stored block of that height. */
  ghost predicate DbOk(u: iset<Block>, db: Db) {
    && (forall h {:trigger BlockOk(u, db, h)} :: BlockOk(u, db, h))
    && (forall n {:trigger HeightOk(db, n)} :: HeightOk(db, n))
    && (db.best.Some? ==> db.best.value in u)
  }

  /** Only the blocks, the heights and the best block matter to a sound database. */
  lemma DbOkSame(u: iset<Block>, db: Db, db1: Db)
    requires DbOk(u, db) && db1.blocks == db.blocks && db1.heights == db.heights
    requires db1.best.Some? ==> db1.best.value in u
    ensures DbOk(u, db1)
  {
    forall h
      ensures BlockOk(u, db1, h)
    {
      assert BlockOk(u, db, h);
    }
    forall n
      ensures HeightOk(db1, n)
    {
      assert HeightOk(db, n);
    }
  }

  lemma CheckpointKeepsDbOk(u: iset<Block>, db: Db, c: Option<Block>)
    requires DbOk(u, db)
    ensures DbOk(u, db.(checkpoint := c))
  {
    DbOkSame(u, db, db.(checkpoint := c));
  }

  ghost predicate ProviderOk(u: iset<Block>, p: Provider) {
    && ValidProvider(p)
    && (forall i :: 0 <= i < |p.chain| ==> p.chain[i] in u)
    && (forall k :: k in p.uncles ==> p.uncles[k] in u)
    && (forall h :: h in p.orphans ==> p.orphans[h] in u && p.orphans[h].hash == h)
  }

  lemma SaveKeeps(u: iset<Block>, db: Db, b: Block)
    requires World(u) && DbOk(u, db) && b in u
    ensures Safe(db, Save(b))
    ensures DbOk(u, SaveBlock(db, b))
    ensures forall n :: CanonicalAt(SaveBlock(db, b), n) == CanonicalAt(db, n)
  {
    var db1 := SaveBlock(db, b);
    assert BlockOk(u, db, b.hash);
    if b.hash in db.blocks {
      assert Compatible(db.blocks[b.hash], b);
    }
    forall h
      ensures BlockOk(u, db1, h)
    {
      assert BlockOk(u, db, h);
    }
    forall n
      ensures HeightOk(db1, n) && CanonicalAt(db1, n) == CanonicalAt(db, n)
    {
      assert HeightOk(db, n);
    }
  }

  lemma SetCanonicalKeeps(u: iset<Block>, db: Db, b: Block)
    requires DbOk(u, db) && Saved(db, b)
    ensures DbOk(u, SetCanonical(db, b))
    ensures forall n :: CanonicalAt(SetCanonical(db, b), n) == if n == b.number then Some(b) else CanonicalAt(db, n)
  {
    var db1 := SetCanonical(db, b);
    forall h
      ensures BlockOk(u, db1, h)
    {
      assert BlockOk(u, db, h);
    }
    forall n
      ensures HeightOk(db1, n)
    {
      assert HeightOk(db, n);
    }
  }

  lemma {:induction false} SaveAllKeeps(u: iset<Block>, db: Db, bs: seq<Block>)
    requires World(u) && DbOk(u, db) && forall i :: 0 <= i < |bs| ==> bs[i] in u
    ensures var db1 := SaveAll(db, bs);
            && DbOk(u, db1) && db1.best == db.best && db1.checkpoint == db.checkpoint
            && forall n :: CanonicalAt(db1, n) == CanonicalAt(db, n)
    decreases |bs|
  {
    if bs != [] {
      SaveAllKeeps(u, db, bs[..|bs| - 1]);
      SaveKeeps(u, SaveAll(db, bs[..|bs| - 1]), bs[|bs| - 1]);
    }
  }

  lemma {:induction false} UnclesInWorld(u: iset<Block>, p: Provider, b: Block, k: nat)
    requires ProviderOk(u, p)
    ensures forall i :: 0 <= i < |UnclesUpTo(p, b, k)| ==> UnclesUpTo(p, b, k)[i] in u
    decreases k
  {
    if k > 0 {
      UnclesInWorld(u, p, b, k - 1);
    }
  }

  lemma RecordKeeps(u: iset<Block>, db: Db, p: Provider, b: Block)
    requires World(u) && DbOk(u, db) && ProviderOk(u, p) && b in u
    ensures var db1 := Record(db, ItemOf(p, b));
            && DbOk(u, db1) && db1.best == db.best && db1.checkpoint == db.checkpoint
            && forall n :: CanonicalAt(db1, n) == if n == b.number then Some(b) else CanonicalAt(db, n)
  {
    var item := ItemOf(p, b);
    UnclesInWorld(u, p, b, |b.uncles|);
    SaveAllKeeps(u, db, item.uncles);
    var db0 := SaveAll(db, item.uncles);
    SaveKeeps(u, db0, b);
    SetCanonicalKeeps(u, SaveBlock(db0, b), b);
  }

  predicate Agrees(db: Db, p: Provider, n: nat)
    requires n < |p.chain|
  {
    CanonicalAt(db, n) == Some(p.chain[n])
  }

  /** The stored blocks at `n` and just below it are parent and child. */
  predicate LinkedAt(db: Db, n: nat) {
    && 0 < n && CanonicalAt(db, n).Some? && CanonicalAt(db, n - 1).Some?
    && CanonicalAt(db, n).value.parent == CanonicalAt(db, n - 1).value.hash
  }

  /** The stored blocks from `lo` to `hi` are hash-linked. */
  ghost predicate Linked(db: Db, lo: nat, hi: nat) {
    CanonicalAt(db, lo).Some? && forall n: nat :: lo < n <= hi ==> LinkedAt(db, n)
  }

  lemma StoredInWorld(u: iset<Block>, db: Db, n: nat)
    requires DbOk(u, db) && CanonicalAt(db, n).Some?
    ensures CanonicalAt(db, n).value in u && CanonicalAt(db, n).value.number == n
  {
    assert HeightOk(db, n) && BlockOk(u, db, db.heights[n]);
  }

  /** Agreement at one height spreads down a linked stretch, because a hash determines its block
      and so its parent. */
  lemma {:induction false} AgreesBelow(u: iset<Block>, db: Db, p: Provider, lo: nat, hi: nat)
    requires World(u) && DbOk(u, db) && ProviderOk(u, p)
    requires lo <= hi < |p.chain| && Linked(db, lo, hi) && Agrees(db, p, hi)
    ensures forall n :: lo <= n <= hi ==> Agrees(db, p, n)
    decreases hi
  {
    if lo < hi {
      assert LinkedAt(db, hi);
      StoredInWorld(u, db, hi - 1);
      assert FollowsAt(p.chain, hi);
      assert Compatible(CanonicalAt(db, hi - 1).value, p.chain[hi - 1]);
      AgreesBelow(u, db, p, lo, hi - 1);
    }
  }

  /** The blocks of the provider's chain in a range that the store lacks or has otherwise. */
  function Changed(db: Db, p: Provider, lo: nat, hi: int): seq<Item>
    requires hi < |p.chain|
    decreases hi
  {
    if hi < lo then []
    else Changed(db, p, lo, hi - 1) + if Agrees(db, p, hi) then [] else [ItemOf(p, p.chain[hi])]
  }

  lemma {:induction false} ChangedOnlyLooks(db: Db, db1: Db, p: Provider, lo: nat, hi: int)
    requires hi < |p.chain|
    requires forall n :: lo <= n <= hi ==> CanonicalAt(db1, n) == CanonicalAt(db, n)
    ensures Changed(db1, p, lo, hi) == Changed(db, p, lo, hi)
    decreases hi
  {
    if lo <= hi {
      ChangedOnlyLooks(db, db1, p, lo, hi - 1);
    }
  }

  lemma {:induction false} NothingChanged(db: Db, p: Provider, lo: nat, hi: int)
    requires hi < |p.chain| && forall n :: lo <= n <= hi ==> Agrees(db, p, n)
    ensures Changed(db, p, lo, hi) == []
    decreases hi
  {
    if lo <= hi {
      NothingChanged(db, p, lo, hi - 1);
    }
  }

  /** The canonical map after the stretch from `lo` to `hi` was replaced by the provider's chain. */
  ghost predicate Repaired(db: Db, db1: Db, p: Provider, lo: nat, hi: nat)
    requires hi < |p.chain|
  {
    forall n: nat :: CanonicalAt(db1, n) == if lo <= n <= hi then Some(p.chain[n]) else CanonicalAt(db, n)
  }

  /** What the walk needs: the initial block is on the provider's chain and in the store, and the
      store is hash-linked from it up to the stored best height (or the walk's own, if lower). */
  ghost predicate Ready(u: iset<Block>, db: Db, p: Provider, init: Hash, i0: nat, h: nat, best: nat) {
    && World(u) && DbOk(u, db) && ProviderOk(u, p)
    && i0 <= h < |p.chain| && i0 <= best
    && p.chain[i0].hash == init && Agrees(db, p, i0)
    && Linked(db, i0, Min(h, best))
  }

  /** Comparing hashes at a height is comparing the blocks. */
  lemma StoredAgreement(u: iset<Block>, db: Db, p: Provider, n: nat)
    requires World(u) && DbOk(u, db) && ProviderOk(u, p) && n < |p.chain|
    ensures Differs(db, p.chain[n]) <==> !Agrees(db, p, n)
  {
    if CanonicalAt(db, n).Some? {
      StoredInWorld(u, db, n);
      assert Compatible(CanonicalAt(db, n).value, p.chain[n]);
    }
  }

  /** An iteration that stops: everything from here down already agrees. */
  lemma VisitStops(u: iset<Block>, db: Db, p: Provider, init: Hash, i0: nat, h: nat, best: nat)
    requires Ready(u, db, p, init, i0, h, best)
    requires !Differs(db, p.chain[h]) && h <= best
    ensures Repaired(db, db, p, i0, h) && Changed(db, p, i0, h) == []
  {
    StoredAgreement(u, db, p, h);
    AgreesBelow(u, db, p, i0, h);
    NothingChanged(db, p, i0, h);
    assert forall n: nat :: i0 <= n <= h ==> Agrees(db, p, n);
  }

  /** An iteration that goes on: it is above the initial block, it fixes its own height, and the
      walk is ready for the height below. */
  lemma VisitGoesOn(u: iset<Block>, db: Db, p: Provider, init: Hash, i0: nat, h: nat, best: nat)
    requires Ready(u, db, p, init, i0, h, best)
    requires Differs(db, p.chain[h]) || h > best
    ensures i0 < h && p.chain[h].hash != init
    ensures var db1 := AfterVisit(db, p, p.chain[h]);
            && Ready(u, db1, p, init, i0, h - 1, best) && Repaired(db, db1, p, h, h)
            && db1.best == db.best && db1.checkpoint == db.checkpoint
  {
    StoredAgreement(u, db, p, i0);
    StoredAgreement(u, db, p, h);
    assert Compatible(p.chain[i0], p.chain[h]);
    var b, db1 := p.chain[h], AfterVisit(db, p, p.chain[h]);
    if Differs(db, b) {
      RecordKeeps(u, db, p, b);
    }
    forall n: nat | i0 < n <= Min(h - 1, best)
      ensures LinkedAt(db1, n)
    {
      assert LinkedAt(db, n);
      assert CanonicalAt(db1, n) == CanonicalAt(db, n) && CanonicalAt(db1, n - 1) == CanonicalAt(db, n - 1);
    }
  }

  lemma ChangedInTwo(u: iset<Block>, db: Db, db1: Db, p: Provider, i0: nat, h: nat)
    requires World(u) && DbOk(u, db) && ProviderOk(u, p)
    requires i0 < h < |p.chain| && Repaired(db, db1, p, h, h)
    ensures Changed(db, p, i0, h) == Changed(db1, p, i0, h - 1) + Finding(db, p, p.chain[h])
  {
    StoredAgreement(u, db, p, h);
    ChangedOnlyLooks(db, db1, p, i0, h - 1);
  }

  lemma RepairedInTwo(db: Db, db1: Db, db2: Db, p: Provider, lo: nat, h: nat)
    requires lo < h < |p.chain| && Repaired(db, db1, p, h, h) && Repaired(db1, db2, p, lo, h - 1)
    ensures Repaired(db, db2, p, lo, h)
  {
  }

  /** What is true of a walk from height `h` down, stopped or not: it repaired the heights it
      stands for, and collected the changed blocks if it got to the end. */
  ghost predicate Walked(u: iset<Block>, db: Db, p: Provider, i0: nat, h: nat, alive: nat, found: seq<Item>, w: Walk)
    requires i0 <= h < |p.chain|
  {
    && DbOk(u, w.db) && w.db.best == db.best
    && match w.ended
       case Completed =>
         && Repaired(db, w.db, p, i0, h) && w.db.checkpoint == db.checkpoint
         && w.found == Changed(db, p, i0, h) + found && alive <= w.alive + (h - i0)
       case Interrupted =>
         && alive < h - i0 && w.alive == 0 && w.db.checkpoint.Some?
         && var c := w.db.checkpoint.value.number;
            i0 < c <= h && w.db.checkpoint.value == p.chain[c] && Repaired(db, w.db, p, c, h)
       case _ => false
  }

  lemma WalkedInTwo(u: iset<Block>, db: Db, db1: Db, p: Provider, i0: nat, h: nat, alive: nat,
                    found: seq<Item>, w: Walk)
    requires World(u) && DbOk(u, db) && ProviderOk(u, p)
    requires i0 < h < |p.chain| && 0 < alive && Repaired(db, db1, p, h, h)
    requires db1.best == db.best && db1.checkpoint == db.checkpoint
    requires Walked(u, db1, p, i0, h - 1, alive - 1, Finding(db, p, p.chain[h]) + found, w)
    ensures Walked(u, db, p, i0, h, alive, found, w)
  {
    if w.ended.Completed? {
      RepairedInTwo(db, db1, w.db, p, i0, h);
      ChangedInTwo(u, db, db1, p, i0, h);
    } else {
      RepairedInTwo(db, db1, w.db, p, w.db.checkpoint.value.number, h);
    }
  }

  lemma {:induction false} WalkBackRepairs(u: iset<Block>, db: Db, p: Provider, init: Hash, i0: nat,
                                           h: nat, best: nat, alive: nat, found: seq<Item>, w: Walk)
    requires Ready(u, db, p, init, i0, h, best)
    requires w == WalkBack(db, p, init, p.chain[h], best, alive, found)
    ensures Walked(u, db, p, i0, h, alive, found, w)
    decreases h
  {
    hide Record, AfterVisit, Finding, DbOk, World;
    if !Differs(db, p.chain[h]) && h <= best {
      VisitStops(u, db, p, init, i0, h, best);
      assert [] + found == found;
    } else {
      VisitGoesOn(u, db, p, init, i0, h, best);
      var db1 := AfterVisit(db, p, p.chain[h]);
      if alive == 0 {
        assert w.db == db1.(checkpoint := Some(p.chain[h]));
        CheckpointKeepsDbOk(u, db1, Some(p.chain[h]));
        assert forall n: nat :: CanonicalAt(w.db, n) == CanonicalAt(db1, n);
      } else {
        WalkBackRepairs(u, db1, p, init, i0, h - 1, best, alive - 1, Finding(db, p, p.chain[h]) + found, w);
        WalkedInTwo(u, db, db1, p, i0, h, alive, found, w);
      }
    }
  }

  /** A backward sync that is not stopped repairs the canonical map from the initial block to the
      starting block, heights it never visits included, changes no other height, makes the
      starting block best, and sends exactly the missing or changed blocks, lowest first. */
  lemma BackwardSyncRepairs(u: iset<Block>, db: Db, p: Provider, init: Hash, i0: nat, h: nat, alive: nat)
    requires db.best.Some? && Ready(u, db, p, init, i0, h, db.best.value.number)
    requires alive > h - i0
    ensures var s := Sync(db, p, init, p.chain[h], alive);
            && s.ended.Completed? && DbOk(u, s.db)
            && Repaired(db, s.db, p, i0, h)
            && s.db.best == Some(p.chain[h]) && s.db.checkpoint.None?
            && s.found == Changed(db, p, i0, h)
  {
    var best := db.best.value.number;
    var w := WalkBack(db, p, init, p.chain[h], best, alive - 1, []);
    WalkBackRepairs(u, db, p, init, i0, h, best, alive - 1, [], w);
    var s := Sync(db, p, init, p.chain[h], alive);
    assert s.db == w.db.(checkpoint := None, best := Some(p.chain[h]));
    DbOkSame(u, w.db, s.db);
    assert forall n: nat :: CanonicalAt(s.db, n) == CanonicalAt(w.db, n);
  }

  // ---- uncles ----

  lemma {:induction false} UnclesByIndex(p: Provider, b: Block, k: nat, x: Block)
    ensures x in UnclesUpTo(p, b, k) <==>
      exists i :: 0 <= i < k && (b.hash, i) in p.uncles && p.uncles[(b.hash, i)] == x && x.hash in b.uncles
    decreases k
  {
    if k > 0 {
      UnclesByIndex(p, b, k - 1, x);
    }
  }

  /** A block goes with exactly the uncles that the node returns for an index of its list under a hash
      of that list. */
  lemma UnclesOfItem(p: Provider, b: Block, x: Block)
    ensures ItemOf(p, b).block == b
    ensures x in ItemOf(p, b).uncles <==>
      exists i :: 0 <= i < |b.uncles| && (b.hash, i) in p.uncles && p.uncles[(b.hash, i)] == x && x.hash in b.uncles
  {
    UnclesByIndex(p, b, |b.uncles|, x);
  }

  lemma {:induction false} SavedAreFound(u: iset<Block>, db: Db, bs: seq<Block>, h: Hash)
    requires World(u) && DbOk(u, db) && forall i :: 0 <= i < |bs| ==> bs[i] in u
    ensures forall i :: 0 <= i < |bs| && bs[i].hash == h ==> BlockByHash(SaveAll(db, bs), h) == Some(bs[i])
    ensures (forall i :: 0 <= i < |bs| ==> bs[i].hash != h) ==> BlockByHash(SaveAll(db, bs), h) == BlockByHash(db, h)
    decreases |bs|
  {
    hide DbOk, World;
    if bs != [] {
      var front, last := bs[..|bs| - 1], bs[|bs| - 1];
      SavedAreFound(u, db, front, h);
      forall i | 0 <= i < |bs| && bs[i].hash == h
        ensures BlockByHash(SaveAll(db, bs), h) == Some(bs[i])
      {
        if last.hash == h {
          OneBlockPerHash(u, bs[i], last);
        } else {
          assert front[i] == bs[i];
        }
      }
    }
  }

  lemma OneBlockPerHash(u: iset<Block>, a: Block, b: Block)
    requires World(u) && a in u && b in u && a.hash == b.hash
    ensures a == b
  {
    assert Compatible(a, b);
  }

  /** Recording a block stores it and its uncles under their hashes, and nothing else. */
  lemma RecordStores(u: iset<Block>, db: Db, p: Provider, b: Block, h: Hash)
    requires World(u) && DbOk(u, db) && ProviderOk(u, p) && b in u
    ensures var db1, item := Record(db, ItemOf(p, b)), ItemOf(p, b);
            && BlockByHash(db1, b.hash) == Some(b)
            && (forall i :: 0 <= i < |item.uncles| ==> BlockByHash(db1, item.uncles[i].hash) == Some(item.uncles[i]))
            && (h != b.hash && (forall i :: 0 <= i < |item.uncles| ==> item.uncles[i].hash != h) ==>
                  BlockByHash(db1, h) == BlockByHash(db, h))
  {
    hide DbOk, World;
    var item := ItemOf(p, b);
    UnclesInWorld(u, p, b, |b.uncles|);
    SavedAreFound(u, db, item.uncles, h);
    forall i | 0 <= i < |item.uncles|
      ensures BlockByHash(Record(db, item), item.uncles[i].hash) == Some(item.uncles[i])
    {
      SavedAreFound(u, db, item.uncles, item.uncles[i].hash);
      if item.uncles[i].hash == b.hash {
        OneBlockPerHash(u, item.uncles[i], b);
      }
    }
  }
}
