/** A start of the block indexer on another chain of the node than the one a stopped sync had seen
    (crates/block-indexer/src/indexer.rs): when it ends with the new chain in the store, exactly. */
module ChainChange {
  import opened Common
  import opened Chain
  import opened BlockStore
  import opened BackwardSync
  import opened Resume
  import opened Notices
  import Pipeline

  /** The highest of the heights up to `n` at which store and node agree; they do at `i0`. */
  function LastAgreement(db: Db, p: Provider, i0: nat, n: nat): (m: nat)
    requires i0 <= n < |p.chain| && Agrees(db, p, i0)
    ensures i0 <= m <= n && Agrees(db, p, m)
    ensures forall k: nat :: m < k <= n ==> !Agrees(db, p, k)
    decreases n
  {
    if Agrees(db, p, n) then n else LastAgreement(db, p, i0, n - 1)
  }

  lemma {:induction false} LastAgreementOnlyLooks(db: Db, db1: Db, p: Provider, i0: nat, n: nat)
    requires i0 <= n < |p.chain| && Agrees(db, p, i0)
    requires forall k: nat :: k <= n ==> CanonicalAt(db1, k) == CanonicalAt(db, k)
    ensures Agrees(db1, p, i0) && LastAgreement(db1, p, i0, n) == LastAgreement(db, p, i0, n)
    decreases n
  {
    if i0 < n {
      LastAgreementOnlyLooks(db, db1, p, i0, n - 1);
    }
  }

  lemma VisitRepairs(u: iset<Block>, db: Db, p: Provider, h: nat)
    requires World(u) && DbOk(u, db) && ProviderOk(u, p) && h < |p.chain|
    ensures var db1 := AfterVisit(db, p, p.chain[h]);
            DbOk(u, db1) && Repaired(db, db1, p, h, h) && db1.best == db.best && db1.checkpoint == db.checkpoint
  {
    StoredAgreement(u, db, p, h);
    if Differs(db, p.chain[h]) {
      RecordKeeps(u, db, p, p.chain[h]);
    }
  }

  /** A walk over any store: it stops at the last agreement not above the best block, and replaces
      everything higher. */
  lemma {:induction false} WalkToAgreement(u: iset<Block>, db: Db, p: Provider, init: Hash, i0: nat, h: nat, best: nat,
                                           alive: nat, found: seq<Item>, w: Walk)
    requires World(u) && DbOk(u, db) && ProviderOk(u, p)
    requires i0 <= h < |p.chain| && i0 <= best && p.chain[i0].hash == init && Agrees(db, p, i0) && h - i0 <= alive
    requires w == WalkBack(db, p, init, p.chain[h], best, alive, found)
    ensures w.ended.Completed? && DbOk(u, w.db) && w.db.best == db.best && alive <= w.alive + (h - i0)
    ensures Repaired(db, w.db, p, LastAgreement(db, p, i0, Min(h, best)), h)
    decreases h
  {
    hide Record, AfterVisit, Finding, DbOk, World;
    StoredAgreement(u, db, p, h);
    if Agrees(db, p, h) && h <= best {
      assert forall n: nat :: CanonicalAt(db, n) == if n == h then Some(p.chain[n]) else CanonicalAt(db, n);
    } else {
      NotInitial(u, p, init, i0, h);
      VisitRepairs(u, db, p, h);
      var db1, found1 := AfterVisit(db, p, p.chain[h]), Finding(db, p, p.chain[h]) + found;
      LastAgreementOnlyLooks(db, db1, p, i0, Min(h - 1, best));
      WalkToAgreement(u, db1, p, init, i0, h - 1, best, alive - 1, found1, w);
      RepairedInTwo(db, db1, w.db, p, LastAgreement(db, p, i0, Min(h - 1, best)), h);
    }
  }

  /** A walk that finds no agreement at or below the best block, down to the initial block or, on a
      chain without it, to genesis: it replaces everything on the way and gives up there. */
  lemma {:induction false} WalkAborts(u: iset<Block>, db: Db, p: Provider, init: Hash, floor: nat, h: nat, best: nat,
                                      alive: nat, found: seq<Item>, w: Walk)
    requires World(u) && DbOk(u, db) && ProviderOk(u, p) && floor <= h < |p.chain| && h - floor < alive
    requires p.chain[floor].hash == init || floor == 0
    requires forall n: nat :: floor < n <= h ==> p.chain[n].hash != init
    requires forall n: nat :: floor <= n <= h && n <= best ==> !Agrees(db, p, n)
    requires w == WalkBack(db, p, init, p.chain[h], best, alive, found)
    ensures w.ended.Aborted? && Repaired(db, w.db, p, floor, h)
    ensures w.db.best == db.best && w.db.checkpoint == db.checkpoint
    decreases h
  {
    hide Record, AfterVisit, Finding, DbOk, World;
    StoredAgreement(u, db, p, h);
    VisitRepairs(u, db, p, h);
    if floor < h {
      var db1, found1 := AfterVisit(db, p, p.chain[h]), Finding(db, p, p.chain[h]) + found;
      forall n: nat | floor <= n <= h - 1 && n <= best
        ensures !Agrees(db1, p, n)
      {
        assert !Agrees(db, p, n) && CanonicalAt(db1, n) == CanonicalAt(db, n);
      }
      WalkAborts(u, db1, p, init, floor, h - 1, best, alive - 1, found1, w);
      RepairedInTwo(db, db1, w.db, p, floor, h);
    }
  }

  /** Such a sync keeps the best block and tells the consumer nothing. */
  lemma SyncAborts(u: iset<Block>, db: Db, p: Provider, init: Hash, floor: nat, h: nat, alive: nat)
    requires World(u) && DbOk(u, db) && ProviderOk(u, p) && floor <= h < |p.chain| && h - floor + 1 < alive
    requires p.chain[floor].hash == init || floor == 0
    requires forall n: nat :: floor < n <= h ==> p.chain[n].hash != init
    requires db.best.Some? && forall n: nat :: floor <= n <= h && n <= db.best.value.number ==> !Agrees(db, p, n)
    ensures var s := Sync(db, p, init, p.chain[h], alive);
            && s.ended.Aborted? && s.found == [] && Repaired(db, s.db, p, floor, h)
            && s.db.best == db.best && s.db.checkpoint == db.checkpoint
  {
    hide WalkBack, DbOk, World;
    var best := db.best.value.number;
    var w := WalkBack(db, p, init, p.chain[h], best, alive - 1, []);
    WalkAborts(u, db, p, init, floor, h, best, alive - 1, [], w);
  }

  /** A round from the tip that finds another best block: it ends at the tip. */
  lemma RoundLands(u: iset<Block>, db: Db, q: Provider, init: Hash, i0: nat, alive: nat, rounds: nat)
    requires World(u) && DbOk(u, db) && ProviderOk(u, q) && 2 <= rounds && alive > |q.chain| - i0 + 1
    requires db.best.Some? && db.best.value.hash != BestOf(q).hash && i0 <= db.best.value.number
    requires i0 < |q.chain| && q.chain[i0].hash == init && Agrees(db, q, i0)
    ensures var f, h := FullSync(db, q, init, alive, rounds), |q.chain| - 1;
            && f.result.Finished? && f.db.best == Some(BestOf(q))
            && Repaired(db, f.db, q, LastAgreement(db, q, i0, Min(h, db.best.value.number)), h)
  {
    hide WalkBack, DbOk, World, LastAgreement;
    var h, best := |q.chain| - 1, db.best.value.number;
    var w := WalkBack(db, q, init, BestOf(q), best, alive - 2, []);
    WalkToAgreement(u, db, q, init, i0, h, best, alive - 2, [], w);
    var s := Sync(db, q, init, BestOf(q), alive - 1);
    assert s.db == w.db.(checkpoint := None, best := Some(BestOf(q)));
    var rest := FullSync(s.db, q, init, s.alive, rounds - 1);
    assert rest.db == s.db && rest.result.Finished?;
    assert forall n: nat :: CanonicalAt(s.db, n) == CanonicalAt(w.db, n);
  }

  /** What the node must not be like: it does not know the parent of the checkpoint at all, and it is
      back at the stored best block, or at a stored block between the checkpoint and that one. */
  ghost predicate Strands(db: Db, q: Provider)
    requires q.chain != []
  {
    && db.checkpoint.Some? && BlockOf(q, db.checkpoint.value.parent).None? && db.best.Some?
    && var c, best := db.checkpoint.value.number, db.best.value.number;
    && c <= best
    && (|| db.best.value.hash == BestOf(q).hash
        || exists n: nat :: c <= n <= best && n < |q.chain| && Agrees(db, q, n))
  }

  ghost predicate Elsewhere(u: iset<Block>, db0: Db, db: Db, p: Provider, q: Provider, init: Hash, i0: nat) {
    && Pending(u, db0, db, p, init, i0) && ProviderOk(u, q) && i0 < |q.chain| && q.chain[i0].hash == init
  }

  lemma GroundedElsewhere(u: iset<Block>, db0: Db, db: Db, p: Provider, q: Provider, init: Hash, i0: nat)
    requires Elsewhere(u, db0, db, p, q, init, i0)
    ensures Grounded(u, db, q, init, i0) && Grounded(u, db, p, init, i0)
  {
    assert Compatible(p.chain[i0], q.chain[i0]);
  }

  /** Without a checkpoint, or once it is gone, a start or its rounds end with the new chain. */
  lemma RoundsLand(u: iset<Block>, db: Db, q: Provider, init: Hash, i0: nat, alive: nat, rounds: nat)
    requires Grounded(u, db, q, init, i0) && Synced(db, i0) && db.checkpoint.None? && 2 <= rounds
    requires alive > |q.chain| - i0 + 1
    ensures var f := FullSync(db, q, init, alive, rounds);
            f.result.Finished? && f.db.best.Some? && f.db.best.value.hash == BestOf(q).hash && Whole(f.db, q, i0)
  {
    hide FullSync, DbOk, World, Linked;
    FullSyncKeepsPending(u, db, db, q, init, i0, alive, rounds);
    var f := FullSync(db, q, init, alive, rounds);
    PendingAtTip(u, db, f.db, q, init, i0);
  }

  // ---- a parent the node does not know ----

  /** The node's chain cannot have the checkpoint without its parent. */
  lemma UnknownParent(u: iset<Block>, p: Provider, q: Provider, c: nat, n: nat)
    requires World(u) && ProviderOk(u, p) && ProviderOk(u, q) && 0 < c < |p.chain| && c <= n
    requires BlockOf(q, p.chain[c].parent).None? && n < |p.chain| && n < |q.chain|
    ensures p.chain[n] != q.chain[n]
    decreases n
  {
    assert FollowsAt(p.chain, n) && FollowsAt(q.chain, n);
    if n == c {
      assert q.chain[c - 1] in q.chain;
    } else {
      UnknownParent(u, p, q, c, n - 1);
      assert Compatible(p.chain[n - 1], q.chain[n - 1]);
    }
  }

  lemma LandsWhole(u: iset<Block>, db: Db, db1: Db, q: Provider, i0: nat, m: nat, lo: nat)
    requires World(u) && DbOk(u, db) && ProviderOk(u, q) && i0 <= m <= lo && m < |q.chain|
    requires Agrees(db, q, m) && Linked(db, i0, m) && Repaired(db, db1, q, m, |q.chain| - 1)
    ensures Whole(db1, q, i0)
  {
    AgreesBelow(u, db, q, i0, m);
    forall n: nat | i0 <= n < |q.chain|
      ensures Agrees(db1, q, n)
    {
      assert n <= m ==> Agrees(db, q, n);
    }
  }

  lemma UnknownParentLands(u: iset<Block>, db0: Db, db: Db, p: Provider, q: Provider, init: Hash, i0: nat,
                           once: nat, rounds: nat)
    requires Elsewhere(u, db0, db, p, q, init, i0) && 2 <= rounds && once > |q.chain| - i0 + 1
    requires db.checkpoint.Some? && BlockOf(q, db.checkpoint.value.parent).None?
    ensures var f := FullSync(db, q, init, once, rounds);
            && f.result.Finished? && f.db.best.Some? && f.db.best.value.hash == BestOf(q).hash
            && (Whole(f.db, q, i0) <==> !Strands(db, q))
  {
    hide FullSync, DbOk, World, Linked, BlockOf;
    GroundedElsewhere(u, db0, db, p, q, init, i0);
    var c, best, h := db.checkpoint.value.number, db.best.value.number, |q.chain| - 1;
    if db.best.value.hash == BestOf(q).hash {
      AtOnce(u, db0, db, p, q, init, i0, c, once, rounds);
    } else {
      RoundLands(u, db, q, init, i0, once, rounds);
      AfterRound(u, db0, db, p, q, init, i0, c, FullSync(db, q, init, once, rounds).db);
    }
  }

  lemma AtOnce(u: iset<Block>, db0: Db, db: Db, p: Provider, q: Provider, init: Hash, i0: nat, c: nat,
               once: nat, rounds: nat)
    requires Elsewhere(u, db0, db, p, q, init, i0) && 2 <= rounds
    requires db.checkpoint.Some? && c == db.checkpoint.value.number && BlockOf(q, db.checkpoint.value.parent).None?
    requires db.best.value.hash == BestOf(q).hash
    ensures var f := FullSync(db, q, init, once, rounds);
            f.result.Finished? && f.db == db && (Whole(db, q, i0) <==> c > db.best.value.number)
  {
    hide DbOk, World, Linked, BlockOf;
    var best, h := db.best.value.number, |q.chain| - 1;
    GroundedElsewhere(u, db0, db, p, q, init, i0);
    SameBest(u, db, q);
    if c <= best {
      UnknownParent(u, p, q, c, c);
      assert Agrees(db, p, c) && !Agrees(db, q, c);
    } else {
      assert Agrees(db, q, best);
      AgreesBelow(u, db, q, i0, best);
    }
  }

  lemma SameBest(u: iset<Block>, db: Db, q: Provider)
    requires World(u) && DbOk(u, db) && ProviderOk(u, q) && db.best.Some? && db.best.value.hash == BestOf(q).hash
    ensures db.best.value == BestOf(q) && db.best.value.number == |q.chain| - 1
  {
    assert Compatible(db.best.value, BestOf(q));
  }

  lemma AfterRound(u: iset<Block>, db0: Db, db: Db, p: Provider, q: Provider, init: Hash, i0: nat, c: nat, db1: Db)
    requires Elsewhere(u, db0, db, p, q, init, i0) && Agrees(db, q, i0)
    requires db.checkpoint.Some? && c == db.checkpoint.value.number && BlockOf(q, db.checkpoint.value.parent).None?
    requires db.best.value.hash != BestOf(q).hash
    requires Repaired(db, db1, q, LastAgreement(db, q, i0, Min(|q.chain| - 1, db.best.value.number)), |q.chain| - 1)
    ensures Whole(db1, q, i0) <==> !Strands(db, q)
  {
    hide DbOk, World, BlockOf;
    var best := db.best.value.number;
    var m := LastAgreement(db, q, i0, Min(|q.chain| - 1, best));
    if m < c {
      LandsWhole(u, db, db1, q, i0, m, c);
      assert forall n: nat :: c <= n <= best && n < |q.chain| ==> !Agrees(db, q, n);
      assert !Strands(db, q);
    } else {
      UnknownParent(u, p, q, c, c);
      assert Agrees(db, p, c) && !Agrees(db, q, c);
      assert CanonicalAt(db1, c) == CanonicalAt(db, c) && !Agrees(db1, q, c);
      assert !Whole(db1, q, i0) && Strands(db, q);
    }
  }

  // ---- a parent the node knows ----

  /** What the node answers for the parent of the checkpoint is the block the stopped sync saw. */
  lemma KnownParent(u: iset<Block>, p: Provider, q: Provider, c: nat)
    requires World(u) && ProviderOk(u, p) && ProviderOk(u, q) && 0 < c < |p.chain|
    requires BlockOf(q, p.chain[c].parent).Some?
    ensures BlockOf(q, p.chain[c].parent) == Some(p.chain[c - 1])
  {
    assert FollowsAt(p.chain, c);
    var parent := BlockOf(q, p.chain[c].parent).value;
    assert Compatible(parent, p.chain[c - 1]);
  }

  predicate OnIt(q: Provider, b: Block) {
    b.number < |q.chain| && q.chain[b.number] == b
  }

  /** On the node's chain, the resumed sync ends with a linked store at the parent. */
  lemma ResumeOnChain(u: iset<Block>, db: Db, q: Provider, init: Hash, i0: nat, h: nat, once: nat)
    requires Grounded(u, db, q, init, i0) && i0 <= h < |q.chain| && once > h - i0 + 1
    requires Linked(db, i0, Min(h, db.best.value.number))
    ensures var r := Sync(db, q, init, q.chain[h], once);
            && r.ended.Completed? && once <= r.alive + (h - i0) + 1
            && Grounded(u, r.db, q, init, i0) && Synced(r.db, i0) && r.db.checkpoint.None?
  {
    hide WalkBack, DbOk, World, Linked;
    var best := db.best.value.number;
    var w := WalkBack(db, q, init, q.chain[h], best, once - 1, []);
    WalkBackRepairs(u, db, q, init, i0, h, best, once - 1, [], w);
    var r := Sync(db, q, init, q.chain[h], once);
    BestKeepsDbOk(u, w.db, r.db, q, h);
    assert forall n: nat :: CanonicalAt(r.db, n) == CanonicalAt(w.db, n);
    AgreementIsLinked(r.db, q, i0, h);
  }

  lemma BestKeepsDbOk(u: iset<Block>, db: Db, db1: Db, q: Provider, h: nat)
    requires DbOk(u, db) && ProviderOk(u, q) && h < |q.chain|
    requires db1 == db.(checkpoint := None, best := Some(q.chain[h]))
    ensures DbOk(u, db1)
  {
    DbOkSame(u, db, db1);
  }

  /** Off the chain, the sync first makes the orphan canonical, then repairs everything below it. */
  lemma ResumeOffChain(u: iset<Block>, db: Db, q: Provider, init: Hash, i0: nat, parent: Block, once: nat)
    requires Grounded(u, db, q, init, i0) && parent in u && i0 < parent.number && !OnIt(q, parent)
    requires once > parent.number - i0 + 2 && parent.hash != init
    requires Differs(db, parent) || parent.number > db.best.value.number
    requires Linked(db, i0, Min(parent.number, db.best.value.number))
    ensures var r := Sync(db, q, init, parent, once);
            && r.ended.Completed? && once <= r.alive + (parent.number - i0) + 2 && DbOk(u, r.db)
            && r.db.best == Some(parent) && CanonicalAt(r.db, parent.number) == Some(parent)
            && forall n: nat :: i0 <= n < parent.number && n < |q.chain| ==> Agrees(r.db, q, n)
  {
    hide WalkBack, DbOk, World;
    var best := db.best.value.number;
    var h := NextDown(q, parent.number - 1).number;
    var db1, found := AfterVisit(db, q, parent), Finding(db, q, parent) + [];
    OrphanVisit(u, db, q, i0, parent, h);
    var w := WalkBack(db1, q, init, q.chain[h], best, once - 2, found);
    WalkBackRepairs(u, db1, q, init, i0, h, best, once - 2, found, w);
    OneDown(db, q, init, parent, best, once - 1);
    var r := Sync(db, q, init, parent, once);
    assert r.db == w.db.(checkpoint := None, best := Some(parent));
    DbOkBest(u, w.db, r.db, parent);
    assert forall n: nat :: CanonicalAt(r.db, n) == CanonicalAt(w.db, n);
  }

  lemma DbOkBest(u: iset<Block>, db: Db, db1: Db, b: Block)
    requires DbOk(u, db) && b in u && db1 == db.(checkpoint := None, best := Some(b))
    ensures DbOk(u, db1)
  {
    DbOkSame(u, db, db1);
  }

  lemma OneDown(db: Db, q: Provider, init: Hash, b: Block, best: nat, alive: nat)
    requires ValidProvider(q) && (Differs(db, b) || b.number > best) && alive > 0 && b.hash != init && b.number > 0
    ensures WalkBack(db, q, init, b, best, alive, [])
         == WalkBack(AfterVisit(db, q, b), q, init, NextDown(q, b.number - 1), best, alive - 1, Finding(db, q, b) + [])
  {
  }

  lemma OrphanVisit(u: iset<Block>, db: Db, q: Provider, i0: nat, parent: Block, h: nat)
    requires World(u) && DbOk(u, db) && ProviderOk(u, q) && parent in u && i0 < parent.number && i0 < |q.chain|
    requires db.best.Some? && i0 <= db.best.value.number && Agrees(db, q, i0)
    requires Linked(db, i0, Min(parent.number, db.best.value.number))
    requires h == NextDown(q, parent.number - 1).number
    ensures var db1 := AfterVisit(db, q, parent);
            && i0 <= h < |q.chain| && h < parent.number && NextDown(q, parent.number - 1) == q.chain[h]
            && (parent.number <= |q.chain| ==> h == parent.number - 1)
            && (parent.number > |q.chain| ==> h == |q.chain| - 1)
            && DbOk(u, db1) && db1.best == db.best && Agrees(db1, q, i0)
            && CanonicalAt(db1, parent.number) == Some(parent)
            && Linked(db1, i0, Min(h, db.best.value.number))
  {
    hide DbOk, World;
    var db1 := AfterVisit(db, q, parent);
    if Differs(db, parent) {
      RecordKeeps(u, db, q, parent);
    } else {
      StoredInWorld(u, db, parent.number);
      SameHash(u, CanonicalAt(db, parent.number).value, parent);
    }
    assert forall n: nat :: n != parent.number ==> CanonicalAt(db1, n) == CanonicalAt(db, n);
    forall n: nat | i0 < n <= Min(h, db.best.value.number)
      ensures LinkedAt(db1, n)
    {
      assert LinkedAt(db, n);
    }
  }

  lemma SameHash(u: iset<Block>, a: Block, b: Block)
    requires World(u) && a in u && b in u && a.hash == b.hash
    ensures a == b
  {
    assert Compatible(a, b);
  }

  /** And the round from the tip puts the orphan right. */
  lemma LandsAfterOrphan(u: iset<Block>, db: Db, q: Provider, init: Hash, i0: nat, parent: Block, alive: nat,
                         rounds: nat)
    requires World(u) && DbOk(u, db) && ProviderOk(u, q) && 2 <= rounds && alive > |q.chain| - i0 + 1
    requires parent in u && i0 < parent.number && !OnIt(q, parent) && i0 < |q.chain| && q.chain[i0].hash == init
    requires db.best == Some(parent) && CanonicalAt(db, parent.number) == Some(parent)
    requires forall n: nat :: i0 <= n < parent.number && n < |q.chain| ==> Agrees(db, q, n)
    ensures var f := FullSync(db, q, init, alive, rounds);
            f.result.Finished? && f.db.best == Some(BestOf(q)) && Whole(f.db, q, i0)
  {
    hide FullSync, DbOk, World;
    var h := |q.chain| - 1;
    if parent.hash == BestOf(q).hash {
      SameHash(u, parent, BestOf(q));
    }
    assert Agrees(db, q, i0);
    RoundLands(u, db, q, init, i0, alive, rounds);
    var m := LastAgreement(db, q, i0, Min(h, parent.number));
    assert m != parent.number;
    var f := FullSync(db, q, init, alive, rounds);
    forall n: nat | i0 <= n < |q.chain|
      ensures Agrees(f.db, q, n)
    {
      assert n < parent.number ==> Agrees(db, q, n);
    }
  }

  lemma KnownParentLands(u: iset<Block>, db0: Db, db: Db, p: Provider, q: Provider, init: Hash, i0: nat,
                         once: nat, rounds: nat)
    requires Elsewhere(u, db0, db, p, q, init, i0) && 2 <= rounds && once > |p.chain| + |q.chain| + 4
    requires db.checkpoint.Some? && BlockOf(q, db.checkpoint.value.parent).Some?
    ensures var r := ResumePending(db, q, init, once);
            var f := FullSync(r.db, q, init, r.alive, rounds);
            && r.ended.Completed? && f.result.Finished?
            && f.db.best.Some? && f.db.best.value.hash == BestOf(q).hash && Whole(f.db, q, i0)
  {
    hide Sync, FullSync, DbOk, World, Linked, BlockOf;
    var c := db.checkpoint.value.number;
    assert CheckpointAt(db, p, i0, c);
    GroundedElsewhere(u, db0, db, p, q, init, i0);
    KnownParent(u, p, q, c);
    var parent, r := p.chain[c - 1], ResumePending(db, q, init, once);
    assert r == Sync(db, q, init, parent, once);
    if OnIt(q, parent) {
      ResumeOnChain(u, db, q, init, i0, c - 1, once);
      RoundsLand(u, r.db, q, init, i0, r.alive, rounds);
    } else {
      InitialIsOnIt(u, p, q, init, i0, c - 1);
      if Differs(db, parent) || parent.number > db.best.value.number {
        ResumeOffChain(u, db, q, init, i0, parent, once);
        LandsAfterOrphan(u, r.db, q, init, i0, parent, r.alive, rounds);
      } else {
        ResumeAtOrphan(u, db, q, init, i0, parent, once);
        RoundsLand(u, r.db, q, init, i0, r.alive, rounds);
      }
    }
  }

  lemma InitialIsOnIt(u: iset<Block>, p: Provider, q: Provider, init: Hash, i0: nat, n: nat)
    requires World(u) && ProviderOk(u, p) && ProviderOk(u, q) && i0 <= n < |p.chain| && i0 < |q.chain|
    requires p.chain[i0].hash == init == q.chain[i0].hash && !OnIt(q, p.chain[n])
    ensures i0 < n && p.chain[n].hash != init
  {
    SameHash(u, p.chain[i0], q.chain[i0]);
    if p.chain[n].hash == init {
      SameHash(u, p.chain[n], p.chain[i0]);
      assert false;
    }
  }

  /** An orphan that is still stored, at or below the best block, becomes the best block at once. */
  lemma ResumeAtOrphan(u: iset<Block>, db: Db, q: Provider, init: Hash, i0: nat, parent: Block, once: nat)
    requires Grounded(u, db, q, init, i0) && parent in u && i0 < parent.number && once > 0
    requires !Differs(db, parent) && parent.number <= db.best.value.number
    requires Linked(db, i0, Min(parent.number, db.best.value.number))
    ensures var r := Sync(db, q, init, parent, once);
            && r.ended.Completed? && r.alive == once - 1
            && Grounded(u, r.db, q, init, i0) && Synced(r.db, i0) && r.db.checkpoint.None?
  {
    hide DbOk, World;
    var r := Sync(db, q, init, parent, once);
    StoredInWorld(u, db, parent.number);
    SameHash(u, CanonicalAt(db, parent.number).value, parent);
    DbOkBest(u, db, r.db, parent);
    LinkedSame(db, r.db, i0, parent.number);
  }

  // ---- the start as a whole ----

  /** A start that is not stopped, on any chain of the node, after any history of stopped starts on
      another one: it finishes at the new tip, and the store holds the new chain from the initial
      block up if and only if the new node does not strand it. */
  lemma StartOnOtherChain(u: iset<Block>, db0: Db, db: Db, p: Provider, q: Provider, init: Hash, i0: nat,
                          once: nat, rounds: nat)
    requires Elsewhere(u, db0, db, p, q, init, i0) && 2 <= rounds && once > |p.chain| + |q.chain| + 4
    ensures var s := Startup(db, q, init, once, rounds);
            && s.result.Finished? && s.db.best.Some? && s.db.best.value.hash == BestOf(q).hash
            && (Whole(s.db, q, i0) <==> !Strands(db, q))
  {
    hide FullSync, Sync, DbOk, World, Linked, BlockOf, Agrees;
    GroundedElsewhere(u, db0, db, p, q, init, i0);
    if db.checkpoint.None? {
      RoundsLand(u, db, q, init, i0, once, rounds);
    } else if BlockOf(q, db.checkpoint.value.parent).None? {
      UnknownParentLands(u, db0, db, p, q, init, i0, once, rounds);
    } else {
      KnownParentLands(u, db0, db, p, q, init, i0, once, rounds);
    }
  }

  // ---- it can happen ----

  /** Two branches of blocks on one genesis block. */
  function Left(i: nat): Block {
    Block(i, i + 1, i, i, [])
  }

  function Right(i: nat): Block
    requires 0 < i
  {
    Block(i, 100 + i, if i == 1 then 1 else 99 + i, i, [])
  }

  ghost function Blocks(): iset<Block> {
    iset b: Block | 0 <= b.number < 50 && (b == Left(b.number) || (0 < b.number && b == Right(b.number)))
  }

  function LeftChain(n: nat): (p: Provider)
    requires 0 < n
    ensures ValidProvider(p) && |p.chain| == n && forall i :: 0 <= i < n ==> p.chain[i] == Left(i)
    ensures p.uncles == map[] && p.orphans == map[]
  {
    var chain := seq(n, i requires 0 <= i < n => Left(i));
    assert forall i :: 0 < i < n ==> FollowsAt(chain, i);
    Provider(chain, map[], map[])
  }

  function RightChain(): (p: Provider)
    ensures ValidProvider(p) && p.chain == [Left(0), Right(1), Right(2)]
    ensures p.uncles == map[] && p.orphans == map[]
  {
    var chain := [Left(0), Right(1), Right(2)];
    assert forall i :: 0 <= i < 3 ==> chain[i].number == i;
    assert forall i :: 0 < i < 3 ==> FollowsAt(chain, i);
    Provider(chain, map[], map[])
  }

  lemma SmallWorld()
    ensures World(Blocks()) && Left(0) in Blocks()
    ensures ProviderOk(Blocks(), LeftChain(4)) && ProviderOk(Blocks(), RightChain())
  {
    var u := Blocks();
    assert World(u) by {
      assert forall a, b :: a in u && b in u ==> Compatible(a, b);
    }
  }

  /** A store that holds the left branch up to height three. */
  lemma LeftStore() returns (db: Db)
    ensures Pending(Blocks(), db, db, LeftChain(4), 1, 0) && db.checkpoint.None? && db.best == Some(Left(3))
    ensures forall n: nat :: n < 4 ==> CanonicalAt(db, n) == Some(Left(n))
  {
    hide Startup, DbOk, World, Linked, Blocks;
    var u, p := Blocks(), LeftChain(4);
    SmallWorld();
    Pipeline.FreshStart(u, Left(0));
    var first := SaveAsCanonical(Db(map[], map[], None, None), Left(0)).(best := Some(Left(0)));
    StartupKeepsPending(u, first, first, p, 1, 0, 20, 2);
    db := Startup(first, p, 1, 20, 2).db;
    PendingAtTip(u, first, db, p, 1, 0);
  }

  /** A node on the right branch during a sync that is stopped at once, and then back on the left
      branch, from which it never knew the other. */
  lemma StrandingHappens()
    ensures exists u: iset<Block>, db0: Db, db: Db, p: Provider, q: Provider, init: Hash, i0: nat ::
      Elsewhere(u, db0, db, p, q, init, i0) && Strands(db, q)
  {
    hide DbOk, World, Blocks, LeftChain;
    var u, p, q := Blocks(), RightChain(), LeftChain(4);
    SmallWorld();
    var db := LeftStore();
    assert Compatible(Left(0), Left(0));
    assert Agrees(db, p, 0) && Grounded(u, db, p, 1, 0);
    SyncKeepsPending(u, db, db, p, 1, 0, 2, 1);
    var s := Sync(db, p, 1, p.chain[2], 1);
    assert Differs(db, p.chain[2]);
    assert s.db.checkpoint == Some(Right(2)) && s.db.best == Some(Left(3));
    assert BlockOf(q, 101).None?;
    assert Elsewhere(u, db, s.db, p, q, 1, 0) && Strands(s.db, q);
  }
}
