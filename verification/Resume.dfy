/** Starting up the block indexer (crates/block-indexer/src/indexer.rs): finishing an interrupted
    backward sync from its checkpoint, then syncing from the node's tip until the tip is reached. */
module Resume {
  import opened Common
  import opened Chain
  import opened BlockStore
  import opened BackwardSync

  datatype Result = Finished | Stopped | Failed

  datatype Session = Session(db: Db, sent: seq<Item>, result: Result, alive: nat)

  /** A checkpoint whose parent the node does not know at all is left alone. */
  function ResumePending(db: Db, p: Provider, init: Hash, alive: nat): Walk
    requires ValidProvider(p)
  {
    if db.checkpoint.None? then Walk(db, [], Skipped, alive)
    else
      match BlockOf(p, db.checkpoint.value.parent)
      case None => Walk(db, [], Skipped, alive)
      case Some(parent) => Sync(db, p, init, parent, alive)
  }

  function FullSync(db: Db, p: Provider, init: Hash, alive: nat, rounds: nat): Session
    requires ValidProvider(p)
    decreases rounds
  {
    if rounds == 0 then Session(db, [], Failed, alive)
    else if db.best.None? then FullSync(db, p, init, alive, rounds - 1)
    else if BestOf(p).hash == db.best.value.hash then Session(db, [], Finished, alive)
    else if alive == 0 then Session(db, [], Stopped, 0)
    else
      var s := Sync(db, p, init, BestOf(p), alive - 1);
      var rest := FullSync(s.db, p, init, s.alive, rounds - 1);
      rest.(sent := s.found + rest.sent)
  }

  /** `startup_backward_sync`; it allows nine rounds from the tip. */
  function Startup(db: Db, p: Provider, init: Hash, alive: nat, rounds: nat): Session
    requires ValidProvider(p)
  {
    var r := ResumePending(db, p, init, alive);
    if r.ended.NoBest? then Session(r.db, r.found, Failed, r.alive)
    else
      var f := FullSync(r.db, p, init, r.alive, rounds);
      f.(sent := r.found + f.sent)
  }

  /** Several starts in a row, each stopped when its share of `stops` runs out. */
  function Starts(db: Db, p: Provider, init: Hash, stops: seq<nat>, rounds: nat): Db
    requires ValidProvider(p)
  {
    if stops == [] then db
    else Startup(Starts(db, p, init, stops[..|stops| - 1], rounds), p, init, stops[|stops| - 1], rounds).db
  }

  /** The store is hash-linked from the initial block to its best block. */
  ghost predicate Synced(db: Db, i0: nat) {
    && db.best.Some? && i0 <= db.best.value.number
    && Linked(db, i0, db.best.value.number)
    && CanonicalAt(db, db.best.value.number) == db.best
  }

  /** The node's chain, with the initial block on it and in the store. */
  ghost predicate Grounded(u: iset<Block>, db: Db, p: Provider, init: Hash, i0: nat) {
    && World(u) && DbOk(u, db) && ProviderOk(u, p)
    && i0 < |p.chain| && p.chain[i0].hash == init && Agrees(db, p, i0)
    && db.best.Some? && i0 <= db.best.value.number
  }

  /** A checkpoint at height `c`: from there up the store agrees with the node, and below it is
      linked as far as the old best block goes, which is stored if it lies below. */
  ghost predicate CheckpointAt(db: Db, p: Provider, i0: nat, c: nat)
    requires db.best.Some?
  {
    && i0 < c < |p.chain| && db.checkpoint == Some(p.chain[c])
    && (forall n: nat :: c <= n < |p.chain| ==> Agrees(db, p, n))
    && Linked(db, i0, Min(c - 1, db.best.value.number))
    && (db.best.value.number < c ==> CanonicalAt(db, db.best.value.number) == db.best)
    && db.best.value.hash != BestOf(p).hash
  }

  /** What every start keeps, on a fixed chain of the node and from the database `db0`. */
  ghost predicate Pending(u: iset<Block>, db0: Db, db: Db, p: Provider, init: Hash, i0: nat) {
    && Grounded(u, db, p, init, i0)
    && (if db.checkpoint.None? then Synced(db, i0)
        else CheckpointAt(db, p, i0, db.checkpoint.value.number))
    && forall n: nat :: CanonicalAt(db, n) == CanonicalAt(db0, n) ||
                        (i0 <= n < |p.chain| && CanonicalAt(db, n) == Some(p.chain[n]))
  }

  lemma AgreementIsLinked(db: Db, p: Provider, lo: nat, hi: nat)
    requires ValidProvider(p) && lo <= hi < |p.chain|
    requires forall n: nat :: lo <= n <= hi ==> Agrees(db, p, n)
    ensures Linked(db, lo, hi)
  {
    assert Agrees(db, p, lo);
    forall n: nat | lo < n <= hi
      ensures LinkedAt(db, n)
    {
      assert FollowsAt(p.chain, n) && Agrees(db, p, n) && Agrees(db, p, n - 1);
    }
  }

  lemma LinkedSame(db: Db, db1: Db, lo: nat, hi: nat)
    requires Linked(db, lo, hi) && forall n: nat :: lo <= n <= hi ==> CanonicalAt(db1, n) == CanonicalAt(db, n)
    requires lo <= hi
    ensures Linked(db1, lo, hi)
  {
    forall n: nat | lo < n <= hi
      ensures LinkedAt(db1, n)
    {
      assert LinkedAt(db, n);
    }
  }

  /** A sync from height `h`, with everything above `h` in agreement, keeps the invariant, whether
      it is stopped or not. */
  lemma SyncKeepsPending(u: iset<Block>, db0: Db, db: Db, p: Provider, init: Hash, i0: nat, h: nat, alive: nat)
    requires Pending(u, db0, db, p, init, i0) && (db.checkpoint.Some? ==> h < db.checkpoint.value.number)
    requires i0 <= h < |p.chain| && Ready(u, db, p, init, i0, h, db.best.value.number)
    requires forall n: nat :: h < n < |p.chain| ==> Agrees(db, p, n)
    requires db.best.value.hash != BestOf(p).hash
    ensures var s := Sync(db, p, init, p.chain[h], alive);
            && !s.ended.NoBest? && Pending(u, db0, s.db, p, init, i0)
            && (s.ended.Completed? ==> s.db.checkpoint.None? && s.db.best == Some(p.chain[h]))
            && (!s.ended.Completed? ==> s.alive == 0 && s.db.best == db.best)
            && (alive > 1 + (h - i0) ==> s.ended.Completed? && alive <= s.alive + 1 + (h - i0))
  {
    hide WalkBack, DbOk, World;
    if alive > 0 {
      var best := db.best.value.number;
      var w := WalkBack(db, p, init, p.chain[h], best, alive - 1, []);
      WalkBackRepairs(u, db, p, init, i0, h, best, alive - 1, [], w);
      if w.ended.Completed? {
        CompletedKeepsPending(u, db0, db, w.db, p, init, i0, h);
      } else {
        InterruptedKeepsPending(u, db0, db, w.db, p, init, i0, h);
      }
    }
  }

  lemma CompletedKeepsPending(u: iset<Block>, db0: Db, db: Db, wdb: Db, p: Provider, init: Hash, i0: nat, h: nat)
    requires Pending(u, db0, db, p, init, i0) && i0 <= h < |p.chain|
    requires DbOk(u, wdb) && Repaired(db, wdb, p, i0, h)
    ensures Pending(u, db0, wdb.(checkpoint := None, best := Some(p.chain[h])), p, init, i0)
  {
    var db1 := wdb.(checkpoint := None, best := Some(p.chain[h]));
    DbOkSame(u, wdb, db1);
    assert forall n: nat :: CanonicalAt(db1, n) == CanonicalAt(wdb, n);
    AgreementIsLinked(db1, p, i0, h);
  }

  lemma InterruptedKeepsPending(u: iset<Block>, db0: Db, db: Db, wdb: Db, p: Provider, init: Hash, i0: nat, h: nat)
    requires Pending(u, db0, db, p, init, i0) && i0 <= h < |p.chain|
    requires db.checkpoint.Some? ==> h < db.checkpoint.value.number
    requires Linked(db, i0, Min(h, db.best.value.number)) && db.best.value.hash != BestOf(p).hash
    requires forall n: nat :: h < n < |p.chain| ==> Agrees(db, p, n)
    requires DbOk(u, wdb) && wdb.best == db.best && wdb.checkpoint.Some?
    requires var c := wdb.checkpoint.value.number;
             i0 < c <= h && wdb.checkpoint.value == p.chain[c] && Repaired(db, wdb, p, c, h)
    ensures Pending(u, db0, wdb, p, init, i0)
  {
    var c := wdb.checkpoint.value.number;
    LinkedSame(db, wdb, i0, Min(c - 1, db.best.value.number));
    forall n: nat | c <= n < |p.chain|
      ensures Agrees(wdb, p, n)
    {
      if h < n {
        assert Agrees(db, p, n);
      }
    }
  }

  /** The node's answer for the parent of a block of its chain is the block below. */
  lemma ParentOnChain(u: iset<Block>, p: Provider, c: nat)
    requires World(u) && ProviderOk(u, p) && 0 < c < |p.chain|
    ensures BlockOf(p, p.chain[c].parent) == Some(p.chain[c - 1])
  {
    assert FollowsAt(p.chain, c);
    var parent := FindHash(p.chain, p.chain[c].parent).value;
    var i :| 0 <= i < |p.chain| && p.chain[i] == parent;
    assert Compatible(p.chain[i], p.chain[c - 1]);
  }

  /** Resuming keeps the invariant; unless it is stopped, it leaves no checkpoint. */
  lemma ResumeKeepsPending(u: iset<Block>, db0: Db, db: Db, p: Provider, init: Hash, i0: nat, alive: nat)
    requires Pending(u, db0, db, p, init, i0)
    ensures var r := ResumePending(db, p, init, alive);
            && !r.ended.NoBest? && Pending(u, db0, r.db, p, init, i0)
            && (r.db.checkpoint.Some? ==> r.alive == 0)
            && (alive > |p.chain| - i0 ==> r.db.checkpoint.None? && alive <= r.alive + (|p.chain| - i0))
  {
    hide Sync, DbOk, BlockOf, World;
    if db.checkpoint.Some? {
      var c := db.checkpoint.value.number;
      assert CheckpointAt(db, p, i0, c);
      ParentOnChain(u, p, c);
      SyncKeepsPending(u, db0, db, p, init, i0, c - 1, alive);
    }
  }

  /** From a store without a checkpoint, a round from the tip ends in step with the node. */
  lemma RoundKeepsPending(u: iset<Block>, db0: Db, db: Db, p: Provider, init: Hash, i0: nat, alive: nat)
    requires Pending(u, db0, db, p, init, i0) && db.checkpoint.None?
    requires db.best.value.hash != BestOf(p).hash
    ensures var s := Sync(db, p, init, BestOf(p), alive);
            && Pending(u, db0, s.db, p, init, i0)
            && (if s.ended.Completed? then s.db.best == Some(BestOf(p))
                else s.alive == 0 && s.db.best == db.best)
            && (alive > |p.chain| - i0 ==> s.ended.Completed?)
  {
    hide Sync, DbOk, World;
    SyncKeepsPending(u, db0, db, p, init, i0, |p.chain| - 1, alive);
  }

  lemma FullSyncKeepsPending(u: iset<Block>, db0: Db, db: Db, p: Provider, init: Hash, i0: nat, alive: nat, rounds: nat)
    requires Pending(u, db0, db, p, init, i0) && (db.checkpoint.Some? ==> alive == 0)
    requires 2 <= rounds
    ensures var f := FullSync(db, p, init, alive, rounds);
            && !f.result.Failed? && Pending(u, db0, f.db, p, init, i0)
            && (f.result.Finished? ==> f.db.best.value.hash == BestOf(p).hash)
            && (db.checkpoint.None? && alive > |p.chain| - i0 + 1 ==> f.result.Finished?)
  {
    if BestOf(p).hash != db.best.value.hash && alive > 0 {
      RoundKeepsPending(u, db0, db, p, init, i0, alive - 1);
      var s := Sync(db, p, init, BestOf(p), alive - 1);
      var rest := FullSync(s.db, p, init, s.alive, rounds - 1);
      assert rest.db == s.db;
    }
  }

  /** Every start keeps the invariant and never gives up; one that is not stopped finishes. */
  lemma StartupKeepsPending(u: iset<Block>, db0: Db, db: Db, p: Provider, init: Hash, i0: nat, alive: nat, rounds: nat)
    requires Pending(u, db0, db, p, init, i0) && 2 <= rounds
    ensures var s := Startup(db, p, init, alive, rounds);
            && !s.result.Failed? && Pending(u, db0, s.db, p, init, i0)
            && (s.result.Finished? ==> s.db.best.value.hash == BestOf(p).hash)
            && (alive > 2 * (|p.chain| - i0) + 1 ==> s.result.Finished?)
  {
    ResumeKeepsPending(u, db0, db, p, init, i0, alive);
    var r := ResumePending(db, p, init, alive);
    FullSyncKeepsPending(u, db0, r.db, p, init, i0, r.alive, rounds);
  }

  /** A store at the node's tip has no checkpoint, and its canonical map is the old one with the
      node's chain in place from the initial block up. */
  lemma PendingAtTip(u: iset<Block>, db0: Db, db: Db, p: Provider, init: Hash, i0: nat)
    requires Pending(u, db0, db, p, init, i0) && db.best.value.hash == BestOf(p).hash
    ensures db.checkpoint.None? && db.best == Some(BestOf(p))
    ensures Repaired(db0, db, p, i0, |p.chain| - 1)
  {
    assert Compatible(db.best.value, BestOf(p));
    AgreesBelow(u, db, p, i0, |p.chain| - 1);
    forall n: nat
      ensures CanonicalAt(db, n) == if i0 <= n < |p.chain| then Some(p.chain[n]) else CanonicalAt(db0, n)
    {
      assert i0 <= n < |p.chain| ==> Agrees(db, p, n);
    }
  }

  lemma {:induction false} StartsKeepPending(u: iset<Block>, db0: Db, p: Provider, init: Hash, i0: nat,
                                             stops: seq<nat>, rounds: nat)
    requires Pending(u, db0, db0, p, init, i0) && 2 <= rounds
    ensures Pending(u, db0, Starts(db0, p, init, stops, rounds), p, init, i0)
    decreases |stops|
  {
    if stops != [] {
      var front := stops[..|stops| - 1];
      StartsKeepPending(u, db0, p, init, i0, front, rounds);
      StartupKeepsPending(u, db0, Starts(db0, p, init, front, rounds), p, init, i0, stops[|stops| - 1], rounds);
    }
  }

  /** Stopping and restarting any number of times, at any points, and then letting a start finish
      gives the canonical map, best block and (absent) checkpoint of one uninterrupted start. */
  lemma ResumeEquivalence(u: iset<Block>, db: Db, p: Provider, init: Hash, i0: nat,
                          stops: seq<nat>, last: nat, once: nat, rounds: nat)
    requires Grounded(u, db, p, init, i0) && Synced(db, i0) && db.checkpoint.None?
    requires 2 <= rounds && once > 2 * (|p.chain| - i0) + 1
    requires Startup(Starts(db, p, init, stops, rounds), p, init, last, rounds).result.Finished?
    ensures var stopped := Startup(Starts(db, p, init, stops, rounds), p, init, last, rounds).db;
            var straight := Startup(db, p, init, once, rounds).db;
            && (forall n: nat :: CanonicalAt(stopped, n) == CanonicalAt(straight, n))
            && stopped.best == straight.best == Some(BestOf(p))
            && stopped.checkpoint == straight.checkpoint == None
            && Repaired(db, straight, p, i0, |p.chain| - 1)
  {
    var before := Starts(db, p, init, stops, rounds);
    StartsKeepPending(u, db, p, init, i0, stops, rounds);
    StartupKeepsPending(u, db, before, p, init, i0, last, rounds);
    StartupKeepsPending(u, db, db, p, init, i0, once, rounds);
    PendingAtTip(u, db, Startup(before, p, init, last, rounds).db, p, init, i0);
    PendingAtTip(u, db, Startup(db, p, init, once, rounds).db, p, init, i0);
  }

  // ---- what the consumer is told ----

  lemma {:induction false} ChangedSplit(db: Db, p: Provider, lo: nat, mid: nat, hi: nat)
    requires lo <= mid <= hi + 1 && hi < |p.chain|
    ensures Changed(db, p, lo, hi) == Changed(db, p, lo, mid - 1) + Changed(db, p, mid, hi)
    decreases hi
  {
    if mid == hi + 1 {
    } else if hi == 0 {
      assert Changed(db, p, lo, mid - 1) == [];
    } else {
      ChangedSplit(db, p, lo, mid, hi - 1);
    }
  }

  lemma {:induction false} ChangedSome(db: Db, p: Provider, lo: nat, n: nat, hi: nat)
    requires lo <= n <= hi < |p.chain| && !Agrees(db, p, n)
    ensures Changed(db, p, lo, hi) != []
    decreases hi
  {
    if n < hi {
      ChangedSome(db, p, lo, n, hi - 1);
    }
  }

  /** Rounds from the tip over a store that holds the node's chain send nothing. */
  lemma QuietRounds(u: iset<Block>, db0: Db, db: Db, p: Provider, init: Hash, i0: nat, alive: nat, rounds: nat)
    requires Pending(u, db0, db, p, init, i0) && db.checkpoint.None? && 2 <= rounds
    requires forall n: nat :: i0 <= n < |p.chain| ==> Agrees(db, p, n)
    requires alive > |p.chain| - i0 + 1
    ensures FullSync(db, p, init, alive, rounds).sent == []
  {
    hide Sync, DbOk, World;
    if BestOf(p).hash != db.best.value.hash {
      var h := |p.chain| - 1;
      BackwardSyncRepairs(u, db, p, init, i0, h, alive - 1);
      NothingChanged(db, p, i0, h);
      RoundKeepsPending(u, db0, db, p, init, i0, alive - 1);
      var s := Sync(db, p, init, BestOf(p), alive - 1);
      assert FullSync(s.db, p, init, s.alive, rounds - 1).sent == [];
    }
  }

  /** A start from a store without a checkpoint sends every block that was missing or changed. */
  lemma StraightStartSends(u: iset<Block>, db: Db, p: Provider, init: Hash, i0: nat, once: nat, rounds: nat)
    requires Grounded(u, db, p, init, i0) && Synced(db, i0) && db.checkpoint.None?
    requires db.best.value.hash != BestOf(p).hash
    requires 2 <= rounds && once > 2 * (|p.chain| - i0) + 1
    ensures Startup(db, p, init, once, rounds).sent == Changed(db, p, i0, |p.chain| - 1)
  {
    hide Sync, DbOk, World;
    var h := |p.chain| - 1;
    BackwardSyncRepairs(u, db, p, init, i0, h, once - 1);
    RoundKeepsPending(u, db, db, p, init, i0, once - 1);
    var s := Sync(db, p, init, BestOf(p), once - 1);
    assert FullSync(s.db, p, init, s.alive, rounds - 1).sent == [];
  }

  /** A start from a checkpoint sends what was missing or changed below the checkpoint, and nothing
      of what the stopped sync had recorded from there up. */
  lemma ResumedStartSends(u: iset<Block>, db0: Db, db: Db, p: Provider, init: Hash, i0: nat, c: nat, once: nat,
                          rounds: nat)
    requires Pending(u, db0, db, p, init, i0) && db.checkpoint.Some? && c == db.checkpoint.value.number
    requires 2 <= rounds && once > 2 * (|p.chain| - i0) + 1
    ensures i0 < c < |p.chain|
    ensures Startup(db, p, init, once, rounds).sent == Changed(db, p, i0, c - 1)
  {
    hide Sync, DbOk, World, Linked, FullSync, BlockOf;
    ParentOnChain(u, p, c);
    BackwardSyncRepairs(u, db, p, init, i0, c - 1, once);
    SyncKeepsPending(u, db0, db, p, init, i0, c - 1, once);
    var r := Sync(db, p, init, p.chain[c - 1], once);
    forall n: nat | i0 <= n < |p.chain|
      ensures Agrees(r.db, p, n)
    {
      if c <= n {
        assert Agrees(db, p, n);
      }
    }
    QuietRounds(u, db0, r.db, p, init, i0, r.alive, rounds);
  }

  /** The store recovers from a stop, but the consumer does not: a start that is stopped at height
      `c` and then resumed sends what one straight start sends if and only if nothing from `c` up
      was missing or changed. */
  lemma StopLosesNotices(u: iset<Block>, db: Db, p: Provider, init: Hash, i0: nat, stop: nat, once: nat, rounds: nat)
    requires Grounded(u, db, p, init, i0) && Synced(db, i0) && db.checkpoint.None?
    requires db.best.value.hash != BestOf(p).hash
    requires 2 <= rounds && once > 2 * (|p.chain| - i0) + 1
    requires Sync(db, p, init, BestOf(p), stop).ended.Interrupted?
    ensures var s := Sync(db, p, init, BestOf(p), stop);
            && s.found == [] && s.db.checkpoint.Some? && i0 < s.db.checkpoint.value.number < |p.chain|
            && var c, resumed, straight := s.db.checkpoint.value.number,
                                           Startup(s.db, p, init, once, rounds).sent,
                                           Startup(db, p, init, once, rounds).sent;
            && resumed == Changed(db, p, i0, c - 1)
            && straight == resumed + Changed(db, p, c, |p.chain| - 1)
            && (resumed == straight <==> forall n: nat :: c <= n < |p.chain| ==> Agrees(db, p, n))
  {
    hide DbOk, World, FullSync, Startup, WalkBack;
    var h := |p.chain| - 1;
    var s := Sync(db, p, init, BestOf(p), stop);
    SyncKeepsPending(u, db, db, p, init, i0, h, stop);
    StoppedKeepsBelow(u, db, p, init, i0, h, stop);
    var c := s.db.checkpoint.value.number;
    ResumedStartSends(u, db, s.db, p, init, i0, c, once, rounds);
    ChangedOnlyLooks(db, s.db, p, i0, c - 1);
    StraightStartSends(u, db, p, init, i0, once, rounds);
    ChangedSplit(db, p, i0, c, h);
    if forall n: nat :: c <= n < |p.chain| ==> Agrees(db, p, n) {
      NothingChanged(db, p, c, h);
    } else {
      var n: nat :| c <= n < |p.chain| && !Agrees(db, p, n);
      ChangedSome(db, p, c, n, h);
    }
  }

  lemma StoppedKeepsBelow(u: iset<Block>, db: Db, p: Provider, init: Hash, i0: nat, h: nat, stop: nat)
    requires db.best.Some? && Ready(u, db, p, init, i0, h, db.best.value.number)
    requires Sync(db, p, init, p.chain[h], stop).ended.Interrupted?
    ensures var s := Sync(db, p, init, p.chain[h], stop);
            && s.found == [] && s.db.checkpoint.Some?
            && forall n: nat :: n < s.db.checkpoint.value.number ==> CanonicalAt(s.db, n) == CanonicalAt(db, n)
  {
    var best := db.best.value.number;
    var w := WalkBack(db, p, init, p.chain[h], best, stop - 1, []);
    WalkBackRepairs(u, db, p, init, i0, h, best, stop - 1, [], w);
  }

  // ---- starts that fail ----

  /** Without a best block nothing can be synced: the rounds run out and the start fails, with nothing
      changed and nothing sent. */
  lemma {:induction false} NoBestFails(db: Db, p: Provider, init: Hash, alive: nat, rounds: nat)
    requires ValidProvider(p) && db.best.None?
    ensures FullSync(db, p, init, alive, rounds) == Session(db, [], Failed, alive)
    decreases rounds
  {
    if rounds > 0 {
      NoBestFails(db, p, init, alive, rounds - 1);
    }
  }

  /** After the last round nothing looks again: it fails even if its sync has reached the tip. */
  lemma LastRoundFails(db: Db, p: Provider, init: Hash, alive: nat)
    requires ValidProvider(p) && db.best.Some? && db.best.value.hash != BestOf(p).hash && alive > 0
    ensures var f, s := FullSync(db, p, init, alive, 1), Sync(db, p, init, BestOf(p), alive - 1);
            f.result.Failed? && f.db == s.db && f.sent == s.found
  {
    hide Sync;
    var s := Sync(db, p, init, BestOf(p), alive - 1);
    assert FullSync(s.db, p, init, s.alive, 0) == Session(s.db, [], Failed, s.alive);
    assert s.found + [] == s.found;
  }
}
