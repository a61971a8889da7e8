/** What the consumer of the block indexer is told over any number of stopped starts and a finishing
    one (crates/block-indexer/src/indexer.rs): the changed blocks below the lowest checkpoint, once. */
module Notices {
  import opened Common
  import opened Chain
  import opened BlockStore
  import opened BackwardSync
  import opened Resume

  /** Everything sent by a sequence of starts, in order. */
  function SentBy(db: Db, p: Provider, init: Hash, stops: seq<nat>, rounds: nat): seq<Item>
    requires ValidProvider(p)
  {
    if stops == [] then []
    else
      var front, last := stops[..|stops| - 1], stops[|stops| - 1];
      SentBy(db, p, init, front, rounds) + Startup(Starts(db, p, init, front, rounds), p, init, last, rounds).sent
  }

  /** The height of the lowest checkpoint left by a sequence of starts, or the length of the chain. */
  function Lowest(db: Db, p: Provider, init: Hash, stops: seq<nat>, rounds: nat): nat
    requires ValidProvider(p)
  {
    if stops == [] then |p.chain|
    else Lower(Lowest(db, p, init, stops[..|stops| - 1], rounds), Starts(db, p, init, stops, rounds))
  }

  function Lower(c: nat, db: Db): nat {
    if db.checkpoint.Some? then Min(c, db.checkpoint.value.number) else c
  }

  predicate Whole(db: Db, p: Provider, i0: nat) {
    forall n: nat :: i0 <= n < |p.chain| ==> Agrees(db, p, n)
  }

  /** Before anything was sent: below the checkpoint the store is as it was. */
  ghost predicate Untold(db0: Db, db: Db, p: Provider, c: nat) {
    && db.best == db0.best
    && (forall n: nat :: n < c ==> CanonicalAt(db, n) == CanonicalAt(db0, n))
    && (if c < |p.chain| then db.checkpoint == Some(p.chain[c]) else db.checkpoint.None?)
  }

  /** After it was: the store holds the node's chain, and later checkpoints are no lower. */
  ghost predicate Told(db: Db, p: Provider, i0: nat, c: nat) {
    && Whole(db, p, i0) && db.best.Some? && c <= db.best.value.number + 1
    && (db.checkpoint.Some? ==> c <= db.checkpoint.value.number)
  }

  ghost predicate Telling(u: iset<Block>, db0: Db, db: Db, p: Provider, init: Hash, i0: nat, c: nat, sent: seq<Item>) {
    && Pending(u, db0, db, p, init, i0) && i0 < c <= |p.chain|
    && (|| (sent == [] && Untold(db0, db, p, c))
        || (sent == Changed(db0, p, i0, c - 1) && Told(db, p, i0, c)))
  }

  // ---- walks over a store that holds the node's chain ----

  /** Such a walk only passes blocks above the best one, and changes nothing. */
  lemma {:induction false} QuietWalk(u: iset<Block>, db: Db, p: Provider, init: Hash, i0: nat, h: nat, best: nat,
                                     alive: nat, found: seq<Item>)
    requires World(u) && DbOk(u, db) && ProviderOk(u, p) && Whole(db, p, i0)
    requires i0 <= h < |p.chain| && i0 <= best && p.chain[i0].hash == init
    ensures var w := WalkBack(db, p, init, p.chain[h], best, alive, found);
            && w.found == found
            && (w.ended.Completed? ==> w.db == db)
            && (!w.ended.Completed? ==> w.ended.Interrupted? && exists c: nat ::
                  best < c <= h && w.db == db.(checkpoint := Some(p.chain[c])))
    decreases h
  {
    hide DbOk, World;
    assert Agrees(db, p, h);
    StoredAgreement(u, db, p, h);
    if best < h {
      NotInitial(u, p, init, i0, h);
      assert [] + found == found;
      if alive > 0 {
        QuietWalk(u, db, p, init, i0, h - 1, best, alive - 1, found);
      }
    }
  }

  lemma NotInitial(u: iset<Block>, p: Provider, init: Hash, i0: nat, h: nat)
    requires World(u) && ProviderOk(u, p) && i0 < h < |p.chain| && p.chain[i0].hash == init
    ensures p.chain[h].hash != init
  {
    assert Compatible(p.chain[i0], p.chain[h]);
  }

  /** A sync over such a store sends nothing and leaves it told. */
  lemma QuietSync(u: iset<Block>, db: Db, p: Provider, init: Hash, i0: nat, h: nat, c: nat, alive: nat)
    requires World(u) && DbOk(u, db) && ProviderOk(u, p) && Told(db, p, i0, c)
    requires i0 <= h < |p.chain| && i0 <= db.best.value.number && p.chain[i0].hash == init && c <= h + 1
    ensures var s := Sync(db, p, init, p.chain[h], alive);
            s.found == [] && Told(s.db, p, i0, c)
  {
    hide WalkBack, DbOk, World;
    if alive > 0 {
      var best := db.best.value.number;
      QuietWalk(u, db, p, init, i0, h, best, alive - 1, []);
      var w, s := WalkBack(db, p, init, p.chain[h], best, alive - 1, []), Sync(db, p, init, p.chain[h], alive);
      SameCanonical(w.db, s.db, p, i0);
      SameCanonical(db, w.db, p, i0);
    }
  }

  lemma SameCanonical(db: Db, db1: Db, p: Provider, i0: nat)
    requires db1.blocks == db.blocks && db1.heights == db.heights
    ensures Whole(db, p, i0) ==> Whole(db1, p, i0)
  {
    forall n: nat | i0 <= n < |p.chain| && Whole(db, p, i0)
      ensures Agrees(db1, p, n)
    {
      assert Agrees(db, p, n);
    }
  }

  // ---- one start ----

  /** A sync before anything was sent: completed it sends all that changed, and stopped nothing. */
  lemma FirstSync(u: iset<Block>, db0: Db, db: Db, p: Provider, init: Hash, i0: nat, h: nat, alive: nat)
    requires Pending(u, db0, db, p, init, i0) && Untold(db0, db, p, h + 1)
    requires i0 <= h < |p.chain| && Ready(u, db, p, init, i0, h, db.best.value.number)
    requires forall n: nat :: h < n < |p.chain| ==> Agrees(db, p, n)
    requires Pending(u, db0, Sync(db, p, init, p.chain[h], alive).db, p, init, i0)
    ensures var s := Sync(db, p, init, p.chain[h], alive);
            var c := Lower(h + 1, s.db);
            && i0 < c
            && (|| (s.found == [] && Untold(db0, s.db, p, c))
                || (s.found == Changed(db0, p, i0, h) && c == h + 1 && Told(s.db, p, i0, c)))
  {
    hide WalkBack, DbOk, World, Linked;
    if alive > 0 {
      var best := db.best.value.number;
      var w := WalkBack(db, p, init, p.chain[h], best, alive - 1, []);
      WalkBackRepairs(u, db, p, init, i0, h, best, alive - 1, [], w);
      var s := Sync(db, p, init, p.chain[h], alive);
      if w.ended.Completed? {
        assert Changed(db, p, i0, h) + [] == Changed(db, p, i0, h);
        ChangedOnlyLooks(db0, db, p, i0, h);
        RepairedIsWhole(db, w.db, p, i0, h);
        SameCanonical(w.db, s.db, p, i0);
      }
    }
  }

  lemma RepairedIsWhole(db: Db, db1: Db, p: Provider, i0: nat, h: nat)
    requires h < |p.chain| && Repaired(db, db1, p, i0, h)
    requires forall n: nat :: h < n < |p.chain| ==> Agrees(db, p, n)
    ensures Whole(db1, p, i0)
  {
    forall n: nat | i0 <= n < |p.chain|
      ensures Agrees(db1, p, n)
    {
      assert h < n ==> Agrees(db, p, n);
    }
  }

  lemma SyncTells(u: iset<Block>, db0: Db, db: Db, p: Provider, init: Hash, i0: nat, h: nat, c: nat, alive: nat,
                  sent: seq<Item>)
    requires Telling(u, db0, db, p, init, i0, c, sent) && c <= h + 1 && (Untold(db0, db, p, c) ==> c == h + 1)
    requires db.checkpoint.Some? ==> h < db.checkpoint.value.number
    requires i0 <= h < |p.chain| && Ready(u, db, p, init, i0, h, db.best.value.number)
    requires forall n: nat :: h < n < |p.chain| ==> Agrees(db, p, n)
    requires db.best.value.hash != BestOf(p).hash
    ensures var s := Sync(db, p, init, p.chain[h], alive);
            Telling(u, db0, s.db, p, init, i0, Lower(c, s.db), sent + s.found)
  {
    hide Sync, DbOk, World, Linked, Changed, Untold, Told;
    SyncKeepsPending(u, db0, db, p, init, i0, h, alive);
    var s := Sync(db, p, init, p.chain[h], alive);
    if sent == [] && Untold(db0, db, p, c) {
      FirstSync(u, db0, db, p, init, i0, h, alive);
      assert sent + s.found == s.found;
    } else {
      QuietSync(u, db, p, init, i0, h, c, alive);
      assert sent + s.found == sent;
      NoLower(s.db, p, i0, c);
    }
  }

  lemma NoLower(db: Db, p: Provider, i0: nat, c: nat)
    requires Told(db, p, i0, c)
    ensures Lower(c, db) == c
  {
  }

  lemma StillTelling(u: iset<Block>, db0: Db, db: Db, p: Provider, init: Hash, i0: nat, c: nat, sent: seq<Item>)
    requires Telling(u, db0, db, p, init, i0, c, sent)
    ensures Lower(c, db) == c && sent + [] == sent
  {
  }

  lemma ResumeTells(u: iset<Block>, db0: Db, db: Db, p: Provider, init: Hash, i0: nat, c: nat, alive: nat,
                    sent: seq<Item>)
    requires Telling(u, db0, db, p, init, i0, c, sent)
    ensures var r := ResumePending(db, p, init, alive);
            Telling(u, db0, r.db, p, init, i0, Lower(c, r.db), sent + r.found)
  {
    hide Sync, DbOk, BlockOf, World, Linked, Changed;
    StillTelling(u, db0, db, p, init, i0, c, sent);
    if db.checkpoint.Some? {
      var d := db.checkpoint.value.number;
      assert CheckpointAt(db, p, i0, d);
      ParentOnChain(u, p, d);
      SyncTells(u, db0, db, p, init, i0, d - 1, c, alive, sent);
    }
  }

  lemma RoundsTell(u: iset<Block>, db0: Db, db: Db, p: Provider, init: Hash, i0: nat, c: nat, alive: nat, rounds: nat,
                   sent: seq<Item>)
    requires Telling(u, db0, db, p, init, i0, c, sent) && (db.checkpoint.Some? ==> alive == 0) && 2 <= rounds
    ensures var f := FullSync(db, p, init, alive, rounds);
            Telling(u, db0, f.db, p, init, i0, Lower(c, f.db), sent + f.sent)
  {
    hide Sync, DbOk, World, Changed;
    StillTelling(u, db0, db, p, init, i0, c, sent);
    if BestOf(p).hash != db.best.value.hash && alive > 0 {
      SyncTells(u, db0, db, p, init, i0, |p.chain| - 1, c, alive - 1, sent);
      RoundKeepsPending(u, db0, db, p, init, i0, alive - 1);
      var s := Sync(db, p, init, BestOf(p), alive - 1);
      var rest := FullSync(s.db, p, init, s.alive, rounds - 1);
      assert rest.db == s.db && rest.sent == [] && s.found + rest.sent == s.found;
    }
  }

  lemma StartTells(u: iset<Block>, db0: Db, db: Db, p: Provider, init: Hash, i0: nat, c: nat, alive: nat, rounds: nat,
                   sent: seq<Item>)
    requires Telling(u, db0, db, p, init, i0, c, sent) && 2 <= rounds
    ensures var s := Startup(db, p, init, alive, rounds);
            Telling(u, db0, s.db, p, init, i0, Lower(c, s.db), sent + s.sent)
  {
    hide ResumePending, Telling, Pending, Changed;
    StillPending(u, db0, db, p, init, i0, c, sent);
    ResumeTells(u, db0, db, p, init, i0, c, alive, sent);
    ResumeKeepsPending(u, db0, db, p, init, i0, alive);
    var r := ResumePending(db, p, init, alive);
    var f := FullSync(r.db, p, init, r.alive, rounds);
    RoundsTell(u, db0, r.db, p, init, i0, Lower(c, r.db), r.alive, rounds, sent + r.found);
    StillPending(u, db0, r.db, p, init, i0, Lower(c, r.db), sent + r.found);
    assert r.db.checkpoint.Some? ==> f.db == r.db;
    assert sent + r.found + f.sent == sent + (r.found + f.sent);
  }

  lemma StillPending(u: iset<Block>, db0: Db, db: Db, p: Provider, init: Hash, i0: nat, c: nat, sent: seq<Item>)
    requires Telling(u, db0, db, p, init, i0, c, sent)
    ensures Pending(u, db0, db, p, init, i0) && ValidProvider(p) && db.best.Some?
  {
  }

  // ---- any number of starts ----

  lemma {:induction false} StartsTell(u: iset<Block>, db: Db, p: Provider, init: Hash, i0: nat, stops: seq<nat>,
                                      rounds: nat)
    requires Grounded(u, db, p, init, i0) && Synced(db, i0) && db.checkpoint.None? && 2 <= rounds
    ensures Telling(u, db, Starts(db, p, init, stops, rounds), p, init, i0,
                    Lowest(db, p, init, stops, rounds), SentBy(db, p, init, stops, rounds))
    decreases |stops|
  {
    hide Startup, Changed, DbOk, World, Linked;
    if stops != [] {
      var front := stops[..|stops| - 1];
      StartsTell(u, db, p, init, i0, front, rounds);
      StartTells(u, db, Starts(db, p, init, front, rounds), p, init, i0, Lowest(db, p, init, front, rounds),
                 stops[|stops| - 1], rounds, SentBy(db, p, init, front, rounds));
    }
  }

  /** Over any number of starts on the node's chain, stopped anywhere, until the store is at its tip:
      everything the consumer was told, in order, is what was missing or changed below the lowest
      checkpoint that was ever left, each block once. */
  lemma EverythingSent(u: iset<Block>, db: Db, p: Provider, init: Hash, i0: nat, stops: seq<nat>, rounds: nat)
    requires Grounded(u, db, p, init, i0) && Synced(db, i0) && db.checkpoint.None? && 2 <= rounds
    requires db.best.value.hash != BestOf(p).hash
    requires Starts(db, p, init, stops, rounds).best == Some(BestOf(p))
    ensures var c := Lowest(db, p, init, stops, rounds);
            i0 < c <= |p.chain| && SentBy(db, p, init, stops, rounds) == Changed(db, p, i0, c - 1)
  {
    hide Starts, Lowest, SentBy, Changed;
    StartsTell(u, db, p, init, i0, stops, rounds);
  }
}
