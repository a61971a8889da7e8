/** From the node to the coordinator: the listening loop of the block indexer
    (crates/block-indexer/src/indexer.rs) feeding the chain view of the coordinator
    (crates/coordinator/src/blockchain_tracker.rs). */
module Pipeline {
  import opened Common
  import opened Chain
  import opened BlockStore
  import opened BackwardSync
  import opened Resume
  import opened ChainView

  predicate Extends(db: Db, b: Block) {
    db.best.Some? && b.parent == db.best.value.hash
  }

  predicate NeedsCatchUp(db: Db, b: Block) {
    db.best.Some? && !Extends(db, b) &&
    (b.number > db.best.value.number || b.totalDifficulty > db.best.value.totalDifficulty)
  }

  /** One block received while listening: it extends the best block, or it sets off a backward sync
      from the node's tip, or it is only stored. */
  function Listen(db: Db, p: Provider, init: Hash, b: Block, alive: nat): Walk
    requires ValidProvider(p)
  {
    if db.best.None? then Walk(db, [], NoBest, alive)
    else if Extends(db, b) then
      Walk(Record(db, ItemOf(p, b)).(best := Some(b)), [ItemOf(p, b)], Completed, alive)
    else if NeedsCatchUp(db, b) then Sync(db, p, init, BestOf(p), alive)
    else Walk(SaveBlock(db, b), [], Completed, alive)
  }

  /** A block from the subscription, or a sync round of the start-up, with the node as it is then. */
  datatype Event = NewBlock(p: Provider, block: Block) | Round(p: Provider)

  /** The store of the indexer and the view of the coordinator. */
  datatype System = System(db: Db, view: seq<Item>)

  function Emit(db: Db, e: Event, init: Hash): Walk
    requires ValidProvider(e.p)
  {
    var unstopped := |e.p.chain| + 1;
    match e
    case NewBlock(p, b) => Listen(db, p, init, b, unstopped)
    case Round(p) => Sync(db, p, init, BestOf(p), unstopped)
  }

  /** The indexer handles an event and the view is fed what it sends; `None` is a failed assert. */
  function Step(s: System, e: Event, init: Hash): Option<System>
    requires ValidProvider(e.p)
  {
    var w := Emit(s.db, e, init);
    match Feed(s.view, w.found)
    case Panicked => None
    case Updated(view, _) => Some(System(w.db, view))
  }

  function Run(s: System, events: seq<Event>, init: Hash): Option<System>
    requires forall i :: 0 <= i < |events| ==> ValidProvider(events[i].p)
    decreases |events|
  {
    if events == [] then Some(s)
    else if Step(s, events[0], init).None? then None
    else Run(Step(s, events[0], init).value, events[1..], init)
  }

  predicate CatchesUp(db: Db, e: Event) {
    e.Round? || NeedsCatchUp(db, e.block)
  }

  /** The node's chain holds the initial block, and is no shorter than the stored best when the
      event sets off a sync. */
  ghost predicate GoodEvent(u: iset<Block>, db: Db, e: Event, init: Hash, i0: nat) {
    && ProviderOk(u, e.p) && i0 < |e.p.chain| && e.p.chain[i0].hash == init
    && (e.NewBlock? ==> e.block in u)
    && (CatchesUp(db, e) && db.best.Some? ==> db.best.value.number < |e.p.chain|)
  }

  ghost predicate GoodRun(u: iset<Block>, s: System, events: seq<Event>, init: Hash, i0: nat)
    requires forall i :: 0 <= i < |events| ==> ValidProvider(events[i].p)
    decreases |events|
  {
    events == [] ||
    (&& GoodEvent(u, s.db, events[0], init, i0)
     && (Step(s, events[0], init).Some? ==> GoodRun(u, Step(s, events[0], init).value, events[1..], init, i0)))
  }

  /** The view is empty or a suffix of the canonical chain, above the initial block and ending at
      the best block. */
  ghost predicate SuffixOfCanonical(db: Db, view: seq<Item>, i0: nat)
    requires db.best.Some?
  {
    var best := db.best.value.number;
    && |view| + i0 <= best
    && forall j :: 0 <= j < |view| ==> CanonicalAt(db, best + 1 - |view| + j) == Some(view[j].block)
  }

  ghost predicate NothingAbove(db: Db)
    requires db.best.Some?
  {
    forall n: nat :: n > db.best.value.number ==> CanonicalAt(db, n).None?
  }

  /** The store is sound and linked, and the view follows it. */
  ghost predicate Tracks(u: iset<Block>, s: System, init: Hash, i0: nat) {
    && World(u) && DbOk(u, s.db) && Synced(s.db, i0)
    && CanonicalAt(s.db, i0).value.hash == init
    && SuffixOfCanonical(s.db, s.view, i0)
  }

  /** And no heights are left over above the best block. */
  ghost predicate InStep(u: iset<Block>, s: System, init: Hash, i0: nat) {
    Tracks(u, s, init, i0) && NothingAbove(s.db)
  }

  lemma SuffixIsContiguous(u: iset<Block>, s: System, init: Hash, i0: nat)
    requires Tracks(u, s, init, i0)
    ensures Contiguous(s.view)
    ensures s.view != [] ==> Tip(s.view).block == s.db.best.value
    ensures forall j :: 0 <= j < |s.view| ==>
      s.view[j].block.number == s.db.best.value.number + 1 - |s.view| + j
  {
    var best := s.db.best.value.number;
    forall j | 0 <= j < |s.view|
      ensures s.view[j].block.number == best + 1 - |s.view| + j
    {
      assert CanonicalAt(s.db, best + 1 - |s.view| + j) == Some(s.view[j].block);
      StoredInWorld(u, s.db, best + 1 - |s.view| + j);
    }
    forall j | 0 < j < |s.view|
      ensures Follows(s.view[j].block, s.view[j - 1].block)
    {
      assert LinkedAt(s.db, best + 1 - |s.view| + j);
      assert CanonicalAt(s.db, best + 1 - |s.view| + j) == Some(s.view[j].block);
      assert CanonicalAt(s.db, best + 1 - |s.view| + (j - 1)) == Some(s.view[j - 1].block);
    }
  }

  lemma FeedOne(v: seq<Item>, item: Item)
    ensures Feed(v, [item]).Updated? <==> UpdateView(v, item).Updated?
    ensures Feed(v, [item]).Updated? ==> Feed(v, [item]).view == UpdateView(v, item).view
  {
    assert [item][1..] == [];
  }

  /** A block above everything in the view that follows its tip is appended. */
  lemma AppendTip(v: seq<Item>, item: Item)
    requires forall j :: 0 <= j < |v| ==> v[j].block.number < item.block.number
    requires v != [] ==> Follows(item.block, Tip(v).block)
    ensures Feed(v, [item]).Updated? && Feed(v, [item]).view == v + [item]
  {
    FeedOne(v, item);
    assert !Knows(v, item);
  }

  lemma ExtendKeepsStore(u: iset<Block>, s: System, p: Provider, b: Block, init: Hash, i0: nat, db1: Db)
    requires Tracks(u, s, init, i0) && ProviderOk(u, p) && b in u
    requires b.number == s.db.best.value.number + 1 && b.parent == s.db.best.value.hash
    requires db1 == Record(s.db, ItemOf(p, b)).(best := Some(b))
    ensures Tracks(u, System(db1, s.view + [ItemOf(p, b)]), init, i0)
    ensures NothingAbove(s.db) ==> NothingAbove(db1)
  {
    RecordKeeps(u, s.db, p, b);
    var rec := Record(s.db, ItemOf(p, b));
    DbOkSame(u, rec, db1);
    forall n: nat
      ensures CanonicalAt(db1, n) == if n == b.number then Some(b) else CanonicalAt(s.db, n)
    {
      assert CanonicalAt(db1, n) == CanonicalAt(rec, n);
    }
    forall n: nat | i0 < n <= b.number
      ensures LinkedAt(db1, n)
    {
      assert n < b.number ==> LinkedAt(s.db, n);
    }
  }

  lemma ExtendKeepsTracking(u: iset<Block>, s: System, p: Provider, b: Block, init: Hash, i0: nat)
    requires Tracks(u, s, init, i0) && ProviderOk(u, p) && b in u && Extends(s.db, b)
    ensures Step(s, NewBlock(p, b), init).Some?
    ensures Tracks(u, Step(s, NewBlock(p, b), init).value, init, i0)
    ensures NothingAbove(s.db) ==> NothingAbove(Step(s, NewBlock(p, b), init).value.db)
  {
    assert Compatible(s.db.best.value, b);
    SuffixIsContiguous(u, s, init, i0);
    AppendTip(s.view, ItemOf(p, b));
    ExtendKeepsStore(u, s, p, b, init, i0, Record(s.db, ItemOf(p, b)).(best := Some(b)));
  }

  lemma IgnoreKeepsTracking(u: iset<Block>, s: System, p: Provider, b: Block, init: Hash, i0: nat)
    requires Tracks(u, s, init, i0) && ProviderOk(u, p) && b in u
    requires !Extends(s.db, b) && !NeedsCatchUp(s.db, b)
    ensures Step(s, NewBlock(p, b), init).Some?
    ensures Tracks(u, Step(s, NewBlock(p, b), init).value, init, i0)
    ensures NothingAbove(s.db) ==> NothingAbove(Step(s, NewBlock(p, b), init).value.db)
  {
    SaveKeeps(u, s.db, b);
    var s1 := Step(s, NewBlock(p, b), init).value;
    LinkedSame(s.db, s1.db, i0, s.db.best.value.number);
  }

  // ---- catching up ----

  /** The node's blocks from height `d` to height `h`. */
  function Tail(p: Provider, d: nat, h: int): (r: seq<Item>)
    requires h < |p.chain|
    ensures d <= h ==> r != []
    decreases h
  {
    if h < d then [] else Tail(p, d, h - 1) + [ItemOf(p, p.chain[h])]
  }

  /** The first height of a range at which the store and the node differ, or the end of it. */
  function FirstChange(db: Db, p: Provider, lo: nat, hi: nat): (d: nat)
    requires lo <= hi <= |p.chain|
    ensures lo <= d <= hi && (d < hi ==> !Agrees(db, p, d))
    ensures forall n: nat :: lo <= n < d ==> Agrees(db, p, n)
    decreases hi - lo
  {
    if lo == hi || !Agrees(db, p, lo) then lo else FirstChange(db, p, lo + 1, hi)
  }

  lemma {:induction false} ChangedIsTail(db: Db, p: Provider, lo: nat, d: nat, h: int)
    requires h < |p.chain| && lo <= d
    requires forall n: nat :: lo <= n < d && n <= h ==> Agrees(db, p, n)
    requires forall n: nat :: d <= n <= h ==> !Agrees(db, p, n)
    ensures Changed(db, p, lo, h) == Tail(p, d, h)
    decreases h
  {
    if lo <= h {
      ChangedIsTail(db, p, lo, d, h - 1);
    }
  }

  /** From the first difference on, everything differs: below the stored best because agreement
      would spread down, and above it because nothing is stored there. */
  lemma DivergesForGood(u: iset<Block>, db: Db, p: Provider, i0: nat, d: nat)
    requires World(u) && DbOk(u, db) && ProviderOk(u, p) && Synced(db, i0) && NothingAbove(db)
    requires i0 <= d < |p.chain| && !Agrees(db, p, d)
    ensures forall n: nat :: d <= n < |p.chain| ==> !Agrees(db, p, n)
  {
    forall n: nat | d <= n < |p.chain|
      ensures !Agrees(db, p, n)
    {
      if Agrees(db, p, n) {
        assert n <= db.best.value.number;
        AgreesBelow(u, db, p, i0, n);
        assert false;
      }
    }
  }

  /** The view holds the node's blocks up to height `h`, and none at or below the initial block. */
  ghost predicate OnChain(p: Provider, v: seq<Item>, i0: nat, h: nat) {
    && v != [] && |v| + i0 <= h < |p.chain|
    && forall j :: 0 <= j < |v| ==> v[j].block == p.chain[h + 1 - |v| + j]
  }

  /** What is known when the node's chain leaves the stored one at height `d`. */
  ghost predicate Forks(u: iset<Block>, s: System, p: Provider, init: Hash, i0: nat, d: nat) {
    && Tracks(u, s, init, i0) && ProviderOk(u, p)
    && i0 < d < |p.chain| && (s.view == [] || d <= s.db.best.value.number + 1)
    && !Agrees(s.db, p, d) && forall n: nat :: i0 <= n < d ==> Agrees(s.db, p, n)
  }

  /** Below the fork the view is on the node's chain. */
  lemma ViewBelowFork(u: iset<Block>, s: System, p: Provider, init: Hash, i0: nat, d: nat, j: nat)
    requires Forks(u, s, p, init, i0, d)
    requires j < |s.view| && s.view[j].block.number < d
    ensures s.view[j].block == p.chain[s.view[j].block.number]
  {
    SuffixIsContiguous(u, s, init, i0);
    var n := s.db.best.value.number + 1 - |s.view| + j;
    assert CanonicalAt(s.db, n) == Some(s.view[j].block);
    assert Agrees(s.db, p, n);
  }

  /** A view that keeps only what is below the fork and takes the node's block there. */
  lemma CutAtFork(u: iset<Block>, s: System, p: Provider, init: Hash, i0: nat, d: nat, k: nat)
    requires Forks(u, s, p, init, i0, d)
    requires k <= |s.view|
    requires 0 < k ==> s.view[k - 1].block.number == d - 1
    ensures OnChain(p, s.view[..k] + [ItemOf(p, p.chain[d])], i0, d)
    ensures 0 < k ==> Follows(p.chain[d], s.view[k - 1].block)
  {
    SuffixIsContiguous(u, s, init, i0);
    forall j | 0 <= j < k
      ensures s.view[j].block == p.chain[d - k + j]
    {
      ViewBelowFork(u, s, p, init, i0, d, j);
    }
    assert FollowsAt(p.chain, d);
  }

  /** The first block of the node's new branch is taken, whether it extends the view, replaces part
      of it, or lies below all of it. */
  lemma FirstOfBranch(u: iset<Block>, s: System, p: Provider, init: Hash, i0: nat, d: nat)
    requires Forks(u, s, p, init, i0, d)
    ensures Feed(s.view, Tail(p, d, d)).Updated? && OnChain(p, Feed(s.view, Tail(p, d, d)).view, i0, d)
  {
    var item := ItemOf(p, p.chain[d]);
    assert Tail(p, d, d) == [item];
    FeedOne(s.view, item);
    SuffixIsContiguous(u, s, init, i0);
    if s.view == [] || d > s.db.best.value.number {
      CutAtFork(u, s, p, init, i0, d, |s.view|);
      AppendTip(s.view, item);
      assert s.view[..|s.view|] == s.view;
    } else {
      AtContiguous(s.view, d);
      CountBelowContiguous(s.view, d);
      NotKnownAtFork(u, s, p, init, i0, d);
      CutAtFork(u, s, p, init, i0, d, CountBelow(s.view, d));
    }
  }

  lemma NotKnownAtFork(u: iset<Block>, s: System, p: Provider, init: Hash, i0: nat, d: nat)
    requires Forks(u, s, p, init, i0, d)
    ensures !Knows(s.view, ItemOf(p, p.chain[d]))
  {
    SuffixIsContiguous(u, s, init, i0);
    if At(s.view, d).Some? {
      AtContiguous(s.view, d);
      var j := d - s.view[0].block.number;
      assert CanonicalAt(s.db, s.db.best.value.number + 1 - |s.view| + j) == Some(s.view[j].block);
      StoredAgreement(u, s.db, p, d);
    }
  }

  /** Every later block of the branch is appended. */
  lemma NextOfBranch(p: Provider, v: seq<Item>, i0: nat, h: nat)
    requires ValidProvider(p) && 0 < h < |p.chain| && OnChain(p, v, i0, h - 1)
    ensures Feed(v, [ItemOf(p, p.chain[h])]).Updated?
    ensures OnChain(p, Feed(v, [ItemOf(p, p.chain[h])]).view, i0, h)
  {
    assert FollowsAt(p.chain, h);
    AppendTip(v, ItemOf(p, p.chain[h]));
  }

  lemma {:induction false} FeedBranch(p: Provider, v: seq<Item>, i0: nat, d: nat, h: nat)
    requires ValidProvider(p) && d <= h < |p.chain|
    requires Feed(v, Tail(p, d, d)).Updated? && OnChain(p, Feed(v, Tail(p, d, d)).view, i0, d)
    ensures Feed(v, Tail(p, d, h)).Updated? && OnChain(p, Feed(v, Tail(p, d, h)).view, i0, h)
    decreases h
  {
    hide Feed;
    if d < h {
      FeedBranch(p, v, i0, d, h - 1);
      NextOfBranch(p, Feed(v, Tail(p, d, h - 1)).view, i0, h);
      FeedInTwo(v, Tail(p, d, h - 1), [ItemOf(p, p.chain[h])]);
    }
  }

  /** What a catch-up finds changed: nothing, or the node's whole chain from a fork on. */
  lemma ChangedFromFork(u: iset<Block>, s: System, p: Provider, init: Hash, i0: nat) returns (d: nat)
    requires InStep(u, s, init, i0) && ProviderOk(u, p)
    requires i0 < |p.chain| && p.chain[i0].hash == init
    ensures d <= |p.chain| && Changed(s.db, p, i0, |p.chain| - 1) == Tail(p, d, |p.chain| - 1)
    ensures d < |p.chain| ==> Forks(u, s, p, init, i0, d)
    ensures d == |p.chain| ==> forall n: nat :: i0 <= n < |p.chain| ==> Agrees(s.db, p, n)
  {
    d := FirstChange(s.db, p, i0, |p.chain|);
    if d < |p.chain| {
      DivergesForGood(u, s.db, p, i0, d);
      ReadyWhenTracking(u, s, p, init, i0, d);
      ForkIsNotAbove(s.db, p, i0, d);
    }
    ChangedIsTail(s.db, p, i0, d, |p.chain| - 1);
  }

  lemma ForkIsNotAbove(db: Db, p: Provider, i0: nat, d: nat)
    requires db.best.Some? && NothingAbove(db) && i0 <= db.best.value.number
    requires d < |p.chain| && forall n: nat :: i0 <= n < d ==> Agrees(db, p, n)
    ensures d <= db.best.value.number + 1
  {
    var n := db.best.value.number + 1;
    assert n < |p.chain| ==> !Agrees(db, p, n);
  }

  /** Fed the blocks that a catch-up found changed, the view ends up on the node's chain at its
      tip; it is left alone only when nothing changed. */
  lemma FeedChanged(u: iset<Block>, s: System, p: Provider, init: Hash, i0: nat, found: seq<Item>)
    requires InStep(u, s, init, i0) && ProviderOk(u, p)
    requires i0 < |p.chain| && p.chain[i0].hash == init
    requires found == Changed(s.db, p, i0, |p.chain| - 1)
    ensures Feed(s.view, found).Updated?
    ensures || OnChain(p, Feed(s.view, found).view, i0, |p.chain| - 1)
            || (&& Feed(s.view, found).view == s.view
                && forall n: nat :: i0 <= n < |p.chain| ==> Agrees(s.db, p, n))
  {
    var d := ChangedFromFork(u, s, p, init, i0);
    if d < |p.chain| {
      BranchIsTaken(u, s, p, init, i0, d);
    }
  }

  lemma BranchIsTaken(u: iset<Block>, s: System, p: Provider, init: Hash, i0: nat, d: nat)
    requires Forks(u, s, p, init, i0, d)
    ensures var tail := Tail(p, d, |p.chain| - 1);
            Feed(s.view, tail).Updated? && OnChain(p, Feed(s.view, tail).view, i0, |p.chain| - 1)
  {
    hide Feed;
    FirstOfBranch(u, s, p, init, i0, d);
    FeedBranch(p, s.view, i0, d, |p.chain| - 1);
  }

  lemma CatchUpKeepsInStep(u: iset<Block>, s: System, p: Provider, init: Hash, i0: nat, w: Walk)
    requires InStep(u, s, init, i0) && ProviderOk(u, p)
    requires i0 < |p.chain| && p.chain[i0].hash == init && s.db.best.value.number < |p.chain|
    requires w == Sync(s.db, p, init, BestOf(p), |p.chain| + 1)
    ensures Feed(s.view, w.found).Updated?
    ensures InStep(u, System(w.db, Feed(s.view, w.found).view), init, i0)
  {
    hide Feed, Sync;
    var h := |p.chain| - 1;
    ReadyWhenTracking(u, s, p, init, i0, h);
    BackwardSyncRepairs(u, s.db, p, init, i0, h, |p.chain| + 1);
    FeedChanged(u, s, p, init, i0, w.found);
    StoreCaughtUp(u, s, p, init, i0, w.db);
    ViewCaughtUp(u, s, p, init, i0, w.db, Feed(s.view, w.found).view);
  }

  lemma ViewCaughtUp(u: iset<Block>, s: System, p: Provider, init: Hash, i0: nat, db1: Db, v: seq<Item>)
    requires InStep(u, s, init, i0) && ProviderOk(u, p)
    requires i0 < |p.chain| && s.db.best.value.number < |p.chain|
    requires Repaired(s.db, db1, p, i0, |p.chain| - 1) && db1.best == Some(BestOf(p))
    requires || OnChain(p, v, i0, |p.chain| - 1)
             || (v == s.view && forall n: nat :: i0 <= n < |p.chain| ==> Agrees(s.db, p, n))
    ensures SuffixOfCanonical(db1, v, i0)
  {
    if OnChain(p, v, i0, |p.chain| - 1) {
      SuffixFromChain(db1, p, v, i0, |p.chain| - 1);
    } else {
      SuffixUnmoved(s, p, i0, |p.chain| - 1, db1);
    }
  }

  lemma ReadyWhenTracking(u: iset<Block>, s: System, p: Provider, init: Hash, i0: nat, h: nat)
    requires Tracks(u, s, init, i0) && ProviderOk(u, p)
    requires i0 <= h < |p.chain| && p.chain[i0].hash == init
    ensures Ready(u, s.db, p, init, i0, h, s.db.best.value.number) && Agrees(s.db, p, i0)
  {
    StoredInWorld(u, s.db, i0);
    assert Compatible(CanonicalAt(s.db, i0).value, p.chain[i0]);
  }

  lemma StoreCaughtUp(u: iset<Block>, s: System, p: Provider, init: Hash, i0: nat, db1: Db)
    requires InStep(u, s, init, i0) && ProviderOk(u, p)
    requires i0 < |p.chain| && p.chain[i0].hash == init && s.db.best.value.number < |p.chain|
    requires DbOk(u, db1) && Repaired(s.db, db1, p, i0, |p.chain| - 1) && db1.best == Some(BestOf(p))
    ensures Synced(db1, i0) && NothingAbove(db1) && CanonicalAt(db1, i0).value.hash == init
  {
    AgreementIsLinked(db1, p, i0, |p.chain| - 1);
  }

  lemma SuffixFromChain(db1: Db, p: Provider, v: seq<Item>, i0: nat, h: nat)
    requires OnChain(p, v, i0, h) && IsChain(p.chain) && db1.best == Some(p.chain[h])
    requires forall n: nat :: i0 <= n <= h ==> Agrees(db1, p, n)
    ensures SuffixOfCanonical(db1, v, i0)
  {
    forall j | 0 <= j < |v|
      ensures CanonicalAt(db1, h + 1 - |v| + j) == Some(v[j].block)
    {
      assert Agrees(db1, p, h + 1 - |v| + j);
    }
  }

  lemma SuffixUnmoved(s: System, p: Provider, i0: nat, h: nat, db1: Db)
    requires s.db.best.Some? && SuffixOfCanonical(s.db, s.view, i0) && NothingAbove(s.db)
    requires h == |p.chain| - 1 && IsChain(p.chain) && i0 <= h && s.db.best.value.number <= h
    requires forall n: nat :: i0 <= n <= h ==> Agrees(s.db, p, n)
    requires Repaired(s.db, db1, p, i0, h) && db1.best == Some(p.chain[h])
    ensures SuffixOfCanonical(db1, s.view, i0)
  {
    assert Agrees(s.db, p, h);
    assert s.db.best.value.number == h;
    forall j | 0 <= j < |s.view|
      ensures CanonicalAt(db1, h + 1 - |s.view| + j) == Some(s.view[j].block)
    {
      assert CanonicalAt(s.db, h + 1 - |s.view| + j) == Some(s.view[j].block);
      assert Agrees(s.db, p, h + 1 - |s.view| + j);
    }
  }

  lemma EventKeepsInStep(u: iset<Block>, s: System, e: Event, init: Hash, i0: nat)
    requires InStep(u, s, init, i0) && GoodEvent(u, s.db, e, init, i0)
    ensures Step(s, e, init).Some? && InStep(u, Step(s, e, init).value, init, i0)
  {
    if CatchesUp(s.db, e) {
      CatchUpKeepsInStep(u, s, e.p, init, i0, Sync(s.db, e.p, init, BestOf(e.p), |e.p.chain| + 1));
    } else if Extends(s.db, e.block) {
      ExtendKeepsTracking(u, s, e.p, e.block, init, i0);
    } else {
      IgnoreKeepsTracking(u, s, e.p, e.block, init, i0);
    }
  }

  /** In every run of start-up rounds and received blocks, the view never fails its assert on
      consecutive blocks, and it is always empty or a suffix of the canonical chain that ends at
      the best block. */
  lemma {:induction false} ViewFollowsCanonicalChain(u: iset<Block>, s: System, events: seq<Event>, init: Hash, i0: nat)
    requires InStep(u, s, init, i0)
    requires forall i :: 0 <= i < |events| ==> ValidProvider(events[i].p)
    requires GoodRun(u, s, events, init, i0)
    ensures Run(s, events, init).Some? && InStep(u, Run(s, events, init).value, init, i0)
    decreases |events|
  {
    if events != [] {
      EventKeepsInStep(u, s, events[0], init, i0);
      ViewFollowsCanonicalChain(u, Step(s, events[0], init).value, events[1..], init, i0);
    }
  }

  /** A fresh store that was given the initial block, with an empty view, is where runs start. */
  lemma FreshStart(u: iset<Block>, initial: Block)
    requires World(u) && initial in u
    ensures var db := SaveAsCanonical(Db(map[], map[], None, None), initial).(best := Some(initial));
            InStep(u, System(db, []), initial.hash, initial.number)
  {
  }

  /** After a catch-up the two are in step exactly when the node's chain was not shorter than the
      stored one: a shorter chain leaves stored heights above the new best block. */
  lemma CatchUpNeedsNoShorterChain(u: iset<Block>, s: System, p: Provider, init: Hash, i0: nat)
    requires InStep(u, s, init, i0) && ProviderOk(u, p)
    requires i0 < |p.chain| && p.chain[i0].hash == init
    ensures var r := Step(s, Round(p), init);
            (r.Some? && InStep(u, r.value, init, i0)) <==> s.db.best.value.number < |p.chain|
  {
    var h := |p.chain| - 1;
    var w := Sync(s.db, p, init, BestOf(p), |p.chain| + 1);
    if s.db.best.value.number < |p.chain| {
      CatchUpKeepsInStep(u, s, p, init, i0, w);
    } else {
      ReadyWhenTracking(u, s, p, init, i0, h);
      BackwardSyncRepairs(u, s.db, p, init, i0, h, |p.chain| + 1);
      assert CanonicalAt(w.db, s.db.best.value.number) == s.db.best;
      assert !NothingAbove(w.db);
    }
  }

  /** The visible harm: when the node falls back to a strict prefix of the stored chain, nothing is
      sent, and the view keeps a tip above the new best block. */
  lemma ShorterChainStrandsView(u: iset<Block>, s: System, p: Provider, init: Hash, i0: nat)
    requires InStep(u, s, init, i0) && ProviderOk(u, p) && s.view != []
    requires i0 < |p.chain| <= s.db.best.value.number && p.chain[i0].hash == init
    requires forall n: nat :: i0 <= n < |p.chain| ==> Agrees(s.db, p, n)
    ensures var r := Step(s, Round(p), init);
            && r.Some? && r.value.view == s.view && r.value.db.best.Some?
            && Tip(r.value.view).block.number > r.value.db.best.value.number
  {
    var h := |p.chain| - 1;
    ReadyWhenTracking(u, s, p, init, i0, h);
    BackwardSyncRepairs(u, s.db, p, init, i0, h, |p.chain| + 1);
    NothingChanged(s.db, p, i0, h);
    var w := Emit(s.db, Round(p), init);
    assert w.found == [] && w.db.best == Some(p.chain[h]);
    assert Feed(s.view, w.found) == Updated(s.view, []);
    TipIsBest(u, s, init, i0);
  }

  lemma TipIsBest(u: iset<Block>, s: System, init: Hash, i0: nat)
    requires Tracks(u, s, init, i0) && s.view != []
    ensures Tip(s.view).block.number == s.db.best.value.number
  {
    SuffixIsContiguous(u, s, init, i0);
  }

  /** What a received block does, spelled out. On top of the best block it is recorded, made best and
      sent. Otherwise, when it is higher or has more total difficulty, the store is brought to the
      node's tip and exactly what changed is sent. Otherwise it is only stored under its hash. */
  lemma ReceivedBlock(u: iset<Block>, s: System, p: Provider, b: Block, init: Hash, i0: nat, alive: nat)
    requires Tracks(u, s, init, i0) && ProviderOk(u, p) && b in u
    requires i0 < |p.chain| && p.chain[i0].hash == init && alive > |p.chain| - i0
    ensures var w, best, tip := Listen(s.db, p, init, b, alive), s.db.best.value, p.chain[|p.chain| - 1];
            if b.parent == best.hash then
              && w.db.best == Some(b) && w.found == [ItemOf(p, b)] && w.db.checkpoint == s.db.checkpoint
              && (forall n: nat :: CanonicalAt(w.db, n) == if n == b.number then Some(b) else CanonicalAt(s.db, n))
            else if b.number > best.number || b.totalDifficulty > best.totalDifficulty then
              && w.db.best == Some(tip) && w.db.checkpoint.None? && w.found == Changed(s.db, p, i0, tip.number)
              && (forall n: nat :: CanonicalAt(w.db, n) ==
                    if i0 <= n < |p.chain| then Some(p.chain[n]) else CanonicalAt(s.db, n))
            else
              && w.db.best == s.db.best && w.found == [] && w.db.checkpoint == s.db.checkpoint
              && (forall n: nat :: CanonicalAt(w.db, n) == CanonicalAt(s.db, n))
              && (forall h: Hash :: BlockByHash(w.db, h) == if h == b.hash then Some(b) else BlockByHash(s.db, h))
  {
    hide Sync, Changed, Linked;
    if b.parent == s.db.best.value.hash {
      RecordKeeps(u, s.db, p, b);
      var rec, w := Record(s.db, ItemOf(p, b)), Listen(s.db, p, init, b, alive);
      assert forall n: nat :: CanonicalAt(w.db, n) == CanonicalAt(rec, n);
    } else if NeedsCatchUp(s.db, b) {
      ReadyWhenTracking(u, s, p, init, i0, |p.chain| - 1);
      BackwardSyncRepairs(u, s.db, p, init, i0, |p.chain| - 1, alive);
    } else {
      SaveKeeps(u, s.db, b);
    }
  }
}
