/** When exactly the view of the coordinator follows the canonical chain. There are two ways for the
    blocks it is sent to have a gap (crates/block-indexer/src/indexer.rs): a sync to a shorter chain
    leaves stored heights above the new best block, which a later sync does not send again; and a
    stopped sync leaves recorded blocks above its checkpoint, which the resumed one does not send. */
module ViewGaps {
  import opened Common
  import opened Chain
  import opened BlockStore
  import opened BackwardSync
  import opened Resume
  import opened ChainView
  import opened Pipeline

  /** The sync is told apart by three things a caller can look up: where the store first differs from
      the node, whether it differs from there to the tip, and where the view ends. */
  ghost predicate SyncFits(s: System, p: Provider, i0: nat)
    requires s.db.best.Some? && i0 < |p.chain|
  {
    var d, best := FirstChange(s.db, p, i0, |p.chain|), s.db.best.value.number;
    if d == |p.chain| then s.view == [] || best == |p.chain| - 1
    else (s.view == [] || d <= best + 1) && forall n: nat :: d <= n < |p.chain| ==> !Agrees(s.db, p, n)
  }

  /** A block more than one above the tip of the view is a failed assert. */
  lemma TooHighPanics(v: seq<Item>, item: Item, more: seq<Item>)
    requires Contiguous(v) && v != [] && item.block.number > Tip(v).block.number + 1
    ensures Feed(v, [item] + more).Panicked?
  {
    AtContiguous(v, item.block.number);
    ContiguousHeights(v, 0, |v| - 1);
    assert ([item] + more)[0] == item;
  }

  lemma {:induction false} ChangedHead(db: Db, p: Provider, lo: nat, m: nat, hi: nat)
    requires lo <= m <= hi < |p.chain| && !Agrees(db, p, m)
    requires forall n: nat :: lo <= n < m ==> Agrees(db, p, n)
    ensures Changed(db, p, lo, hi) != [] && Changed(db, p, lo, hi)[0] == ItemOf(p, p.chain[m])
    decreases hi
  {
    if m < hi {
      ChangedHead(db, p, lo, m, hi - 1);
    } else {
      NothingChanged(db, p, lo, m - 1);
    }
  }

  lemma OnChainIsContiguous(p: Provider, v: seq<Item>, i0: nat, h: nat)
    requires ValidProvider(p) && OnChain(p, v, i0, h)
    ensures Contiguous(v) && Tip(v).block.number == h
  {
    forall i | 0 < i < |v|
      ensures Follows(v[i].block, v[i - 1].block)
    {
      assert FollowsAt(p.chain, h + 1 - |v| + i);
    }
  }

  /** Blocks that follow a gap: the view either fails, or is sent nothing and stays behind. */
  lemma AfterGap(db: Db, p: Provider, v: seq<Item>, i0: nat, e: nat)
    requires ValidProvider(p) && 0 < e < |p.chain| && OnChain(p, v, i0, e - 1) && Agrees(db, p, e)
    ensures var rest := Changed(db, p, e, |p.chain| - 1);
            if exists m :: e < m < |p.chain| && !Agrees(db, p, m) then Feed(v, rest).Panicked?
            else Feed(v, rest) == Updated(v, [])
  {
    hide Feed, Agrees;
    var m := FirstChange(db, p, e, |p.chain|);
    var rest := Changed(db, p, e, |p.chain| - 1);
    if m < |p.chain| {
      ChangedHead(db, p, e, m, |p.chain| - 1);
      OnChainIsContiguous(p, v, i0, e - 1);
      assert rest == [rest[0]] + rest[1..];
      TooHighPanics(v, rest[0], rest[1..]);
    } else {
      NothingChanged(db, p, e, |p.chain| - 1);
      FeedNothing(v);
    }
  }

  lemma FeedNothing(v: seq<Item>)
    ensures Feed(v, []) == Updated(v, [])
  {
  }

  /** The first height at or above `lo` at which store and node agree, or the end of the chain. */
  function FirstAgreement(db: Db, p: Provider, lo: nat): (e: nat)
    requires lo <= |p.chain|
    ensures lo <= e <= |p.chain| && (e < |p.chain| ==> Agrees(db, p, e))
    ensures forall n: nat :: lo <= n < e ==> !Agrees(db, p, n)
    decreases |p.chain| - lo
  {
    if lo == |p.chain| || Agrees(db, p, lo) then lo else FirstAgreement(db, p, lo + 1)
  }

  /** What the view makes of a sync from the first difference `d` and the first agreement `e` after
      it on: it takes the stretch in between, if that is not out of its reach, and then the rest. */
  lemma FeedInStretches(u: iset<Block>, s: System, p: Provider, init: Hash, i0: nat, d: nat, e: nat)
    returns (v: seq<Item>)
    requires Forks(u, s, p, init, i0, d)
    requires d < e <= |p.chain| && forall n: nat :: d <= n < e ==> !Agrees(s.db, p, n)
    ensures OnChain(p, v, i0, e - 1)
    ensures e == |p.chain| ==>
      var all := Feed(s.view, Changed(s.db, p, i0, |p.chain| - 1));
      all.Updated? && all.view == v
    ensures e < |p.chain| ==>
      var all, rest := Feed(s.view, Changed(s.db, p, i0, |p.chain| - 1)), Feed(v, Changed(s.db, p, e, |p.chain| - 1));
      (all.Updated? <==> rest.Updated?) && (all.Updated? ==> all.view == rest.view)
  {
    hide Feed, Agrees, Tracks;
    FirstOfBranch(u, s, p, init, i0, d);
    FeedBranch(p, s.view, i0, d, e - 1);
    ChangedIsTail(s.db, p, i0, d, e - 1);
    v := Feed(s.view, Tail(p, d, e - 1)).view;
    if e < |p.chain| {
      ChangedSplit(s.db, p, i0, e, |p.chain| - 1);
      FeedInTwo(s.view, Tail(p, d, e - 1), Changed(s.db, p, e, |p.chain| - 1));
    }
  }

  /** The first block sent is out of reach of the view. */
  lemma OutOfReachPanics(u: iset<Block>, s: System, p: Provider, init: Hash, i0: nat, d: nat)
    requires Tracks(u, s, init, i0) && ValidProvider(p) && s.view != []
    requires i0 <= d < |p.chain| && d > s.db.best.value.number + 1
    requires !Agrees(s.db, p, d) && forall n: nat :: i0 <= n < d ==> Agrees(s.db, p, n)
    ensures Feed(s.view, Changed(s.db, p, i0, |p.chain| - 1)).Panicked?
  {
    hide Feed, Agrees;
    var found := Changed(s.db, p, i0, |p.chain| - 1);
    ChangedHead(s.db, p, i0, d, |p.chain| - 1);
    SuffixIsContiguous(u, s, init, i0);
    assert found == [found[0]] + found[1..];
    TooHighPanics(s.view, found[0], found[1..]);
  }

  // ---- one sync ----

  /** The view panics in a sync. */
  ghost predicate Breaks(s: System, p: Provider, i0: nat)
    requires s.db.best.Some? && i0 < |p.chain|
  {
    var d := FirstChange(s.db, p, i0, |p.chain|);
    && d < |p.chain|
    && (|| (s.view != [] && d > s.db.best.value.number + 1)
        || exists e, m :: d < e < m < |p.chain| && Agrees(s.db, p, e) && !Agrees(s.db, p, m))
  }

  /** A sync from a state in which the view follows the store: it panics exactly when the blocks to
      send start out of reach or have a gap, and the view follows the store again exactly when it
      fits. */
  lemma FeedAfterSync(u: iset<Block>, s: System, p: Provider, init: Hash, i0: nat, db1: Db)
    requires Tracks(u, s, init, i0) && ProviderOk(u, p) && i0 < |p.chain| && p.chain[i0].hash == init
    requires Repaired(s.db, db1, p, i0, |p.chain| - 1) && db1.best == Some(BestOf(p)) && DbOk(u, db1)
    ensures var f := Feed(s.view, Changed(s.db, p, i0, |p.chain| - 1));
            && (f.Panicked? <==> Breaks(s, p, i0))
            && (f.Updated? && SuffixOfCanonical(db1, f.view, i0) <==> SyncFits(s, p, i0))
  {
    hide Feed, Agrees;
    ReadyWhenTracking(u, s, p, init, i0, i0);
    var h, d := |p.chain| - 1, FirstChange(s.db, p, i0, |p.chain|);
    if d == |p.chain| {
      NothingChanged(s.db, p, i0, h);
      FeedNothing(s.view);
      UnmovedFits(u, s, p, init, i0, db1);
    } else if s.view != [] && d > s.db.best.value.number + 1 {
      OutOfReachPanics(u, s, p, init, i0, d);
    } else {
      StretchFits(u, s, p, init, i0, d, db1);
    }
  }

  /** A view with its tip at another height than the best block is not a suffix that ends there. */
  lemma EndsElsewhere(u: iset<Block>, db: Db, v: seq<Item>, i0: nat)
    requires DbOk(u, db) && db.best.Some? && v != [] && Tip(v).block.number != db.best.value.number
    ensures !SuffixOfCanonical(db, v, i0)
  {
    var best := db.best.value.number;
    if CanonicalAt(db, best) == Some(Tip(v).block) {
      StoredInWorld(u, db, best);
      assert false;
    }
    if |v| + i0 <= best {
      assert CanonicalAt(db, best + 1 - |v| + (|v| - 1)) != Some(v[|v| - 1].block);
    }
  }

  lemma UnmovedFits(u: iset<Block>, s: System, p: Provider, init: Hash, i0: nat, db1: Db)
    requires Tracks(u, s, init, i0) && ValidProvider(p) && i0 < |p.chain|
    requires db1.best == Some(BestOf(p)) && DbOk(u, db1) && Repaired(s.db, db1, p, i0, |p.chain| - 1)
    requires forall n: nat :: i0 <= n < |p.chain| ==> Agrees(s.db, p, n)
    ensures SuffixOfCanonical(db1, s.view, i0) <==> s.view == [] || s.db.best.value.number == |p.chain| - 1
  {
    var h, best := |p.chain| - 1, s.db.best.value.number;
    if s.view != [] {
      SuffixIsContiguous(u, s, init, i0);
      if best == h {
        forall j | 0 <= j < |s.view|
          ensures CanonicalAt(db1, h + 1 - |s.view| + j) == Some(s.view[j].block)
        {
          assert CanonicalAt(s.db, best + 1 - |s.view| + j) == Some(s.view[j].block);
          assert Agrees(s.db, p, h + 1 - |s.view| + j);
        }
      } else {
        EndsElsewhere(u, db1, s.view, i0);
      }
    }
  }

  lemma StretchFits(u: iset<Block>, s: System, p: Provider, init: Hash, i0: nat, d: nat, db1: Db)
    requires Tracks(u, s, init, i0) && ProviderOk(u, p) && i0 < d < |p.chain|
    requires d == FirstChange(s.db, p, i0, |p.chain|) && (s.view == [] || d <= s.db.best.value.number + 1)
    requires Repaired(s.db, db1, p, i0, |p.chain| - 1) && db1.best == Some(BestOf(p)) && DbOk(u, db1)
    ensures var f := Feed(s.view, Changed(s.db, p, i0, |p.chain| - 1));
            && (f.Panicked? <==> Breaks(s, p, i0))
            && (f.Updated? && SuffixOfCanonical(db1, f.view, i0) <==> SyncFits(s, p, i0))
  {
    hide Feed, Agrees, Repaired, DbOk, Changed, SuffixOfCanonical;
    var e := FirstAgreement(s.db, p, d);
    var v := FeedInStretches(u, s, p, init, i0, d, e);
    if e == |p.chain| {
      AllThere(p, v, i0, db1, s.db);
    } else {
      OnChainIsContiguous(p, v, i0, e - 1);
      AfterGap(s.db, p, v, i0, e);
      EndsElsewhere(u, db1, v, i0);
    }
  }

  lemma AllThere(p: Provider, v: seq<Item>, i0: nat, db1: Db, db: Db)
    requires ValidProvider(p) && OnChain(p, v, i0, |p.chain| - 1)
    requires Repaired(db, db1, p, i0, |p.chain| - 1) && db1.best == Some(BestOf(p))
    ensures SuffixOfCanonical(db1, v, i0)
  {
    SuffixFromChain(db1, p, v, i0, |p.chain| - 1);
  }

  lemma SyncTracks(u: iset<Block>, s: System, p: Provider, init: Hash, i0: nat, w: Walk)
    requires Tracks(u, s, init, i0) && ProviderOk(u, p) && i0 < |p.chain| && p.chain[i0].hash == init
    requires w == Sync(s.db, p, init, BestOf(p), |p.chain| + 1)
    ensures Repaired(s.db, w.db, p, i0, |p.chain| - 1) && w.db.best == Some(BestOf(p))
    ensures var f := Feed(s.view, w.found);
            && (f.Panicked? <==> Breaks(s, p, i0))
            && (f.Updated? && Tracks(u, System(w.db, f.view), init, i0) <==> SyncFits(s, p, i0))
  {
    hide Feed, Sync, Breaks, SyncFits, SuffixOfCanonical;
    var h := |p.chain| - 1;
    ReadyWhenTracking(u, s, p, init, i0, h);
    BackwardSyncRepairs(u, s.db, p, init, i0, h, |p.chain| + 1);
    FeedAfterSync(u, s, p, init, i0, w.db);
    AgreementIsLinked(w.db, p, i0, h);
  }

  /** For a store without leftover heights: no panic yet, and the view follows the store after the
      sync if and only if the node's chain is not shorter, or differs from the stored one, or there
      is no view yet. */
  lemma ViewAfterSync(u: iset<Block>, s: System, p: Provider, init: Hash, i0: nat)
    requires InStep(u, s, init, i0) && ProviderOk(u, p) && i0 < |p.chain| && p.chain[i0].hash == init
    ensures var r := Step(s, Round(p), init);
            && r.Some? && r.value.db.best.Some?
            && (SuffixOfCanonical(r.value.db, r.value.view, i0) <==>
                || s.db.best.value.number < |p.chain|
                || s.view == []
                || exists n: nat :: i0 <= n < |p.chain| && !Agrees(s.db, p, n))
  {
    hide Feed, Sync, SuffixOfCanonical, Agrees, Changed;
    var h := |p.chain| - 1;
    var w := Sync(s.db, p, init, BestOf(p), |p.chain| + 1);
    ReadyWhenTracking(u, s, p, init, i0, h);
    BackwardSyncRepairs(u, s.db, p, init, i0, h, |p.chain| + 1);
    FeedAfterSync(u, s, p, init, i0, w.db);
    FeedChanged(u, s, p, init, i0, w.found);
    var d := ChangedFromFork(u, s, p, init, i0);
    FitsWithoutLeftovers(u, s, p, init, i0);
  }

  lemma FitsWithoutLeftovers(u: iset<Block>, s: System, p: Provider, init: Hash, i0: nat)
    requires InStep(u, s, init, i0) && ProviderOk(u, p) && i0 < |p.chain| && p.chain[i0].hash == init
    ensures SyncFits(s, p, i0) <==>
      || s.db.best.value.number < |p.chain|
      || s.view == []
      || exists n: nat :: i0 <= n < |p.chain| && !Agrees(s.db, p, n)
  {
    var d, h := FirstChange(s.db, p, i0, |p.chain|), |p.chain| - 1;
    if d < |p.chain| {
      DivergesForGood(u, s.db, p, i0, d);
      ForkIsNotAbove(s.db, p, i0, d);
    } else {
      assert Agrees(s.db, p, h);
      assert CanonicalAt(s.db, h).Some? && h <= s.db.best.value.number;
    }
  }

  // ---- runs ----

  /** The node's chain holds the initial block, and what it announces is one of the world's blocks. */
  ghost predicate Sane(u: iset<Block>, e: Event, init: Hash, i0: nat) {
    && ProviderOk(u, e.p) && i0 < |e.p.chain| && e.p.chain[i0].hash == init
    && (e.NewBlock? ==> e.block in u)
  }

  ghost predicate AllSane(u: iset<Block>, events: seq<Event>, init: Hash, i0: nat) {
    forall i :: 0 <= i < |events| ==> Sane(u, events[i], init, i0)
  }

  /** The view follows the store before the run and after every event of it. */
  ghost predicate TracksAll(u: iset<Block>, s: System, events: seq<Event>, init: Hash, i0: nat)
    requires AllSane(u, events, init, i0)
    decreases |events|
  {
    Tracks(u, s, init, i0) &&
    (events != [] ==>
       var r := Step(s, events[0], init);
       r.Some? && TracksAll(u, r.value, events[1..], init, i0))
  }

  ghost predicate AllFit(u: iset<Block>, s: System, events: seq<Event>, init: Hash, i0: nat)
    requires AllSane(u, events, init, i0)
    decreases |events|
  {
    events != [] ==>
      && (CatchesUp(s.db, events[0]) && s.db.best.Some? ==> SyncFits(s, events[0].p, i0))
      && var r := Step(s, events[0], init);
         r.Some? ==> AllFit(u, r.value, events[1..], init, i0)
  }

  lemma EventTracks(u: iset<Block>, s: System, e: Event, init: Hash, i0: nat)
    requires Tracks(u, s, init, i0) && Sane(u, e, init, i0)
    ensures var r := Step(s, e, init);
            r.Some? && Tracks(u, r.value, init, i0) <==> (CatchesUp(s.db, e) ==> SyncFits(s, e.p, i0))
  {
    hide Feed, Sync, SyncFits;
    if CatchesUp(s.db, e) {
      SyncTracks(u, s, e.p, init, i0, Sync(s.db, e.p, init, BestOf(e.p), |e.p.chain| + 1));
    } else if Extends(s.db, e.block) {
      ExtendKeepsTracking(u, s, e.p, e.block, init, i0);
    } else {
      IgnoreKeepsTracking(u, s, e.p, e.block, init, i0);
    }
  }

  /** Over every run: the view follows the canonical chain throughout, without a panic, if and only
      if every sync of the run fits. */
  lemma {:induction false} RunTracks(u: iset<Block>, s: System, events: seq<Event>, init: Hash, i0: nat)
    requires Tracks(u, s, init, i0) && AllSane(u, events, init, i0)
    ensures TracksAll(u, s, events, init, i0) <==> AllFit(u, s, events, init, i0)
    decreases |events|
  {
    hide Step, SyncFits;
    if events != [] {
      EventTracks(u, s, events[0], init, i0);
      var r := Step(s, events[0], init);
      if r.Some? && Tracks(u, r.value, init, i0) {
        RunTracks(u, r.value, events[1..], init, i0);
      }
    }
  }

  /** A node that goes over to a shorter branch and comes back to the old one, grown, makes the view
      panic: the second sync skips the heights that the first one left over. */
  lemma ThereAndBackPanics(u: iset<Block>, s: System, p: Provider, q: Provider, init: Hash, i0: nat, n0: nat)
    requires InStep(u, s, init, i0) && Sane(u, Round(p), init, i0) && Sane(u, Round(q), init, i0)
    requires |p.chain| <= s.db.best.value.number && i0 <= n0 < |p.chain| && !Agrees(s.db, p, n0)
    requires s.db.best.value.number + 1 < |q.chain|
    requires forall n: nat :: i0 <= n <= s.db.best.value.number ==> Agrees(s.db, q, n)
    ensures Run(s, [Round(p), Round(q)], init).None?
  {
    hide Feed, Sync, Breaks, SyncFits;
    var best := s.db.best.value.number;
    var w := Sync(s.db, p, init, BestOf(p), |p.chain| + 1);
    SyncTracks(u, s, p, init, i0, w);
    FitsWithoutLeftovers(u, s, p, init, i0);
    var s1 := System(w.db, Feed(s.view, w.found).view);
    LeftoversBreak(s.db, s1, p, q, i0, n0, best);
    SyncTracks(u, s1, q, init, i0, Sync(s1.db, q, init, BestOf(q), |q.chain| + 1));
    assert Step(s, Round(p), init) == Some(s1) && Step(s1, Round(q), init).None?;
    assert [Round(p), Round(q)][1..] == [Round(q)];
    assert Run(s1, [Round(q)], init).None?;
  }

  lemma LeftoversBreak(db: Db, s1: System, p: Provider, q: Provider, i0: nat, n0: nat, best: nat)
    requires s1.db.best.Some? && i0 <= n0 < |p.chain| <= best && best + 1 < |q.chain|
    requires Repaired(db, s1.db, p, i0, |p.chain| - 1) && !Agrees(db, p, n0)
    requires CanonicalAt(db, best + 1).None?
    requires forall n: nat :: i0 <= n <= best ==> Agrees(db, q, n)
    ensures Breaks(s1, q, i0)
  {
    assert Agrees(db, q, n0) && !Agrees(s1.db, q, n0);
    assert Agrees(db, q, |p.chain|) && Agrees(s1.db, q, |p.chain|);
    assert !Agrees(s1.db, q, best + 1);
  }

  /** A chain, and a block that forks off it at its genesis. */
  function Old(i: nat): Block {
    Block(i, i + 1, i, i, [])
  }

  const FORK := Block(1, 100, 1, 100, [])

  function OldChain(n: nat): (p: Provider)
    requires 0 < n
    ensures ValidProvider(p) && |p.chain| == n && forall i :: 0 <= i < n ==> p.chain[i] == Old(i)
  {
    var chain := seq(n, i requires 0 <= i < n => Old(i));
    assert forall i :: 0 < i < n ==> FollowsAt(chain, i);
    Provider(chain, map[], map[])
  }

  function ForkChain(): (p: Provider)
    ensures ValidProvider(p) && p.chain == [Old(0), FORK]
  {
    assert FollowsAt([Old(0), FORK], 1);
    Provider([Old(0), FORK], map[], map[])
  }

  ghost function Blocks(): iset<Block> {
    iset b: Block | b == FORK || (b.number < 50 && b == Old(b.number))
  }

  lemma SmallWorld()
    ensures World(Blocks()) && Old(0) in Blocks()
    ensures AllSane(Blocks(), [Round(OldChain(4)), Round(ForkChain()), Round(OldChain(5))], 1, 0)
  {
    var u := Blocks();
    assert World(u) by {
      assert forall a, b :: a in u && b in u ==> Compatible(a, b);
    }
  }

  /** And that can happen to a fresh store, within three syncs. */
  lemma ThereAndBackHappens()
    ensures exists u: iset<Block>, s: System, events: seq<Event>, init: Hash, i0: nat ::
      InStep(u, s, init, i0) && s.view == [] && AllSane(u, events, init, i0) && Run(s, events, init).None?
  {
    hide Feed, Sync, Run, World, Blocks, DbOk, Linked, Changed;
    var u, p, q, r := Blocks(), OldChain(4), ForkChain(), OldChain(5);
    var db := SaveAsCanonical(Db(map[], map[], None, None), Old(0)).(best := Some(Old(0)));
    var s := System(db, []);
    SmallWorld();
    FreshStart(u, Old(0));
    var events := [Round(p), Round(q), Round(r)];
    var s1 := FirstRound(u, s, p, q, r);
    ThereAndBackPanics(u, s1, q, r, 1, 0, 1);
    RunOn(s, s1, Round(p), [Round(q), Round(r)], events, 1);
  }

  lemma FirstRound(u: iset<Block>, s: System, p: Provider, q: Provider, r: Provider) returns (s1: System)
    requires InStep(u, s, 1, 0) && s.db.best == Some(Old(0)) && p == OldChain(4) && q == ForkChain() && r == OldChain(5)
    requires ProviderOk(u, p)
    ensures Step(s, Round(p), 1) == Some(s1) && InStep(u, s1, 1, 0)
    ensures s1.db.best.value.number == 3 && !Agrees(s1.db, q, 1)
    ensures forall n: nat :: n <= 3 ==> Agrees(s1.db, r, n)
  {
    hide Feed, Sync, World, DbOk, Linked, Changed;
    var w := Sync(s.db, p, 1, BestOf(p), |p.chain| + 1);
    CatchUpKeepsInStep(u, s, p, 1, 0, w);
    SyncTracks(u, s, p, 1, 0, w);
    s1 := System(w.db, Feed(s.view, w.found).view);
  }

  lemma RunOn(s: System, s1: System, e: Event, rest: seq<Event>, events: seq<Event>, init: Hash)
    requires forall i :: 0 <= i < |events| ==> ValidProvider(events[i].p)
    requires ValidProvider(e.p) && events == [e] + rest && Step(s, e, init) == Some(s1)
    requires forall i :: 0 <= i < |rest| ==> ValidProvider(rest[i].p)
    ensures Run(s, events, init) == Run(s1, rest, init)
  {
    assert events[1..] == rest;
  }

  // ---- stopped syncs ----

  /** A start that is stopped at height `c`, and a restart with an empty view: the view takes what it
      is sent, and then fails on the next block on top of the best one if and only if something below
      the checkpoint was missing or changed. */
  lemma StoppedSyncBreaksView(u: iset<Block>, db: Db, p: Provider, init: Hash, i0: nat, stop: nat, once: nat,
                              rounds: nat, b: Block)
    requires InStep(u, System(db, []), init, i0) && Grounded(u, db, p, init, i0) && db.checkpoint.None?
    requires db.best.value.hash != BestOf(p).hash
    requires 2 <= rounds && once > 2 * (|p.chain| - i0) + 1
    requires Sync(db, p, init, BestOf(p), stop).ended.Interrupted?
    requires b.number == |p.chain| && b.parent == BestOf(p).hash
    ensures var s := Sync(db, p, init, BestOf(p), stop);
            && s.db.checkpoint.Some? && i0 < s.db.checkpoint.value.number < |p.chain|
            && var c, resumed := s.db.checkpoint.value.number, Startup(s.db, p, init, once, rounds).sent;
            && Feed([], resumed).Updated?
            && (Feed([], resumed + [ItemOf(p, b)]).Panicked? <==> exists n: nat :: i0 <= n < c && !Agrees(db, p, n))
  {
    hide Feed, Sync, Startup, Agrees, DbOk, World, Linked, Changed;
    StopLosesNotices(u, db, p, init, i0, stop, once, rounds);
    var s := Sync(db, p, init, BestOf(p), stop);
    FeedBelow(u, db, p, init, i0, s.db.checkpoint.value.number, ItemOf(p, b));
  }

  lemma FeedBelow(u: iset<Block>, db: Db, p: Provider, init: Hash, i0: nat, c: nat, item: Item)
    requires InStep(u, System(db, []), init, i0) && Grounded(u, db, p, init, i0)
    requires i0 < c < |p.chain| && item.block.number == |p.chain|
    ensures var sent := Changed(db, p, i0, c - 1);
            && Feed([], sent).Updated?
            && (Feed([], sent + [item]).Panicked? <==> exists n: nat :: i0 <= n < c && !Agrees(db, p, n))
  {
    hide Feed, Agrees;
    var sent, d := Changed(db, p, i0, c - 1), FirstChange(db, p, i0, c);
    FeedInTwo([], sent, [item]);
    if d < c {
      ReadyWhenTracking(u, System(db, []), p, init, i0, d);
      DivergesForGood(u, db, p, i0, d);
      ChangedIsTail(db, p, i0, d, c - 1);
      FirstOfBranch(u, System(db, []), p, init, i0, d);
      FeedBranch(p, [], i0, d, c - 1);
      var v := Feed([], sent).view;
      OnChainIsContiguous(p, v, i0, c - 1);
      assert [item] + [] == [item];
      TooHighPanics(v, item, []);
    } else {
      NothingChanged(db, p, i0, c - 1);
      FeedNothing([]);
      AppendTip([], item);
    }
  }
}
