/** The block indexer itself (crates/block-indexer/src/indexer.rs), step by step over the cached
    store, proved to do what the functions of BackwardSync, Resume and Pipeline say. */
module BlockIndexer {
  import opened Common
  import opened Chain
  import opened BlockStore
  import opened BackwardSync
  import opened Resume
  import opened Pipeline

  ghost predicate Reversed(a: seq<Item>, b: seq<Item>) {
    |a| == |b| && forall i :: 0 <= i < |a| ==> a[i] == b[|a| - 1 - i]
  }

  class BlockIndexer {
    const store: CachedBlockStore
    const initialHash: Hash
    /** What went into the channel to the consumer. */
    var sent: seq<Item>
    /** The rounds a start-up allows: `1..max_attempts` with ten attempts. */
    const rounds: nat
    ghost const world: iset<Block>

    ghost predicate Valid()
      reads this, store
    {
      store.Valid() && World(world) && DbOk(world, store.db)
    }

    constructor (store: CachedBlockStore, initialHash: Hash, ghost world: iset<Block>)
      requires store.Valid() && World(world) && DbOk(world, store.db)
      ensures Valid() && this.store == store && this.initialHash == initialHash && this.world == world
      ensures sent == [] && rounds == 9
    {
      this.store, this.initialHash, this.world, this.sent := store, initialHash, world, [];
      rounds := 9;
    }

    method SaveOne(b: Block)
      requires Valid() && b in world
      modifies store
      ensures Valid() && store.db == SaveBlock(old(store.db), b)
    {
      SaveKeeps(world, store.db, b);
      store.Save(b);
    }

    method ProcessUncleBlocks(p: Provider, b: Block) returns (uncles: seq<Block>)
      requires Valid() && ProviderOk(world, p)
      modifies store
      ensures Valid() && store.db == SaveAll(old(store.db), uncles)
      ensures uncles == ItemOf(p, b).uncles
    {
      uncles := [];
      for i := 0 to |b.uncles|
        invariant Valid() && store.db == SaveAll(old(store.db), uncles)
        invariant uncles == UnclesUpTo(p, b, i)
      {
        if (b.hash, i) in p.uncles {
          var uncle := p.uncles[(b.hash, i)];
          if uncle.hash in b.uncles {
            SaveOne(uncle);
            assert (uncles + [uncle])[..|uncles|] == uncles;
            uncles := uncles + [uncle];
          }
        }
      }
    }

    method SaveCanonical(b: Block)
      requires Valid() && b in world
      modifies store
      ensures Valid() && store.db == SaveAsCanonical(old(store.db), b)
    {
      SaveOne(b);
      SetCanonicalKeeps(world, store.db, b);
      store.SetCanonicalBlock(b);
    }

    method RecordBlock(p: Provider, b: Block) returns (uncles: seq<Block>)
      requires Valid() && ProviderOk(world, p) && b in world
      modifies store
      ensures Valid() && store.db == Record(old(store.db), ItemOf(p, b))
      ensures uncles == ItemOf(p, b).uncles
    {
      uncles := ProcessUncleBlocks(p, b);
      SaveCanonical(b);
    }

    /** Sends what was collected from the top down, lowest block first. */
    method NotifyInReverse(toNotify: seq<Item>, ghost found: seq<Item>)
      requires Reversed(found, toNotify)
      modifies this`sent
      ensures sent == old(sent) + found
    {
      var i := |toNotify|;
      while 0 < i
        invariant 0 <= i <= |toNotify|
        invariant sent == old(sent) + found[..|toNotify| - i]
      {
        i := i - 1;
        sent := sent + [toNotify[i]];
        assert found[..|toNotify| - i] == found[..|toNotify| - i - 1] + [toNotify[i]];
      }
      assert found[..|toNotify|] == found;
    }

    /** One iteration: what the store has at the height of `b`, and the repair if it differs. */
    method Visit(p: Provider, b: Block) returns (changed: bool, item: Item)
      requires Valid() && ProviderOk(world, p) && b in world
      modifies store
      ensures Valid() && store.db == AfterVisit(old(store.db), p, b)
      ensures changed == Differs(old(store.db), b)
      ensures Finding(old(store.db), p, b) == if changed then [item] else []
    {
      var storeBlock := store.GetCanonical(b.number);
      var isMissing := storeBlock.None?;
      var isReorg := storeBlock.Some? && storeBlock.value.hash != b.hash;
      changed, item := isMissing || isReorg, Item(b, []);
      if changed {
        var uncles := RecordBlock(p, b);
        item := Item(b, uncles);
      }
    }

    /** The loop of a backward sync; the blocks to notify are collected from the top down. */
    method WalkDown(p: Provider, starting: Block, best: nat, flag: nat)
      returns (toNotify: seq<Item>, ghost found: seq<Item>, ended: Ended, alive: nat)
      requires Valid() && ProviderOk(world, p) && starting in world
      modifies store
      ensures Valid() && Walk(store.db, found, ended, alive)
                      == WalkBack(old(store.db), p, initialHash, starting, best, flag, [])
      ensures Reversed(found, toNotify)
    {
      hide Record, World, DbOk, ItemOf;
      toNotify, found, alive := [], [], flag;
      var newBlock := starting;
      ghost var w := WalkBack(store.db, p, initialHash, starting, best, flag, []);
      while true
        invariant Valid() && newBlock in world && Reversed(found, toNotify)
        invariant w == WalkBack(store.db, p, initialHash, newBlock, best, alive, found)
        decreases newBlock.number
      {
        ghost var finding := Finding(store.db, p, newBlock);
        var changed, item := Visit(p, newBlock);
        assert changed || finding + found == found;
        found := finding + found;
        if changed {
          toNotify := toNotify + [item];
        } else if newBlock.number <= best {
          return toNotify, found, Completed, alive;
        }
        if alive == 0 {
          CheckpointKeepsDbOk(world, store.db, Some(newBlock));
          store.SetCheckpoint(Some(newBlock));
          return toNotify, found, Interrupted, 0;
        }
        alive := alive - 1;
        if initialHash == newBlock.hash || newBlock.number == 0 {
          return toNotify, found, Aborted, alive;
        }
        newBlock := NextDown(p, newBlock.number - 1);
      }
    }

    /** One backward sync; `flag` counts how often the shutdown flag will still be found off. */
    method BackwardSync(p: Provider, starting: Block, flag: nat) returns (ended: Ended, alive: nat)
      requires Valid() && ProviderOk(world, p) && starting in world
      modifies this`sent, store
      ensures Valid()
      ensures var s := Sync(old(store.db), p, initialHash, starting, flag);
              s == Walk(store.db, s.found, ended, alive) && sent == old(sent) + s.found
    {
      hide WalkBack, World, DbOk;
      if flag == 0 {
        return Skipped, 0;
      }
      var storeBest := store.GetBest();
      if storeBest.None? {
        return NoBest, flag - 1;
      }
      var toNotify;
      ghost var found;
      toNotify, found, ended, alive := WalkDown(p, starting, storeBest.value.number, flag - 1);
      if ended.Completed? {
        Complete(starting, toNotify, found);
      }
    }

    /** The end of a completed walk: no checkpoint, a new best block, and the consumer is told. */
    method Complete(starting: Block, toNotify: seq<Item>, ghost found: seq<Item>)
      requires Valid() && starting in world && Reversed(found, toNotify)
      modifies this`sent, store
      ensures Valid() && store.db == old(store.db).(checkpoint := None, best := Some(starting))
      ensures sent == old(sent) + found
    {
      DbOkSame(world, store.db, store.db.(checkpoint := None, best := Some(starting)));
      store.SetCheckpoint(None);
      store.SetBest(starting);
      NotifyInReverse(toNotify, found);
    }

    method ResumePendingBackwardSync(p: Provider, flag: nat) returns (ended: Ended, alive: nat)
      requires Valid() && ProviderOk(world, p)
      modifies this`sent, store
      ensures Valid()
      ensures var r := ResumePending(old(store.db), p, initialHash, flag);
              store.db == r.db && sent == old(sent) + r.found && ended == r.ended && alive == r.alive
    {
      ended, alive := Skipped, flag;
      if store.db.checkpoint.Some? {
        var parent := BlockOf(p, store.db.checkpoint.value.parent);
        if parent.Some? {
          ended, alive := BackwardSync(p, parent.value, flag);
        }
      }
    }

    method FullSyncBackwardSyncs(p: Provider, flag: nat) returns (result: Result, alive: nat)
      requires Valid() && ProviderOk(world, p)
      modifies this`sent, store
      ensures Valid()
      ensures var f := FullSync(old(store.db), p, initialHash, flag, rounds);
              store.db == f.db && sent == old(sent) + f.sent && result == f.result && alive == f.alive
    {
      alive := flag;
      ghost var f := FullSync(store.db, p, initialHash, flag, rounds);
      ghost var told: seq<Item> := [];
      var i := 1;
      while i <= rounds
        invariant 1 <= i <= rounds + 1 && Valid() && sent == old(sent) + told
        invariant var rest := FullSync(store.db, p, initialHash, alive, rounds + 1 - i);
                  f == rest.(sent := told + rest.sent)
      {
        ghost var rest := FullSync(store.db, p, initialHash, alive, rounds + 1 - i);
        var providerBest := BestOf(p);
        var storeBest := store.GetBest();
        if storeBest.Some? {
          if providerBest.hash == storeBest.value.hash {
            assert told + [] == told;
            return Finished, alive;
          }
          if alive == 0 {
            assert told + [] == told;
            return Stopped, 0;
          }
          ghost var s := Sync(store.db, p, initialHash, providerBest, alive - 1);
          var _, left := BackwardSync(p, providerBest, alive - 1);
          alive := left;
          ghost var after := FullSync(s.db, p, initialHash, s.alive, rounds - i);
          assert told + (s.found + after.sent) == (told + s.found) + after.sent;
          told := told + s.found;
        }
        i := i + 1;
      }
      assert told + [] == told;
      result := Failed;
    }

    method StartupBackwardSync(p: Provider, flag: nat) returns (result: Result, alive: nat)
      requires Valid() && ProviderOk(world, p)
      modifies this`sent, store
      ensures Valid()
      ensures var s := Startup(old(store.db), p, initialHash, flag, rounds);
              store.db == s.db && sent == old(sent) + s.sent && result == s.result && alive == s.alive
    {
      hide ResumePending, FullSync, World, DbOk;
      var ended, left := ResumePendingBackwardSync(p, flag);
      if ended.NoBest? {
        return Failed, left;
      }
      result, alive := FullSyncBackwardSyncs(p, left);
    }

    /** One block from the subscription. */
    method ListenOne(p: Provider, b: Block, flag: nat) returns (ended: Ended, alive: nat)
      requires Valid() && ProviderOk(world, p) && b in world
      modifies this`sent, store
      ensures Valid()
      ensures var w := Listen(old(store.db), p, initialHash, b, flag);
              store.db == w.db && sent == old(sent) + w.found && ended == w.ended && alive == w.alive
    {
      var localBest := store.GetBest();
      if localBest.None? {
        return NoBest, flag;
      }
      var extendsCanonical := b.parent == localBest.value.hash;
      var needsCatchUp := b.number > localBest.value.number || b.totalDifficulty > localBest.value.totalDifficulty;
      if extendsCanonical {
        var uncles := ProcessUncleBlocks(p, b);
        sent := sent + [Item(b, uncles)];
        SaveCanonical(b);
        DbOkSame(world, store.db, store.db.(best := Some(b)));
        store.SetBest(b);
        ended, alive := Completed, flag;
      } else if needsCatchUp {
        ended, alive := BackwardSync(p, BestOf(p), flag);
      } else {
        SaveOne(b);
        ended, alive := Completed, flag;
      }
    }
  }
}
