# A model of the Union bridge client

The Union bridge client follows the Rootstock chain for a two-way peg with Bitcoin. This project
models the parts of it that keep state over time or whose arithmetic matters, and proves what they
keep over every run:

- **The block pipeline.** The block indexer keeps a canonical chain in a database behind an LRU
  cache, repairs it by walking back from the node's tip, can be stopped at any iteration and resumes
  from a checkpoint. It feeds the chain view of the coordinator, which rolls back on reorganisations
  and tells its observers; confirmations are counted by one such observer and survive restarts as a
  snapshot. `Chain`, `BlockStore`, `BackwardSync`, `Resume`, `Notices`, `ChainChange`, `Pipeline`,
  `ViewGaps`, `BlockIndexer`, `ChainView` and `Confirmations` model this. The central results: a backward sync makes the canonical
  map equal to the node's chain at every height, also those it never visits, and sends exactly the
  changed blocks; any sequence of stops and restarts ends in the state of one uninterrupted start; and the
  view of the coordinator is a suffix of the canonical chain that ends at its best block over every
  run in which each sync meets an exact condition; as long as no chain of the node is shorter than
  the stored one, each does.
- **The fork check.** `Rlp`, `BlockHeader` and `CheckFork` model `check_fork`, which runs inside a
  zero-knowledge proof: it accepts exactly the well-formed forks and returns exactly their work; the
  header hash binds every committed field; the last hash of a fork binds all its headers, but not the
  work, which hangs on proof-of-work hashes that no header commits to.
- **The Bitcoin wallet.** `TxBuilder`, `WalletLedger`, `WalletRuns` and `Wallet` model coin selection,
  the fee loop and the books over registrations, commits, confirmations, fee-raising replacements and
  restarts: the list in memory is the available part of the store, the spent part is exactly the
  inputs of pending transactions, and value is conserved over every run.
- **Log recovery.** `LogRecovery` models the sweep over historical logs with a crash possible between
  any two writes: the checkpoint never promises a log that is not stored, so recovery is complete,
  and it moves up to the newest log.
- **Smaller machines.** `SlotBudget` (checked integer arithmetic of the slot budget), `FundingRequest`
  (a single-flight request shared by concurrent callers), `RetryTracker` (retries by ticks) and
  `WordCodec` (payloads in 32-byte words).

Objects that the code updates in place are classes whose methods are proved equal to specification
functions; the properties are proved about those functions. Conventions used throughout:

- Block hashes are compared and nothing else, so they are numbers. That no two blocks collide is a
  hypothesis (`Chain.World`) over the set of all blocks ever seen, which also says that a parent is
  one lower than its child and that no height reaches the end of `u64`.
- Keccak-256 is a parameter that returns 32 bytes. Absence of collisions is assumed only among the
  finite set of strings hashed for the headers at hand.
- The node is a chain that is fixed for the length of one sync round and may be another one in the
  next round.
- The shutdown flag is the number of times it will still be found off (`alive`), so a theorem for all
  values of it is a theorem about stopping at any iteration. `None`, `false`, `Panicked` and the like
  stand for the panics of the code.

## Where the code falls short of the obvious property

The exact condition is given in each case, and the failing side is shown to be met where that is not
plain.

- A sync to a node with a shorter chain leaves heights above the new best block in the store. If the
  shorter chain is a prefix of the stored one, the view keeps a tip above the best block; if it forks
  off, the view follows, but a later sync skips the leftover heights and sends blocks with a gap, and
  the view panics. `ViewGaps.ViewAfterSync` and `ViewGaps.RunTracks` say exactly when the view follows
  the canonical chain, over one sync and over every run; `ViewGaps.ThereAndBackPanics` is the panic.
- A sync that is stopped sends nothing, and the resumed one starts below what the stopped one had
  recorded. The store ends as after a straight start (`Resume.ResumeEquivalence`), but the consumer is
  told the same if and only if nothing from the checkpoint up was missing or changed
  (`Resume.StopLosesNotices`, and `Notices.EverythingSent` for any number of stops), and the view panics on the next block if and only if something below it
  was (`ViewGaps.StoppedSyncBreaksView`).
- A start after a stop can find the node on another chain. It ends with that chain in the store unless
  the node does not know the parent of the checkpoint, the checkpoint is not above the stored best
  block, and the node is at that best block or at a stored one between the two: then the blocks of the
  stopped sync stay in the store (`ChainChange.StartOnOtherChain`, `ChainChange.StrandingHappens`).
- A tracker restored onto an empty view leaves step with the uninterrupted one exactly on a
  re-delivered block that lies below what it holds (`Confirmations.StepKeepsInStep`). Otherwise the
  two count the same confirmations if and only if the stream brings some news or the observer had
  counted up to the tip (`Confirmations.RestoredCountsAgree`, `Confirmations.LateObserverDisagrees`).
- A replacement transaction drops the change of the original. The value is accounted for if and only
  if that change was still unspent (`WalletLedger.ReplaceValue`), and the books are kept if and only
  if no pending transaction spends it (`WalletLedger.ReplaceNeedsOldChange`); any payment from that
  change is enough (`WalletLedger.SpendingOldChange`). A replacement that cannot be built, at too high
  a rate for instance (`WalletLedger.TooHighRateCannotBeBuilt`), leaves the books broken unless there
  was nothing in them (`WalletLedger.FailedReplaceBreaksBooks`).
- The superblock check computes the expected work, twenty times the difficulty, compares, and accepts
  either way: it succeeds exactly when both numbers can be computed (`CheckFork.ValidateEnoughEffort`).
- A funding request stays in `Loading` for good exactly when the caller that set it is gone
  (`FundingRequest.LoadingNeedsItsFetcher`).

Two comments in the code do not say what it does. The one at the end of `replace_transaction` says
that the inputs are marked spent; they have just been marked available. Those in the word codec speak
of trimming trailing zeros; the code stores a length, and that is what is modelled.

Two conditions are met by every caller in the code. A block is saved before it is made canonical,
without which the cache would disagree with the database (`BlockStore.CanonicalNeedsSaved`). And the
change amount of a built transaction is that of its change output, without which it would not read
back from disk (`WalletLedger.PendingRoundTrip`, `WalletLedger.BuiltFacts`).

## Model

| member | source | states |
|---|---|---|
| `ChainView.BlockchainView.constructor` | crates/coordinator/src/blockchain_tracker.rs:104-110 | A new view is empty and has no observers. |
| `ChainView.BlockchainView.AddObserver` | crates/coordinator/src/blockchain_tracker.rs:113-132 | A new id gets a fresh observer and nothing else changes; a known id is the panic. |
| `ChainView.BlockchainView.RemoveObserver` | crates/coordinator/src/blockchain_tracker.rs:136-140 | Only the named observer goes, present or not. |
| `ChainView.BlockchainView.NotifyAll` | crates/coordinator/src/blockchain_tracker.rs:249-267 | Every observer hears the notice once. |
| `ChainView.BlockchainView.Update` | crates/coordinator/src/blockchain_tracker.rs:145-185 | The loop-free update equals `UpdateView` on the blocks and delivers its notices, in order, to every observer; it panics exactly when `UpdateView` does. Validity says that each observer's log replays the view from where it was added. |
| `ChainView.BlockchainView.RollbackTo` | crates/coordinator/src/blockchain_tracker.rs:209-247 | Blocks above the new tip are removed and reported highest first, then the replaced block, then the new tip; it panics exactly when the new tip does not follow the block below it. |
| `ChainView.BlockchainView.NotifyRollback` | crates/coordinator/src/blockchain_tracker.rs:228-240 | The order of the reports of a rollback. |
| `ChainView.CountBelowContiguous` | crates/coordinator/src/blockchain_tracker.rs:209-219 | On a contiguous view the range below a height is an initial stretch of known length, empty or all of it included. |
| `ChainView.AtContiguous` | crates/coordinator/src/blockchain_tracker.rs:145-165 | On a contiguous view a lookup by height is a lookup by offset from the first block. |
| `ChainView.UpdateKeepsView` | crates/coordinator/src/blockchain_tracker.rs:145-185 | One delivered block keeps the view contiguous and hash-linked, and replaying its notices on the old view, where a removal must name the top, gives the new view. |
| `ChainView.RollbackKeepsView` | crates/coordinator/src/blockchain_tracker.rs:209-247 | The same for a rollback on its own. |
| `ChainView.ReplayRemovals` | crates/coordinator/src/blockchain_tracker.rs:228-238 | Removing a suffix highest first pops exactly that suffix. |
| `ChainView.ReplayRebuildsView` | crates/coordinator/src/blockchain_tracker.rs:145-267 | Over every stream that does not panic, the view stays contiguous and the notices alone rebuild it. |
| `ChainView.UpdateInPlainTerms` | crates/coordinator/src/blockchain_tracker.rs:145-247 | What a delivered block does to a contiguous view, with the blocks below it cut off by index: ignored exactly if the same block is held at its height; a panic exactly if the block below is not its parent, or a rollback is due at the last height of `u64`; otherwise the blocks from its height up are removed, highest first, and it is added. |
| `ChainView.NoticesAreNews` | crates/coordinator/src/blockchain_tracker.rs:145-247 | No two notices of one update are about the same item, a removal is of an item that was held and no longer is, and an addition of one that was not held and is now: notices never cancel out. |
| `ChainView.FeedInTwo` | crates/coordinator/src/blockchain_tracker.rs:145-185 | Feeding two streams one after the other is feeding them joined, panics included. |
| `Confirmations.StepKeepsInStep` | crates/coordinator/src/blockchain_tracker.rs:145-247 | A delivery keeps the restored view a non-empty suffix of the uninterrupted one if and only if it is not a stale re-delivery. |
| `Confirmations.StepRollback` | crates/coordinator/src/blockchain_tracker.rs:209-247 | A rollback that the uninterrupted view survives is survived by every suffix of it, and cuts both at the same block. |
| `Confirmations.UpdatedTipIsLast` | crates/coordinator/src/blockchain_tracker.rs:56-79 | After a delivery that is not ignored the observer stands at the new tip, whatever was rolled back. |
| `Confirmations.JointRun` | crates/coordinator/src/blockchain_tracker.rs:145-247 | Two trackers in step stay in step over a stream without stale re-deliveries, and both stand at the tip. |
| `Confirmations.ViewsRun` | crates/coordinator/src/blockchain_tracker.rs:145-247 | Two trackers whose views are in step: over a stream without stale re-deliveries neither panics unless both do, and they keep the same tip; nothing is asked of the observers. |
| `Confirmations.RestoredTrackerInStep` | crates/coordinator/src/blockchain_tracker.rs:487-532 | A tracker restored from its snapshot onto an empty view does not panic where the uninterrupted one does not, and its view is a suffix of the other with the same tip. |
| `Confirmations.CountsRun` | crates/coordinator/src/blockchain_tracker.rs:56-79 | The first block that is news brings a late observer to the tip; without news nothing moves. |
| `Confirmations.RunKeepsUpToDate` | crates/coordinator/src/blockchain_tracker.rs:56-79 | An observer that has counted up to the tip, or hears of any news, has counted up to the tip after every stream, with its first block and its target unchanged. |
| `Confirmations.ConfirmedAtTip` | crates/coordinator/src/blockchain_tracker.rs:34-79 | The count of such an observer is the number of heights from its first block to the tip, none if the tip is lower, and it is confirmed if and only if nothing is required or that many heights are there. |
| `Confirmations.RestoredCountsAgree` | crates/coordinator/src/blockchain_tracker.rs:487-532 | The restored and the uninterrupted tracker count the same confirmations if and only if the stream brings a block the view does not hold, or the observer had already counted up to the tip. |
| `Confirmations.LateObserverDisagrees` | crates/coordinator/src/blockchain_tracker.rs:487-532 | The failing side of that condition is met by a small example, with one tracker confirmed and the other not. |
| `BlockStore.CoherentStep` | crates/block-indexer/src/store.rs:91-197 | One operation of the cached store, whatever it evicts, answers from the cache as the database would and keeps the cache in agreement. |
| `BlockStore.CanonicalNeedsSaved` | crates/block-indexer/src/store.rs:192-197 | Making a block canonical keeps cache and database in agreement if and only if the block had been saved. |
| `BlockStore.ReadsLastWrite` | crates/block-indexer/src/store.rs:91-197 | A read gives what was written last under its key, for blocks, heights, the best block and the checkpoint, and a write changes no other answer. |
| `BlockStore.CachedRunAnswersAsUncached` | crates/block-indexer/src/store.rs:91-197 | Over every run and every choice of evictions the cached store answers every read as the uncached one would. |
| `BlockStore.CachedBlockStore.constructor` | crates/block-indexer/src/store.rs:205-210 | A store starts with an empty cache over a given database; a size of zero is not allowed. |
| `BlockStore.CachedBlockStore.SaveToCache` | crates/block-indexer/src/cache.rs:55-64 | An insertion is present afterwards, the bound holds, and at worst other entries are gone. |
| `BlockStore.CachedBlockStore.ReadByHash` | crates/block-indexer/src/store.rs:149-163 | The answer is the database's, and is cached afterwards; only the cache changes. |
| `BlockStore.CachedBlockStore.ReadBest` | crates/block-indexer/src/store.rs:112-126 | The answer is the database's, and is cached afterwards; only the cache changes. |
| `BlockStore.CachedBlockStore.ReadCanonical` | crates/block-indexer/src/store.rs:172-190 | The answer is the database's, through the height and then the hash, and is cached afterwards; only the cache changes. |
| `BlockStore.CachedBlockStore.WriteBlock` | crates/block-indexer/src/store.rs:165-170 | The block is stored under its hash and cached; agreement is kept if the hash was not another block's. |
| `BlockStore.CachedBlockStore.WriteCanonical` | crates/block-indexer/src/store.rs:192-197 | The height leads to the hash, in the cache too; agreement is kept if and only if the block was saved. |
| `BlockStore.CachedBlockStore.WriteBest` | crates/block-indexer/src/store.rs:128-132 | The best block is replaced in database and cache. |
| `BlockStore.CachedBlockStore.SetCheckpoint` | crates/block-indexer/src/store.rs:134-147 | The checkpoint is set or reset in the database and never cached. |
| `BlockStore.CachedBlockStore.GetBest` | crates/block-indexer/src/store.rs:213-215 | The interface call, without the cache in its contract. |
| `BlockStore.CachedBlockStore.GetCanonical` | crates/block-indexer/src/store.rs:242-245 | The interface call, without the cache in its contract. |
| `BlockStore.CachedBlockStore.Save` | crates/block-indexer/src/store.rs:238-240 | The interface call, under the discipline of the indexer. |
| `BlockStore.CachedBlockStore.SetCanonicalBlock` | crates/block-indexer/src/store.rs:247-250 | The interface call, under the discipline of the indexer. |
| `BlockStore.CachedBlockStore.SetBest` | crates/block-indexer/src/store.rs:217-219 | The interface call, without the cache in its contract. |
| `BackwardSync.SaveKeeps` | crates/block-indexer/src/store.rs:165-170 | Saving a block of the world keeps the database sound, changes no answer by height and is safe for the cache. |
| `BackwardSync.SetCanonicalKeeps` | crates/block-indexer/src/store.rs:192-197 | Making a saved block canonical keeps the database sound and changes the answer at its height only. |
| `BackwardSync.SaveAllKeeps` | crates/block-indexer/src/indexer.rs:436-482 | Saving uncles changes no answer by height. |
| `BackwardSync.RecordKeeps` | crates/block-indexer/src/indexer.rs:299-304 | Recording a block and its uncles changes the canonical block at its height and nothing else in the canonical map. |
| `BackwardSync.UnclesOfItem` | crates/block-indexer/src/indexer.rs:436-482 | The uncles sent with a block are exactly those the node returns at an index below the number of listed uncles and whose hash is listed. |
| `BackwardSync.RecordStores` | crates/block-indexer/src/indexer.rs:299-304 | Recording stores the block and each of these uncles under its hash, and changes no other answer by hash. |
| `BackwardSync.AgreesBelow` | crates/block-indexer/src/indexer.rs:281-329 | Agreement with the node at one height spreads down a hash-linked stretch: the reason the walk may stop early. |
| `BackwardSync.WalkBackRepairs` | crates/block-indexer/src/indexer.rs:277-353 | Stopped at any iteration, the walk has repaired every height from its checkpoint up; not stopped, every height from the initial block up, and it has collected exactly the changed blocks. It never runs into the abort. |
| `BackwardSync.BackwardSyncRepairs` | crates/block-indexer/src/indexer.rs:257-356 | A sync that is not stopped makes the canonical map the node's chain from the initial block to the starting block, changes no other height, sets the best block, drops the checkpoint and sends exactly the missing or changed blocks, lowest first. |
| `Resume.SyncKeepsPending` | crates/block-indexer/src/indexer.rs:257-356 | A sync, stopped or not, keeps the invariant of an unfinished start: above the checkpoint the store is the node's chain, below it is hash-linked. |
| `Resume.ResumeKeepsPending` | crates/block-indexer/src/indexer.rs:358-381 | Resuming from the checkpoint keeps that invariant. |
| `Resume.FullSyncKeepsPending` | crates/block-indexer/src/indexer.rs:383-408 | The rounds from the tip keep it, and end at the tip unless they are stopped. |
| `Resume.NoBestFails` | crates/block-indexer/src/indexer.rs:383-408 | Without a stored best block the rounds do nothing and fail. |
| `Resume.LastRoundFails` | crates/block-indexer/src/indexer.rs:383-408 | A last round that has to sync fails, even if its sync reaches the tip, with the store and the blocks sent being those of the sync. |
| `Resume.StartupKeepsPending` | crates/block-indexer/src/indexer.rs:106-121 | Every start keeps it and never gives up; one that is not stopped finishes at the node's tip. |
| `Resume.StartsKeepPending` | crates/block-indexer/src/indexer.rs:106-121 | So does any sequence of starts, each stopped anywhere. |
| `Resume.PendingAtTip` | crates/block-indexer/src/indexer.rs:383-408 | A store at the node's tip has no checkpoint, and its map is the old one with the node's chain in place from the initial block up. |
| `Resume.ResumeEquivalence` | crates/block-indexer/src/indexer.rs:331-408 | Stopping and restarting any number of times at any points, and then finishing, gives the canonical map, best block and absent checkpoint of one uninterrupted start. |
| `Resume.QuietRounds` | crates/block-indexer/src/indexer.rs:383-408 | Rounds from the tip over a store that already holds the node's chain send nothing. |
| `Resume.StraightStartSends` | crates/block-indexer/src/indexer.rs:106-121 | A start without a checkpoint sends every block that was missing or changed, lowest first. |
| `Resume.ResumedStartSends` | crates/block-indexer/src/indexer.rs:358-408 | A start from a checkpoint, left by any history of stops, sends what was missing or changed below the checkpoint and nothing from there up. |
| `Resume.StopLosesNotices` | crates/block-indexer/src/indexer.rs:318-342 | A start stopped once and resumed sends what one straight start sends if and only if nothing from the checkpoint up was missing or changed; the exact blocks sent in each case. |
| `Notices.QuietWalk` | crates/block-indexer/src/indexer.rs:277-353 | A walk over a store that holds the chain of the node passes only blocks above the best one and changes nothing but the checkpoint. |
| `Notices.SyncTells` | crates/block-indexer/src/indexer.rs:257-356 | One sync of a start, stopped or not, keeps the account of what was sent: nothing yet, or exactly what had changed below the lowest checkpoint. |
| `Notices.StartTells` | crates/block-indexer/src/indexer.rs:106-121 | So does one start. |
| `Notices.StartsTell` | crates/block-indexer/src/indexer.rs:106-121 | And so does any sequence of starts, stopped anywhere. |
| `Notices.EverythingSent` | crates/block-indexer/src/indexer.rs:318-342 | Over any number of stopped starts until the store is at the tip of the node, everything sent, in order, is what was missing or changed below the lowest checkpoint that was ever left. |
| `ChainChange.WalkToAgreement` | crates/block-indexer/src/indexer.rs:277-353 | Over any store a walk stops at the last agreement not above the best block, replaces everything higher, and touches nothing lower. |
| `ChainChange.WalkAborts` | crates/block-indexer/src/indexer.rs:277-353 | A walk that meets no agreement before the initial block or height zero repairs every height on its way and ends in the abort, with best block and checkpoint untouched. |
| `ChainChange.SyncAborts` | crates/block-indexer/src/indexer.rs:257-356 | Such a sync sends nothing and keeps the best block. |
| `ChainChange.UnknownParentLands` | crates/block-indexer/src/indexer.rs:371-408 | A start that cannot resume, because the node does not know the parent of the checkpoint: what its rounds leave, exactly. |
| `ChainChange.KnownParentLands` | crates/block-indexer/src/indexer.rs:358-408 | A start that resumes from the parent of the checkpoint, on the new chain or orphaned, ends with the new chain in the store. |
| `ChainChange.StartOnOtherChain` | crates/block-indexer/src/indexer.rs:106-121 | After any history of stopped starts on one chain, a start on any other one that is not stopped finishes at its tip, and the store holds the new chain if and only if it is not the case that the node does not know the parent of the checkpoint, the checkpoint is not above the stored best block, and the node is at that best block or agrees with the store somewhere from the checkpoint up to it. |
| `ChainChange.StrandingHappens` | crates/block-indexer/src/indexer.rs:371-394 | That case is reached by a node that is on another branch during a sync that is stopped at once. |
| `Pipeline.FreshStart` | crates/block-indexer/src/indexer.rs:89-104 | A fresh store given the initial block, and an empty view, satisfy the invariant. |
| `Pipeline.ExtendKeepsTracking` | crates/block-indexer/src/indexer.rs:206-218 | A block on top of the best one is recorded, sent and appended to the view, which stays a suffix of the canonical chain; heights left over above are no obstacle. |
| `Pipeline.IgnoreKeepsTracking` | crates/block-indexer/src/indexer.rs:228-236 | A block that neither extends nor beats the best one changes neither the canonical chain nor the view. |
| `Pipeline.ReceivedBlock` | crates/block-indexer/src/indexer.rs:190-236 | Which of the three things is done with a received block, and all that it changes: a child of the best block is recorded and sent; one that is higher or of more total difficulty starts a sync to the tip of the node, which sends the changed blocks; any other is only stored under its hash. |
| `Pipeline.CatchUpKeepsInStep` | crates/block-indexer/src/indexer.rs:277-329 | A sync to a chain that is no shorter feeds the view a branch it accepts without a panic, across any reorganisation, and leaves it a suffix of the new canonical chain. |
| `Pipeline.ChangedIsTail` | crates/block-indexer/src/indexer.rs:277-329 | The changed blocks of a sync are a whole upper stretch of the node's chain, from the first difference up. |
| `Pipeline.FeedBranch` | crates/coordinator/src/blockchain_tracker.rs:145-247 | Feeding such a stretch cuts the view at the fork and follows the branch to its tip. |
| `Pipeline.EventKeepsInStep` | crates/block-indexer/src/indexer.rs:184-236 | Every event keeps store and view in step, and the view does not panic. |
| `Pipeline.ViewFollowsCanonicalChain` | crates/block-indexer/src/indexer.rs:184-236 | In every run of sync rounds and received blocks the view never fails its assert and is always empty or a suffix of the canonical chain ending at the best block. |
| `Pipeline.CatchUpNeedsNoShorterChain` | crates/block-indexer/src/indexer.rs:277-329 | After a sync the store has no heights left over above its best block, and the view follows it, if and only if the chain of the node was not shorter than the stored one. |
| `Pipeline.ShorterChainStrandsView` | crates/block-indexer/src/indexer.rs:277-329 | When the node falls back to a strict prefix of the stored chain nothing is sent and the view keeps a tip above the best block. |
| `ViewGaps.FeedAfterSync` | crates/block-indexer/src/indexer.rs:277-329 | From any state in which the view follows the store, leftover heights or not: a sync makes the view panic if and only if the changed blocks start out of its reach or have a gap, and leaves it a suffix ending at the best block if and only if they are a whole upper stretch within reach, or nothing changed and the view was empty or already there. |
| `ViewGaps.SyncTracks` | crates/block-indexer/src/indexer.rs:277-329 | The same for the sync as a whole, with the store sound and linked afterwards in every case. |
| `ViewGaps.ViewAfterSync` | crates/block-indexer/src/indexer.rs:277-329 | From a store without leftover heights: no panic, and the view is a suffix ending at the best block if and only if the chain of the node is not shorter, or differs from the stored one, or there is no view yet. |
| `ViewGaps.EventTracks` | crates/block-indexer/src/indexer.rs:184-236 | One event keeps the view on the store if and only if it is not a sync, or is one that fits. |
| `ViewGaps.RunTracks` | crates/block-indexer/src/indexer.rs:184-236 | Over every run of sync rounds and received blocks, on chains of any length: the view follows the canonical chain throughout, without a panic, if and only if every sync of the run fits. |
| `ViewGaps.ThereAndBackPanics` | crates/block-indexer/src/indexer.rs:305-329 | A node that goes over to a shorter branch and comes back to the old one, grown, makes the view panic at the second sync. |
| `ViewGaps.ThereAndBackHappens` | crates/block-indexer/src/indexer.rs:203-204 | Three syncs of a fresh store are enough for that. |
| `ViewGaps.StoppedSyncBreaksView` | crates/block-indexer/src/indexer.rs:318-342 | After a sync that was stopped, and a restart with an empty view, the next block on top of the best one fails the assert of the view if and only if something below the checkpoint was missing or changed. |
| `BlockIndexer.BlockIndexer.constructor` | crates/block-indexer/src/indexer.rs:30-70 | An indexer over a sound store has sent nothing. |
| `BlockIndexer.BlockIndexer.SaveOne` | crates/block-indexer/src/indexer.rs:436-482 | The steps below are the specification functions, over the cached store, with the database kept sound. |
| `BlockIndexer.BlockIndexer.ProcessUncleBlocks` | crates/block-indexer/src/indexer.rs:436-482 | The loop saves exactly the listed uncles that the node returns under the listed hash, in order; the others are skipped. |
| `BlockIndexer.BlockIndexer.SaveCanonical` | crates/block-indexer/src/indexer.rs:410-414 | Saved first, then made canonical. |
| `BlockIndexer.BlockIndexer.RecordBlock` | crates/block-indexer/src/indexer.rs:299-304 | Uncles, then the block. |
| `BlockIndexer.BlockIndexer.NotifyInReverse` | crates/block-indexer/src/indexer.rs:323-326 | What was collected from the top down is sent lowest first. |
| `BlockIndexer.BlockIndexer.Visit` | crates/block-indexer/src/indexer.rs:281-304 | One iteration compares hashes at the height and repairs on a difference. |
| `BlockIndexer.BlockIndexer.WalkDown` | crates/block-indexer/src/indexer.rs:277-353 | The loop is `WalkBack`, including where it stops, its checkpoint and its abort. |
| `BlockIndexer.BlockIndexer.Complete` | crates/block-indexer/src/indexer.rs:318-329 | Checkpoint reset, new best block, blocks sent. |
| `BlockIndexer.BlockIndexer.BackwardSync` | crates/block-indexer/src/indexer.rs:257-356 | The method is `Sync`: same database, same blocks sent, same outcome. |
| `BlockIndexer.BlockIndexer.ResumePendingBackwardSync` | crates/block-indexer/src/indexer.rs:358-381 | The method is `ResumePending`: it starts from the parent of the checkpoint if the node knows it, on its chain or off it, and leaves a checkpoint with an unknown parent alone. |
| `BlockIndexer.BlockIndexer.FullSyncBackwardSyncs` | crates/block-indexer/src/indexer.rs:383-408 | The loop is `FullSync` with nine rounds, and fails when they are used up. |
| `BlockIndexer.BlockIndexer.StartupBackwardSync` | crates/block-indexer/src/indexer.rs:106-121 | The method is `Startup`. |
| `BlockIndexer.BlockIndexer.ListenOne` | crates/block-indexer/src/indexer.rs:184-236 | One received block is `Listen`: extend, sync or only store; `Pipeline.ReceivedBlock` says when and what changes. |
| `Rlp.BigEndianRoundTrip` | crates/check-fork/src/rlp.rs:34-44 | Minimal big-endian bytes read back to the number and never start with zero. |
| `Rlp.FixedIsPaddedBigEndian` | crates/check-fork/src/rlp.rs:34-44 | The fixed-width bytes are the minimal ones behind zeros. |
| `Rlp.BeTrimmed` | crates/check-fork/src/rlp.rs:34-44 | Trimming the 32 fixed bytes gives the minimal bytes, zero included. |
| `Rlp.BigEndianIsShortest` | crates/check-fork/src/rlp.rs:34-44 | No shorter bytes stand for the number. |
| `Rlp.EncodeCoinValue` | crates/check-fork/src/rlp.rs:4-7 | A coin value is the string of its minimal bytes, and reads back to the value. |
| `Rlp.SignedRoundTrip` | crates/check-fork/src/rlp.rs:24-32 | The sign-safe bytes of a value read back to it. |
| `Rlp.SignedForm` | crates/check-fork/src/rlp.rs:24-54 | The sign-safe bytes are never empty and never read as negative, and start with a zero only if the next byte would read as negative. |
| `Rlp.EncodeSignedCoinValueAsByte` | crates/check-fork/src/rlp.rs:24-54 | The encoding of the minimum gas price reads back to the value, for all 256-bit values. |
| `Rlp.EncodeString` | crates/check-fork/src/block_header.rs:78-114 | An encoded string is never empty and at most nine bytes longer than the string. |
| `Rlp.PrefixForms` | crates/check-fork/src/block_header.rs:78-114 | The prefixes of RLP spelled out: a small byte is itself, up to 55 bytes take one prefix byte, longer ones a prefix with the length in minimal bytes, at the offsets of strings and of lists. |
| `Rlp.ReadEncodedString` | crates/check-fork/src/block_header.rs:78-114 | A decoder reads an encoded string off any continuation and leaves the rest. |
| `Rlp.StringIsShortest` | crates/check-fork/src/block_header.rs:78-114 | No input of a decoder is shorter than the encoding of the string it reads there. |
| `Rlp.ReadEncodedStrings` | crates/check-fork/src/block_header.rs:193-202 | The encoding of a list of strings reads back to the list, so it determines it. |
| `Rlp.ListIsShortest` | crates/check-fork/src/block_header.rs:193-202 | Nor is one shorter than the encoding of the list it reads there. |
| `Rlp.EncodeList` | crates/check-fork/src/block_header.rs:193-202 | The loop over encoded fields gives the encoding of the list of strings. |
| `BlockHeader.ExtensionField` | crates/check-fork/src/block_header.rs:116-182 | The extension field fits the bloom size in every version that has one. |
| `BlockHeader.HeaderStringsFit` | crates/check-fork/src/block_header.rs:78-114 | Every well-typed header is far inside the length limits of the encoding. |
| `BlockHeader.WhenEncodable` | crates/check-fork/src/block_header.rs:78-182 | A well-typed header can be encoded if and only if it has a minimum gas price and a logs bloom of full size, no non-empty edges, and is of version one, or of version two with a base event that fits. |
| `BlockHeader.HeaderLayout` | crates/check-fork/src/block_header.rs:93-114 | A decoder reads back from what is hashed exactly the fields of the header, eighteen of them and each at its place: hashes, roots, coinbase, gas limit, extra data and merged-mining header as bytes, the extension after the receipts root, and difficulty, number, gas used, time, fees, gas price and uncle count as numbers. |
| `BlockHeader.ExtensionLayout` | crates/check-fork/src/block_header.rs:116-182 | The extension field is the logs bloom itself for version one without edges; otherwise a decoder reads from it the version and the hash of a list that holds the hash of the bloom, then the base event for version two, then an empty string if there are edges. |
| `BlockHeader.SameStringsSameFields` | crates/check-fork/src/block_header.rs:78-114 | The list of header fields determines each field, and how many uncles there are. |
| `BlockHeader.SameExtension` | crates/check-fork/src/block_header.rs:116-182 | The extension field determines the version, the logs bloom, the edges and the base event. |
| `BlockHeader.WhenHashIsValid` | crates/check-fork/src/lib.rs:289-300 | The hash check succeeds if and only if the header can be encoded, has a base event only in version two, and carries the hash of its encoding. |
| `BlockHeader.SameHashSameContents` | crates/check-fork/src/lib.rs:289-300 | Two headers that pass the hash check under one hash agree in everything committed. |
| `BlockHeader.SameContentsSameHash` | crates/check-fork/src/lib.rs:289-300 | And the other way round. |
| `BlockHeader.HashBindsHeader` | crates/check-fork/src/lib.rs:289-300 | Equal hashes if and only if equal committed contents, given no collision among the strings hashed. |
| `CheckFork.EffortCountsTargets` | crates/check-fork/src/lib.rs:282-287 | The work of a block is how often its hash fits into the largest target, and exists exactly for a hash that is not zero. |
| `CheckFork.AccumulateEffort` | crates/check-fork/src/lib.rs:133-137 | The sum, exactly when the work exists and the sum fits 256 bits. |
| `CheckFork.ValidateEnoughEffort` | crates/check-fork/src/lib.rs:248-264 | Succeeds exactly when the work can be computed: the comparison in the code does not reject. |
| `CheckFork.ValidateDifficulty` | crates/check-fork/src/lib.rs:266-280 | Succeeds exactly within one part in four hundred of the block before. |
| `CheckFork.BoundsAreSmallChange` | crates/check-fork/src/lib.rs:266-280 | The bounds of the code, with their rounding, say that four hundred times the change is at most the difficulty before. |
| `CheckFork.ValidateConsecutiveBlock` | crates/check-fork/src/lib.rs:201-227 | Succeeds exactly on a child: number, parent hash, time and difficulty. |
| `CheckFork.ValidateUncle` | crates/check-fork/src/lib.rs:229-246 | Succeeds exactly on an admissible uncle of the trunk block. |
| `CheckFork.ValidateFirstBlock` | crates/check-fork/src/lib.rs:160-181 | Succeeds exactly on an admissible first block. |
| `CheckFork.AccumulateUncles` | crates/check-fork/src/lib.rs:113-116 | The inner loop succeeds exactly when all uncles are admissible and the sum fits, and returns the sum. |
| `CheckFork.TotalIsWork` | crates/check-fork/src/lib.rs:100-116 | The total is the plain sum of the work over the first block, and every later block with its uncles. |
| `CheckFork.CheckLink` | crates/check-fork/src/lib.rs:105-121 | One turn of the outer loop, both ways. |
| `CheckFork.LinksInPlainTerms` | crates/check-fork/src/lib.rs:105-121 | The links of a list written out: a valid hash, a proof-of-work hash that is not zero, numbers that count up from the first, the parent hash, a later time, a small change of difficulty, uncles that are siblings of the block before with its difficulty, and the event from the third block on. |
| `CheckFork.CheckFirst` | crates/check-fork/src/lib.rs:84-100 | The checks on the list and its first block, both ways. |
| `CheckFork.CheckFork` | crates/check-fork/src/lib.rs:66-131 | Returns a value if and only if the fork is acceptable, and then exactly the summed work of its blocks and uncles. |
| `CheckFork.AcceptsInPlainTerms` | crates/check-fork/src/lib.rs:66-131 | The forks accepted are exactly those that meet all conditions written out: the version, the number of blocks, the first block, without the event and not before the initial time and number, the links, and the work that must be reached. |
| `CheckFork.DriftBounds` | crates/check-fork/src/lib.rs:266-280 | Difficulty compounds by at most 401/400 and at least 399/400 a block. |
| `CheckFork.LowIsFrozen` | crates/check-fork/src/lib.rs:266-280 | A difficulty below four hundred never changes again. |
| `CheckFork.DifficultyDrift` | crates/check-fork/src/lib.rs:66-131 | Both hold along every accepted fork. |
| `CheckFork.TipBindsFork` | crates/check-fork/src/lib.rs:66-131 | Two accepted forks with the same last hash carry the same headers, block for block back from the tip, in all that the hashes commit to. |
| `CheckFork.WorkIsNotBound` | crates/check-fork/src/lib.rs:282-287 | The headers do not bind the work: with another proof-of-work hash for one block an accepted fork is accepted again if and only if the hash is not zero and the work, which changes by exactly that block, is still enough and still fits. |
| `TxBuilder.SelectUtxos` | cli/bitcoin-wallet/src/wallet.rs:802-825 | The shortest initial stretch that reaches the amount, and both error cases exactly. |
| `TxBuilder.BuildOn` | cli/bitcoin-wallet/src/wallet.rs:683-746 | The fee loop on one selection ends; inputs are outputs plus change plus fee; the fee covers the final size and exceeds the fee of some draft by less than the dust limit; change is none or at least the dust limit of 330. |
| `TxBuilder.FeeIsRateTimesSize` | cli/bitcoin-wallet/src/wallet.rs:712-714 | The fee is the rate times the virtual size. |
| `TxBuilder.SelectionIsTight` | cli/bitcoin-wallet/src/wallet.rs:678-721 | A selection made for the fee of a shorter one needs all its inputs for any fee that covers its own size, if sizes grow on these funds. |
| `TxBuilder.InputsOutweighChange` | cli/bitcoin-wallet/src/wallet.rs:770-800 | With inputs of 271 or 272 weight units, as the length of the signature has it, sizes grow on funds of up to 148 outputs for a change output of 124 units, and in general while outputs and change together stay within 272. |
| `TxBuilder.BuildTransaction` | cli/bitcoin-wallet/src/wallet.rs:665-768 | The whole loop ends; a result has all of the above on a prefix of the funds, no shorter part of which would do if sizes grow on them; it fails only when the funds do not cover the payment, alone or with the fee of a draft, or on an amount beyond `u64`, and every draft named is one of this payment on a prefix of these funds. |
| `TxBuilder.BuiltInPlainTerms` | cli/bitcoin-wallet/src/wallet.rs:683-768 | A built transaction written out: its inputs are the first funds, in order; its outputs are the payments, followed by the change if there is any; change is at least 330 and names its own outpoint; inputs balance, and the fee is at least the rate times the size. |
| `WalletLedger.PendingRoundTrip` | cli/bitcoin-wallet/src/pending_tx_store.rs:28-89 | Writing and reading a pending transaction loses only the indices, if and only if its change amount and change output agree. |
| `WalletLedger.RegisterKeeps` | cli/bitcoin-wallet/src/wallet.rs:552-567 | Registering keeps the books and adds the amount. |
| `WalletLedger.BuiltFacts` | cli/bitcoin-wallet/src/wallet.rs:748-768 | A built transaction has the asked payments, balances, and names the change it makes. |
| `WalletLedger.CommitKeeps` | cli/bitcoin-wallet/src/wallet.rs:251-281 | Committing a built transaction keeps the books and takes payments and fee out of the available value. |
| `WalletLedger.CommitInPlainTerms` | cli/bitcoin-wallet/src/wallet.rs:251-281 | Every entry after a commit: inputs marked spent, the change stored as available, nothing else touched; the list without the inputs and with the change; the transaction pending in memory and on disk. |
| `WalletLedger.ConfirmKeeps` | cli/bitcoin-wallet/src/wallet.rs:378-395 | Confirming keeps the books and the list. |
| `WalletLedger.ConfirmDeletes` | cli/bitcoin-wallet/src/wallet.rs:378-395 | A confirmation deletes exactly the inputs of the transaction from the store, and exactly its entries in memory and on disk. |
| `WalletLedger.ReplaceKeeps` | cli/bitcoin-wallet/src/wallet.rs:285-373 | Replacing with all inputs while the old change is unspent, and committing at once, keeps the books; payments are the same and value falls by the rise of the fee. |
| `WalletLedger.ReplaceInPlainTerms` | cli/bitcoin-wallet/src/wallet.rs:285-373 | Every entry after a replacement before it is committed: the inputs available again, the old change gone from store and list, the original no longer pending, nothing else touched. |
| `WalletLedger.ReplacementSpendsAll` | cli/bitcoin-wallet/src/wallet.rs:342-354 | If no shorter part of the inputs covers the payments and the fee of the original, a replacement that pays more in fees spends them all, and is as tight itself. |
| `WalletLedger.ReplaceValue` | cli/bitcoin-wallet/src/wallet.rs:362-373 | The value falls by exactly the rise of the fee if and only if the change of the original was still unspent. |
| `WalletLedger.ReplaceNeedsOldChange` | cli/bitcoin-wallet/src/wallet.rs:362-373 | The books are kept if and only if no pending transaction spends the change of the original. |
| `WalletLedger.SpendingOldChange` | cli/bitcoin-wallet/src/wallet.rs:251-281 | Committing any payment that spends the change of a pending transaction puts a replacement of that transaction on the failing side of both conditions. |
| `WalletLedger.TooHighRateCannotBeBuilt` | cli/bitcoin-wallet/src/wallet.rs:697-721 | At a rate above the value of the inputs nothing can be built, so that a replacement at such a rate fails. |
| `WalletLedger.ReplaceNeedsAllInputs` | cli/bitcoin-wallet/src/wallet.rs:285-373 | The books are kept if and only if the replacement spends all inputs of the original; `ReplacementSpendsAll` says that it does if the original was tight. |
| `WalletLedger.FailedReplaceBreaksBooks` | cli/bitcoin-wallet/src/wallet.rs:306-337 | After a replacement that could not be built the books are kept if and only if list and inputs were empty. |
| `WalletLedger.UndoneReplaceChangesNothing` | cli/bitcoin-wallet/src/wallet.rs:342-354 | A replacement that pays no more is undone completely. |
| `WalletRuns.StepKeeps` | cli/bitcoin-wallet/src/wallet.rs:251-395 | Each operation keeps the books, the account of what came in and went out, and that the spent outputs in the store are exactly the inputs of pending transactions, whatever the sizes of transactions. |
| `WalletRuns.RunKeepsBooks` | cli/bitcoin-wallet/src/wallet.rs:251-395 | Over every run, replacements and restarts included, and for any sizes of transactions, the list is the available part of the store, the spent part is exactly the inputs of pending transactions, and the value of the list is what was registered less payments and fees of the transactions that were not replaced. |
| `WalletRuns.SizedStepIsAllowed` | cli/bitcoin-wallet/src/wallet.rs:285-373 | Where every payment is built from funds on which sizes grow, nothing has to be asked of the inputs of a replacement. |
| `WalletRuns.SizedRunIsAllowed` | cli/bitcoin-wallet/src/wallet.rs:251-395 | Over every such run all replacements spend all inputs of their originals, so that `RunKeepsBooks` applies. |
| `WalletRuns.EmptyBooksOk` | cli/bitcoin-wallet/src/wallet.rs:84-112 | A new wallet starts with sound and tight books, no orphans and an empty account. |
| `WalletRuns.CommitLeavesNoOrphans` | cli/bitcoin-wallet/src/wallet.rs:251-281 | If spent outputs in the store are exactly the inputs of pending transactions, a commit keeps that. |
| `WalletRuns.ConfirmLeavesNoOrphans` | cli/bitcoin-wallet/src/wallet.rs:378-395 | So does a confirmation: it leaves no spent output behind. |
| `WalletRuns.ReplaceLeavesNoOrphans` | cli/bitcoin-wallet/src/wallet.rs:285-373 | So does a replacement that spends the inputs of the original, once committed. |
| `WalletRuns.RegisterLeavesNoOrphans` | cli/bitcoin-wallet/src/wallet.rs:552-567 | So does a registration. |
| `WalletRuns.ReopenGivesSame` | cli/bitcoin-wallet/src/wallet.rs:84-112 | Reopening from the stores, in whatever order they are listed, gives the same funds and the same pending transactions but for their indices. |
| `WalletRuns.ReopenKeepsBooks` | cli/bitcoin-wallet/src/wallet.rs:84-112 | The books of a reopened wallet are sound and of the same value, with both stores as they were and each pending transaction as it was but for its indices, which are empty. |
| `WalletRuns.ReopenLeavesNoOrphans` | cli/bitcoin-wallet/src/wallet.rs:84-112 | So does a restart. |
| `WalletRuns.SameMembersSameSum` | cli/bitcoin-wallet/src/wallet.rs:427-439 | The value of the funds does not depend on the order the database lists them in. |
| `Wallet.Wallet.constructor` | cli/bitcoin-wallet/src/wallet.rs:84-112 | Opening reads pending transactions back, lists exactly the available outputs of the address, and is `Reopen` of any wallet that left these stores. |
| `Wallet.Wallet.ReloadActiveUtxos` | cli/bitcoin-wallet/src/wallet.rs:427-439 | The loop lists exactly the available outputs of the address, each once. |
| `Wallet.Wallet.RegisterUtxo` | cli/bitcoin-wallet/src/wallet.rs:552-567 | A known output is refused and nothing changes; otherwise `Register`. |
| `Wallet.Wallet.MarkAll` | cli/bitcoin-wallet/src/utxo_store.rs:65-85 | The outputs before the first that is not stored are marked, and nothing else; it succeeds exactly when all are stored. |
| `Wallet.Wallet.CommitSpendPending` | cli/bitcoin-wallet/src/wallet.rs:251-281 | Succeeds exactly when all inputs are stored, and is then `Commit`; otherwise the inputs before the missing one stay marked and nothing else changes. |
| `Wallet.Wallet.ConfirmTransaction` | cli/bitcoin-wallet/src/wallet.rs:378-395 | Succeeds exactly on a pending transaction, and is then `Confirm`; otherwise nothing changes. |
| `Wallet.Wallet.ReplaceTransaction` | cli/bitcoin-wallet/src/wallet.rs:285-373 | When it reports a missing transaction or input, exactly, and the state after every outcome: the errors before the build change nothing but for inputs marked before a missing one; a replacement is built from the inputs of the original alone, pays more, and leaves `Replace`; a failed build leaves `FailReplace`; the fee rate is always restored. |
| `LogRecovery.BatchIsSafe` | crates/log-indexer/src/indexer.rs:218-251 | A crash after any write of a batch leaves a checkpoint below which every log is stored; without a crash the batch is covered. |
| `LogRecovery.PutsStoreOnly` | crates/log-indexer/src/store.rs:91-102 | Every log in the store after a batch was there before or is one of the batch, under its own key. |
| `LogRecovery.BatchAdvances` | crates/log-indexer/src/indexer.rs:218-251 | After a batch the checkpoint is the newest log of its range by block and place, and the old one if the range has no log. |
| `LogRecovery.SweepIsSafe` | crates/log-indexer/src/indexer.rs:141-216 | The same for a crash anywhere in the whole sweep, over a best block that moves. |
| `LogRecovery.SweepAdvances` | crates/log-indexer/src/indexer.rs:141-216 | After a sweep that runs to its end the checkpoint is the newest log from its start to the block it returns. |
| `LogRecovery.DoneIsCaughtUp` | crates/log-indexer/src/indexer.rs:168-212 | A sweep that runs to its end returns a block that the best one, asked for last, was not above, and that was its first end or an earlier best block. |
| `LogRecovery.GivesUpAfterMoves` | crates/log-indexer/src/indexer.rs:168-201 | A sweep gives up only if the best block has risen at every one of the allowed attempts. |
| `LogRecovery.BatchesTile` | crates/log-indexer/src/indexer.rs:168-212 | The batches of a call tile its range without gap or overlap, up to the returned block. |
| `LogRecovery.FirstBatch` | crates/log-indexer/src/indexer.rs:141-190 | A call starts the finality depth below its checkpoint, or below the initial block without one, and its first batch has the batch size and one more block, up to the best one. |
| `LogRecovery.CallIsSafe` | crates/log-indexer/src/indexer.rs:141-216 | A start from a sound checkpoint, crashed or not, leaves a sound checkpoint. |
| `LogRecovery.RecoveryAdvances` | crates/log-indexer/src/indexer.rs:141-216 | A call that runs to its end leaves as checkpoint the newest log from its start to the block it returns, never a lower block than before if that block still has logs. |
| `LogRecovery.CallsAreSafe` | crates/log-indexer/src/indexer.rs:141-216 | So does any sequence of starts. |
| `LogRecovery.RecoveryIsComplete` | crates/log-indexer/src/indexer.rs:141-251 | After any number of crashed, stopped or abandoned starts, a call that runs to its end leaves every log from the initial block less the finality depth to the returned block in the store. |
| `LogRecovery.LogIndexer.constructor` | crates/log-indexer/src/indexer.rs:35-61 | The store as it was found on disk. |
| `LogRecovery.LogIndexer.SaveLog` | crates/log-indexer/src/store.rs:91-102 | One write, or the crash before it. |
| `LogRecovery.LogIndexer.SetSyncCheckpoint` | crates/log-indexer/src/store.rs:114-118 | One write, or the crash before it. |
| `LogRecovery.LogIndexer.SaveLogsAndCheckpoint` | crates/log-indexer/src/indexer.rs:218-251 | The loop performs the writes of the batch, logs first and the checkpoint last, up to a crash. |
| `LogRecovery.LogIndexer.RecoverLogs` | crates/log-indexer/src/indexer.rs:141-216 | The loops perform exactly a prefix of the writes of `Recover`, all of them without a crash, and return its result. |
| `SlotBudget.TimesIsProduct` | crates/op-funding/src/lib.rs:211-227 | The repeated addition used in the specification of roots and quotients is the product. |
| `SlotBudget.CeilSqrt` | crates/op-funding/src/lib.rs:249-271 | The binary search with a saturating square finds the least root at or above, for all 128-bit values. |
| `SlotBudget.CeilSqrtGrows` | crates/op-funding/src/lib.rs:249-271 | The root is monotone, so it is determined. |
| `SlotBudget.CeilDiv` | crates/op-funding/src/lib.rs:245-247 | The least quotient at or above. |
| `SlotBudget.BudgetFits` | crates/op-funding/src/lib.rs:206-227 | The budget of 64-bit slots fits 64 bits. |
| `SlotBudget.CheckedBudgetedSlotCount` | crates/op-funding/src/lib.rs:206-227 | For all 64-bit inputs no checked step overflows and a budget is returned, so the caller never panics. |
| `SlotBudget.BudgetCovers` | crates/op-funding/src/lib.rs:206-227 | All budgets together cover the slots, with an excess of at least 2.33 standard deviations; a committee of nobody counts as one. |
| `SlotBudget.BudgetIsLeast` | crates/op-funding/src/lib.rs:206-227 | The budget is the least number for which all members together have the slots and 2.33 times the least whole root at or above their variance. |
| `SlotBudget.BudgetGrows` | crates/op-funding/src/lib.rs:206-227 | More slots never mean a smaller budget. |
| `SlotBudget.BudgetMayExceedSlots` | crates/op-funding/src/lib.rs:206-227 | The budget of one member can exceed the number of slots. |
| `FundingRequest.StepKeepsSafe` | crates/user-api/src/server.rs:76-110 | Each critical section, wake-up, reply or drop keeps the invariant, and `Ready` with it. |
| `FundingRequest.LookingGets` | crates/user-api/src/server.rs:76-95 | What a caller that looks gets: the cached value if it is ready, a place among the waiters of the load in progress, or a fetch of its own under a new notifier; no other caller is touched. |
| `FundingRequest.FetcherGetsReply` | crates/user-api/src/server.rs:92-110 | The caller that fetched returns the reply it got; a success becomes the cached value and a failure empties it, and every waiter can then wake. |
| `FundingRequest.WokenLooksAgain` | crates/user-api/src/server.rs:76-95 | Arriving and waking only bring the caller to look at the shared state. |
| `FundingRequest.StepKeepsOneFetch` | crates/user-api/src/server.rs:78-91 | No step starts a second fetch beside one in flight. |
| `FundingRequest.FetchingIsLoading` | crates/user-api/src/server.rs:96-108 | A fetch is in flight only in `Loading`, so the branch that makes a new notifier on publishing is never taken. |
| `FundingRequest.RunKeepsSafe` | crates/user-api/src/server.rs:58-110 | Over every interleaving at most one fetch is in flight, every success is the cached value, and every waiter waits on the load in progress or on a signalled notifier. |
| `FundingRequest.SuccessesAgree` | crates/user-api/src/server.rs:58-110 | All successful callers of a run return the same value. |
| `FundingRequest.ReadyIsFinal` | crates/user-api/src/server.rs:76-110 | `Ready` is never left and no fetch is started after it. |
| `FundingRequest.AnswersStay` | crates/user-api/src/server.rs:76-110 | A returned answer is not revised, so the agreement covers answers given at any time. |
| `FundingRequest.LoadingNeedsItsFetcher` | crates/user-api/src/server.rs:76-110 | `Loading` can be left if and only if the caller that set it still has its fetch. |
| `RetryTracker.KeysAgree` | crates/coordinator/src/types.rs:597-653 | Over every run attempts are kept for exactly the scheduled keys. |
| `RetryTracker.Remaining` | crates/coordinator/src/types.rs:572-586 | Where a key that is left alone stands after any run: counting down, or gone. |
| `RetryTracker.FiresOnce` | crates/coordinator/src/types.rs:618-631 | It fires at an operation if and only if that is tick number max(1, delay), with its recorded attempt. |
| `RetryTracker.FiresExactlyOnce` | crates/coordinator/src/types.rs:618-631 | In a run with enough ticks it does fire, at one position only. |
| `RetryTracker.UnscheduledDoesNotFire` | crates/coordinator/src/types.rs:625-631 | A key that is not scheduled does not fire. |
| `RetryTracker.CancelledDoesNotFire` | crates/coordinator/src/types.rs:640-652 | A cancelled key does not fire at any later operation until it is scheduled again, and after a clear none does. |
| `RetryTracker.OthersStay` | crates/coordinator/src/types.rs:618-643 | Scheduling or cancelling a key leaves the delays and attempts of the others as they are. |
| `RetryTracker.TickScheduler.constructor` | crates/coordinator/src/types.rs:556-558 | Starts empty. |
| `RetryTracker.TickScheduler.Schedule` | crates/coordinator/src/types.rs:560-562 | Overwrites the delay of one key. |
| `RetryTracker.TickScheduler.Cancel` | crates/coordinator/src/types.rs:564-566 | Removes one key. |
| `RetryTracker.TickScheduler.Clear` | crates/coordinator/src/types.rs:592-594 | Removes all keys. |
| `RetryTracker.TickScheduler.CountAll` | crates/coordinator/src/types.rs:572-582 | The loop over the entries, in any order, lowers each delay once, stopping at zero, and lists the due keys once each. |
| `RetryTracker.TickScheduler.Tick` | crates/coordinator/src/types.rs:572-586 | Due keys are returned once each and removed; the others count down. |
| `RetryTracker.RetryTracker.constructor` | crates/coordinator/src/types.rs:611-613 | Starts empty on both sides. |
| `RetryTracker.RetryTracker.Schedule` | crates/coordinator/src/types.rs:618-621 | Both sides move together. |
| `RetryTracker.RetryTracker.Cancel` | crates/coordinator/src/types.rs:640-643 | Both sides move together. |
| `RetryTracker.RetryTracker.Clear` | crates/coordinator/src/types.rs:649-652 | Both sides move together. |
| `RetryTracker.RetryTracker.Tick` | crates/coordinator/src/types.rs:625-631 | Returns exactly the matured keys with their attempts, each once, and removes them from both sides. |
| `WordCodec.Chunks` | crates/transaction-dispatcher/src/types.rs:293-297 | The loop cuts the buffer into words that flatten to it. |
| `WordCodec.Pack` | crates/transaction-dispatcher/src/types.rs:277-298 | Succeeds if and only if the payload and its two bytes of length fit the words and the length fits 65535, with the words laid out as length, payload and zeros; for zero words it panics on an empty payload, and on any other if overflow is checked. |
| `WordCodec.LayoutInPlainTerms` | crates/transaction-dispatcher/src/types.rs:277-298 | The layout byte by byte: 32 bytes a word, the length in the first two, then the payload, then zeros. |
| `WordCodec.Unpack` | crates/transaction-dispatcher/src/types.rs:302-315 | The loop reads the stored payload of the flattened words, or rejects them. |
| `WordCodec.PackedReadsBack` | crates/transaction-dispatcher/src/types.rs:277-315 | Every payload that fits reads back, whatever bytes it ends in. |
| `WordCodec.StoredPacksBack` | crates/transaction-dispatcher/src/types.rs:277-315 | A stored payload packs back into the same words if and only if the padding is zero. |
| `WordCodec.ZeroWordsAreEmpty` | crates/transaction-dispatcher/src/types.rs:302-315 | All-zero words hold the empty payload. |

## Left out

- Pipeline.ViewFollowsCanonicalChain: covers syncs that are not stopped and chains no shorter than the stored one; ViewGaps says what happens otherwise. Nodes keep the initial block on their chain throughout.
- Resume.ResumeEquivalence: the node is on the same chain across the restarts; ChainChange has the start on another chain, if it is not stopped in turn. A crash in the middle of one iteration, between two database writes, is not modelled there.
- Resume.StartupKeepsPending: needs two rounds from the tip; the code allows nine.
- Confirmations.RestoredTrackerInStep: stated on values, with one observer; the shared, reference-counted observer list is modelled in ChainView only.
- ChainView.BlockchainView.Update: after a panic nothing is promised about the view.
- CheckFork.CheckFork: says when the check fails, not with which message.
- TxBuilder.BuildTransaction: signing, its possible errors and the script types are left out; a signature contributes a size and an id, any function of the transaction.
- WalletRuns.RunKeepsBooks: replacements are committed before the next operation, of a transaction whose change is still unspent, and spend all inputs of the original or replace a tight one; the lemmas of WalletLedger say what happens otherwise.
- FundingRequest.RunKeepsSafe: safety only; a waiter subscribes after releasing the lock, so that it is woken is not claimed. The mutex-guarded state is modelled on values, one event for each critical section.
- RetryTracker: keys are strings; the block-timestamp scheduler beside it would add only easy members.
- `restart_from` and `clear` of the chain view, and the getters of every class.
- `create_transactions`, peg-in outputs, address and key handling, clearing the wallet, timestamps of stored outputs, and the text form of keys and serialised transactions.
- `listen_logs`, and logs that a reorganisation takes back during recovery: the history of logs only extends.
- The pegout id, its preimage and the journal of the fork check: fixed layouts without a hard property.
- Funding profiles and balances other than the slot budget: products and sums with checked overflow.
- RPC, HTTP and broker transport, the transaction dispatcher, the coordinator's flows, command lines, configuration and metrics.
- The insides of RocksDB and of the LRU cache: which entry is evicted is left open.
- Numbers are unbounded except where the code checks or wraps: heights, amounts, work and lengths carry their bounds as stated.
