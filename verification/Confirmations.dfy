/** Confirmation counting over the chain view, and what a restart does to it
    (crates/coordinator/src/blockchain_tracker.rs): a snapshot keeps the starting block and the
    required count, and is restored onto an empty view. */
module Confirmations {
  import opened Common
  import opened Chain
  import opened ChainView

  function Accum(o: Observer): nat {
    if o.last < o.init then 0 else o.last - o.init + 1
  }

  predicate IsConfirmed(o: Observer) {
    Accum(o) >= o.required
  }

  /** A view with the one observer of interest. */
  datatype Tracker = Tracker(view: seq<Item>, obs: Observer)

  function Step(t: Tracker, item: Item): Option<Tracker> {
    match UpdateView(t.view, item)
    case Panicked => None
    case Updated(view, notices) => Some(Tracker(view, HearAll(t.obs, notices)))
  }

  function Run(t: Tracker, stream: seq<Item>): Option<Tracker>
    decreases |stream|
  {
    if stream == [] then Some(t)
    else if Step(t, stream[0]).None? then None
    else Run(Step(t, stream[0]).value, stream[1..])
  }

  datatype Snapshot = Snapshot(startBlock: nat, required: nat)

  function TakeSnapshot(t: Tracker): Snapshot {
    Snapshot(t.obs.init, t.obs.required)
  }

  function Restore(s: Snapshot): Tracker {
    Tracker([], Observer(s.startBlock, s.startBlock, s.required, []))
  }

  /** The restored view is empty, or a suffix of the uninterrupted one, and so has its tip. */
  predicate InStep(view: seq<Item>, restored: seq<Item>) {
    |restored| <= |view| && restored == view[|view| - |restored|..]
  }

  /** A re-delivery of a block the uninterrupted view holds strictly below the restored view, or
      strictly below the tip while the restored view is still empty. */
  predicate Stale(view: seq<Item>, restored: seq<Item>, item: Item) {
    Knows(view, item) &&
    item.block.number < (if restored == [] then Tip(view) else restored[0]).block.number
  }

  /** A block delivered again under the same hash is the same block with the same uncles. */
  predicate Faithful(view: seq<Item>, item: Item) {
    Knows(view, item) ==> item in view
  }

  predicate UpToDate(t: Tracker) {
    t.view != [] ==> t.obs.last == Tip(t.view).block.number
  }

  /** A stream that never re-delivers a stale block, judged along the joint run. */
  predicate NoStale(view: seq<Item>, restored: seq<Item>, stream: seq<Item>)
    decreases |stream|
  {
    stream == [] ||
    (&& Faithful(view, stream[0])
     && !Stale(view, restored, stream[0])
     && (UpdateView(view, stream[0]).Updated? && UpdateView(restored, stream[0]).Updated? ==>
           NoStale(UpdateView(view, stream[0]).view, UpdateView(restored, stream[0]).view, stream[1..])))
  }

  lemma SuffixFacts(view: seq<Item>, restored: seq<Item>)
    requires Contiguous(view) && InStep(view, restored) && restored != []
    ensures Contiguous(restored)
    ensures restored[0].block.number == view[0].block.number + (|view| - |restored|)
  {
    ContiguousHeights(view, 0, |view| - |restored|);
    forall i | 0 < i < |restored|
      ensures Follows(restored[i].block, restored[i - 1].block)
    {
      assert Follows(view[|view| - |restored| + i].block, view[|view| - |restored| + i - 1].block);
    }
  }

  /** One delivery keeps the two views in step exactly when it is not a stale re-delivery. */
  lemma StepKeepsInStep(view: seq<Item>, restored: seq<Item>, item: Item)
    requires Contiguous(view) && InStep(view, restored)
    requires Faithful(view, item)
    requires UpdateView(view, item).Updated?
    ensures var v1, r1 := UpdateView(view, item), UpdateView(restored, item);
            !Stale(view, restored, item) <==> r1.Updated? && r1.view != [] && InStep(v1.view, r1.view)
  {
    if view != [] && restored == [] {
      StepFromEmpty(view, item);
    } else if view != [] {
      var d := |view| - |restored|;
      SuffixFacts(view, restored);
      AtContiguous(view, item.block.number);
      AtContiguous(restored, item.block.number);
      if item.block.number > Tip(view).block.number {
        assert UpdateView(view, item).view[d..] == restored + [item];
      } else if Knows(view, item) {
        StepKnown(view, restored, item);
      } else {
        StepRollback(view, restored, item);
      }
    }
  }

  lemma StepKnown(view: seq<Item>, restored: seq<Item>, item: Item)
    requires Contiguous(view) && InStep(view, restored) && restored != []
    requires Knows(view, item)
    ensures item.block.number >= restored[0].block.number ==> Knows(restored, item)
    ensures item.block.number < restored[0].block.number ==>
      UpdateView(restored, item) == RollbackView(restored, item) &&
      (UpdateView(restored, item).Updated? ==> !InStep(view, UpdateView(restored, item).view))
  {
    SuffixFacts(view, restored);
    AtContiguous(view, item.block.number);
    AtContiguous(restored, item.block.number);
    CountBelowContiguous(restored, item.block.number);
    ContiguousHeights(restored, 0, |restored| - 1);
  }

  lemma StepRollback(view: seq<Item>, restored: seq<Item>, item: Item)
    requires Contiguous(view) && InStep(view, restored) && restored != []
    requires !Knows(view, item) && item.block.number <= Tip(view).block.number
    requires RollbackView(view, item).Updated?
    ensures UpdateView(restored, item) == RollbackView(restored, item)
    ensures RollbackView(restored, item).Updated?
    ensures InStep(RollbackView(view, item).view, RollbackView(restored, item).view)
  {
    hide CountBelow, At, Contiguous, Follows, RollbackView;
    var n := item.block.number;
    SuffixFacts(view, restored);
    AtContiguous(view, n);
    AtContiguous(restored, n);
    CountBelowContiguous(view, n);
    CountBelowContiguous(restored, n);
    RollbackOfSuffix(view, restored, item, CountBelow(view, n), CountBelow(restored, n));
  }

  /** A rollback cuts a view and its suffix at the same block, or replaces all of the suffix. */
  lemma RollbackOfSuffix(view: seq<Item>, restored: seq<Item>, item: Item, k: nat, j: nat)
    requires InStep(view, restored) && RollbackView(view, item).Updated?
    requires k == CountBelow(view, item.block.number) && j == CountBelow(restored, item.block.number)
    requires 0 < j ==> j == k - (|view| - |restored|)
    ensures RollbackView(restored, item).Updated?
    ensures InStep(RollbackView(view, item).view, RollbackView(restored, item).view)
  {
    hide CountBelow, Follows, Removals, InStep;
    assert |restored| <= |view| by { Shorter(view, restored); }
    if 0 < j {
      assert restored[j - 1] == view[k - 1] by { SuffixAt(view, restored, k - 1, j - 1); }
    }
    SuffixCut(view, restored, item, k, j);
  }

  lemma Shorter(view: seq<Item>, restored: seq<Item>)
    requires InStep(view, restored)
    ensures |restored| <= |view|
  {
  }

  lemma SuffixAt(view: seq<Item>, restored: seq<Item>, i: nat, j: nat)
    requires InStep(view, restored) && j < |restored| && i == j + (|view| - |restored|)
    ensures restored[j] == view[i]
  {
  }

  lemma SuffixCut(view: seq<Item>, restored: seq<Item>, item: Item, k: nat, j: nat)
    requires InStep(view, restored) && k <= |view| && j <= |restored| && (0 < j ==> j == k - (|view| - |restored|))
    ensures InStep(view[..k] + [item], restored[..j] + [item])
  {
    var cut, rest := view[..k] + [item], restored[..j] + [item];
    forall i | 0 <= i < |rest|
      ensures rest[i] == cut[|cut| - |rest| + i]
    {
      if i < j {
        SuffixAt(view, restored, i + (|view| - |restored|), i);
      }
    }
  }

  lemma StepFromEmpty(view: seq<Item>, item: Item)
    requires Contiguous(view) && view != []
    requires Faithful(view, item)
    requires UpdateView(view, item).Updated?
    ensures UpdateView([], item).Updated?
    ensures !Stale(view, [], item) <==> InStep(UpdateView(view, item).view, UpdateView([], item).view)
  {
    var n := item.block.number;
    var first := view[0].block.number;
    AtContiguous(view, n);
    ContiguousHeights(view, 0, |view| - 1);
    if Knows(view, item) {
      var i :| 0 <= i < |view| && view[i] == item;
      ContiguousHeights(view, 0, i);
    }
  }

  /** A delivery that is not ignored leaves every observer's `last` at the new tip. */
  lemma UpdatedTipIsLast(view: seq<Item>, item: Item, o: Observer)
    requires UpdateView(view, item).Updated?
    ensures var r := UpdateView(view, item);
            if Knows(view, item) then r.view == view && HearAll(o, r.notices) == o
            else r.view != [] && Tip(r.view) == item && HearAll(o, r.notices).last == item.block.number
  {
  }

  /** Two trackers whose views are in step: where one does not panic the other does not, and the
      views stay in step with the same tip. Nothing is asked of the observers. */
  lemma {:induction false} ViewsRun(t: Tracker, r: Tracker, stream: seq<Item>)
    requires Contiguous(t.view) && InStep(t.view, r.view)
    requires NoStale(t.view, r.view, stream)
    requires Run(t, stream).Some?
    ensures Run(r, stream).Some?
    ensures var t1, r1 := Run(t, stream).value, Run(r, stream).value;
            && InStep(t1.view, r1.view)
            && (stream != [] || r.view != [] ==> r1.view != [] && Tip(r1.view) == Tip(t1.view))
    decreases |stream|
  {
    hide Contiguous, Stale, Faithful, UpdateView, Knows;
    if stream != [] {
      var item := stream[0];
      StepKeepsInStep(t.view, r.view, item);
      UpdateKeepsView(t.view, item);
      ViewsRun(Step(t, item).value, Step(r, item).value, stream[1..]);
    }
  }

  /** A tracker restored from its snapshot onto an empty view stays in step with the uninterrupted
      one: it does not panic where the other does not, and its view is a suffix of the other's,
      with the same tip from the first block on. */
  lemma RestoredTrackerInStep(t: Tracker, stream: seq<Item>)
    requires Contiguous(t.view)
    requires NoStale(t.view, [], stream)
    requires Run(t, stream).Some?
    ensures Run(Restore(TakeSnapshot(t)), stream).Some?
    ensures var t1, r1 := Run(t, stream).value, Run(Restore(TakeSnapshot(t)), stream).value;
            && InStep(t1.view, r1.view)
            && (stream != [] ==> r1.view != [] && Tip(r1.view) == Tip(t1.view))
  {
    ViewsRun(t, Restore(TakeSnapshot(t)), stream);
  }

  /** Some delivery is not a block that the view holds already. */
  ghost predicate News(view: seq<Item>, stream: seq<Item>) {
    exists i :: 0 <= i < |stream| && !Knows(view, stream[i])
  }

  /** The count the observer would have if it had been told about the tip of its view. */
  predicate CountsToTip(t: Tracker) {
    t.view != [] && Accum(t.obs) == Accum(t.obs.(last := Tip(t.view).block.number))
  }

  /** From a snapshot on, the restored tracker and the uninterrupted one count the same
      confirmations if and only if the stream brings some news, or the observer's count was already
      that of the tip. */
  lemma RestoredCountsAgree(t: Tracker, stream: seq<Item>)
    requires Contiguous(t.view) && stream != []
    requires NoStale(t.view, [], stream)
    requires Run(t, stream).Some?
    ensures Run(Restore(TakeSnapshot(t)), stream).Some?
    ensures var t1, r1 := Run(t, stream).value, Run(Restore(TakeSnapshot(t)), stream).value;
            && (Accum(r1.obs) == Accum(t1.obs) <==> News(t.view, stream) || CountsToTip(t))
            && (Accum(r1.obs) == Accum(t1.obs) ==> IsConfirmed(r1.obs) == IsConfirmed(t1.obs))
  {
    hide Contiguous, UpdateView, HearAll, Faithful, Stale, InStep, Knows;
    var item, rest := stream[0], stream[1..];
    FirstStep(t, item);
    var t1, r1 := Step(t, item).value, Step(Restore(TakeSnapshot(t)), item).value;
    if Knows(t.view, item) {
      CountsRun(t1, r1, rest);
      NewsLater(t.view, stream);
    } else {
      JointRun(t1, r1, rest);
    }
  }

  lemma NewsLater(view: seq<Item>, stream: seq<Item>)
    requires stream != [] && Knows(view, stream[0])
    ensures News(view, stream) <==> News(view, stream[1..])
  {
    hide Knows;
    if i :| 0 <= i < |stream| && !Knows(view, stream[i]) {
      assert stream[1..][i - 1] == stream[i];
    }
    if i :| 0 <= i < |stream[1..]| && !Knows(view, stream[1..][i]) {
      assert stream[1..][i] == stream[i + 1];
    }
  }

  lemma FirstStep(t: Tracker, item: Item)
    requires Contiguous(t.view)
    requires Faithful(t.view, item) && !Stale(t.view, [], item)
    requires UpdateView(t.view, item).Updated?
    ensures UpdateView([], item).Updated?
    ensures var t1, r1 := Step(t, item).value, Step(Restore(TakeSnapshot(t)), item).value;
            && Contiguous(t1.view) && r1.view != [] && InStep(t1.view, r1.view) && UpToDate(r1)
            && (if Knows(t.view, item) then t1 == t else UpToDate(t1))
            && t1.obs.init == r1.obs.init && t1.obs.required == r1.obs.required
  {
    StepKeepsInStep(t.view, [], item);
    UpdatedTipIsLast(t.view, item, t.obs);
    UpdatedTipIsLast([], item, Restore(TakeSnapshot(t)).obs);
    UpdateKeepsView(t.view, item);
  }

  /** The counts of a joint run in which only the restored observer is known to stand at the tip:
      the first news brings the other one there; without any, both stay where they are. */
  lemma {:induction false} CountsRun(t: Tracker, r: Tracker, stream: seq<Item>)
    requires Contiguous(t.view) && r.view != [] && InStep(t.view, r.view) && UpToDate(r)
    requires t.obs.init == r.obs.init && t.obs.required == r.obs.required
    requires NoStale(t.view, r.view, stream)
    requires Run(t, stream).Some?
    ensures Run(r, stream).Some?
    ensures var t1, r1 := Run(t, stream).value, Run(r, stream).value;
            && t1.obs.init == r1.obs.init && t1.obs.required == r1.obs.required
            && (if News(t.view, stream) then t1.obs.last == r1.obs.last else t1 == t && r1.obs == r.obs)
    decreases |stream|
  {
    hide Contiguous, Faithful;
    if stream != [] {
      var item := stream[0];
      StepKeepsInStep(t.view, r.view, item);
      UpdatedTipIsLast(t.view, item, t.obs);
      UpdatedTipIsLast(r.view, item, r.obs);
      UpdateKeepsView(t.view, item);
      if Knows(t.view, item) {
        StepKnown(t.view, r.view, item);
        NewsLater(t.view, stream);
        CountsRun(t, r, stream[1..]);
      } else {
        JointRun(Step(t, item).value, Step(r, item).value, stream[1..]);
      }
    }
  }

  /** The joint run, once both views hold a block. */
  lemma {:induction false} JointRun(t: Tracker, r: Tracker, stream: seq<Item>)
    requires Contiguous(t.view) && r.view != [] && InStep(t.view, r.view)
    requires UpToDate(t) && UpToDate(r)
    requires t.obs.init == r.obs.init && t.obs.required == r.obs.required
    requires NoStale(t.view, r.view, stream)
    requires Run(t, stream).Some?
    ensures Run(r, stream).Some?
    ensures var t1, r1 := Run(t, stream).value, Run(r, stream).value;
            && r1.view != [] && InStep(t1.view, r1.view)
            && t1.obs.init == r1.obs.init && t1.obs.required == r1.obs.required
            && t1.obs.last == r1.obs.last == Tip(t1.view).block.number
    decreases |stream|
  {
    if stream != [] {
      var item := stream[0];
      StepKeepsInStep(t.view, r.view, item);
      UpdatedTipIsLast(t.view, item, t.obs);
      UpdatedTipIsLast(r.view, item, r.obs);
      UpdateKeepsView(t.view, item);
      JointRun(Step(t, item).value, Step(r, item).value, stream[1..]);
    }
  }

  /** The failing side is met: an observer added at height 5 while the tip is 6 has counted one
      block, and a restored one that is handed the tip again counts two. */
  lemma LateObserverDisagrees()
    ensures exists t: Tracker, item: Item ::
      && Contiguous(t.view) && !News(t.view, [item]) && !CountsToTip(t) && NoStale(t.view, [], [item])
      && Run(t, [item]).Some? && Run(Restore(TakeSnapshot(t)), [item]).Some?
      && !IsConfirmed(Run(t, [item]).value.obs)
      && IsConfirmed(Run(Restore(TakeSnapshot(t)), [item]).value.obs)
  {
    var item := Item(Block(6, 60, 50, 0, []), []);
    var t := Tracker([item], Observer(5, 5, 2, []));
    assert At(t.view, 6) == Some(item) && Knows(t.view, item);
    var r := Restore(TakeSnapshot(t));
    assert Step(t, item) == Some(t) && Run(t, [item]) == Run(t, []) == Some(t);
    assert [] + [item] == [item];
    assert Step(r, item) == Some(Tracker([item], HearAll(r.obs, [Added(item)])));
    assert Run(r, [item]) == Run(Step(r, item).value, []) == Step(r, item);
    assert NoStale(t.view, [], [item]);
  }

  // ---- what is counted ----

  lemma {:induction false} RunKeepsUpToDate(t: Tracker, stream: seq<Item>)
    requires Run(t, stream).Some? && (UpToDate(t) || News(t.view, stream))
    ensures var t1 := Run(t, stream).value;
            UpToDate(t1) && t1.obs.init == t.obs.init && t1.obs.required == t.obs.required
    decreases |stream|
  {
    if stream != [] {
      UpdatedTipIsLast(t.view, stream[0], t.obs);
      if Knows(t.view, stream[0]) {
        NewsLater(t.view, stream);
      }
      RunKeepsUpToDate(Step(t, stream[0]).value, stream[1..]);
    }
  }

  /** Along every run, rollbacks included, once a block was delivered that is not ignored: the count
      is the number of heights from the starting block to the tip, and the observer is confirmed
      exactly when that many are at least the required ones. */
  lemma ConfirmedAtTip(t: Tracker, stream: seq<Item>)
    requires Run(t, stream).Some? && Run(t, stream).value.view != [] && (UpToDate(t) || News(t.view, stream))
    ensures var t1 := Run(t, stream).value;
            var tip, init, required := Tip(t1.view).block.number, t.obs.init, t.obs.required;
            && Accum(t1.obs) == (if tip < init then 0 else tip + 1 - init)
            && (IsConfirmed(t1.obs) <==> required == 0 || init + required <= tip + 1)
  {
    RunKeepsUpToDate(t, stream);
  }
}
