/** The coordinator's view of the chain (crates/coordinator/src/blockchain_tracker.rs): a window of
    consecutive blocks that grows at the tip, rolls back on a reorganisation, and tells its
    observers about every block added or removed. */
module ChainView {
  import opened Common
  import opened Chain

  datatype Notice = Added(item: Item) | Removed(item: Item)

  datatype Outcome = Panicked | Updated(view: seq<Item>, notices: seq<Notice>)

  /** Every block follows the one before it. */
  predicate Contiguous(v: seq<Item>) {
    forall i :: 0 < i < |v| ==> Follows(v[i].block, v[i - 1].block)
  }

  lemma {:induction false} ContiguousHeights(v: seq<Item>, i: nat, j: nat)
    requires Contiguous(v) && i <= j < |v|
    ensures v[j].block.number == v[i].block.number + (j - i)
    decreases j
  {
    if i < j {
      ContiguousHeights(v, i, j - 1);
    }
  }

  /** How many items lie strictly below height `n`: the extent of `range(..n)` on a map that is
      ordered by height. */
  function CountBelow(v: seq<Item>, n: nat): (k: nat)
    ensures k <= |v|
    ensures 0 < k ==> v[k - 1].block.number < n
  {
    if |v| == 0 || v[|v| - 1].block.number < n then |v|
    else CountBelow(v[..|v| - 1], n)
  }

  lemma {:induction false} CountBelowContiguous(v: seq<Item>, n: nat)
    requires Contiguous(v) && v != []
    ensures var first := v[0].block.number;
            CountBelow(v, n) == if n <= first then 0 else if n >= first + |v| then |v| else n - first
    decreases |v|
  {
    ContiguousHeights(v, 0, |v| - 1);
    if |v| > 1 {
      CountBelowContiguous(v[..|v| - 1], n);
    }
  }

  /** The item stored at height `n`, if any. */
  function At(v: seq<Item>, n: nat): (r: Option<Item>)
    ensures r.Some? ==> r.value in v && r.value.block.number == n
  {
    var k := CountBelow(v, n);
    if k < |v| && v[k].block.number == n then Some(v[k]) else None
  }

  lemma AtContiguous(v: seq<Item>, n: nat)
    requires Contiguous(v) && v != []
    ensures var first := v[0].block.number;
            At(v, n) == if first <= n < first + |v| then Some(v[n - first]) else None
  {
    CountBelowContiguous(v, n);
    if v[0].block.number <= n < v[0].block.number + |v| {
      ContiguousHeights(v, 0, n - v[0].block.number);
    }
  }

  function Tip(v: seq<Item>): Item
    requires v != []
  {
    v[|v| - 1]
  }

  predicate Knows(v: seq<Item>, item: Item) {
    At(v, item.block.number).Some? && At(v, item.block.number).value.block.hash == item.block.hash
  }

  /** The removals of a rollback, highest block first. */
  function Removals(v: seq<Item>): (r: seq<Notice>)
    ensures |r| == |v|
    ensures forall i :: 0 <= i < |v| ==> r[i] == Removed(v[|v| - 1 - i])
  {
    seq(|v|, i requires 0 <= i < |v| => Removed(v[|v| - 1 - i]))
  }

  function RollbackView(v: seq<Item>, item: Item): Outcome {
    var k := CountBelow(v, item.block.number);
    if 0 < k && !Follows(item.block, v[k - 1].block) then Panicked
    else if item.block.number == U64_MAX then Panicked
    else Updated(v[..k] + [item], Removals(v[k..]) + [Added(item)])
  }

  /** What one delivered block does to the view, and what the observers hear of it. */
  function UpdateView(v: seq<Item>, item: Item): Outcome {
    if Knows(v, item) then Updated(v, [])
    else if v != [] && item.block.number <= Tip(v).block.number then RollbackView(v, item)
    else if v != [] && !Follows(item.block, Tip(v).block) then Panicked
    else Updated(v + [item], [Added(item)])
  }

  /** A stream of deliveries; the notices of the whole stream are kept in order. */
  function Feed(v: seq<Item>, stream: seq<Item>): Outcome
    decreases |stream|
  {
    if stream == [] then Updated(v, [])
    else
      match UpdateView(v, stream[0])
      case Panicked => Panicked
      case Updated(v1, ns) =>
        match Feed(v1, stream[1..])
        case Panicked => Panicked
        case Updated(v2, ms) => Updated(v2, ns + ms)
  }

  /** An observer's own reconstruction of the view: an added block is pushed, and a removed block
      has to be the one on top, which is popped. `None` when a notice does not fit. */
  function Replay(stack: seq<Item>, notices: seq<Notice>): Option<seq<Item>>
    decreases |notices|
  {
    if notices == [] then Some(stack)
    else
      match notices[0]
      case Added(item) => Replay(stack + [item], notices[1..])
      case Removed(item) =>
        if stack != [] && Tip(stack) == item then Replay(stack[..|stack| - 1], notices[1..])
        else None
  }

  lemma {:induction false} ReplayInTwo(stack: seq<Item>, a: seq<Notice>, b: seq<Notice>)
    ensures Replay(stack, a + b)
         == if Replay(stack, a).Some? then Replay(Replay(stack, a).value, b) else None
    decreases |a|
  {
    if a == [] {
      assert a + b == b;
    } else {
      assert (a + b)[0] == a[0] && (a + b)[1..] == a[1..] + b;
      match a[0]
      case Added(item) => ReplayInTwo(stack + [item], a[1..], b);
      case Removed(item) =>
        if stack != [] && Tip(stack) == item {
          ReplayInTwo(stack[..|stack| - 1], a[1..], b);
        }
    }
  }

  /** Removing a suffix, highest first, pops exactly that suffix. */
  lemma {:induction false} ReplayRemovals(stack: seq<Item>, k: nat)
    requires k <= |stack|
    ensures Replay(stack, Removals(stack[k..])) == Some(stack[..k])
    decreases |stack|
  {
    if k == |stack| {
      assert Removals(stack[k..]) == [];
      assert stack[..k] == stack;
    } else {
      var rest := stack[..|stack| - 1];
      assert Removals(stack[k..])[0] == Removed(Tip(stack));
      assert Removals(stack[k..])[1..] == Removals(rest[k..]);
      ReplayRemovals(rest, k);
      assert rest[..k] == stack[..k];
    }
  }

  lemma RollbackKeepsView(v: seq<Item>, item: Item)
    requires Contiguous(v)
    ensures var r := RollbackView(v, item);
            r.Updated? ==> Contiguous(r.view) && Replay(v, r.notices) == Some(r.view)
  {
    var k := CountBelow(v, item.block.number);
    ReplayInTwo(v, Removals(v[k..]), [Added(item)]);
    ReplayRemovals(v, k);
    assert Replay(v[..k] + [item], []) == Some(v[..k] + [item]);
  }

  lemma UpdateKeepsView(v: seq<Item>, item: Item)
    requires Contiguous(v)
    ensures var r := UpdateView(v, item);
            r.Updated? ==> Contiguous(r.view) && Replay(v, r.notices) == Some(r.view)
  {
    if v != [] && item.block.number <= Tip(v).block.number {
      RollbackKeepsView(v, item);
    } else {
      assert Replay(v, [Added(item)]) == Replay(v + [item], []);
    }
  }

  /** Over every stream that does not panic, the view stays contiguous and hash-linked, and
      replaying the notices from the starting view rebuilds it; every removal names the top. */
  lemma {:induction false} ReplayRebuildsView(v: seq<Item>, stream: seq<Item>)
    requires Contiguous(v)
    ensures var r := Feed(v, stream);
            r.Updated? ==> Contiguous(r.view) && Replay(v, r.notices) == Some(r.view)
    decreases |stream|
  {
    if stream != [] && UpdateView(v, stream[0]).Updated? {
      var r := UpdateView(v, stream[0]);
      UpdateKeepsView(v, stream[0]);
      ReplayRebuildsView(r.view, stream[1..]);
      var rest := Feed(r.view, stream[1..]);
      if rest.Updated? {
        ReplayInTwo(v, r.notices, rest.notices);
      }
    }
  }

  lemma {:induction false} FeedInTwo(v: seq<Item>, a: seq<Item>, b: seq<Item>)
    ensures Feed(v, a + b).Updated?
       <==> Feed(v, a).Updated? && Feed(Feed(v, a).view, b).Updated?
    ensures Feed(v, a + b).Updated? ==> Feed(v, a + b).view == Feed(Feed(v, a).view, b).view
    decreases |a|
  {
    if a == [] {
      assert a + b == b;
    } else {
      assert (a + b)[0] == a[0] && (a + b)[1..] == a[1..] + b;
      if UpdateView(v, a[0]).Updated? {
        FeedInTwo(UpdateView(v, a[0]).view, a[1..], b);
      }
    }
  }

  /** A `BlockConfirmations` observer; `seen` keeps the notices it was given. */
  datatype Observer = Observer(init: nat, last: nat, required: nat, seen: seq<Notice>)

  /** Both callbacks set `last` to the height of the block they are given. */
  function Hear(o: Observer, n: Notice): Observer {
    o.(last := n.item.block.number, seen := o.seen + [n])
  }

  function HearAll(o: Observer, notices: seq<Notice>): Observer {
    if notices == [] then o
    else o.(last := notices[|notices| - 1].item.block.number, seen := o.seen + notices)
  }

  function AllHear(observers: map<string, Observer>, notices: seq<Notice>): map<string, Observer> {
    map id | id in observers :: HearAll(observers[id], notices)
  }

  /** Hearing two runs of notices one after the other is hearing them as one run. */
  lemma AllHearInTwo(observers: map<string, Observer>, a: seq<Notice>, b: seq<Notice>)
    ensures AllHear(AllHear(observers, a), b) == AllHear(observers, a + b)
  {
    forall id | id in observers
      ensures HearAll(HearAll(observers[id], a), b) == HearAll(observers[id], a + b)
    {
      var o := observers[id];
      assert o.seen + a + b == o.seen + (a + b);
      if a == [] { assert a + b == b; }
      if b == [] { assert a + b == a; }
    }
  }

  // ---- one delivery in plain terms ----

  /** What a delivered block does to a contiguous view whose first `k` blocks lie below it. A block it
      holds already is ignored. Otherwise the rest is removed, highest first, and the block is added
      on top of the first `k`; it panics exactly when it does not follow the last of those, or when it
      has to remove something and its height is the last there is. */
  lemma UpdateInPlainTerms(v: seq<Item>, item: Item, k: nat)
    requires Contiguous(v) && k <= |v|
    requires forall i :: 0 <= i < |v| ==> (i < k <==> v[i].block.number < item.block.number)
    ensures var r, b := UpdateView(v, item), item.block;
            if k < |v| && v[k].block.number == b.number && v[k].block.hash == b.hash then r == Updated(v, [])
            else if || (0 < k && !(b.number == v[k - 1].block.number + 1 && b.parent == v[k - 1].block.hash))
                    || (k < |v| && b.number == 0xFFFF_FFFF_FFFF_FFFF) then r == Panicked
            else && r.Updated? && r.view == v[..k] + [item] && |r.notices| == |v| - k + 1
                 && r.notices[|v| - k] == Added(item)
                 && forall i :: 0 <= i < |v| - k ==> r.notices[i] == Removed(v[|v| - 1 - i])
  {
    if v != [] {
      CountBelowContiguous(v, item.block.number);
      ContiguousHeights(v, 0, |v| - 1);
      if 0 < k < |v| {
        ContiguousHeights(v, 0, k);
      }
      AtContiguous(v, item.block.number);
    }
  }

  /** The notices of a delivery do not cancel out: what is removed is not in the new view, what is
      added was not in the old one, and nothing is named twice. */
  lemma NoticesAreNews(v: seq<Item>, item: Item)
    requires Contiguous(v) && UpdateView(v, item).Updated?
    ensures var r := UpdateView(v, item);
            && (forall i :: 0 <= i < |r.notices| && r.notices[i].Removed? ==>
                  r.notices[i].item in v && r.notices[i].item !in r.view)
            && (forall i :: 0 <= i < |r.notices| && r.notices[i].Added? ==>
                  r.notices[i].item !in v && r.notices[i].item in r.view)
            && (forall i, j :: 0 <= i < j < |r.notices| ==> r.notices[i].item != r.notices[j].item)
  {
    hide UpdateView, Contiguous;
    var k := CountBelow(v, item.block.number);
    Cut(v, item.block.number, k);
    UpdateInPlainTerms(v, item, k);
  }

  /** The blocks below a height come first, and no two blocks have one height. */
  lemma Cut(v: seq<Item>, n: nat, k: nat)
    requires Contiguous(v) && k == CountBelow(v, n)
    ensures forall i :: 0 <= i < |v| ==> (i < k <==> v[i].block.number < n)
    ensures forall i, j :: 0 <= i < j < |v| ==> v[i].block.number < v[j].block.number
    ensures forall i :: k < i < |v| ==> v[i].block.number > n
  {
    if v != [] {
      CountBelowContiguous(v, n);
      forall i | 0 <= i < |v|
        ensures v[i].block.number == v[0].block.number + i
      {
        ContiguousHeights(v, 0, i);
      }
    }
  }

  class BlockchainView {
    var blocks: seq<Item>
    var observers: map<string, Observer>
    /** The view each observer found when it was added. */
    ghost var starts: map<string, seq<Item>>

    ghost predicate Valid()
      reads this
    {
      && Contiguous(blocks)
      && starts.Keys == observers.Keys
      && forall id :: id in observers ==> Replay(starts[id], observers[id].seen) == Some(blocks)
    }

    constructor ()
      ensures Valid() && blocks == [] && observers == map[]
    {
      blocks, observers, starts := [], map[], map[];
    }

    /** `false` stands for the panic on a duplicate id. */
    method AddObserver(id: string, init: nat, required: nat) returns (ok: bool)
      requires Valid()
      modifies this
      ensures Valid() && blocks == old(blocks)
      ensures ok <==> id !in old(observers)
      ensures observers == if ok then old(observers)[id := Observer(init, init, required, [])] else old(observers)
      ensures ok ==> starts == old(starts)[id := blocks]
    {
      ok := id !in observers;
      if ok {
        observers := observers[id := Observer(init, init, required, [])];
        starts := starts[id := blocks];
      }
    }

    method RemoveObserver(id: string)
      requires Valid()
      modifies this
      ensures Valid() && blocks == old(blocks) && observers == old(observers) - {id}
    {
      observers := observers - {id};
      starts := starts - {id};
    }

    method NotifyAll(n: Notice)
      modifies this`observers
      ensures observers == AllHear(old(observers), [n])
    {
      var rest := observers.Keys;
      while rest != {}
        invariant observers.Keys == old(observers).Keys
        invariant rest <= observers.Keys
        invariant forall id :: id in observers ==>
          observers[id] == if id in rest then old(observers)[id] else Hear(old(observers)[id], n)
      {
        var id :| id in rest;
        observers := observers[id := Hear(observers[id], n)];
        rest := rest - {id};
      }
    }

    /** One delivered block. `false` stands for a panic, after which nothing is promised. */
    method Update(item: Item) returns (ok: bool)
      requires Valid()
      modifies this
      ensures ok <==> UpdateView(old(blocks), item).Updated?
      ensures ok ==> Valid() && starts == old(starts)
      ensures ok ==> blocks == UpdateView(old(blocks), item).view
      ensures ok ==> observers == AllHear(old(observers), UpdateView(old(blocks), item).notices)
    {
      UpdateKeepsView(blocks, item);
      var prevTip := if blocks == [] then None else Some(Tip(blocks));
      if Knows(blocks, item) {
        return true;
      }
      if prevTip.Some? && item.block.number <= prevTip.value.block.number {
        ok := RollbackTo(item);
      } else {
        blocks := blocks + [item];
        if prevTip.Some? && !Follows(item.block, prevTip.value.block) {
          return false;
        }
        NotifyAll(Added(item));
        ok := true;
      }
      if ok {
        ReplayAllInTwo(old(starts), old(observers), old(blocks), UpdateView(old(blocks), item).notices);
      }
    }

    method RollbackTo(item: Item) returns (ok: bool)
      requires Contiguous(blocks)
      modifies this`blocks, this`observers
      ensures ok <==> RollbackView(old(blocks), item).Updated?
      ensures ok ==> blocks == RollbackView(old(blocks), item).view
      ensures ok ==> observers == AllHear(old(observers), RollbackView(old(blocks), item).notices)
    {
      var k := CountBelow(blocks, item.block.number);
      if 0 < k && !Follows(item.block, blocks[k - 1].block) {
        return false;
      }
      if blocks != [] {
        CountBelowContiguous(blocks, item.block.number);
        AtContiguous(blocks, item.block.number);
      }
      // insert, then split off everything above the new tip
      var replaced := At(blocks, item.block.number);
      var removed := if replaced.Some? then blocks[k + 1..] else blocks[k..];
      blocks := blocks[..k] + [item];
      if item.block.number == U64_MAX {
        return false;
      }
      NotifyRollback(old(blocks)[k..], removed, replaced, item);
      ok := true;
    }

    /** Reports a rollback: what was above the new tip from the highest block down, then what the
        new tip replaced, then the new tip itself. */
    method NotifyRollback(ghost cut: seq<Item>, removed: seq<Item>, replaced: Option<Item>, item: Item)
      requires cut == if replaced.Some? then [replaced.value] + removed else removed
      modifies this`observers
      ensures observers == AllHear(old(observers), Removals(cut) + [Added(item)])
    {
      ghost var before := observers;
      ghost var told := [];
      var i := |removed|;
      while 0 < i
        invariant 0 <= i <= |removed|
        invariant told == Removals(removed)[..|removed| - i]
        invariant observers == AllHear(before, told)
      {
        i := i - 1;
        NotifyAll(Removed(removed[i]));
        AllHearInTwo(before, told, [Removed(removed[i])]);
        told := told + [Removed(removed[i])];
      }
      if replaced.Some? {
        NotifyAll(Removed(replaced.value));
        AllHearInTwo(before, told, [Removed(replaced.value)]);
        told := told + [Removed(replaced.value)];
      }
      assert told == Removals(cut);
      NotifyAll(Added(item));
      AllHearInTwo(before, told, [Added(item)]);
    }
  }

  /** If every observer's notices replay to `blocks`, appending the same notices to all of them
      replays to whatever those notices make of `blocks`. */
  lemma ReplayAllInTwo(starts: map<string, seq<Item>>, observers: map<string, Observer>,
                       blocks: seq<Item>, notices: seq<Notice>)
    requires starts.Keys == observers.Keys
    requires forall id :: id in observers ==> Replay(starts[id], observers[id].seen) == Some(blocks)
    ensures forall id :: id in observers ==>
      Replay(starts[id], observers[id].seen + notices) == Replay(blocks, notices)
  {
    forall id | id in observers
      ensures Replay(starts[id], observers[id].seen + notices) == Replay(blocks, notices)
    {
      ReplayInTwo(starts[id], observers[id].seen, notices);
    }
  }
}
