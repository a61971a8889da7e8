/** Retries that fire after a number of ticks (crates/coordinator/src/types.rs): a scheduler of
    countdowns, paired with the attempt number each retry carries. */
module RetryTracker {
  type Key = string

  datatype Tracker = Tracker(pending: map<Key, nat>, attempts: map<Key, int>)

  datatype Op = Schedule(id: Key, attempt: int, delay: nat) | Cancel(id: Key) | Clear | Tick

  function Ready(pending: map<Key, nat>): set<Key> {
    set k | k in pending && pending[k] <= 1
  }

  function CountDown(pending: map<Key, nat>): map<Key, nat> {
    map k | k in pending && pending[k] > 1 :: pending[k] - 1
  }

  function Step(t: Tracker, op: Op): Tracker {
    match op
    case Schedule(id, attempt, delay) => Tracker(t.pending[id := delay], t.attempts[id := attempt])
    case Cancel(id) => Tracker(t.pending - {id}, t.attempts - {id})
    case Clear => Tracker(map[], map[])
    case Tick => Tracker(CountDown(t.pending), t.attempts - Ready(t.pending))
  }

  /** What an operation returns: the matured retries with their attempts. */
  function Fired(t: Tracker, op: Op): map<Key, int> {
    if op.Tick? then map k | k in Ready(t.pending) && k in t.attempts :: t.attempts[k] else map[]
  }

  function Run(t: Tracker, ops: seq<Op>): Tracker {
    if ops == [] then t else Step(Run(t, ops[..|ops| - 1]), ops[|ops| - 1])
  }

  /** What fires at position `i` of a run. */
  function FiredAt(t: Tracker, ops: seq<Op>, i: nat): map<Key, int>
    requires i < |ops|
  {
    Fired(Run(t, ops[..i]), ops[i])
  }

  function Ticks(ops: seq<Op>): nat {
    if ops == [] then 0 else Ticks(ops[..|ops| - 1]) + if ops[|ops| - 1].Tick? then 1 else 0
  }

  /** Nothing in the run cancels, clears or reschedules the key. */
  predicate LeavesAlone(ops: seq<Op>, id: Key) {
    forall i :: 0 <= i < |ops| ==>
      !ops[i].Clear? && (ops[i].Schedule? || ops[i].Cancel? ==> ops[i].id != id)
  }

  /** Attempts are kept for exactly the scheduled keys, over every run from an empty tracker. */
  lemma {:induction false} KeysAgree(t: Tracker, ops: seq<Op>)
    requires t.pending.Keys == t.attempts.Keys
    ensures Run(t, ops).pending.Keys == Run(t, ops).attempts.Keys
    decreases |ops|
  {
    if ops != [] {
      KeysAgree(t, ops[..|ops| - 1]);
      StepKeysAgree(Run(t, ops[..|ops| - 1]), ops[|ops| - 1]);
    }
  }

  lemma StepKeysAgree(t: Tracker, op: Op)
    requires t.pending.Keys == t.attempts.Keys
    ensures Step(t, op).pending.Keys == Step(t, op).attempts.Keys
  {
    if op.Tick? {
      assert CountDown(t.pending).Keys == t.pending.Keys - Ready(t.pending);
    }
  }

  function Max(a: nat, b: nat): nat {
    if a >= b then a else b
  }

  /** Where a key that is left alone stands after a run. */
  lemma {:induction false} Remaining(t: Tracker, ops: seq<Op>, id: Key)
    requires t.pending.Keys == t.attempts.Keys && LeavesAlone(ops, id)
    ensures var t1 := Run(t, ops);
            if id !in t.pending then id !in t1.pending
            else if Ticks(ops) < Max(1, t.pending[id])
            then && id in t1.pending && id in t1.attempts && t1.attempts[id] == t.attempts[id]
                 && t1.pending[id] == t.pending[id] - Ticks(ops)
            else id !in t1.pending
    decreases |ops|
  {
    if ops != [] {
      var front, last := ops[..|ops| - 1], ops[|ops| - 1];
      assert LeavesAlone(front, id) by {
        assert forall i :: 0 <= i < |front| ==> front[i] == ops[i];
      }
      Remaining(t, front, id);
      KeysAgree(t, front);
    }
  }

  /** A scheduled key that is left alone fires exactly once, on tick max(1, delay) after it was
      scheduled, with the attempt recorded then. */
  lemma FiresOnce(before: Tracker, id: Key, attempt: int, delay: nat, ops: seq<Op>, i: nat)
    requires before.pending.Keys == before.attempts.Keys && LeavesAlone(ops, id) && i < |ops|
    ensures var t := Step(before, Schedule(id, attempt, delay));
            && (id in FiredAt(t, ops, i) <==> ops[i].Tick? && Ticks(ops[..i + 1]) == Max(1, delay))
            && (id in FiredAt(t, ops, i) ==> FiredAt(t, ops, i)[id] == attempt)
  {
    var t := Step(before, Schedule(id, attempt, delay));
    StepKeysAgree(before, Schedule(id, attempt, delay));
    assert LeavesAlone(ops[..i], id) by {
      assert forall j :: 0 <= j < i ==> ops[..i][j] == ops[j];
    }
    Remaining(t, ops[..i], id);
    KeysAgree(t, ops[..i]);
    assert ops[..i + 1][..i] == ops[..i];
  }

  /** The operation that is the `m`-th tick of a run. */
  lemma {:induction false} TickNumber(ops: seq<Op>, m: nat) returns (i: nat)
    requires 1 <= m <= Ticks(ops)
    ensures i < |ops| && ops[i].Tick? && Ticks(ops[..i + 1]) == m
    ensures forall j {:trigger ops[..j + 1]} :: 0 <= j < |ops| && j != i && ops[j].Tick? ==> Ticks(ops[..j + 1]) != m
    decreases |ops|
  {
    var front := ops[..|ops| - 1];
    assert ops[..|ops|] == ops;
    if m <= Ticks(front) {
      i := TickNumber(front, m);
    } else {
      i := |ops| - 1;
    }
    forall j | 0 <= j < |ops| && j != i && ops[j].Tick? ensures Ticks(ops[..j + 1]) != m {
      if j < |front| {
        assert front[..j + 1] == ops[..j + 1] && front[j] == ops[j];
        TicksGrow(front, j + 1);
      }
    }
    if i < |front| {
      assert front[..i + 1] == ops[..i + 1] && front[i] == ops[i];
    }
  }

  lemma {:induction false} TicksGrow(ops: seq<Op>, n: nat)
    requires n <= |ops|
    ensures Ticks(ops[..n]) <= Ticks(ops)
    decreases |ops|
  {
    if n == |ops| {
      assert ops[..n] == ops;
    } else {
      TicksGrow(ops[..|ops| - 1], n);
      assert ops[..|ops| - 1][..n] == ops[..n];
    }
  }

  /** In a run with enough ticks the key does fire, and at one position only. */
  lemma FiresExactlyOnce(before: Tracker, id: Key, attempt: int, delay: nat, ops: seq<Op>) returns (i: nat)
    requires before.pending.Keys == before.attempts.Keys && LeavesAlone(ops, id)
    requires Max(1, delay) <= Ticks(ops)
    ensures var t := Step(before, Schedule(id, attempt, delay));
            && i < |ops| && id in FiredAt(t, ops, i) && FiredAt(t, ops, i)[id] == attempt
            && forall j {:trigger FiredAt(t, ops, j)} :: 0 <= j < |ops| && j != i ==> id !in FiredAt(t, ops, j)
  {
    i := TickNumber(ops, Max(1, delay));
    FiresOnce(before, id, attempt, delay, ops, i);
    forall j | 0 <= j < |ops| && j != i
      ensures id !in FiredAt(Step(before, Schedule(id, attempt, delay)), ops, j)
    {
      FiresOnce(before, id, attempt, delay, ops, j);
    }
  }

  /** And a key that is not scheduled does not fire. */
  lemma UnscheduledDoesNotFire(t: Tracker, id: Key, ops: seq<Op>, i: nat)
    requires t.pending.Keys == t.attempts.Keys && id !in t.pending && LeavesAlone(ops, id) && i < |ops|
    ensures id !in FiredAt(t, ops, i)
  {
    assert LeavesAlone(ops[..i], id) by {
      assert forall j :: 0 <= j < i ==> ops[..i][j] == ops[j];
    }
    Remaining(t, ops[..i], id);
  }

  /** A cancelled key does not fire again, and after a clear none does, until it is rescheduled. */
  lemma CancelledDoesNotFire(before: Tracker, id: Key, ops: seq<Op>, i: nat)
    requires before.pending.Keys == before.attempts.Keys && LeavesAlone(ops, id) && i < |ops|
    ensures id !in FiredAt(Step(before, Cancel(id)), ops, i)
    ensures id !in FiredAt(Step(before, Clear), ops, i)
  {
    StepKeysAgree(before, Cancel(id));
    StepKeysAgree(before, Clear);
    UnscheduledDoesNotFire(Step(before, Cancel(id)), id, ops, i);
    UnscheduledDoesNotFire(Step(before, Clear), id, ops, i);
  }

  /** An operation on one key leaves the others as they are. */
  lemma OthersStay(t: Tracker, op: Op, id: Key)
    requires (op.Schedule? || op.Cancel?) && op.id != id
    ensures var t1 := Step(t, op);
            && (id in t1.pending <==> id in t.pending) && (id in t.pending ==> t1.pending[id] == t.pending[id])
            && (id in t1.attempts <==> id in t.attempts) && (id in t.attempts ==> t1.attempts[id] == t.attempts[id])
  {
  }

  class TickScheduler {
    var pending: map<Key, nat>

    constructor ()
      ensures pending == map[]
    {
      pending := map[];
    }

    method Schedule(id: Key, delay: nat)
      modifies this
      ensures pending == old(pending)[id := delay]
    {
      pending := pending[id := delay];
    }

    method Cancel(id: Key)
      modifies this
      ensures pending == old(pending) - {id}
    {
      pending := pending - {id};
    }

    method Clear()
      modifies this
      ensures pending == map[]
    {
      pending := map[];
    }

    /** Count every entry down, then drop the ones that are due, each returned once. */
    method Tick() returns (ready: seq<Key>)
      modifies this
      ensures pending == CountDown(old(pending))
      ensures Lists(ready, Ready(old(pending)))
    {
      ready := CountAll();
      ghost var counted := pending;
      for i := 0 to |ready|
        invariant pending == counted - Among(ready, i)
      {
        pending := pending - {ready[i]};
      }
      assert Among(ready, |ready|) == Ready(old(pending));
    }

    method CountAll() returns (ready: seq<Key>)
      modifies this
      ensures pending.Keys == old(pending).Keys
      ensures forall k :: k in pending ==> pending[k] == Less(old(pending)[k])
      ensures Lists(ready, Ready(old(pending)))
    {
      ready := [];
      var rest := pending.Keys;
      while rest != {}
        invariant rest <= pending.Keys == old(pending).Keys
        invariant forall k :: k in pending ==>
          pending[k] == if k in rest then old(pending)[k] else Less(old(pending)[k])
        invariant Lists(ready, Ready(old(pending)) - rest)
      {
        var id :| id in rest;
        if pending[id] > 0 {
          pending := pending[id := pending[id] - 1];
        }
        ghost var done := Ready(old(pending)) - rest;
        rest := rest - {id};
        if pending[id] == 0 {
          Listed(ready, done, id);
          ready := ready + [id];
          assert Ready(old(pending)) - rest == done + {id};
        } else {
          assert Ready(old(pending)) - rest == done;
        }
      }
      assert Ready(old(pending)) - rest == Ready(old(pending));
    }
  }

  function Less(ticks: nat): nat {
    if ticks > 0 then ticks - 1 else 0
  }

  /** The sequence holds exactly the keys of the set, each once. */
  ghost predicate Lists(ids: seq<Key>, s: set<Key>) {
    && (forall k :: k in ids <==> k in s)
    && forall i, j :: 0 <= i < j < |ids| ==> ids[i] != ids[j]
  }

  lemma Listed(ids: seq<Key>, s: set<Key>, id: Key)
    requires Lists(ids, s) && id !in s
    ensures Lists(ids + [id], s + {id})
  {
    forall i, j | 0 <= i < j < |ids| + 1 ensures (ids + [id])[i] != (ids + [id])[j] {
      assert (ids + [id])[i] in ids;
    }
  }

  ghost function Among(ids: seq<Key>, n: nat): set<Key>
    requires n <= |ids|
  {
    set j | 0 <= j < n :: ids[j]
  }

  class RetryTracker {
    var attempts: map<Key, int>
    const scheduler: TickScheduler

    ghost predicate Valid()
      reads this, scheduler
    {
      scheduler.pending.Keys == attempts.Keys
    }

    ghost function State(): Tracker
      reads this, scheduler
    {
      Tracker(scheduler.pending, attempts)
    }

    constructor ()
      ensures Valid() && fresh(scheduler) && State() == Tracker(map[], map[])
    {
      attempts := map[];
      scheduler := new TickScheduler();
    }

    method Schedule(id: Key, attempt: int, delay: nat)
      requires Valid()
      modifies this, scheduler
      ensures Valid() && State() == Step(old(State()), Op.Schedule(id, attempt, delay))
    {
      attempts := attempts[id := attempt];
      scheduler.Schedule(id, delay);
    }

    method Cancel(id: Key)
      requires Valid()
      modifies this, scheduler
      ensures Valid() && State() == Step(old(State()), Op.Cancel(id))
    {
      scheduler.Cancel(id);
      attempts := attempts - {id};
    }

    method Clear()
      requires Valid()
      modifies this, scheduler
      ensures Valid() && State() == Step(old(State()), Op.Clear)
    {
      scheduler.Clear();
      attempts := map[];
    }

    /** The matured keys with their attempts, each once, removed from both sides. */
    method Tick() returns (fired: seq<(Key, int)>)
      requires Valid()
      modifies this, scheduler
      ensures Valid() && State() == Step(old(State()), Op.Tick)
      ensures var due := Fired(old(State()), Op.Tick);
              && (forall k, a :: (k, a) in fired <==> k in due && due[k] == a)
              && forall i, j :: 0 <= i < j < |fired| ==> fired[i].0 != fired[j].0
    {
      StepKeysAgree(State(), Op.Tick);
      ghost var was := State();
      var ready := scheduler.Tick();
      fired := [];
      for i := 0 to |ready|
        invariant scheduler.pending == CountDown(was.pending)
        invariant attempts == was.attempts - Among(ready, i)
        invariant |fired| == i
        invariant forall j :: 0 <= j < i ==> ready[j] in was.attempts && fired[j] == (ready[j], was.attempts[ready[j]])
      {
        assert ready[i] in ready;
        if ready[i] in attempts {
          fired := fired + [(ready[i], attempts[ready[i]])];
          attempts := attempts - {ready[i]};
        }
      }
      assert Among(ready, |ready|) == Ready(was.pending);
      AllFired(was, ready, fired);
    }
  }

  lemma AllFired(t: Tracker, ready: seq<Key>, fired: seq<(Key, int)>)
    requires t.pending.Keys == t.attempts.Keys && Lists(ready, Ready(t.pending)) && |fired| == |ready|
    requires forall j :: 0 <= j < |ready| ==> ready[j] in t.attempts && fired[j] == (ready[j], t.attempts[ready[j]])
    ensures var due := Fired(t, Op.Tick);
            && (forall k, a :: (k, a) in fired <==> k in due && due[k] == a)
            && forall i, j :: 0 <= i < j < |fired| ==> fired[i].0 != fired[j].0
  {
    var due := Fired(t, Op.Tick);
    forall k, a | k in due && due[k] == a ensures (k, a) in fired {
      assert k in ready;
      var j :| 0 <= j < |ready| && ready[j] == k;
      assert fired[j] == (k, a);
    }
    forall k, a | (k, a) in fired ensures k in due && due[k] == a {
      var j :| 0 <= j < |fired| && fired[j] == (k, a);
      assert ready[j] in ready;
    }
  }
}
