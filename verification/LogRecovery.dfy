/** Recovering historical logs (crates/log-indexer/src/indexer.rs, store.rs): a sweep in batches up to
    a best block that may move, with a checkpoint that survives a crash between any two writes. */
module LogRecovery {
  import opened Common

  datatype Log = Log(address: nat, txHash: nat, index: nat, block: nat, data: nat)
  datatype LogKey = LogKey(address: nat, txHash: nat, index: nat)

  function KeyOf(l: Log): LogKey {
    LogKey(l.address, l.txHash, l.index)
  }

  /** The logs of the managed contracts by block: a history that only ever extends. */
  type History = nat -> seq<Log>

  /** Address, transaction and index tell logs apart. */
  predicate SamePlace(l: Log, m: Log) {
    l.address == m.address && l.txHash == m.txHash && l.index == m.index
  }

  /** A log knows its block, and there is one log at a place. */
  ghost predicate Sound(f: History) {
    && (forall h, i :: 0 <= i < |f(h)| ==> f(h)[i].block == h)
    && (forall h, h', i, j :: 0 <= i < |f(h)| && 0 <= j < |f(h')| && SamePlace(f(h)[i], f(h')[j]) ==>
          f(h)[i] == f(h')[j])
  }

  /** `get_logs`: the logs of a range of blocks, in order. */
  function GetLogs(f: History, from: nat, last: int): seq<Log>
    decreases last
  {
    if last < from then [] else GetLogs(f, from, last - 1) + f(last)
  }

  datatype Store = Store(logs: map<LogKey, Log>, checkpoint: Option<Log>)

  datatype Write = Put(log: Log) | SetCheckpoint(log: Log)

  function Apply(s: Store, w: Write): Store {
    match w
    case Put(l) => s.(logs := s.logs[KeyOf(l) := l])
    case SetCheckpoint(l) => s.(checkpoint := Some(l))
  }

  function ApplyAll(s: Store, ws: seq<Write>): Store {
    if ws == [] then s else Apply(ApplyAll(s, ws[..|ws| - 1]), ws[|ws| - 1])
  }

  function Puts(logs: seq<Log>): seq<Write> {
    seq(|logs|, i requires 0 <= i < |logs| => Put(logs[i]))
  }

  /** `save_logs_and_checkpoint`: all logs of the batch, then the last of them as checkpoint. */
  function BatchWrites(logs: seq<Log>): seq<Write> {
    if logs == [] then [] else Puts(logs) + [SetCheckpoint(logs[|logs| - 1])]
  }

  datatype Result = Done(end: nat) | Stopped(end: nat) | GaveUp | Crashed

  datatype Swept = Swept(writes: seq<Write>, batches: seq<(nat, nat)>, result: Result)

  function Last(start: nat, batch: nat, end: nat): nat {
    if start + batch < end then start + batch else end
  }

  /** The loop of `recover_logs`. `best(q)` is the answer to the q-th question for the best block,
      `left` the attempts left, `alive` how often the shutdown flag is still found off. */
  function Sweep(f: History, best: nat -> nat, q: nat, start: nat, end: nat, batch: nat, left: nat, alive: nat): Swept
    decreases left, if start <= end then end + 1 - start else 0
  {
    if alive == 0 then Swept([], [], Stopped(end))
    else if start > end then Swept([], [], Done(end))
    else if left == 0 then Swept([], [], GaveUp)
    else
      var to := Last(start, batch, end);
      var ws := BatchWrites(GetLogs(f, start, to));
      var moved := to == end && end < best(q);
      var rest := Sweep(f, best, if to == end then q + 1 else q, to + 1, if moved then best(q) else end, batch,
                        if moved then left - 1 else left, alive - 1);
      Swept(ws + rest.writes, [(start, to)] + rest.batches, rest.result)
  }

  function StartBlock(s: Store, initial: nat, depth: nat): nat {
    Monus(if s.checkpoint.Some? then s.checkpoint.value.block else initial, depth)
  }

  /** One call of `recover_logs`; the code allows ten attempts. */
  function Recover(s: Store, f: History, best: nat -> nat, initial: nat, depth: nat, batch: nat, left: nat,
                   alive: nat): Swept
  {
    Sweep(f, best, 1, StartBlock(s, initial, depth), best(0), batch, left, alive)
  }

  // ---- what is in the store ----

  predicate Has(s: Store, l: Log) {
    KeyOf(l) in s.logs && s.logs[KeyOf(l)] == l
  }

  predicate HasBlock(s: Store, f: History, h: nat) {
    forall i :: 0 <= i < |f(h)| ==> Has(s, f(h)[i])
  }

  /** Every log of the blocks from `lo` to `hi` is stored. */
  ghost predicate Covered(s: Store, f: History, lo: nat, hi: int) {
    forall h: nat {:trigger HasBlock(s, f, h)} :: lo <= h <= hi ==> HasBlock(s, f, h)
  }

  /** The checkpoint never promises too much. */
  ghost predicate CheckpointSound(s: Store, f: History, base: nat) {
    s.checkpoint.Some? ==> Covered(s, f, base, s.checkpoint.value.block)
  }

  /** A write that comes from the history. */
  ghost predicate FromHistory(f: History, w: Write) {
    w.Put? ==> exists h, i :: 0 <= i < |f(h)| && f(h)[i] == w.log
  }

  lemma PutKeepsHas(s: Store, f: History, w: Write, h: nat)
    requires Sound(f) && FromHistory(f, w) && HasBlock(s, f, h)
    ensures HasBlock(Apply(s, w), f, h)
  {
  }

  lemma ApplyKeepsCovered(s: Store, f: History, w: Write, lo: nat, hi: int)
    requires Sound(f) && FromHistory(f, w) && Covered(s, f, lo, hi)
    ensures Covered(Apply(s, w), f, lo, hi)
  {
    forall h: nat | lo <= h <= hi
      ensures HasBlock(Apply(s, w), f, h)
    {
      assert HasBlock(s, f, h);
      PutKeepsHas(s, f, w, h);
    }
  }

  lemma {:induction false} LogsFromHistory(f: History, from: nat, last: int)
    requires Sound(f)
    ensures forall i :: 0 <= i < |GetLogs(f, from, last)| ==> FromHistory(f, Put(GetLogs(f, from, last)[i]))
    ensures forall i :: 0 <= i < |GetLogs(f, from, last)| ==> from <= GetLogs(f, from, last)[i].block <= last
    decreases last
  {
    if from <= last {
      LogsFromHistory(f, from, last - 1);
      var front, all := GetLogs(f, from, last - 1), GetLogs(f, from, last);
      forall i | 0 <= i < |all|
        ensures FromHistory(f, Put(all[i])) && from <= all[i].block <= last
      {
        if i < |front| {
          assert all[i] == front[i];
        } else {
          assert all[i] == f(last)[i - |front|];
        }
      }
    }
  }

  lemma ApplyNone(s: Store)
    ensures ApplyAll(s, []) == s
  {
  }

  lemma {:induction false} ApplyInTwo(s: Store, a: seq<Write>, b: seq<Write>)
    ensures ApplyAll(s, a + b) == ApplyAll(ApplyAll(s, a), b)
    decreases |b|
  {
    if b == [] {
      assert a + b == a;
    } else {
      assert (a + b)[..|a + b| - 1] == a + b[..|b| - 1];
      ApplyInTwo(s, a, b[..|b| - 1]);
    }
  }

  /** Saving logs of the history one by one: what was stored stays, each saved log is there, and the
      checkpoint does not move. */
  lemma {:induction false} PutsKeep(s: Store, f: History, logs: seq<Log>, n: nat, lo: nat, hi: int)
    requires Sound(f) && n <= |logs| && Covered(s, f, lo, hi)
    requires forall i :: 0 <= i < |logs| ==> FromHistory(f, Put(logs[i]))
    ensures var s1 := ApplyAll(s, Puts(logs)[..n]);
            && s1.checkpoint == s.checkpoint && Covered(s1, f, lo, hi)
            && forall i :: 0 <= i < n ==> Has(s1, logs[i])
    decreases n
  {
    if n > 0 {
      PutsKeep(s, f, logs, n - 1, lo, hi);
      var s0, w := ApplyAll(s, Puts(logs)[..n - 1]), Put(logs[n - 1]);
      assert Puts(logs)[..n][..n - 1] == Puts(logs)[..n - 1];
      ApplyKeepsCovered(s0, f, w, lo, hi);
      forall i | 0 <= i < n
        ensures Has(Apply(s0, w), logs[i])
      {
        if i < n - 1 {
          OneKeyOneLog(f, logs[i], logs[n - 1]);
        }
      }
    }
  }

  lemma OneKeyOneLog(f: History, a: Log, b: Log)
    requires Sound(f) && FromHistory(f, Put(a)) && FromHistory(f, Put(b))
    ensures KeyOf(a) == KeyOf(b) ==> a == b
  {
    var h, i :| 0 <= i < |f(h)| && f(h)[i] == a;
    var h', j :| 0 <= j < |f(h')| && f(h')[j] == b;
  }

  lemma {:induction false} LogIsFetched(f: History, from: nat, last: int, h: nat, i: nat)
    requires from <= h <= last && i < |f(h)|
    ensures f(h)[i] in GetLogs(f, from, last)
    decreases last
  {
    if h < last {
      LogIsFetched(f, from, last - 1, h, i);
    } else {
      assert f(h)[i] in f(last);
    }
  }

  /** Once a whole batch is saved, its range is covered. */
  lemma FetchedIsCovered(s: Store, f: History, base: nat, start: nat, last: nat)
    requires Covered(s, f, base, start - 1)
    requires var logs := GetLogs(f, start, last); forall i :: 0 <= i < |logs| ==> Has(s, logs[i])
    ensures Covered(s, f, base, last)
  {
    forall h: nat | base <= h <= last
      ensures HasBlock(s, f, h)
    {
      if h < start {
        assert HasBlock(s, f, h);
      } else {
        forall i | 0 <= i < |f(h)|
          ensures Has(s, f(h)[i])
        {
          LogIsFetched(f, start, last, h, i);
        }
      }
    }
  }

  lemma CoveredLess(s: Store, f: History, lo: nat, hi: int, hi': int)
    requires Covered(s, f, lo, hi) && hi' <= hi
    ensures Covered(s, f, lo, hi')
  {
    forall h: nat | lo <= h <= hi'
      ensures HasBlock(s, f, h)
    {
      assert HasBlock(s, f, h);
    }
  }

  lemma SameLogsCovered(s: Store, s1: Store, f: History, lo: nat, hi: int)
    requires Covered(s, f, lo, hi) && s1.logs == s.logs
    ensures Covered(s1, f, lo, hi)
  {
    forall h: nat | lo <= h <= hi
      ensures HasBlock(s1, f, h)
    {
      assert HasBlock(s, f, h);
    }
  }

  /** A crash anywhere inside the writes of one batch leaves a sound checkpoint; without one, the
      range of the batch is covered. */
  lemma BatchIsSafe(s: Store, f: History, base: nat, start: nat, last: nat, k: nat)
    requires Sound(f) && CheckpointSound(s, f, base) && Covered(s, f, base, start - 1)
    requires k <= |BatchWrites(GetLogs(f, start, last))|
    ensures var ws := BatchWrites(GetLogs(f, start, last));
            && CheckpointSound(ApplyAll(s, ws[..k]), f, base)
            && (k == |ws| ==> Covered(ApplyAll(s, ws[..k]), f, base, last))
  {
    var logs := GetLogs(f, start, last);
    var ws := BatchWrites(logs);
    LogsFromHistory(f, start, last);
    if k <= |logs| {
      assert ws[..k] == Puts(logs)[..k];
      PutsKeep(s, f, logs, k, base, start - 1);
      if s.checkpoint.Some? {
        PutsKeep(s, f, logs, k, base, s.checkpoint.value.block);
      }
      if k == |ws| {
        FetchedIsCovered(ApplyAll(s, ws[..k]), f, base, start, last);
      }
    } else {
      WholeBatch(s, f, base, start, last);
      assert ws[..k] == ws;
    }
  }

  lemma WholeBatch(s: Store, f: History, base: nat, start: nat, last: nat)
    requires Sound(f) && Covered(s, f, base, start - 1) && GetLogs(f, start, last) != []
    ensures var s1 := ApplyAll(s, BatchWrites(GetLogs(f, start, last)));
            Covered(s1, f, base, last) && CheckpointSound(s1, f, base)
  {
    var logs := GetLogs(f, start, last);
    var puts, checkpoint := Puts(logs), SetCheckpoint(logs[|logs| - 1]);
    var s0 := ApplyAll(s, puts);
    LogsFromHistory(f, start, last);
    assert puts[..|logs|] == puts;
    PutsKeep(s, f, logs, |logs|, base, start - 1);
    FetchedIsCovered(s0, f, base, start, last);
    assert (puts + [checkpoint])[..|puts|] == puts;
    var s1 := ApplyAll(s, BatchWrites(logs));
    assert s1 == Apply(s0, checkpoint);
    SameLogsCovered(s0, s1, f, base, last);
    CoveredLess(s1, f, base, last, logs[|logs| - 1].block);
  }

  /** A crash anywhere in a sweep leaves a sound checkpoint, and a sweep that runs to its end covers
      everything up to the block it returns. */
  lemma {:induction false} SweepIsSafe(s: Store, f: History, best: nat -> nat, q: nat, base: nat, start: nat, end: nat,
                                       batch: nat, left: nat, alive: nat, k: nat, sw: Swept)
    requires Sound(f) && CheckpointSound(s, f, base) && Covered(s, f, base, start - 1)
    requires sw == Sweep(f, best, q, start, end, batch, left, alive) && k <= |sw.writes|
    ensures CheckpointSound(ApplyAll(s, sw.writes[..k]), f, base)
    ensures sw.result.Done? ==> Covered(ApplyAll(s, sw.writes), f, base, sw.result.end)
    decreases left, if start <= end then end + 1 - start else 0
  {
    hide Sound, CheckpointSound, Covered, ApplyAll, BatchWrites, GetLogs;
    if alive == 0 || start > end || left == 0 {
      assert sw.writes == sw.writes[..k] == [];
      ApplyNone(s);
      if sw.result.Done? {
        CoveredLess(s, f, base, start - 1, end);
      }
    } else {
      var last := Last(start, batch, end);
      var ws := BatchWrites(GetLogs(f, start, last));
      var s1 := ApplyAll(s, ws);
      var moved := last == end && end < best(q);
      var q1, end1 := if last == end then q + 1 else q, if moved then best(q) else end;
      var left1 := if moved then left - 1 else left;
      var rest := Sweep(f, best, q1, last + 1, end1, batch, left1, alive - 1);
      assert ws[..|ws|] == ws;
      BatchIsSafe(s, f, base, start, last, |ws|);
      var k1 := if k <= |ws| then 0 else k - |ws|;
      SweepIsSafe(s1, f, best, q1, base, last + 1, end1, batch, left1, alive - 1, k1, rest);
      ApplyInTwo(s, ws, rest.writes);
      if k <= |ws| {
        assert sw.writes[..k] == ws[..k];
        BatchIsSafe(s, f, base, start, last, k);
      } else {
        assert sw.writes[..k] == ws + rest.writes[..k1];
        ApplyInTwo(s, ws, rest.writes[..k1]);
      }
    }
  }

  // ---- batches ----

  /** The block after the last batch, when the batches lie end to end from `lo` on and none holds
      more than `batch + 1` blocks. */
  function NextAfter(bs: seq<(nat, nat)>, lo: nat, batch: nat): Option<nat>
    decreases |bs|
  {
    if bs == [] then Some(lo)
    else if bs[0].0 == lo && lo <= bs[0].1 <= lo + batch then NextAfter(bs[1..], bs[0].1 + 1, batch)
    else None
  }

  /** The batches of a call tile its range from the start on, without gap or overlap, and up to the
      returned block if it runs to its end. */
  lemma {:induction false} BatchesTile(f: History, best: nat -> nat, q: nat, start: nat, end: nat, batch: nat,
                                       left: nat, alive: nat, sw: Swept)
    requires sw == Sweep(f, best, q, start, end, batch, left, alive)
    ensures NextAfter(sw.batches, start, batch).Some?
    ensures sw.result.Done? && start <= end + 1 ==>
      end <= sw.result.end && NextAfter(sw.batches, start, batch) == Some(sw.result.end + 1)
    ensures start > end ==> sw.batches == []
    decreases left, if start <= end then end + 1 - start else 0
  {
    hide GetLogs, BatchWrites, Sweep;
    SweepTurn(f, best, q, start, end, batch, left, alive);
    if alive > 0 && start <= end && left > 0 {
      var last := Last(start, batch, end);
      var moved := last == end && end < best(q);
      var q1, end1 := if last == end then q + 1 else q, if moved then best(q) else end;
      var left1 := if moved then left - 1 else left;
      var rest := Sweep(f, best, q1, last + 1, end1, batch, left1, alive - 1);
      BatchesTile(f, best, q1, last + 1, end1, batch, left1, alive - 1, rest);
      assert sw.batches[0] == (start, last) && sw.batches[1..] == rest.batches;
    }
  }

  // ---- runs of calls ----

  /** One start of the indexer: what the node answers, and how many writes happen before a crash. */
  datatype Call = Call(best: nat -> nat, batch: nat, left: nat, alive: nat, writes: nat)

  function AfterCall(s: Store, f: History, initial: nat, depth: nat, c: Call): Store {
    var ws := Recover(s, f, c.best, initial, depth, c.batch, c.left, c.alive).writes;
    ApplyAll(s, ws[..Min(c.writes, |ws|)])
  }

  function AfterCalls(s: Store, f: History, initial: nat, depth: nat, calls: seq<Call>): Store {
    if calls == [] then s
    else AfterCall(AfterCalls(s, f, initial, depth, calls[..|calls| - 1]), f, initial, depth, calls[|calls| - 1])
  }

  /** Where a call starts, everything below is covered. */
  lemma StartIsCovered(s: Store, f: History, initial: nat, depth: nat)
    requires CheckpointSound(s, f, Monus(initial, depth))
    ensures Covered(s, f, Monus(initial, depth), StartBlock(s, initial, depth) - 1)
  {
    if s.checkpoint.Some? {
      CoveredLess(s, f, Monus(initial, depth), s.checkpoint.value.block, StartBlock(s, initial, depth) - 1);
    }
  }

  lemma CallIsSafe(s: Store, f: History, initial: nat, depth: nat, c: Call)
    requires Sound(f) && CheckpointSound(s, f, Monus(initial, depth))
    ensures CheckpointSound(AfterCall(s, f, initial, depth, c), f, Monus(initial, depth))
  {
    hide Sound, CheckpointSound, Covered, Sweep, ApplyAll;
    var base, start := Monus(initial, depth), StartBlock(s, initial, depth);
    var sw := Recover(s, f, c.best, initial, depth, c.batch, c.left, c.alive);
    StartIsCovered(s, f, initial, depth);
    SweepIsSafe(s, f, c.best, 1, base, start, c.best(0), c.batch, c.left, c.alive, Min(c.writes, |sw.writes|), sw);
  }

  lemma {:induction false} CallsAreSafe(s: Store, f: History, initial: nat, depth: nat, calls: seq<Call>)
    requires Sound(f) && CheckpointSound(s, f, Monus(initial, depth))
    ensures CheckpointSound(AfterCalls(s, f, initial, depth, calls), f, Monus(initial, depth))
    decreases |calls|
  {
    hide Sound, CheckpointSound, AfterCall;
    if calls != [] {
      CallsAreSafe(s, f, initial, depth, calls[..|calls| - 1]);
      CallIsSafe(AfterCalls(s, f, initial, depth, calls[..|calls| - 1]), f, initial, depth, calls[|calls| - 1]);
    }
  }

  /** After any number of starts that crashed between any two writes, were stopped or gave up, a
      call that runs to its end leaves every log from the initial block less the finality depth up
      to the block it returns in the store. */
  lemma RecoveryIsComplete(s: Store, f: History, initial: nat, depth: nat, calls: seq<Call>, c: Call)
    requires Sound(f) && CheckpointSound(s, f, Monus(initial, depth))
    ensures var before := AfterCalls(s, f, initial, depth, calls);
            var sw := Recover(before, f, c.best, initial, depth, c.batch, c.left, c.alive);
            sw.result.Done? ==> Covered(ApplyAll(before, sw.writes), f, Monus(initial, depth), sw.result.end)
  {
    hide Sound, Covered, Sweep, ApplyAll, AfterCalls;
    var base, before := Monus(initial, depth), AfterCalls(s, f, initial, depth, calls);
    CallsAreSafe(s, f, initial, depth, calls);
    StartIsCovered(before, f, initial, depth);
    var sw := Recover(before, f, c.best, initial, depth, c.batch, c.left, c.alive);
    SweepIsSafe(before, f, c.best, 1, base, StartBlock(before, initial, depth), c.best(0), c.batch, c.left, c.alive,
                |sw.writes|, sw);
  }

  // ---- the loop itself ----

  // ---- how far the checkpoint gets ----

  /** A block of the range has a log. */
  ghost predicate HasLog(f: History, lo: nat, hi: int) {
    exists h: nat :: lo <= h <= hi && f(h) != []
  }

  /** The checkpoint is the last log of the last block of the range that has one; if none has, it is
      the one there was. */
  ghost predicate Newest(was: Option<Log>, now: Option<Log>, f: History, lo: nat, hi: int) {
    if HasLog(f, lo, hi) then
      && now.Some? && lo <= now.value.block <= hi && f(now.value.block) != []
      && now.value == f(now.value.block)[|f(now.value.block)| - 1]
      && forall h: nat :: now.value.block < h <= hi ==> f(h) == []
    else now == was
  }

  lemma {:induction false} LastOfRange(f: History, from: nat, last: int)
    requires Sound(f)
    ensures GetLogs(f, from, last) != [] <==> HasLog(f, from, last)
    ensures GetLogs(f, from, last) != [] ==>
      var logs := GetLogs(f, from, last);
      Newest(None, Some(logs[|logs| - 1]), f, from, last)
    decreases last
  {
    hide Newest, HasLog, Sound;
    if from > last {
      NoLogs(f, from, last);
    } else {
      LastOfRange(f, from, last - 1);
      var logs := GetLogs(f, from, last);
      if f(last) == [] {
        assert logs == GetLogs(f, from, last - 1);
        QuietBlock(f, from, last, if logs == [] then None else Some(logs[|logs| - 1]));
      } else {
        assert logs[|logs| - 1] == f(last)[|f(last)| - 1];
        LastIsNewest(f, from, last);
      }
    }
  }

  lemma NoLogs(f: History, lo: nat, hi: int)
    requires hi < lo
    ensures !HasLog(f, lo, hi)
  {
  }

  lemma QuietBlock(f: History, lo: nat, hi: nat, now: Option<Log>)
    requires lo <= hi && f(hi) == []
    ensures HasLog(f, lo, hi) <==> HasLog(f, lo, hi - 1)
    ensures Newest(None, now, f, lo, hi - 1) ==> Newest(None, now, f, lo, hi)
  {
    if h: nat :| lo <= h <= hi && f(h) != [] {
      assert h <= hi - 1;
    }
  }

  lemma LastIsNewest(f: History, lo: nat, hi: nat)
    requires Sound(f) && lo <= hi && f(hi) != []
    ensures HasLog(f, lo, hi) && Newest(None, Some(f(hi)[|f(hi)| - 1]), f, lo, hi)
  {
  }

  lemma {:induction false} PutsLeaveCheckpoint(s: Store, logs: seq<Log>)
    ensures ApplyAll(s, Puts(logs)).checkpoint == s.checkpoint
    decreases |logs|
  {
    if logs != [] {
      assert Puts(logs)[..|logs| - 1] == Puts(logs[..|logs| - 1]);
      PutsLeaveCheckpoint(s, logs[..|logs| - 1]);
    }
  }

  /** After a batch the checkpoint is its newest log, if it has one. */
  lemma BatchAdvances(s: Store, f: History, start: nat, last: nat)
    requires Sound(f)
    ensures Newest(s.checkpoint, ApplyAll(s, BatchWrites(GetLogs(f, start, last))).checkpoint, f, start, last)
  {
    hide GetLogs, Sound;
    var logs := GetLogs(f, start, last);
    LastOfRange(f, start, last);
    if logs != [] {
      PutsLeaveCheckpoint(s, logs);
      var ws := Puts(logs) + [SetCheckpoint(logs[|logs| - 1])];
      assert ws[..|ws| - 1] == Puts(logs);
    }
  }

  lemma NewestInTwo(was: Option<Log>, mid: Option<Log>, now: Option<Log>, f: History, lo: nat, cut: nat, hi: int)
    requires lo <= cut <= hi + 1 && Newest(was, mid, f, lo, cut - 1) && Newest(mid, now, f, cut, hi)
    ensures Newest(was, now, f, lo, hi)
  {
    if HasLog(f, cut, hi) {
      assert HasLog(f, lo, hi);
    } else {
      assert forall h: nat :: cut <= h <= hi ==> f(h) == [];
      assert HasLog(f, lo, hi) <==> HasLog(f, lo, cut - 1) by {
        if h: nat :| lo <= h <= hi && f(h) != [] {
          assert h <= cut - 1;
        }
      }
    }
  }

  /** A sweep that runs to its end leaves the newest log up to the block it returns. */
  lemma {:induction false} SweepAdvances(s: Store, f: History, best: nat -> nat, q: nat, start: nat, end: nat,
                                         batch: nat, left: nat, alive: nat, sw: Swept)
    requires Sound(f) && sw == Sweep(f, best, q, start, end, batch, left, alive)
    ensures sw.result.Done? && start <= end + 1 ==>
      end <= sw.result.end && Newest(s.checkpoint, ApplyAll(s, sw.writes).checkpoint, f, start, sw.result.end)
    decreases left, if start <= end then end + 1 - start else 0
  {
    hide GetLogs, BatchWrites, Sound, Newest;
    SweepTurn(f, best, q, start, end, batch, left, alive);
    if alive > 0 && start <= end && left > 0 {
      var last := Last(start, batch, end);
      var moved := last == end && end < best(q);
      var q1, end1 := if last == end then q + 1 else q, if moved then best(q) else end;
      var left1 := if moved then left - 1 else left;
      var ws, rest := BatchWrites(GetLogs(f, start, last)), Sweep(f, best, q1, last + 1, end1, batch, left1, alive - 1);
      var s1 := ApplyAll(s, ws);
      SweepAdvances(s1, f, best, q1, last + 1, end1, batch, left1, alive - 1, rest);
      BatchAdvances(s, f, start, last);
      ApplyInTwo(s, ws, rest.writes);
      if rest.result.Done? {
        NewestInTwo(s.checkpoint, s1.checkpoint, ApplyAll(s1, rest.writes).checkpoint, f, start, last + 1,
                    rest.result.end);
      }
    } else if alive > 0 && start == end + 1 {
      NewestOfNone(s.checkpoint, f, start);
    }
  }

  lemma NewestOfNone(was: Option<Log>, f: History, lo: nat)
    ensures Newest(was, was, f, lo, lo - 1)
  {
  }

  /** After a call that runs to its end, the checkpoint is the newest log up to the block it returns,
      from the finality depth below the old checkpoint, or the initial block, on; without any, it is
      the old one. The old one is not left behind by a call that gets past it. */
  lemma RecoveryAdvances(s: Store, f: History, initial: nat, depth: nat, c: Call)
    requires Sound(f)
    ensures var sw := Recover(s, f, c.best, initial, depth, c.batch, c.left, c.alive);
            var now := ApplyAll(s, sw.writes).checkpoint;
            var from := if s.checkpoint.Some? then s.checkpoint.value.block else initial;
            var start := if from < depth then 0 else from - depth;
            sw.result.Done? && start <= c.best(0) + 1 ==>
              && Newest(s.checkpoint, now, f, start, sw.result.end)
              && (s.checkpoint.Some? && f(from) != [] && from <= sw.result.end ==>
                    now.Some? && now.value.block >= from)
  {
    hide Sound;
    var start := StartBlock(s, initial, depth);
    var sw := Recover(s, f, c.best, initial, depth, c.batch, c.left, c.alive);
    SweepAdvances(s, f, c.best, 1, start, c.best(0), c.batch, c.left, c.alive, sw);
  }

  /** Where a call starts, and how long a batch is: the given number of blocks and one more. */
  lemma FirstBatch(s: Store, f: History, initial: nat, depth: nat, c: Call)
    ensures var batches := Recover(s, f, c.best, initial, depth, c.batch, c.left, c.alive).batches;
            var from := if s.checkpoint.Some? then s.checkpoint.value.block else initial;
            var start := if from < depth then 0 else from - depth;
            if c.alive > 0 && c.left > 0 && start <= c.best(0)
            then |batches| > 0 && batches[0] == (start, Min(start + c.batch, c.best(0)))
            else batches == []
  {
    hide GetLogs, BatchWrites;
    SweepTurn(f, c.best, 1, StartBlock(s, initial, depth), c.best(0), c.batch, c.left, c.alive);
  }

  /** A sweep that runs to its end has asked for the best block last at or below the block it returns,
      and returns the one it started for or one it was told on the way. */
  lemma {:induction false} DoneIsCaughtUp(f: History, best: nat -> nat, q: nat, start: nat, end: nat, batch: nat,
                                          left: nat, alive: nat) returns (k: nat)
    requires start <= end && Sweep(f, best, q, start, end, batch, left, alive).result.Done?
    ensures var last := Sweep(f, best, q, start, end, batch, left, alive).result.end;
            best(q + k) <= last && last == if k == 0 then end else best(q + k - 1)
    decreases left, if start <= end then end + 1 - start else 0
  {
    hide GetLogs, BatchWrites;
    SweepTurn(f, best, q, start, end, batch, left, alive);
    var last := Last(start, batch, end);
    if last < end {
      k := DoneIsCaughtUp(f, best, q, last + 1, end, batch, left, alive - 1);
    } else if end < best(q) {
      var rest := DoneIsCaughtUp(f, best, q + 1, last + 1, best(q), batch, left - 1, alive - 1);
      k := rest + 1;
    } else {
      SweepTurn(f, best, q + 1, last + 1, end, batch, left, alive - 1);
      k := 0;
    }
  }

  lemma {:induction false} PutsStoreOnly(s: Store, logs: seq<Log>, key: LogKey)
    requires key in ApplyAll(s, Puts(logs)).logs
    ensures var l := ApplyAll(s, Puts(logs)).logs[key];
            (key in s.logs && l == s.logs[key]) || exists i :: 0 <= i < |logs| && l == logs[i] && key == KeyOf(l)
    decreases |logs|
  {
    if logs != [] {
      var front := logs[..|logs| - 1];
      assert Puts(logs)[..|logs| - 1] == Puts(front);
      if key != KeyOf(logs[|logs| - 1]) {
        PutsStoreOnly(s, front, key);
      }
    }
  }

  /** A sweep gives up only after the best block has moved as often as it is allowed to. */
  lemma {:induction false} GivesUpAfterMoves(f: History, best: nat -> nat, q: nat, start: nat, end: nat, batch: nat,
                                             left: nat, alive: nat, i: nat)
    requires Sweep(f, best, q, start, end, batch, left, alive).result.GaveUp? && i < left
    ensures (if i == 0 then end else best(q + i - 1)) < best(q + i)
    decreases left, if start <= end then end + 1 - start else 0
  {
    hide GetLogs, BatchWrites;
    SweepTurn(f, best, q, start, end, batch, left, alive);
    var last := Last(start, batch, end);
    if last < end {
      GivesUpAfterMoves(f, best, q, last + 1, end, batch, left, alive - 1, i);
    } else if end < best(q) {
      if i > 0 {
        GivesUpAfterMoves(f, best, q + 1, last + 1, best(q), batch, left - 1, alive - 1, i - 1);
      }
    }
  }


  class LogIndexer {
    var logs: map<LogKey, Log>
    var checkpoint: Option<Log>
    /** How many writes the process still makes before it crashes. */
    var writesLeft: nat

    ghost function Snap(): Store
      reads this
    {
      Store(logs, checkpoint)
    }

    constructor (logs: map<LogKey, Log>, checkpoint: Option<Log>, writesLeft: nat)
      ensures Snap() == Store(logs, checkpoint) && this.writesLeft == writesLeft
    {
      this.logs, this.checkpoint, this.writesLeft := logs, checkpoint, writesLeft;
    }

    /** `save_log`; `false` is the crash. */
    method SaveLog(l: Log) returns (ok: bool)
      modifies this
      ensures Did(old(Snap()), old(writesLeft), [Put(l)], Snap(), writesLeft, ok)
    {
      if writesLeft == 0 {
        return false;
      }
      writesLeft := writesLeft - 1;
      logs := logs[KeyOf(l) := l];
      ok := true;
      ApplyOne(old(Snap()), Put(l));
    }

    method SetSyncCheckpoint(l: Log) returns (ok: bool)
      modifies this
      ensures Did(old(Snap()), old(writesLeft), [SetCheckpoint(l)], Snap(), writesLeft, ok)
    {
      if writesLeft == 0 {
        return false;
      }
      writesLeft := writesLeft - 1;
      checkpoint := Some(l);
      ok := true;
      ApplyOne(old(Snap()), SetCheckpoint(l));
    }

    method SaveLogsAndCheckpoint(batch: seq<Log>) returns (ok: bool)
      modifies this
      ensures Did(old(Snap()), old(writesLeft), BatchWrites(batch), Snap(), writesLeft, ok)
    {
      hide ApplyAll, Did;
      ghost var s0, w0 := Snap(), writesLeft;
      DidNothing(s0, w0);
      if batch == [] {
        return true;
      }
      ghost var done: seq<Write> := [];
      for i := 0 to |batch|
        invariant done == Puts(batch)[..i] && Did(s0, w0, done, Snap(), writesLeft, true)
      {
        ghost var s1, w1 := Snap(), writesLeft;
        ok := SaveLog(batch[i]);
        DidBoth(s0, w0, done, s1, w1, [Put(batch[i])], Snap(), writesLeft, ok);
        done := done + [Put(batch[i])];
        if !ok {
          assert done + BatchWrites(batch)[i + 1..] == BatchWrites(batch);
          CrashedEarlier(s0, w0, done, BatchWrites(batch)[i + 1..], Snap(), writesLeft);
          return;
        }
      }
      assert done == Puts(batch);
      ghost var s1, w1 := Snap(), writesLeft;
      ok := SetSyncCheckpoint(batch[|batch| - 1]);
      DidBoth(s0, w0, done, s1, w1, [SetCheckpoint(batch[|batch| - 1])], Snap(), writesLeft, ok);
    }

    /** `recover_logs`, with a crash possible at every write. */
    method RecoverLogs(f: History, best: nat -> nat, initial: nat, depth: nat, batchSize: nat, attempts: nat, flag: nat)
      returns (r: Result)
      modifies this
      ensures var sw := Recover(old(Snap()), f, best, initial, depth, batchSize, attempts, flag);
              Did(old(Snap()), old(writesLeft), sw.writes, Snap(), writesLeft, !r.Crashed?) &&
              (!r.Crashed? ==> r == sw.result)
    {
      hide ApplyAll, Did, GetLogs, BatchWrites, Sweep;
      var start := StartBlock(Store(logs, checkpoint), initial, depth);
      var end, q, left, alive := best(0), 1, attempts, flag;
      ghost var s0, w0, done := Snap(), writesLeft, [];
      ghost var sw := Sweep(f, best, q, start, end, batchSize, left, alive);
      ghost var whole, goal := sw.writes, sw.result;
      DidNothing(s0, w0);
      while alive > 0 && start <= end
        invariant Did(s0, w0, done, Snap(), writesLeft, true)
        invariant sw == Sweep(f, best, q, start, end, batchSize, left, alive)
        invariant done + sw.writes == whole && sw.result == goal
        decreases left, if start <= end then end + 1 - start else 0
      {
        SweepTurn(f, best, q, start, end, batchSize, left, alive);
        alive := alive - 1;
        if left == 0 {
          assert done == whole;
          return GaveUp;
        }
        var last := Last(start, batchSize, end);
        var batch := GetLogs(f, start, last);
        ghost var s1, w1, ws := Snap(), writesLeft, BatchWrites(batch);
        var ok := SaveLogsAndCheckpoint(batch);
        DidBoth(s0, w0, done, s1, w1, ws, Snap(), writesLeft, ok);
        if last == end {
          var newBest := best(q);
          q := q + 1;
          if end < newBest {
            end := newBest;
            left := left - 1;
          }
        }
        start := last + 1;
        ghost var rest := Sweep(f, best, q, start, end, batchSize, left, alive);
        assert done + ws + rest.writes == done + sw.writes;
        done, sw := done + ws, rest;
        if !ok {
          CrashedEarlier(s0, w0, done, rest.writes, Snap(), writesLeft);
          return Crashed;
        }
      }
      SweepTurn(f, best, q, start, end, batchSize, left, alive);
      assert done == whole;
      r := if alive == 0 then Stopped(end) else Done(end);
    }
  }

  /** One turn of the sweep, spelled out. */
  lemma SweepTurn(f: History, best: nat -> nat, q: nat, start: nat, end: nat, batch: nat, left: nat, alive: nat)
    ensures var sw := Sweep(f, best, q, start, end, batch, left, alive);
            if alive == 0 then sw == Swept([], [], Stopped(end))
            else if start > end then sw == Swept([], [], Done(end))
            else if left == 0 then sw == Swept([], [], GaveUp)
            else
              var last := Last(start, batch, end);
              var moved := last == end && end < best(q);
              var q1, end1 := if last == end then q + 1 else q, if moved then best(q) else end;
              var rest := Sweep(f, best, q1, last + 1, end1, batch, if moved then left - 1 else left, alive - 1);
              sw == Swept(BatchWrites(GetLogs(f, start, last)) + rest.writes, [(start, last)] + rest.batches,
                          rest.result)
  {
    hide GetLogs, BatchWrites;
  }

  /** What a piece of code did with its writes: all of them, or as many as were left. */
  ghost predicate Did(s: Store, w: nat, ws: seq<Write>, s1: Store, w1: nat, ok: bool) {
    && (ok <==> |ws| <= w)
    && s1 == ApplyAll(s, ws[..Min(w, |ws|)])
    && w1 == w - Min(w, |ws|)
  }

  lemma ApplyOne(s: Store, w: Write)
    ensures ApplyAll(s, [w]) == Apply(s, w)
  {
    assert [w][..0] == [];
  }

  lemma DidNothing(s: Store, w: nat)
    ensures Did(s, w, [], s, w, true)
  {
  }

  lemma DidBoth(s: Store, w: nat, a: seq<Write>, s1: Store, w1: nat, b: seq<Write>, s2: Store, w2: nat, ok: bool)
    requires Did(s, w, a, s1, w1, true) && Did(s1, w1, b, s2, w2, ok)
    ensures Did(s, w, a + b, s2, w2, ok)
  {
    assert a[..|a|] == a;
    var n := Min(w1, |b|);
    assert (a + b)[..Min(w, |a + b|)] == a + b[..n];
    ApplyInTwo(s, a, b[..n]);
  }

  lemma CrashedEarlier(s: Store, w: nat, a: seq<Write>, b: seq<Write>, s1: Store, w1: nat)
    requires Did(s, w, a, s1, w1, false)
    ensures Did(s, w, a + b, s1, w1, false)
  {
    assert (a + b)[..w] == a[..w];
  }
}
