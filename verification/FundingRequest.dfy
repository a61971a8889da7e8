/** The single-flight funding request of the user API (crates/user-api/src/server.rs): concurrent
    callers share one cached state behind a mutex. Each event below is one critical section, one
    wake-up or one reply, and the events of different callers interleave freely. */
module FundingRequest {
  type Info = string
  type Id = nat

  datatype Reply = Ok(info: Info) | Err

  /** `Loading` carries the notifier its waiters subscribe to. */
  datatype Shared = Empty | Loading(notify: nat) | Ready(info: Info)

  datatype Caller =
    | Start
    | Waiting(notify: nat)
    | Fetching
    | Fetched(reply: Reply)
    | Returned(reply: Reply)
    | Dropped

  /** `issued` notifiers exist; those in `notified` have been signalled. */
  datatype System = System(shared: Shared, callers: map<Id, Caller>, issued: nat, notified: set<nat>)

  datatype Event =
    | Arrive(id: Id)
    | Lock(id: Id)
    | Wake(id: Id)
    | Answer(id: Id, reply: Reply)
    | Publish(id: Id)
    | Drop(id: Id)

  const INITIAL := System(Empty, map[], 0, {})

  predicate Enabled(s: System, e: Event) {
    if e.Arrive? then e.id !in s.callers
    else
      && e.id in s.callers
      && match e
         case Lock(id) => s.callers[id].Start?
         case Wake(id) => s.callers[id].Waiting? && s.callers[id].notify in s.notified
         case Answer(id, _) => s.callers[id].Fetching?
         case Publish(id) => s.callers[id].Fetched?
         case Drop(id) => !s.callers[id].Returned? && !s.callers[id].Dropped?
  }

  function Step(s: System, e: Event): System
    requires Enabled(s, e)
  {
    match e
    case Arrive(id) => s.(callers := s.callers[id := Start])
    case Lock(id) =>
      (match s.shared
       case Ready(info) => s.(callers := s.callers[id := Returned(Ok(info))])
       case Loading(n) => s.(callers := s.callers[id := Waiting(n)])
       case Empty => System(Loading(s.issued), s.callers[id := Fetching], s.issued + 1, s.notified))
    case Wake(id) => s.(callers := s.callers[id := Start])
    case Answer(id, reply) => s.(callers := s.callers[id := Fetched(reply)])
    case Publish(id) =>
      var reply := s.callers[id].reply;
      System(if reply.Ok? then Ready(reply.info) else Empty,
             s.callers[id := Returned(reply)],
             s.issued,
             if s.shared.Loading? then s.notified + {s.shared.notify} else s.notified)
    case Drop(id) => s.(callers := s.callers[id := Dropped])
  }

  predicate Possible(s: System, es: seq<Event>)
    decreases |es|
  {
    es == [] || (Enabled(s, es[0]) && Possible(Step(s, es[0]), es[1..]))
  }

  function Run(s: System, es: seq<Event>): System
    requires Possible(s, es)
    decreases |es|
  {
    if es == [] then s else Run(Step(s, es[0]), es[1..])
  }

  /** The caller has a fetch in flight. */
  predicate Busy(s: System, id: Id) {
    id in s.callers && (s.callers[id].Fetching? || s.callers[id].Fetched?)
  }

  predicate Idle(s: System) {
    forall i :: i in s.callers ==> !Busy(s, i)
  }

  /** One caller's part of the invariant: it fetches only while `Loading`, a success is the cached
      value, and it waits on the load in progress or on a notifier already signalled. */
  predicate CallerOk(s: System, id: Id)
    requires id in s.callers
  {
    match s.callers[id]
    case Waiting(n) => n < s.issued && (n in s.notified || s.shared == Loading(n))
    case Fetching => s.shared.Loading?
    case Fetched(_) => s.shared.Loading?
    case Returned(reply) => reply.Ok? ==> s.shared == Ready(reply.info)
    case _ => true
  }

  ghost predicate Safe(s: System) {
    && (forall i, j :: Busy(s, i) && Busy(s, j) ==> i == j)
    && (forall i :: i in s.callers ==> CallerOk(s, i))
    && (forall n :: n in s.notified ==> n < s.issued)
    && (s.shared.Loading? ==> s.shared.notify < s.issued && s.shared.notify !in s.notified)
  }

  /** Outside `Loading` nobody fetches. */
  lemma FetchingIsLoading(s: System)
    requires Safe(s) && !s.shared.Loading?
    ensures Idle(s)
  {
    forall i | i in s.callers ensures !Busy(s, i) {
      assert CallerOk(s, i);
    }
  }

  lemma StepKeepsCaller(s: System, e: Event, i: Id)
    requires Safe(s) && Enabled(s, e) && i in Step(s, e).callers
    ensures CallerOk(Step(s, e), i)
  {
    if !s.shared.Loading? {
      FetchingIsLoading(s);
    }
    if i in s.callers {
      assert CallerOk(s, i);
      assert e.Publish? && i != e.id ==> Busy(s, e.id) && !Busy(s, i);
    }
  }

  lemma StepKeepsOneFetch(s: System, e: Event, i: Id, j: Id)
    requires Safe(s) && Enabled(s, e) && Busy(Step(s, e), i) && Busy(Step(s, e), j)
    ensures i == j
  {
    if !s.shared.Loading? {
      FetchingIsLoading(s);
    } else {
      assert Busy(s, i) && Busy(s, j);
    }
  }

  lemma StepKeepsSafe(s: System, e: Event)
    requires Safe(s) && Enabled(s, e)
    ensures Safe(Step(s, e))
    ensures s.shared.Ready? ==> Step(s, e).shared == s.shared && Idle(Step(s, e))
  {
    var t := Step(s, e);
    forall i | i in t.callers ensures CallerOk(t, i) {
      StepKeepsCaller(s, e, i);
    }
    forall i, j | Busy(t, i) && Busy(t, j) ensures i == j {
      StepKeepsOneFetch(s, e, i, j);
    }
    if s.shared.Ready? {
      FetchingIsLoading(s);
      FetchingIsLoading(t);
    }
  }

  /** Over every interleaving: at most one fetch is in flight and only while `Loading`, and every
      successful caller returned the cached value. */
  lemma {:induction false} RunKeepsSafe(s: System, es: seq<Event>)
    requires Safe(s) && Possible(s, es)
    ensures Safe(Run(s, es))
    decreases |es|
  {
    if es != [] {
      StepKeepsSafe(s, es[0]);
      RunKeepsSafe(Step(s, es[0]), es[1..]);
    }
  }

  lemma SuccessesAgree(es: seq<Event>, i: Id, j: Id)
    requires Possible(INITIAL, es)
    requires i in Run(INITIAL, es).callers && j in Run(INITIAL, es).callers
    requires Run(INITIAL, es).callers[i].Returned? && Run(INITIAL, es).callers[i].reply.Ok?
    requires Run(INITIAL, es).callers[j].Returned? && Run(INITIAL, es).callers[j].reply.Ok?
    ensures Run(INITIAL, es).callers[i] == Run(INITIAL, es).callers[j]
  {
    RunKeepsSafe(INITIAL, es);
    assert CallerOk(Run(INITIAL, es), i) && CallerOk(Run(INITIAL, es), j);
  }

  /** `Ready` is never left, and no fetch is started once it is reached. */
  lemma {:induction false} ReadyIsFinal(s: System, es: seq<Event>)
    requires Safe(s) && s.shared.Ready? && Possible(s, es)
    ensures Run(s, es).shared == s.shared && Idle(Run(s, es))
    decreases |es|
  {
    if es != [] {
      StepKeepsSafe(s, es[0]);
      ReadyIsFinal(Step(s, es[0]), es[1..]);
    } else {
      FetchingIsLoading(s);
    }
  }

  /** A returned caller keeps its answer, so the agreement above covers answers given at any time. */
  lemma {:induction false} AnswersStay(s: System, es: seq<Event>, id: Id)
    requires Possible(s, es) && id in s.callers && s.callers[id].Returned?
    ensures id in Run(s, es).callers && Run(s, es).callers[id] == s.callers[id]
    decreases |es|
  {
    if es != [] {
      AnswersStay(Step(s, es[0]), es[1..], id);
    }
  }

  lemma {:induction false} NobodyFetches(s: System, es: seq<Event>)
    requires Safe(s) && s.shared.Loading? && Idle(s) && Possible(s, es)
    ensures Run(s, es).shared == s.shared
    decreases |es|
  {
    if es != [] {
      var e := es[0];
      if e.Publish? || e.Answer? {
        assert Busy(s, e.id);
        assert false;
      }
      var t := Step(s, e);
      StepKeepsSafe(s, e);
      forall i | i in t.callers ensures !Busy(t, i) {
        assert i != e.id ==> !Busy(s, i);
      }
      NobodyFetches(t, es[1..]);
    }
  }

  ghost predicate CanLeave(s: System) {
    exists es :: Possible(s, es) && Run(s, es).shared != s.shared
  }

  /** `Loading` can be left exactly when the caller that set it is still fetching: if that caller's
      future is dropped before it publishes, every later caller waits. */
  lemma LoadingNeedsItsFetcher(s: System)
    requires Safe(s) && s.shared.Loading?
    ensures CanLeave(s) <==> exists i :: Busy(s, i)
  {
    if CanLeave(s) && Idle(s) {
      var es :| Possible(s, es) && Run(s, es).shared != s.shared;
      NobodyFetches(s, es);
      assert false;
    }
    if i :| Busy(s, i) {
      Finishes(s, i);
    }
  }

  lemma Finishes(s: System, i: Id)
    requires s.shared.Loading? && Busy(s, i)
    ensures CanLeave(s)
  {
    if s.callers[i].Fetched? {
      var es := [Publish(i)];
      var t := Step(s, es[0]);
      assert Possible(t, es[1..]) && Run(t, es[1..]) == t;
      assert Possible(s, es) && Run(s, es).shared != s.shared;
    } else {
      var es := [Answer(i, Err), Publish(i)];
      var t := Step(s, es[0]);
      var rest := es[1..];
      var u := Step(t, rest[0]);
      assert Possible(u, rest[1..]) && Run(u, rest[1..]) == u;
      assert Possible(t, rest) && Run(t, rest) == u;
      assert Possible(s, es) && Run(s, es) == u;
    }
  }

  /** What a caller gets from looking at the shared state: the cached value, the notifier of the load
      in progress, or the fetch, with a notifier of its own that nobody waits on yet. */
  lemma LookingGets(s: System, id: Id)
    requires Safe(s) && Enabled(s, Lock(id))
    ensures var t := Step(s, Lock(id));
            && (s.shared.Ready? ==> t.shared == s.shared && t.callers[id] == Returned(Ok(s.shared.info)))
            && (s.shared.Loading? ==> t.shared == s.shared && t.callers[id] == Waiting(s.shared.notify))
            && (s.shared.Empty? ==>
                  && t.callers[id] == Fetching && t.shared.Loading? && t.shared.notify !in t.notified
                  && forall i :: i in s.callers && s.callers[i].Waiting? ==> s.callers[i].notify != t.shared.notify)
            && forall i :: i in s.callers && i != id ==> t.callers[i] == s.callers[i]
  {
    forall i | i in s.callers && s.callers[i].Waiting?
      ensures s.callers[i].notify < s.issued
    {
      assert CallerOk(s, i);
    }
  }

  /** The fetcher gets the reply to its own fetch; a success is cached, and after a failure the next
      caller may try; either way all who wait on this load can wake. */
  lemma FetcherGetsReply(s: System, id: Id, reply: Reply)
    requires Safe(s) && Enabled(s, Answer(id, reply))
    ensures var t := Step(s, Answer(id, reply));
            && Enabled(t, Publish(id))
            && var v := Step(t, Publish(id));
            && v.callers[id] == Returned(reply)
            && v.shared == (if reply.Ok? then Ready(reply.info) else Empty)
            && (forall i :: i in s.callers && i != id ==> i in v.callers && v.callers[i] == s.callers[i])
            && (forall i :: i in s.callers && s.callers[i].Waiting? ==> Enabled(v, Wake(i)))
  {
    var t := Step(s, Answer(id, reply));
    assert CallerOk(s, id);
    forall i | i in s.callers && s.callers[i].Waiting?
      ensures Enabled(Step(t, Publish(id)), Wake(i))
    {
      assert CallerOk(s, i);
    }
  }

  /** Arriving and waking only bring a caller to look at the shared state. */
  lemma WokenLooksAgain(s: System, e: Event)
    requires Enabled(s, e) && (e.Arrive? || e.Wake?)
    ensures var t := Step(s, e);
            && t.callers[e.id] == Start && Enabled(t, Lock(e.id)) && t.shared == s.shared
            && forall i :: i in s.callers && i != e.id ==> t.callers[i] == s.callers[i]
  {
  }
}
