/** Runs of wallet operations, restarts included (cli/bitcoin-wallet/src/wallet.rs): the books stay
    sound and every satoshi is accounted for. */
module WalletRuns {
  import opened Common
  import opened TxBuilder
  import opened WalletLedger

  // ---- reopening ----

  /** Two lists without repeats and with the same members have the same value. */
  lemma {:induction false} SameMembersSameSum(a: seq<Utxo>, b: seq<Utxo>)
    requires Distinct(a) && Distinct(b) && forall u :: u in a <==> u in b
    ensures Sum(a) == Sum(b) && |a| == |b|
    decreases |a|
  {
    if a == [] {
      if b != [] {
        var u := AMember(b);
        assert false;
      }
    } else {
      var u, front := a[|a| - 1], a[..|a| - 1];
      assert a[|a| - 1] in b;
      var j :| 0 <= j < |b| && b[j] == u;
      var rest := b[..j] + b[j + 1..];
      SumAround(b, j);
      SameMembersAround(a, b, j);
      SameMembersSameSum(front, rest);
    }
  }

  lemma AMember(b: seq<Utxo>) returns (u: Utxo)
    requires b != []
    ensures u in b
  {
    u := b[0];
  }

  lemma SumAround(b: seq<Utxo>, j: nat)
    requires j < |b|
    ensures Sum(b) == Sum(b[..j] + b[j + 1..]) + b[j].value
  {
    hide Sum;
    assert b == (b[..j] + [b[j]]) + b[j + 1..];
    SumConcat(b[..j] + [b[j]], b[j + 1..]);
    SumConcat(b[..j], [b[j]]);
    SumConcat(b[..j], b[j + 1..]);
    SumOne(b[j]);
  }

  lemma SumOne(u: Utxo)
    ensures Sum([u]) == u.value
  {
    assert Sum([u]) == Sum([u][..0]) + u.value;
  }

  lemma SameMembersAround(a: seq<Utxo>, b: seq<Utxo>, j: nat)
    requires Distinct(a) && Distinct(b) && a != [] && j < |b| && b[j] == a[|a| - 1]
    requires forall u :: u in a <==> u in b
    ensures var front, rest := a[..|a| - 1], b[..j] + b[j + 1..];
            Distinct(front) && Distinct(rest) && forall u :: u in front <==> u in rest
  {
    var front, rest := a[..|a| - 1], b[..j] + b[j + 1..];
    forall u | u in front
      ensures u in rest
    {
      var x :| 0 <= x < |a| - 1 && a[x] == u;
      assert a[x] in b;
      var y :| 0 <= y < |b| && b[y] == u;
      assert y != j;
      assert rest[if y < j then y else y - 1] == u;
    }
    forall u | u in rest
      ensures u in front
    {
      var y :| 0 <= y < |rest| && rest[y] == u;
      var x := if y < j then y else y + 1;
      assert b[x] == u && b[x] in a;
      var z :| 0 <= z < |a| && a[z] == u;
      assert z != |a| - 1;
      assert front[z] == u;
    }
  }

  /** Reopening from the stores, in whatever order the database lists its entries: the same funds,
      and the same pending transactions but for their indices. */
  lemma ReopenGivesSame(w: Books, s: Signer, address: string, reloaded: seq<Utxo>)
    requires BooksOk(w, s, address) && Matches(w.store, reloaded, address)
    ensures (forall u :: u in reloaded <==> u in w.utxos) && Sum(reloaded) == Sum(w.utxos)
    ensures w.pendingStore.Keys == w.pending.Keys
    ensures forall t :: t in w.pending ==> ToCreated(w.pendingStore[t]) == w.pending[t].(spentIndices := [])
  {
    SameList(w.store, w.utxos, reloaded, address);
    SameList(w.store, reloaded, w.utxos, address);
    SameMembersSameSum(reloaded, w.utxos);
    forall t | t in w.pending
      ensures ToCreated(w.pendingStore[t]) == w.pending[t].(spentIndices := [])
    {
      assert PendingOk(w, s, address, t);
      PendingRoundTrip(w.pending[t]);
    }
  }

  lemma SameList(store: UtxoMap, a: seq<Utxo>, b: seq<Utxo>, address: string)
    requires Matches(store, a, address) && Matches(store, b, address)
    ensures forall u :: u in a ==> u in b
  {
    forall u | u in a
      ensures u in b
    {
      var i :| 0 <= i < |a| && a[i] == u;
      assert InList(store, address, a[i]) && Free(store, address, u.outpoint);
      MemberOps(b, u.outpoint);
      var j :| 0 <= j < |b| && b[j].outpoint == u.outpoint;
      assert InList(store, address, b[j]);
    }
  }

  /** The books of a wallet that is opened on the stores: the list as the database gives it, and the
      pending transactions as they are read back. */
  function Reopen(w: Books, reloaded: seq<Utxo>): Books {
    w.(utxos := reloaded, pending := map t | t in w.pendingStore :: ToCreated(w.pendingStore[t]))
  }

  /** A reopened wallet has sound books of the same value. */
  lemma ReopenKeepsBooks(w: Books, s: Signer, address: string, reloaded: seq<Utxo>)
    requires BooksOk(w, s, address) && Matches(w.store, reloaded, address)
    ensures BooksOk(Reopen(w, reloaded), s, address) && Sum(reloaded) == Sum(w.utxos)
    ensures var w1 := Reopen(w, reloaded);
            && w1.store == w.store && w1.pendingStore == w.pendingStore && w1.pending.Keys == w.pending.Keys
            && forall t :: t in w.pending ==> w1.pending[t] == w.pending[t].(spentIndices := [])
  {
    hide Matches, Sum, Paid;
    ReopenGivesSame(w, s, address, reloaded);
    var w1 := Reopen(w, reloaded);
    forall t
      ensures PendingOk(w1, s, address, t)
    {
      assert PendingOk(w, s, address, t);
    }
    forall t, t'
      ensures Apart(w1, t, t')
    {
      assert Apart(w, t, t');
    }
  }

  // ---- runs ----

  datatype Step =
    | DoRegister(op: Outpoint, amount: nat)
    | DoCommit(created: Created)
    | DoConfirm(txid: Txid)
    | DoReplace(txid: Txid, created: Created)
    | DoReopen(reloaded: seq<Utxo>)

  /** What was registered, and what the transactions that were not replaced paid and cost. */
  datatype Totals = Totals(registered: int, outgoing: int)

  ghost predicate Allowed(w: Books, s: Signer, address: string, changeScript: string, step: Step) {
    match step
    case DoRegister(op, _) => op !in w.store
    case DoCommit(c) =>
      && c.changeAddress == address && Fresh(w, s, c)
      && exists rate, outputs :: WellBuilt(s, rate, w.utxos, outputs, changeScript, c)
    case DoConfirm(txid) => txid in w.pending
    case DoReplace(txid, c) =>
      && (exists rate :: Replaceable(w, s, address, txid, rate, changeScript, c))
      && (Tight(w.pending[txid].spent, Cost(w.pending[txid])) || |c.spent| == |w.pending[txid].spent|)
    case DoReopen(reloaded) => Matches(w.store, reloaded, address)
  }

  function Apply(w: Books, s: Signer, address: string, step: Step): Books {
    match step
    case DoRegister(op, amount) => Register(w, op, amount, address)
    case DoCommit(c) => Commit(w, s, c)
    case DoConfirm(txid) => if txid in w.pending then Confirm(w, txid) else w
    case DoReplace(txid, c) => if txid in w.pending then Commit(Replace(w, txid), s, c) else w
    case DoReopen(reloaded) => Reopen(w, reloaded)
  }

  function Tally(totals: Totals, w: Books, step: Step): Totals {
    match step
    case DoRegister(_, amount) => totals.(registered := totals.registered + amount)
    case DoCommit(c) => totals.(outgoing := totals.outgoing + Cost(c))
    case DoConfirm(_) => totals
    case DoReplace(txid, c) =>
      if txid in w.pending then totals.(outgoing := totals.outgoing - Cost(w.pending[txid]) + Cost(c)) else totals
    case DoReopen(_) => totals
  }

  function RunBooks(w: Books, s: Signer, address: string, steps: seq<Step>): Books
    decreases |steps|
  {
    if steps == [] then w else RunBooks(Apply(w, s, address, steps[0]), s, address, steps[1..])
  }

  function RunTotals(totals: Totals, w: Books, s: Signer, address: string, steps: seq<Step>): Totals
    decreases |steps|
  {
    if steps == [] then totals
    else RunTotals(Tally(totals, w, steps[0]), Apply(w, s, address, steps[0]), s, address, steps[1..])
  }

  ghost predicate AllowedRun(w: Books, s: Signer, address: string, changeScript: string, steps: seq<Step>)
    decreases |steps|
  {
    steps == [] ||
    (Allowed(w, s, address, changeScript, steps[0]) &&
     AllowedRun(Apply(w, s, address, steps[0]), s, address, changeScript, steps[1..]))
  }

  /** A pending transaction spends the output. */
  ghost predicate Held(w: Books, op: Outpoint) {
    exists t :: t in w.pending && op in Ops(w.pending[t].spent)
  }

  /** The address has the output in the store, spent but unconfirmed. */
  predicate Spent(w: Books, address: string, op: Outpoint) {
    op in w.store && w.store[op].address == address && w.store[op].state == SpentUnconfirmed
  }

  /** Spent outputs stay in the store exactly as long as they are inputs of a pending transaction. */
  ghost predicate NoOrphans(w: Books, address: string) {
    forall op {:trigger Spent(w, address, op)} :: Spent(w, address, op) <==> Held(w, op)
  }

  /** What every step keeps: sound books, no orphans, and an account that adds up. */
  ghost predicate Accounted(w: Books, totals: Totals, s: Signer, address: string) {
    && BooksOk(w, s, address) && NoOrphans(w, address)
    && Sum(w.utxos) == totals.registered - totals.outgoing
  }

  lemma HeldIsSpent(w: Books, s: Signer, address: string, op: Outpoint)
    requires BooksOk(w, s, address) && Held(w, op)
    ensures Spent(w, address, op)
  {
    hide Sum, Paid, Payments, Apart, Matches;
    var t :| t in w.pending && op in Ops(w.pending[t].spent);
    assert PendingOk(w, s, address, t);
    MemberOps(w.pending[t].spent, op);
  }

  /** With sound books, it is enough that no spent output is left without its transaction. */
  lemma NoOrphansIf(w: Books, s: Signer, address: string)
    requires BooksOk(w, s, address) && forall op :: Spent(w, address, op) ==> Held(w, op)
    ensures NoOrphans(w, address)
  {
    hide BooksOk, Spent, Held;
    forall op
      ensures Spent(w, address, op) <==> Held(w, op)
    {
      if Held(w, op) {
        HeldIsSpent(w, s, address, op);
      }
    }
  }

  lemma CommitLeavesNoOrphans(w: Books, s: Signer, address: string, c: Created)
    requires NoOrphans(w, address) && Fresh(w, s, c) && BooksOk(Commit(w, s, c), s, address)
    ensures NoOrphans(Commit(w, s, c), address)
  {
    hide BooksOk, Sum, Paid, Payments, Ops, Without;
    var w1 := Commit(w, s, c);
    CommitStore(w, s, c);
    forall op | Spent(w1, address, op)
      ensures Held(w1, op)
    {
      if op in Ops(c.spent) {
        assert w1.pending[s.txid(c.tx)] == c;
      } else {
        assert Spent(w, address, op);
        var t :| t in w.pending && op in Ops(w.pending[t].spent);
        assert t in w1.pending && w1.pending[t] == w.pending[t];
      }
    }
    NoOrphansIf(w1, s, address);
  }

  lemma ConfirmLeavesNoOrphans(w: Books, s: Signer, address: string, txid: Txid)
    requires NoOrphans(w, address) && txid in w.pending && BooksOk(Confirm(w, txid), s, address)
    ensures NoOrphans(Confirm(w, txid), address)
  {
    hide BooksOk, Ops;
    var w1 := Confirm(w, txid);
    forall op | Spent(w1, address, op)
      ensures Held(w1, op)
    {
      assert Spent(w, address, op);
      var t :| t in w.pending && op in Ops(w.pending[t].spent);
      assert t in w1.pending && w1.pending[t] == w.pending[t];
    }
    NoOrphansIf(w1, s, address);
  }

  lemma ReplaceLeavesNoOrphans(w: Books, s: Signer, address: string, txid: Txid, c: Created)
    requires NoOrphans(w, address) && txid in w.pending && Fresh(w, s, c) && c.spent == w.pending[txid].spent
    requires BooksOk(Commit(Replace(w, txid), s, c), s, address)
    ensures NoOrphans(Commit(Replace(w, txid), s, c), address)
  {
    hide BooksOk, Sum, Paid, Payments, Ops, Without, OldChange;
    var w1, w2 := Replace(w, txid), Commit(Replace(w, txid), s, c);
    CommitStore(w1, s, c);
    forall op | Spent(w2, address, op)
      ensures Held(w2, op)
    {
      if op in Ops(c.spent) {
        assert w2.pending[s.txid(c.tx)] == c;
      } else {
        assert Spent(w, address, op);
        var t :| t in w.pending && op in Ops(w.pending[t].spent);
        assert t in w2.pending && w2.pending[t] == w.pending[t];
      }
    }
    NoOrphansIf(w2, s, address);
  }

  lemma ReopenLeavesNoOrphans(w: Books, s: Signer, address: string, reloaded: seq<Utxo>)
    requires BooksOk(w, s, address) && NoOrphans(w, address) && Matches(w.store, reloaded, address)
    ensures NoOrphans(Reopen(w, reloaded), address)
  {
    hide BooksOk, Sum, Ops, Matches, ToCreated;
    ReopenGivesSame(w, s, address, reloaded);
    ReopenKeepsBooks(w, s, address, reloaded);
    var w1 := Reopen(w, reloaded);
    forall op | Spent(w1, address, op)
      ensures Held(w1, op)
    {
      assert Spent(w, address, op);
      var t :| t in w.pending && op in Ops(w.pending[t].spent);
      assert t in w1.pending && w1.pending[t].spent == w.pending[t].spent;
    }
    NoOrphansIf(w1, s, address);
  }

  lemma RegisterLeavesNoOrphans(w: Books, s: Signer, address: string, op: Outpoint, amount: nat)
    requires NoOrphans(w, address) && op !in w.store && BooksOk(Register(w, op, amount, address), s, address)
    ensures NoOrphans(Register(w, op, amount, address), address)
  {
    hide BooksOk, Ops;
    var w1 := Register(w, op, amount, address);
    forall op' | Spent(w1, address, op')
      ensures Held(w1, op')
    {
      assert Spent(w, address, op');
    }
    NoOrphansIf(w1, s, address);
  }

  lemma StepKeeps(w: Books, totals: Totals, s: Signer, address: string, changeScript: string, step: Step)
    requires Accounted(w, totals, s, address) && Allowed(w, s, address, changeScript, step)
    ensures Accounted(Apply(w, s, address, step), Tally(totals, w, step), s, address)
  {
    hide BooksOk, NoOrphans, WellBuilt, Commit, Replace, Confirm, Sum, Paid, Payments, Tight;
    match step
    case DoRegister(op, amount) =>
      RegisterKeeps(w, s, address, op, amount);
      RegisterLeavesNoOrphans(w, s, address, op, amount);
    case DoCommit(c) =>
      var rate, outputs :| WellBuilt(s, rate, w.utxos, outputs, changeScript, c);
      CommitKeeps(w, s, address, rate, outputs, changeScript, c);
      CommitLeavesNoOrphans(w, s, address, c);
    case DoConfirm(txid) =>
      ConfirmKeeps(w, s, address, txid);
      ConfirmLeavesNoOrphans(w, s, address, txid);
    case DoReplace(txid, c) =>
      var rate :| Replaceable(w, s, address, txid, rate, changeScript, c);
      if Tight(w.pending[txid].spent, Cost(w.pending[txid])) {
        ReplacementSpendsAll(w, s, address, txid, rate, changeScript, c);
      }
      ReplaceKeeps(w, s, address, txid, rate, changeScript, c);
      AllOfThem(w, s, address, txid, rate, changeScript, c);
      ReplaceLeavesNoOrphans(w, s, address, txid, c);
    case DoReopen(reloaded) =>
      ReopenKeepsBooks(w, s, address, reloaded);
      ReopenLeavesNoOrphans(w, s, address, reloaded);
  }

  lemma AllOfThem(w: Books, s: Signer, address: string, txid: Txid, rate: nat, changeScript: string, c: Created)
    requires Replaceable(w, s, address, txid, rate, changeScript, c) && |c.spent| == |w.pending[txid].spent|
    ensures c.spent == w.pending[txid].spent
  {
  }

  /** Over every run of registrations, commits of transactions built from the current funds,
      confirmations, replacements committed at once, and restarts, the list in memory is the
      available part of the store, its spent part is the inputs of pending transactions, and the value
      of the list is what was registered less the payments and fees
      of the transactions that were not replaced. Nothing is asked of the sizes of transactions. */
  lemma {:induction false} RunKeepsBooks(w: Books, totals: Totals, s: Signer, address: string,
                                         changeScript: string, steps: seq<Step>)
    requires Accounted(w, totals, s, address) && AllowedRun(w, s, address, changeScript, steps)
    ensures Accounted(RunBooks(w, s, address, steps), RunTotals(totals, w, s, address, steps), s, address)
    decreases |steps|
  {
    hide Accounted, Allowed, Apply, Tally;
    if steps != [] {
      var w1, totals1 := Apply(w, s, address, steps[0]), Tally(totals, w, steps[0]);
      StepKeeps(w, totals, s, address, changeScript, steps[0]);
      RunKeepsBooks(w1, totals1, s, address, changeScript, steps[1..]);
    }
  }

  // ---- runs in which sizes grow ----

  /** A step that asks nothing of a replacement's inputs, but has every payment built from funds on
      which sizes grow. */
  ghost predicate Sized(w: Books, s: Signer, address: string, changeScript: string, step: Step) {
    match step
    case DoCommit(c) =>
      && c.changeAddress == address && Fresh(w, s, c)
      && exists rate, outputs ::
           WellBuilt(s, rate, w.utxos, outputs, changeScript, c) && Grows(s, w.utxos, outputs, changeScript)
    case DoReplace(txid, c) => exists rate :: Replaceable(w, s, address, txid, rate, changeScript, c)
    case _ => Allowed(w, s, address, changeScript, step)
  }

  ghost predicate SizedRun(w: Books, s: Signer, address: string, changeScript: string, steps: seq<Step>)
    decreases |steps|
  {
    steps == [] ||
    (Sized(w, s, address, changeScript, steps[0]) &&
     SizedRun(Apply(w, s, address, steps[0]), s, address, changeScript, steps[1..]))
  }

  lemma CommitIsTight(w: Books, s: Signer, rate: nat, outputs: seq<TxOut>, changeScript: string, c: Created)
    requires TightBooks(w) && Grows(s, w.utxos, outputs, changeScript)
    requires WellBuilt(s, rate, w.utxos, outputs, changeScript, c)
    ensures TightBooks(Commit(w, s, c))
  {
    hide Sum, Paid, Payments, Tight, Grows;
    BuiltFacts(s, rate, w.utxos, outputs, changeScript, c);
  }

  lemma ReplaceIsTight(w: Books, s: Signer, txid: Txid, c: Created)
    requires TightBooks(w) && txid in w.pending && Tight(c.spent, Cost(c))
    ensures TightBooks(Commit(Replace(w, txid), s, c))
  {
    hide Sum, Paid, Payments, Tight;
  }

  lemma ReopenIsTight(w: Books, s: Signer, address: string, reloaded: seq<Utxo>)
    requires BooksOk(w, s, address) && Matches(w.store, reloaded, address) && TightBooks(w)
    ensures TightBooks(Reopen(w, reloaded))
  {
    hide Sum, Paid, Tight, BooksOk, Matches, ToCreated;
    ReopenGivesSame(w, s, address, reloaded);
    forall t | t in Reopen(w, reloaded).pending
      ensures Tight(Reopen(w, reloaded).pending[t].spent, Cost(Reopen(w, reloaded).pending[t]))
    {
      assert Tight(w.pending[t].spent, Cost(w.pending[t]));
    }
  }

  lemma SizedStepIsAllowed(w: Books, s: Signer, address: string, changeScript: string, step: Step)
    requires BooksOk(w, s, address) && TightBooks(w) && Sized(w, s, address, changeScript, step)
    ensures Allowed(w, s, address, changeScript, step) && TightBooks(Apply(w, s, address, step))
  {
    hide BooksOk, WellBuilt, Commit, Replace, Sum, Paid, Payments, Tight, Grows;
    match step
    case DoRegister(_, _) =>
    case DoCommit(c) =>
      var rate, outputs :|
        WellBuilt(s, rate, w.utxos, outputs, changeScript, c) && Grows(s, w.utxos, outputs, changeScript);
      CommitIsTight(w, s, rate, outputs, changeScript, c);
    case DoConfirm(_) =>
    case DoReplace(txid, c) =>
      var rate :| Replaceable(w, s, address, txid, rate, changeScript, c);
      ReplacementSpendsAll(w, s, address, txid, rate, changeScript, c);
      ReplaceIsTight(w, s, txid, c);
    case DoReopen(reloaded) => ReopenIsTight(w, s, address, reloaded);
  }

  /** Then every replacement that pays more spends all inputs of its original, over the whole run. */
  lemma {:induction false} SizedRunIsAllowed(w: Books, totals: Totals, s: Signer, address: string,
                                             changeScript: string, steps: seq<Step>)
    requires Accounted(w, totals, s, address) && TightBooks(w) && SizedRun(w, s, address, changeScript, steps)
    ensures AllowedRun(w, s, address, changeScript, steps) && TightBooks(RunBooks(w, s, address, steps))
    decreases |steps|
  {
    hide BooksOk, TightBooks, Allowed, Sized, Apply, Tally, Sum;
    if steps != [] {
      var w1, totals1 := Apply(w, s, address, steps[0]), Tally(totals, w, steps[0]);
      SizedStepIsAllowed(w, s, address, changeScript, steps[0]);
      StepKeeps(w, totals, s, address, changeScript, steps[0]);
      SizedRunIsAllowed(w1, totals1, s, address, changeScript, steps[1..]);
    }
  }

  /** The empty books, where a wallet starts. */
  lemma EmptyBooksOk(s: Signer, address: string)
    ensures Accounted(Books(map[], [], map[], map[]), Totals(0, 0), s, address)
    ensures TightBooks(Books(map[], [], map[], map[]))
  {
    var w := Books(map[], [], map[], map[]);
    assert forall t :: PendingOk(w, s, address, t);
    assert forall t, t' :: Apart(w, t, t');
    NoOrphansIf(w, s, address);
  }
}
