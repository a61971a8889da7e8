/** The wallet's books (cli/bitcoin-wallet/src/wallet.rs, utxo_store.rs, pending_tx_store.rs): a store
    of outputs that are available or spent but unconfirmed, a list of available ones in memory, and
    the pending transactions in memory and on disk. One address is active throughout. */
module WalletLedger {
  import opened Common
  import opened TxBuilder

  datatype UtxoState = Available | SpentUnconfirmed
  datatype StoredUtxo = StoredUtxo(value: nat, address: string, state: UtxoState)

  /** A pending transaction as it is written to disk. */
  datatype StoredTx = StoredTx(
    tx: Tx,
    changeOutpoint: Option<Outpoint>,
    changeValue: Option<nat>,
    fee: nat,
    spentOutpoints: seq<Outpoint>,
    spentValues: seq<nat>,
    changeAddress: string)

  function FromCreated(c: Created): StoredTx {
    StoredTx(
      c.tx,
      if c.change.Some? then Some(c.change.value.outpoint) else None,
      if c.change.Some? then Some(c.change.value.value) else None,
      c.fee,
      Outpoints(c.spent),
      seq(|c.spent|, i requires 0 <= i < |c.spent| => c.spent[i].value),
      c.changeAddress)
  }

  function Zip(ops: seq<Outpoint>, values: seq<nat>): (us: seq<Utxo>)
    ensures |us| == if |ops| <= |values| then |ops| else |values|
    ensures forall i :: 0 <= i < |us| ==> us[i] == Utxo(ops[i], values[i])
  {
    var n := if |ops| <= |values| then |ops| else |values|;
    seq(n, i requires 0 <= i < n => Utxo(ops[i], values[i]))
  }

  function ToCreated(s: StoredTx): Created {
    Created(
      s.tx,
      if s.changeOutpoint.Some? && s.changeValue.Some? then
        Some(Utxo(s.changeOutpoint.value, s.changeValue.value))
      else None,
      s.fee,
      [],
      Zip(s.spentOutpoints, s.spentValues),
      if s.changeValue.Some? then s.changeValue.value else 0,
      s.changeAddress)
  }

  /** The change amount is the one of the change output. */
  predicate ChangeConsistent(c: Created) {
    c.changeValue == if c.change.Some? then c.change.value.value else 0
  }

  /** A pending transaction comes back from disk without its indices, and otherwise unchanged
      exactly when its change amount agrees with its change output. */
  lemma PendingRoundTrip(c: Created)
    ensures ToCreated(FromCreated(c)) == c.(spentIndices := []) <==> ChangeConsistent(c)
  {
    assert ToCreated(FromCreated(c)).spent == c.spent;
  }

  // ---- lists of outputs ----

  function Ops(us: seq<Utxo>): set<Outpoint> {
    set u | u in us :: u.outpoint
  }

  predicate Distinct(us: seq<Utxo>) {
    forall i, j :: 0 <= i < j < |us| ==> us[i].outpoint != us[j].outpoint
  }

  /** `retain` of what is not among `ops`. */
  function Without(us: seq<Utxo>, ops: set<Outpoint>): seq<Utxo> {
    if us == [] then []
    else Without(us[..|us| - 1], ops) + if us[|us| - 1].outpoint in ops then [] else [us[|us| - 1]]
  }

  lemma {:induction false} WithoutMembers(us: seq<Utxo>, ops: set<Outpoint>)
    ensures forall u :: u in Without(us, ops) <==> u in us && u.outpoint !in ops
    decreases |us|
  {
    if us != [] {
      WithoutMembers(us[..|us| - 1], ops);
      assert us == us[..|us| - 1] + [us[|us| - 1]];
    }
  }

  lemma {:induction false} WithoutConcat(a: seq<Utxo>, b: seq<Utxo>, ops: set<Outpoint>)
    ensures Without(a + b, ops) == Without(a, ops) + Without(b, ops)
    decreases |b|
  {
    if b == [] {
      assert a + b == a;
    } else {
      assert (a + b)[..|a + b| - 1] == a + b[..|b| - 1];
      WithoutConcat(a, b[..|b| - 1], ops);
    }
  }

  lemma {:induction false} WithoutNone(us: seq<Utxo>, ops: set<Outpoint>)
    requires forall i :: 0 <= i < |us| ==> us[i].outpoint !in ops
    ensures Without(us, ops) == us
    decreases |us|
  {
    if us != [] {
      WithoutNone(us[..|us| - 1], ops);
      assert us[..|us| - 1] + [us[|us| - 1]] == us;
    }
  }

  lemma {:induction false} WithoutAll(us: seq<Utxo>, ops: set<Outpoint>)
    requires forall i :: 0 <= i < |us| ==> us[i].outpoint in ops
    ensures Without(us, ops) == []
    decreases |us|
  {
    if us != [] {
      WithoutAll(us[..|us| - 1], ops);
    }
  }

  lemma {:induction false} SumConcat(a: seq<Utxo>, b: seq<Utxo>)
    ensures Sum(a + b) == Sum(a) + Sum(b)
    decreases |b|
  {
    if b == [] {
      assert a + b == a;
    } else {
      assert (a + b)[..|a + b| - 1] == a + b[..|b| - 1];
      SumConcat(a, b[..|b| - 1]);
    }
  }

  lemma StretchMembers(us: seq<Utxo>, i: nat, j: nat)
    requires Distinct(us) && i <= j <= |us|
    ensures forall y :: 0 <= y < |us| ==> (us[y].outpoint in Ops(us[i..j]) <==> i <= y < j)
  {
    forall y | 0 <= y < |us|
      ensures us[y].outpoint in Ops(us[i..j]) <==> i <= y < j
    {
      if i <= y < j {
        assert us[i..j][y - i] == us[y];
      }
    }
  }

  /** Taking a stretch out of a list without repeats leaves the rest in order. */
  lemma WithoutStretch(us: seq<Utxo>, i: nat, j: nat)
    requires Distinct(us) && i <= j <= |us|
    ensures Without(us, Ops(us[i..j])) == us[..i] + us[j..]
  {
    hide Without, Ops, Distinct;
    var ops, a, m, b := Ops(us[i..j]), us[..i], us[i..j], us[j..];
    StretchMembers(us, i, j);
    WithoutNone(a, ops);
    WithoutNone(b, ops);
    WithoutAll(m, ops);
    WithoutConcat(m, b, ops);
    WithoutConcat(a, m + b, ops);
    assert us == a + (m + b);
  }

  /** And it takes out exactly the value of the stretch. */
  lemma SumWithout(us: seq<Utxo>, i: nat, j: nat)
    requires Distinct(us) && i <= j <= |us|
    ensures Sum(Without(us, Ops(us[i..j]))) + Sum(us[i..j]) == Sum(us)
  {
    hide Without, Sum, Distinct, Ops;
    var a, m, b := us[..i], us[i..j], us[j..];
    WithoutStretch(us, i, j);
    SumConcat(a, b);
    SumConcat(m, b);
    SumConcat(a, m + b);
    assert us == a + (m + b);
  }

  // ---- the operations ----

  type UtxoMap = map<Outpoint, StoredUtxo>

  datatype Books = Books(
    store: UtxoMap,
    utxos: seq<Utxo>,
    pending: map<Txid, Created>,
    pendingStore: map<Txid, StoredTx>)

  function Mark(store: UtxoMap, ops: set<Outpoint>, state: UtxoState): UtxoMap {
    map op | op in store :: if op in ops then store[op].(state := state) else store[op]
  }

  function Register(w: Books, op: Outpoint, amount: nat, address: string): Books {
    w.(store := w.store[op := StoredUtxo(amount, address, Available)],
       utxos := w.utxos + [Utxo(op, amount)])
  }

  function AddChange(w: Books, s: Signer, c: Created): Books {
    if c.changeValue > 0 then Register(w, ChangeOutpoint(s, c), c.changeValue, c.changeAddress) else w
  }

  /** `commit_spend_pending`, when every spent output is in the store. */
  function Commit(w: Books, s: Signer, c: Created): Books {
    var marked := w.(store := Mark(w.store, Ops(c.spent), SpentUnconfirmed),
                     utxos := Without(w.utxos, Ops(c.spent)));
    var txid := s.txid(c.tx);
    AddChange(marked, s, c).(
      pending := w.pending[txid := c],
      pendingStore := w.pendingStore[txid := FromCreated(c)])
  }

  /** `confirm_transaction`. */
  function Confirm(w: Books, txid: Txid): Books
    requires txid in w.pending
  {
    w.(store := w.store - Ops(w.pending[txid].spent),
       pending := w.pending - {txid},
       pendingStore := w.pendingStore - {txid})
  }

  function OldChange(txid: Txid, c: Created): set<Outpoint> {
    if c.changeValue > 0 && |c.tx.outputs| > 0 then {Outpoint(txid, |c.tx.outputs| - 1)} else {}
  }

  /** `replace_transaction`, when a better paying replacement was built: the inputs are available
      again, and the old change is gone from the store and from the list. */
  function Replace(w: Books, txid: Txid): Books
    requires txid in w.pending
  {
    var original := w.pending[txid];
    w.(store := Mark(w.store, Ops(original.spent), Available) - OldChange(txid, original),
       utxos := Without(w.utxos, OldChange(txid, original)),
       pending := w.pending - {txid},
       pendingStore := w.pendingStore - {txid})
  }

  /** `replace_transaction`, when no replacement could be built. */
  function FailReplace(w: Books, txid: Txid): Books
    requires txid in w.pending
  {
    w.(store := Mark(w.store, Ops(w.pending[txid].spent), Available), utxos := w.pending[txid].spent)
  }

  /** The payments of a transaction, its change left aside. */
  function Payments(c: Created): seq<TxOut> {
    if c.changeValue > 0 && |c.tx.outputs| > 0 then c.tx.outputs[..|c.tx.outputs| - 1] else c.tx.outputs
  }

  /** What a transaction takes out of the wallet. */
  function Cost(c: Created): nat {
    Paid(Payments(c)) + c.fee
  }

  // ---- what the books keep ----

  predicate InList(store: UtxoMap, address: string, u: Utxo) {
    u.outpoint in store && store[u.outpoint] == StoredUtxo(u.value, address, Available)
  }

  predicate Free(store: UtxoMap, address: string, op: Outpoint) {
    op in store && store[op].address == address && store[op].state == Available
  }

  /** The list in memory is the available outputs of the address, each once. */
  ghost predicate Matches(store: UtxoMap, utxos: seq<Utxo>, address: string) {
    && Distinct(utxos)
    && (forall i {:trigger utxos[i]} :: 0 <= i < |utxos| ==> InList(store, address, utxos[i]))
    && (forall op {:trigger Free(store, address, op)} :: Free(store, address, op) ==> op in Ops(utxos))
  }

  /** What a pending transaction spends is in the store, spent but unconfirmed. */
  ghost predicate Holds(store: UtxoMap, address: string, c: Created) {
    && Distinct(c.spent)
    && forall i {:trigger c.spent[i]} :: 0 <= i < |c.spent| ==>
         && c.spent[i].outpoint in store
         && store[c.spent[i].outpoint] == StoredUtxo(c.spent[i].value, address, SpentUnconfirmed)
  }

  predicate Balanced(c: Created) {
    Sum(c.spent) == Paid(Payments(c)) + c.changeValue + c.fee
  }

  ghost predicate PendingOk(w: Books, s: Signer, address: string, t: Txid) {
    t in w.pending ==>
      && var c := w.pending[t];
      && s.txid(c.tx) == t && Balanced(c) && ChangeConsistent(c) && c.changeAddress == address
      && Holds(w.store, address, c)
      && t in w.pendingStore && w.pendingStore[t] == FromCreated(c)
  }

  ghost predicate Apart(w: Books, t: Txid, t': Txid) {
    t in w.pending && t' in w.pending && t != t' ==> Ops(w.pending[t].spent) !! Ops(w.pending[t'].spent)
  }

  ghost predicate BooksOk(w: Books, s: Signer, address: string) {
    && Matches(w.store, w.utxos, address)
    && w.pendingStore.Keys == w.pending.Keys
    && (forall t {:trigger PendingOk(w, s, address, t)} :: PendingOk(w, s, address, t))
    && (forall t, t' {:trigger Apart(w, t, t')} :: Apart(w, t, t'))
  }

  // ---- how the list and the store move together ----

  lemma MemberOps(us: seq<Utxo>, op: Outpoint)
    ensures op in Ops(us) <==> exists i :: 0 <= i < |us| && us[i].outpoint == op
  {
    if op in Ops(us) {
      var u :| u in us && u.outpoint == op;
      var i :| 0 <= i < |us| && us[i] == u;
    }
    if i :| 0 <= i < |us| && us[i].outpoint == op {
      assert us[i] in us;
    }
  }

  lemma ListedAreStored(store: UtxoMap, utxos: seq<Utxo>, address: string, op: Outpoint)
    requires Matches(store, utxos, address)
    ensures op in Ops(utxos) <==> Free(store, address, op)
  {
    MemberOps(utxos, op);
    assert Free(store, address, op) ==> op in Ops(utxos);
  }

  lemma MatchesRegister(w: Books, address: string, op: Outpoint, amount: nat)
    requires Matches(w.store, w.utxos, address) && op !in w.store
    ensures var w1 := Register(w, op, amount, address);
            Matches(w1.store, w1.utxos, address) && Sum(w1.utxos) == Sum(w.utxos) + amount
  {
    var w1 := Register(w, op, amount, address);
    SumConcat(w.utxos, [Utxo(op, amount)]);
    assert Sum([Utxo(op, amount)]) == Sum([Utxo(op, amount)][..0]) + amount;
    forall i | 0 <= i < |w1.utxos|
      ensures InList(w1.store, address, w1.utxos[i])
    {
      if i < |w.utxos| {
        assert InList(w.store, address, w.utxos[i]);
      }
    }
    forall op' | Free(w1.store, address, op')
      ensures op' in Ops(w1.utxos)
    {
      MemberOps(w1.utxos, op');
      MemberOps(w.utxos, op');
      if op' == op {
        assert w1.utxos[|w.utxos|].outpoint == op;
      } else {
        assert Free(w.store, address, op');
        var i :| 0 <= i < |w.utxos| && w.utxos[i].outpoint == op';
        assert w1.utxos[i].outpoint == op';
      }
    }
  }

  lemma RestIsListed(store: UtxoMap, store1: UtxoMap, utxos: seq<Utxo>, address: string, i: nat, j: nat,
                     rest: seq<Utxo>)
    requires Matches(store, utxos, address) && i <= j <= |utxos| && rest == utxos[..i] + utxos[j..]
    requires forall op :: op !in Ops(utxos[i..j]) ==>
      (op in store <==> op in store1) && (op in store ==> store[op] == store1[op])
    ensures Distinct(rest) && forall y :: 0 <= y < |rest| ==> InList(store1, address, rest[y])
  {
    hide Ops;
    StretchMembers(utxos, i, j);
    forall y | 0 <= y < |rest|
      ensures InList(store1, address, rest[y])
    {
      var x := if y < i then y else y - i + j;
      assert rest[y] == utxos[x] && InList(store, address, utxos[x]);
    }
  }

  lemma FreeIsInRest(store: UtxoMap, utxos: seq<Utxo>, address: string, i: nat, j: nat, op: Outpoint)
    requires Matches(store, utxos, address) && i <= j <= |utxos|
    requires Free(store, address, op) && op !in Ops(utxos[i..j])
    ensures op in Ops(utxos[..i] + utxos[j..])
  {
    hide Ops;
    var rest := utxos[..i] + utxos[j..];
    StretchMembers(utxos, i, j);
    MemberOps(utxos, op);
    var x :| 0 <= x < |utxos| && utxos[x].outpoint == op;
    assert rest[if x < i then x else x - j + i] == utxos[x];
    MemberOps(rest, op);
  }

  /** Taking a stretch out of the list, and making it unavailable in the store. */
  lemma MatchesTaken(store: UtxoMap, store1: UtxoMap, utxos: seq<Utxo>, address: string, i: nat, j: nat)
    requires Matches(store, utxos, address) && i <= j <= |utxos|
    requires forall op :: op !in Ops(utxos[i..j]) ==>
      (op in store <==> op in store1) && (op in store ==> store[op] == store1[op])
    requires forall op :: op in Ops(utxos[i..j]) ==> !Free(store1, address, op)
    ensures Matches(store1, Without(utxos, Ops(utxos[i..j])), address)
  {
    hide Without, Ops, Distinct, InList;
    var rest := utxos[..i] + utxos[j..];
    WithoutStretch(utxos, i, j);
    RestIsListed(store, store1, utxos, address, i, j, rest);
    forall op | Free(store1, address, op)
      ensures op in Ops(rest)
    {
      FreeIsInRest(store, utxos, address, i, j, op);
    }
  }

  /** Changes to entries that are not available, and stay so, do not concern the list. */
  lemma MatchesElsewhere(store: UtxoMap, store1: UtxoMap, utxos: seq<Utxo>, address: string)
    requires Matches(store, utxos, address)
    requires forall op :: Free(store1, address, op) ==> Free(store, address, op)
    requires forall op :: Free(store, address, op) ==> op in store1 && store1[op] == store[op]
    ensures Matches(store1, utxos, address)
  {
    forall i | 0 <= i < |utxos|
      ensures InList(store1, address, utxos[i])
    {
      assert InList(store, address, utxos[i]) && Free(store, address, utxos[i].outpoint);
    }
  }

  lemma HoldsSame(store: UtxoMap, store1: UtxoMap, address: string, c: Created)
    requires Holds(store, address, c)
    requires forall op :: op in Ops(c.spent) && op in store ==> op in store1 && store1[op] == store[op]
    ensures Holds(store1, address, c)
  {
    forall i | 0 <= i < |c.spent|
      ensures c.spent[i].outpoint in store1
      ensures store1[c.spent[i].outpoint] == StoredUtxo(c.spent[i].value, address, SpentUnconfirmed)
    {
      assert c.spent[i] in c.spent;
    }
  }

  /** What a pending transaction spends is not available. */
  lemma HeldIsNotFree(store: UtxoMap, address: string, c: Created, op: Outpoint)
    requires Holds(store, address, c) && op in Ops(c.spent)
    ensures op in store && store[op].state == SpentUnconfirmed && !Free(store, address, op)
  {
    MemberOps(c.spent, op);
  }

  // ---- the steps of a run ----

  lemma BuiltFacts(s: Signer, rate: nat, us: seq<Utxo>, outputs: seq<TxOut>, changeScript: string, c: Created)
    requires WellBuilt(s, rate, us, outputs, changeScript, c)
    ensures Payments(c) == outputs && Balanced(c) && ChangeConsistent(c)
  {
    if c.changeValue > 0 {
      assert c.tx.outputs == outputs + [TxOut(c.changeValue, changeScript)];
    } else {
      assert c.tx.outputs == outputs + [] == outputs;
    }
  }

  /** The id of a new transaction is not in use. */
  predicate Fresh(w: Books, s: Signer, c: Created) {
    s.txid(c.tx) !in w.pending && (c.changeValue > 0 ==> ChangeOutpoint(s, c) !in w.store)
  }

  /** The store that a commit leaves, and what it did to every entry that was there. */
  lemma CommitStore(w: Books, s: Signer, c: Created)
    requires Fresh(w, s, c)
    ensures var w1 := Commit(w, s, c);
            && w1.pending == w.pending[s.txid(c.tx) := c]
            && w1.pendingStore == w.pendingStore[s.txid(c.tx) := FromCreated(c)]
            && forall op :: op in w.store ==>
                 && op in w1.store
                 && w1.store[op] ==
                    if op in Ops(c.spent) then w.store[op].(state := SpentUnconfirmed) else w.store[op]
  {
  }

  /** New entries of the pending map: the rest of the books only has to keep what it held. */
  lemma CommitKeepsPending(w: Books, s: Signer, address: string, c: Created)
    requires BooksOk(w, s, address) && Fresh(w, s, c)
    requires Balanced(c) && ChangeConsistent(c) && c.changeAddress == address
    requires Distinct(c.spent)
    requires forall i :: 0 <= i < |c.spent| ==>
      c.spent[i].outpoint in w.store && w.store[c.spent[i].outpoint] == StoredUtxo(c.spent[i].value, address, Available)
    ensures forall t :: PendingOk(Commit(w, s, c), s, address, t)
  {
    var w1 := Commit(w, s, c);
    CommitStore(w, s, c);
    forall t
      ensures PendingOk(w1, s, address, t)
    {
      if t == s.txid(c.tx) {
        forall i | 0 <= i < |c.spent|
          ensures c.spent[i].outpoint in Ops(c.spent)
        {
          MemberOps(c.spent, c.spent[i].outpoint);
        }
        assert Holds(w1.store, address, c);
      } else if t in w.pending {
        assert PendingOk(w, s, address, t);
        forall op | op in Ops(w.pending[t].spent) && op in w.store
          ensures w1.store[op] == w.store[op]
        {
          HeldIsNotFree(w.store, address, w.pending[t], op);
          MemberOps(c.spent, op);
        }
        HoldsSame(w.store, w1.store, address, w.pending[t]);
      }
    }
  }

  lemma CommitKeepsApart(w: Books, s: Signer, address: string, c: Created)
    requires BooksOk(w, s, address) && Fresh(w, s, c)
    requires forall i :: 0 <= i < |c.spent| ==>
      c.spent[i].outpoint in w.store && w.store[c.spent[i].outpoint].state == Available
    ensures forall t, t' :: Apart(Commit(w, s, c), t, t')
  {
    var w1 := Commit(w, s, c);
    CommitStore(w, s, c);
    forall t | t in w.pending
      ensures Ops(w.pending[t].spent) !! Ops(c.spent)
    {
      assert PendingOk(w, s, address, t);
      forall op | op in Ops(w.pending[t].spent)
        ensures op !in Ops(c.spent)
      {
        HeldIsNotFree(w.store, address, w.pending[t], op);
        MemberOps(c.spent, op);
      }
    }
    forall t, t'
      ensures Apart(w1, t, t')
    {
      assert Apart(w, t, t');
    }
  }

  lemma CommitKeepsMatches(w: Books, s: Signer, address: string, c: Created)
    requires Matches(w.store, w.utxos, address) && Fresh(w, s, c) && c.changeAddress == address
    requires |c.spent| <= |w.utxos| && c.spent == w.utxos[..|c.spent|]
    ensures var w1 := Commit(w, s, c);
            && Matches(w1.store, w1.utxos, address)
            && Sum(w1.utxos) + Sum(c.spent) == Sum(w.utxos) + c.changeValue
  {
    var n, ops := |c.spent|, Ops(c.spent);
    assert w.utxos[0..n] == c.spent;
    var marked := w.(store := Mark(w.store, ops, SpentUnconfirmed), utxos := Without(w.utxos, ops));
    MatchesTaken(w.store, marked.store, w.utxos, address, 0, n);
    SumWithout(w.utxos, 0, n);
    if c.changeValue > 0 {
      MatchesRegister(marked, address, ChangeOutpoint(s, c), c.changeValue);
    }
  }

  /** Committing a transaction built from the current funds keeps the books, and takes its payments
      and its fee out of the available value. */
  lemma CommitKeeps(w: Books, s: Signer, address: string, rate: nat, outputs: seq<TxOut>, changeScript: string,
                    c: Created)
    requires BooksOk(w, s, address)
    requires WellBuilt(s, rate, w.utxos, outputs, changeScript, c) && c.changeAddress == address && Fresh(w, s, c)
    ensures var w1 := Commit(w, s, c);
            BooksOk(w1, s, address) && Sum(w1.utxos) + Paid(Payments(c)) + c.fee == Sum(w.utxos)
  {
    BuiltFacts(s, rate, w.utxos, outputs, changeScript, c);
    forall i | 0 <= i < |c.spent|
      ensures InList(w.store, address, c.spent[i])
    {
      assert c.spent[i] == w.utxos[i];
    }
    CommitKeepsMatches(w, s, address, c);
    CommitKeepsPending(w, s, address, c);
    CommitKeepsApart(w, s, address, c);
    CommitStore(w, s, c);
  }

  lemma ConfirmKeeps(w: Books, s: Signer, address: string, txid: Txid)
    requires BooksOk(w, s, address) && txid in w.pending
    ensures BooksOk(Confirm(w, txid), s, address) && Confirm(w, txid).utxos == w.utxos
  {
    var w1, gone := Confirm(w, txid), Ops(w.pending[txid].spent);
    assert PendingOk(w, s, address, txid);
    forall op | Free(w.store, address, op)
      ensures op !in gone
    {
      if op in gone {
        HeldIsNotFree(w.store, address, w.pending[txid], op);
      }
    }
    MatchesElsewhere(w.store, w1.store, w.utxos, address);
    forall t
      ensures PendingOk(w1, s, address, t)
    {
      if t in w1.pending {
        assert PendingOk(w, s, address, t) && Apart(w, t, txid);
        HoldsSame(w.store, w1.store, address, w.pending[t]);
      }
    }
    forall t, t'
      ensures Apart(w1, t, t')
    {
      assert Apart(w, t, t');
    }
  }

  /** A commit in plain terms: the inputs stay in the store as spent, the change, if any, joins store
      and list, and nothing else changes. */
  lemma CommitInPlainTerms(w: Books, s: Signer, c: Created)
    requires c.changeValue > 0 ==> |c.tx.outputs| > 0
    ensures var w1, txid, change := Commit(w, s, c), s.txid(c.tx), Outpoint(s.txid(c.tx), Monus(|c.tx.outputs|, 1));
            && (c.changeValue > 0 ==>
                  change in w1.store && w1.store[change] == StoredUtxo(c.changeValue, c.changeAddress, Available))
            && (forall op :: op in w.store && (c.changeValue == 0 || op != change) ==>
                  && op in w1.store && w1.store[op].value == w.store[op].value
                  && w1.store[op].address == w.store[op].address
                  && w1.store[op].state ==
                     if exists u :: u in c.spent && u.outpoint == op then SpentUnconfirmed else w.store[op].state)
            && (forall op :: op in w1.store ==> op in w.store || (c.changeValue > 0 && op == change))
            && (forall u :: u in w1.utxos <==>
                  || (u in w.utxos && forall v :: v in c.spent ==> v.outpoint != u.outpoint)
                  || (c.changeValue > 0 && u == Utxo(change, c.changeValue)))
            && w1.pending == w.pending[txid := c] && w1.pendingStore == w.pendingStore[txid := FromCreated(c)]
  {
    WithoutMembers(w.utxos, Ops(c.spent));
  }

  /** A replacement in plain terms, before it is committed: the inputs of the original are available,
      its change is gone from store and list, its entries are gone, and nothing else changes. */
  lemma ReplaceInPlainTerms(w: Books, txid: Txid)
    requires txid in w.pending && |w.pending[txid].tx.outputs| > 0
    ensures var w1, original := Replace(w, txid), w.pending[txid];
            var change, dropped := Outpoint(txid, |original.tx.outputs| - 1), original.changeValue > 0;
            && (forall op :: op in w1.store <==> op in w.store && !(dropped && op == change))
            && (forall op :: op in w1.store ==>
                  && w1.store[op].value == w.store[op].value && w1.store[op].address == w.store[op].address
                  && w1.store[op].state ==
                     if exists u :: u in original.spent && u.outpoint == op then Available else w.store[op].state)
            && (forall u :: u in w1.utxos <==> u in w.utxos && !(dropped && u.outpoint == change))
            && w1.pending == w.pending - {txid} && w1.pendingStore == w.pendingStore - {txid}
  {
    WithoutMembers(w.utxos, OldChange(txid, w.pending[txid]));
  }

  /** A confirmation deletes the inputs of the transaction and its entries, and nothing else. */
  lemma ConfirmDeletes(w: Books, txid: Txid)
    requires txid in w.pending
    ensures var w1 := Confirm(w, txid);
            && (forall u :: u in w.pending[txid].spent ==> u.outpoint !in w1.store)
            && (forall op :: op in w1.store ==> op in w.store && w1.store[op] == w.store[op])
            && (forall op :: op in w.store && op !in w1.store ==>
                  exists u :: u in w.pending[txid].spent && u.outpoint == op)
            && txid !in w1.pending && txid !in w1.pendingStore && w1.utxos == w.utxos
            && (forall t :: t in w.pending && t != txid ==> t in w1.pending && w1.pending[t] == w.pending[t])
            && (forall t :: t in w.pendingStore && t != txid ==>
                  t in w1.pendingStore && w1.pendingStore[t] == w.pendingStore[t])
  {
  }

  lemma RegisterKeeps(w: Books, s: Signer, address: string, op: Outpoint, amount: nat)
    requires BooksOk(w, s, address) && op !in w.store
    ensures var w1 := Register(w, op, amount, address);
            BooksOk(w1, s, address) && Sum(w1.utxos) == Sum(w.utxos) + amount
  {
    var w1 := Register(w, op, amount, address);
    MatchesRegister(w, address, op, amount);
    forall t
      ensures PendingOk(w1, s, address, t)
    {
      assert PendingOk(w, s, address, t);
      if t in w.pending {
        HoldsSame(w.store, w1.store, address, w.pending[t]);
      }
    }
    forall t, t'
      ensures Apart(w1, t, t')
    {
      assert Apart(w, t, t');
    }
  }

  // ---- replacing ----

  predicate OldChangeUnspent(w: Books, txid: Txid)
    requires txid in w.pending
  {
    var c := w.pending[txid];
    c.changeValue > 0 ==>
      |c.tx.outputs| > 0 && Utxo(Outpoint(txid, |c.tx.outputs| - 1), c.changeValue) in w.utxos
  }

  /** A replacement as it is built: it pays the same, more in fees, from inputs of the original, and
      its id is new. */
  ghost predicate Replacement(w: Books, s: Signer, address: string, txid: Txid, rate: nat, changeScript: string,
                              c: Created)
  {
    && txid in w.pending
    && var original := w.pending[txid];
    && WellBuilt(s, rate, original.spent, Payments(original), changeScript, c) && c.changeAddress == address
    && c.fee > original.fee && Fresh(w, s, c)
  }

  /** And the change of the original is still there to be dropped. */
  ghost predicate Replaceable(w: Books, s: Signer, address: string, txid: Txid, rate: nat, changeScript: string,
                              c: Created)
  {
    Replacement(w, s, address, txid, rate, changeScript, c) && OldChangeUnspent(w, txid)
  }

  /** No pending transaction spends the change of the original. */
  predicate OldChangeNotHeld(w: Books, txid: Txid)
    requires txid in w.pending
  {
    forall t :: t in w.pending ==> OldChange(txid, w.pending[txid]) !! Ops(w.pending[t].spent)
  }

  /** No pending transaction could have done with fewer of its inputs. */
  predicate TightBooks(w: Books) {
    forall t :: t in w.pending ==> Tight(w.pending[t].spent, Cost(w.pending[t]))
  }

  /** Then a replacement spends all inputs of the original: on fewer it could not pay more in fees. */
  lemma ReplacementSpendsAll(w: Books, s: Signer, address: string, txid: Txid, rate: nat, changeScript: string,
                             c: Created)
    requires Replacement(w, s, address, txid, rate, changeScript, c)
    requires Tight(w.pending[txid].spent, Cost(w.pending[txid]))
    ensures c.spent == w.pending[txid].spent && Tight(c.spent, Cost(c))
  {
    hide Sum, Paid, Payments;
    var original := w.pending[txid];
    var m := |c.spent|;
    BuiltFacts(s, rate, original.spent, Payments(original), changeScript, c);
    if m == 0 {
      NoValue(c.spent);
    }
  }

  lemma NoValue(us: seq<Utxo>)
    requires us == []
    ensures Sum(us) == 0
  {
  }

  lemma DropOne(store: UtxoMap, utxos: seq<Utxo>, address: string, i: nat)
    requires Matches(store, utxos, address) && i < |utxos|
    ensures var gone := {utxos[i].outpoint};
            && Matches(store - gone, Without(utxos, gone), address)
            && Sum(Without(utxos, gone)) + utxos[i].value == Sum(utxos)
            && Free(store, address, utxos[i].outpoint)
  {
    hide Without, Distinct;
    var u := utxos[i];
    assert InList(store, address, u);
    assert utxos[i..i + 1] == [u] && Ops([u]) == {u.outpoint};
    assert Sum([u]) == Sum([u][..0]) + u.value;
    MatchesTaken(store, store - {u.outpoint}, utxos, address, i, i + 1);
    SumWithout(utxos, i, i + 1);
  }

  /** The list without the old change, and the store without it: `value` is what the list loses. */
  lemma DropAnyChange(w: Books, s: Signer, address: string, txid: Txid) returns (value: nat)
    requires BooksOk(w, s, address) && txid in w.pending
    ensures var dropped := OldChange(txid, w.pending[txid]);
            && Matches(w.store - dropped, Without(w.utxos, dropped), address)
            && Sum(Without(w.utxos, dropped)) + value == Sum(w.utxos)
    ensures value == w.pending[txid].changeValue <==> OldChangeUnspent(w, txid)
  {
    hide Without, PendingOk, Apart, Sum;
    var c := w.pending[txid];
    var dropped := OldChange(txid, c);
    var op := Outpoint(txid, if |c.tx.outputs| > 0 then |c.tx.outputs| - 1 else 0);
    MemberOps(w.utxos, op);
    if i :| dropped == {op} && 0 <= i < |w.utxos| && w.utxos[i].outpoint == op {
      DropOne(w.store, w.utxos, address, i);
      value := w.utxos[i].value;
    } else {
      forall j | 0 <= j < |w.utxos|
        ensures w.utxos[j].outpoint !in dropped
      {
      }
      WithoutNone(w.utxos, dropped);
      ListedAreStored(w.store, w.utxos, address, op);
      MatchesElsewhere(w.store, w.store - dropped, w.utxos, address);
      value := 0;
    }
  }

  lemma UnspentIsNotHeld(w: Books, s: Signer, address: string, txid: Txid)
    requires BooksOk(w, s, address) && txid in w.pending && OldChangeUnspent(w, txid)
    ensures OldChangeNotHeld(w, txid)
    ensures forall op :: op in OldChange(txid, w.pending[txid]) ==> Free(w.store, address, op)
  {
    hide Apart;
    var c := w.pending[txid];
    forall op | op in OldChange(txid, c)
      ensures Free(w.store, address, op)
    {
      var i :| 0 <= i < |w.utxos| && w.utxos[i] == Utxo(op, c.changeValue);
      assert InList(w.store, address, w.utxos[i]);
    }
    forall t, op | t in w.pending && op in OldChange(txid, c)
      ensures op !in Ops(w.pending[t].spent)
    {
      assert PendingOk(w, s, address, t);
      if op in Ops(w.pending[t].spent) {
        HeldIsNotFree(w.store, address, w.pending[t], op);
      }
    }
  }

  /** The books after replace and commit, before the new change and the pending entry. */
  function Swapped(w: Books, txid: Txid, spent: seq<Utxo>): Books
    requires txid in w.pending
  {
    var w1 := Replace(w, txid);
    w1.(store := Mark(w1.store, Ops(spent), SpentUnconfirmed), utxos := Without(w1.utxos, Ops(spent)))
  }

  /** With all inputs reused, replace and commit leave the inputs as they were and only drop the
      old change. */
  lemma SwappedAll(w: Books, s: Signer, address: string, txid: Txid)
    requires BooksOk(w, s, address) && txid in w.pending
    ensures var original := w.pending[txid];
            var w1 := Swapped(w, txid, original.spent);
            && w1.store == w.store - OldChange(txid, original)
            && w1.utxos == Without(w.utxos, OldChange(txid, original))
  {
    hide Without;
    var original := w.pending[txid];
    var dropped, ops := OldChange(txid, original), Ops(original.spent);
    assert PendingOk(w, s, address, txid);
    var store1 := Mark(Mark(w.store, ops, Available) - dropped, ops, SpentUnconfirmed);
    forall op | op in ops
      ensures op in w.store && w.store[op].state == SpentUnconfirmed && op !in Ops(w.utxos)
    {
      HeldIsNotFree(w.store, address, original, op);
      ListedAreStored(w.store, w.utxos, address, op);
    }
    assert store1 == w.store - dropped;
    var rest := Without(w.utxos, dropped);
    WithoutMembers(w.utxos, dropped);
    forall i | 0 <= i < |rest|
      ensures rest[i].outpoint !in ops
    {
      assert rest[i] in w.utxos;
    }
    WithoutNone(rest, ops);
  }

  /** The books once the old pending entry and the old change are gone. */
  lemma SwappedKeeps(w: Books, s: Signer, address: string, txid: Txid, w1: Books)
    requires BooksOk(w, s, address) && txid in w.pending
    requires OldChangeNotHeld(w, txid)
    requires w1.store == w.store - OldChange(txid, w.pending[txid])
    requires w1.pending == w.pending - {txid} && w1.pendingStore == w.pendingStore - {txid}
    ensures forall t :: PendingOk(w1, s, address, t)
    ensures forall t, t' :: Apart(w1, t, t')
    ensures Holds(w1.store, address, w.pending[txid])
  {
    forall t | t in w.pending
      ensures Holds(w1.store, address, w.pending[t])
    {
      assert PendingOk(w, s, address, t);
      HoldsSame(w.store, w1.store, address, w.pending[t]);
    }
    forall t
      ensures PendingOk(w1, s, address, t)
    {
      assert PendingOk(w, s, address, t);
    }
    forall t, t'
      ensures Apart(w1, t, t')
    {
      assert Apart(w, t, t');
    }
  }

  /** Adding a new change output and a new pending entry whose inputs are already held. */
  lemma AddPendingKeeps(w: Books, s: Signer, address: string, c: Created, w1: Books)
    requires BooksOk(w, s, address) && Fresh(w, s, c) && c.changeAddress == address
    requires Balanced(c) && ChangeConsistent(c) && Holds(w.store, address, c)
    requires forall t :: t in w.pending ==> Ops(w.pending[t].spent) !! Ops(c.spent)
    requires w1 == AddChange(w, s, c).(
      pending := w.pending[s.txid(c.tx) := c], pendingStore := w.pendingStore[s.txid(c.tx) := FromCreated(c)])
    ensures BooksOk(w1, s, address) && Sum(w1.utxos) == Sum(w.utxos) + c.changeValue
  {
    if c.changeValue > 0 {
      MatchesRegister(w, address, ChangeOutpoint(s, c), c.changeValue);
    }
    forall t
      ensures PendingOk(w1, s, address, t)
    {
      if t == s.txid(c.tx) {
        HoldsSame(w.store, w1.store, address, c);
      } else if t in w.pending {
        assert PendingOk(w, s, address, t);
        HoldsSame(w.store, w1.store, address, w.pending[t]);
      }
    }
    forall t, t'
      ensures Apart(w1, t, t')
    {
      assert Apart(w, t, t');
    }
  }

  /** Replacing a pending transaction with one on all its inputs and committing that at once keeps the
      books, when no pending transaction spends the old change. */
  lemma ReplaceAllKeeps(w: Books, s: Signer, address: string, txid: Txid, rate: nat, changeScript: string, c: Created)
    requires BooksOk(w, s, address) && Replacement(w, s, address, txid, rate, changeScript, c)
    requires |c.spent| == |w.pending[txid].spent| && OldChangeNotHeld(w, txid)
    ensures BooksOk(Commit(Replace(w, txid), s, c), s, address)
  {
    hide Without, Mark, Sum, Paid, Payments, Apart, Distinct, Holds, OldChangeNotHeld;
    var original := w.pending[txid];
    assert PendingOk(w, s, address, txid);
    BuiltFacts(s, rate, original.spent, Payments(original), changeScript, c);
    assert c.spent == original.spent;
    var value := DropAnyChange(w, s, address, txid);
    SwappedAll(w, s, address, txid);
    var w1 := Swapped(w, txid, c.spent);
    SwappedKeeps(w, s, address, txid, w1);
    HoldsSpent(w1.store, address, original, c);
    forall t | t in w1.pending
      ensures Ops(w1.pending[t].spent) !! Ops(c.spent)
    {
      ApartFrom(w, txid, t);
    }
    AddPendingKeeps(w1, s, address, c, Commit(Replace(w, txid), s, c));
  }

  /** The value is accounted for, falling by the rise of the fee, if and only if the old change was
      still unspent: change that was spent on is not given back. */
  lemma ReplaceValue(w: Books, s: Signer, address: string, txid: Txid, rate: nat, changeScript: string, c: Created)
    requires BooksOk(w, s, address) && Replacement(w, s, address, txid, rate, changeScript, c)
    requires |c.spent| == |w.pending[txid].spent|
    ensures Sum(Commit(Replace(w, txid), s, c).utxos) + (c.fee - w.pending[txid].fee) == Sum(w.utxos)
       <==> OldChangeUnspent(w, txid)
    ensures Paid(Payments(c)) == Paid(Payments(w.pending[txid]))
  {
    hide Without, Mark, Sum, Paid, Payments, Apart, Distinct, Holds, OldChangeUnspent;
    var original := w.pending[txid];
    assert PendingOk(w, s, address, txid);
    BuiltFacts(s, rate, original.spent, Payments(original), changeScript, c);
    assert c.spent == original.spent;
    var value := DropAnyChange(w, s, address, txid);
    SwappedAll(w, s, address, txid);
    var w1 := Swapped(w, txid, c.spent);
    if c.changeValue > 0 {
      MatchesRegister(w1, address, ChangeOutpoint(s, c), c.changeValue);
    }
  }

  /** With all inputs reused, the books are kept if and only if no pending transaction spends the old
      change. */
  lemma ReplaceNeedsOldChange(w: Books, s: Signer, address: string, txid: Txid, rate: nat, changeScript: string,
                              c: Created)
    requires BooksOk(w, s, address) && Replacement(w, s, address, txid, rate, changeScript, c)
    requires |c.spent| == |w.pending[txid].spent|
    ensures BooksOk(Commit(Replace(w, txid), s, c), s, address) <==> OldChangeNotHeld(w, txid)
  {
    hide Without, Sum, Paid, Payments, Apart, Distinct;
    if OldChangeNotHeld(w, txid) {
      ReplaceAllKeeps(w, s, address, txid, rate, changeScript, c);
    } else {
      var t :| t in w.pending && !(OldChange(txid, w.pending[txid]) !! Ops(w.pending[t].spent));
      var op :| op in OldChange(txid, w.pending[txid]) && op in Ops(w.pending[t].spent);
      assert PendingOk(w, s, address, t);
      HeldIsNotFree(w.store, address, w.pending[t], op);
      var w2, t2 := Commit(Replace(w, txid), s, c), if t == txid then s.txid(c.tx) else t;
      assert op !in w2.store && op in Ops(w2.pending[t2].spent);
      if Holds(w2.store, address, w2.pending[t2]) {
        HeldIsNotFree(w2.store, address, w2.pending[t2], op);
        assert false;
      }
      assert !PendingOk(w2, s, address, t2);
    }
  }

  /** Replacing a pending transaction and committing the replacement at once keeps the books, when
      all inputs are reused and the old change is unspent; the available value only falls by the
      rise of the fee. */
  lemma ReplaceKeeps(w: Books, s: Signer, address: string, txid: Txid, rate: nat, changeScript: string, c: Created)
    requires BooksOk(w, s, address) && Replaceable(w, s, address, txid, rate, changeScript, c)
    requires |c.spent| == |w.pending[txid].spent|
    ensures var w2 := Commit(Replace(w, txid), s, c);
            && BooksOk(w2, s, address)
            && Paid(Payments(c)) == Paid(Payments(w.pending[txid]))
            && Sum(w2.utxos) + (c.fee - w.pending[txid].fee) == Sum(w.utxos)
  {
    hide BooksOk, Commit, Replace, Sum, Paid, Payments, WellBuilt;
    UnspentIsNotHeld(w, s, address, txid);
    ReplaceAllKeeps(w, s, address, txid, rate, changeScript, c);
    ReplaceValue(w, s, address, txid, rate, changeScript, c);
  }

  lemma HoldsSpent(store: UtxoMap, address: string, c: Created, c': Created)
    requires Holds(store, address, c) && c'.spent == c.spent
    ensures Holds(store, address, c')
  {
  }

  lemma ApartFrom(w: Books, txid: Txid, t: Txid)
    requires Apart(w, t, txid) && t in w.pending && txid in w.pending && t != txid
    ensures Ops(w.pending[t].spent) !! Ops(w.pending[txid].spent)
  {
  }

  /** Reusing all inputs is not optional: an input that a replacement leaves out would stay available
      in the store but missing from the list. */
  lemma ReplaceNeedsAllInputs(w: Books, s: Signer, address: string, txid: Txid, rate: nat, changeScript: string,
                              c: Created)
    requires BooksOk(w, s, address) && Replaceable(w, s, address, txid, rate, changeScript, c)
    ensures BooksOk(Commit(Replace(w, txid), s, c), s, address) <==> |c.spent| == |w.pending[txid].spent|
  {
    if |c.spent| == |w.pending[txid].spent| {
      ReplaceKeeps(w, s, address, txid, rate, changeScript, c);
    } else {
      var w2, u := Commit(Replace(w, txid), s, c), w.pending[txid].spent[|c.spent|];
      assert PendingOk(w, s, address, txid);
      LeftInputIsFree(w, s, address, txid, c);
      LeftInputIsUnlisted(w, s, address, txid, c);
      assert !Matches(w2.store, w2.utxos, address);
    }
  }

  lemma LeftInputIsFree(w: Books, s: Signer, address: string, txid: Txid, c: Created)
    requires BooksOk(w, s, address) && txid in w.pending && Fresh(w, s, c) && OldChangeUnspent(w, txid)
    requires |c.spent| < |w.pending[txid].spent| && c.spent == w.pending[txid].spent[..|c.spent|]
    ensures Free(Commit(Replace(w, txid), s, c).store, address, w.pending[txid].spent[|c.spent|].outpoint)
  {
    hide Without, Apart, Sum, Paid;
    var spent, n := w.pending[txid].spent, |c.spent|;
    var op := spent[n].outpoint;
    assert PendingOk(w, s, address, txid);
    MemberOps(spent, op);
    HeldIsNotFree(w.store, address, w.pending[txid], op);
    assert spent[0..n] == c.spent;
    StretchMembers(spent, 0, n);
    UnspentIsNotHeld(w, s, address, txid);
  }

  lemma LeftInputIsUnlisted(w: Books, s: Signer, address: string, txid: Txid, c: Created)
    requires BooksOk(w, s, address) && txid in w.pending && Fresh(w, s, c)
    requires |c.spent| < |w.pending[txid].spent|
    ensures w.pending[txid].spent[|c.spent|].outpoint !in Ops(Commit(Replace(w, txid), s, c).utxos)
  {
    hide Without, Mark, Apart, Sum, Paid;
    var op := w.pending[txid].spent[|c.spent|].outpoint;
    assert PendingOk(w, s, address, txid);
    MemberOps(w.pending[txid].spent, op);
    HeldIsNotFree(w.store, address, w.pending[txid], op);
    ListedAreStored(w.store, w.utxos, address, op);
    WithoutMembers(w.utxos, OldChange(txid, w.pending[txid]));
    WithoutMembers(Replace(w, txid).utxos, Ops(c.spent));
    var kept := Without(Replace(w, txid).utxos, Ops(c.spent));
    assert forall u :: u in kept ==> u in w.utxos;
    forall u | u in Commit(Replace(w, txid), s, c).utxos
      ensures u.outpoint != op
    {
      if u in kept {
        MemberOps(w.utxos, u.outpoint);
      }
    }
  }

  /** That side of both conditions is reached by committing any payment that spends the change: a
      replacement of the original would then lose value and break the books. */
  lemma SpendingOldChange(w: Books, s: Signer, address: string, txid: Txid, c: Created)
    requires BooksOk(w, s, address) && txid in w.pending && Fresh(w, s, c)
    requires {} != OldChange(txid, w.pending[txid]) <= Ops(c.spent)
    ensures var w1 := Commit(w, s, c);
            txid in w1.pending && !OldChangeUnspent(w1, txid) && !OldChangeNotHeld(w1, txid)
  {
    hide Sum, Paid, Payments, BooksOk;
    var w1, dropped := Commit(w, s, c), OldChange(txid, w.pending[txid]);
    CommitStore(w, s, c);
    WithoutMembers(w.utxos, Ops(c.spent));
    var op :| op in dropped;
    assert w1.pending[s.txid(c.tx)] == c && op in Ops(c.spent);
    assert w1.pending[txid] == w.pending[txid];
    forall u | u in w1.utxos
      ensures u.outpoint != op
    {
    }
  }

  /** A replacement at a rate above the value of the inputs cannot be built, if transactions have a
      size at all: the failing side of the next lemma is reached. */
  lemma TooHighRateCannotBeBuilt(s: Signer, rate: nat, us: seq<Utxo>, outputs: seq<TxOut>, changeScript: string,
                                 c: Created)
    requires rate > Sum(us) && s.vsize(c.tx) > 0
    ensures !WellBuilt(s, rate, us, outputs, changeScript, c)
  {
    hide Sum, Paid, Draft, Grows, Tight;
    FeeAtLeastRate(s, rate, c.tx);
    assert us[..|us|] == us;
    if |c.spent| <= |us| {
      SumGrows(us, |c.spent|, |us|);
    }
  }

  lemma FeeAtLeastRate(s: Signer, rate: nat, tx: Tx)
    requires s.vsize(tx) > 0
    ensures Fee(s, rate, tx) >= rate
  {
  }

  /** A replacement that cannot be built is not undone: the list is left with the inputs of the
      pending original, which are available again. The books survive only if both were empty. */
  lemma FailedReplaceBreaksBooks(w: Books, s: Signer, address: string, txid: Txid)
    requires BooksOk(w, s, address) && txid in w.pending
    ensures BooksOk(FailReplace(w, txid), s, address) <==> w.pending[txid].spent == [] && w.utxos == []
  {
    hide Apart, Sum, Paid, Distinct;
    var w1, spent := FailReplace(w, txid), w.pending[txid].spent;
    assert PendingOk(w, s, address, txid);
    if spent != [] {
      MemberOps(spent, spent[0].outpoint);
      assert !Holds(w1.store, address, w1.pending[txid]);
      assert !PendingOk(w1, s, address, txid);
    } else {
      assert Mark(w.store, Ops(spent), Available) == w.store;
      if w.utxos != [] {
        assert InList(w.store, address, w.utxos[0]);
        assert Free(w1.store, address, w.utxos[0].outpoint);
        assert !Matches(w1.store, w1.utxos, address);
      }
    }
  }

  /** A replacement that pays no more is undone completely. */
  lemma UndoneReplaceChangesNothing(w: Books, s: Signer, address: string, txid: Txid)
    requires BooksOk(w, s, address) && txid in w.pending
    ensures var ops := Ops(w.pending[txid].spent);
            Mark(Mark(w.store, ops, Available), ops, SpentUnconfirmed) == w.store
  {
    assert PendingOk(w, s, address, txid);
    forall op | op in Ops(w.pending[txid].spent)
      ensures op in w.store && w.store[op].state == SpentUnconfirmed
    {
      HeldIsNotFree(w.store, address, w.pending[txid], op);
    }
  }
}
