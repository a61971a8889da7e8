/** The wallet itself (cli/bitcoin-wallet/src/wallet.rs), step by step over its stores and its list,
    proved to do what the functions of WalletLedger say. */
module Wallet {
  import opened Common
  import opened TxBuilder
  import opened WalletLedger
  import opened WalletRuns

  /** How many of the outputs come before the first that is not in the store. */
  function Stored(store: UtxoMap, us: seq<Utxo>): (n: nat)
    ensures n <= |us| && (n < |us| ==> us[n].outpoint !in store)
    ensures forall i :: 0 <= i < n ==> us[i].outpoint in store
  {
    if us == [] then 0
    else
      var n := Stored(store, us[..|us| - 1]);
      if n == |us| - 1 && us[n].outpoint in store then |us| else n
  }

  /** What marking the outputs one by one leaves, whether or not it gets to the end. */
  function MarkStored(store: UtxoMap, us: seq<Utxo>, state: UtxoState): UtxoMap {
    Mark(store, Ops(us[..Stored(store, us)]), state)
  }

  class Wallet {
    const signer: Signer
    const address: string
    const changeScript: string
    var rate: nat
    var store: UtxoMap
    var utxos: seq<Utxo>
    var pending: map<Txid, Created>
    var pendingStore: map<Txid, StoredTx>

    ghost function Books(): Books
      reads this
    {
      WalletLedger.Books(store, utxos, pending, pendingStore)
    }

    /** Opening a wallet on existing stores: pending transactions are read back, and the list is
        filled with the available outputs of the address. */
    constructor (signer: Signer, address: string, changeScript: string, rate: nat,
                 store: UtxoMap, pendingStore: map<Txid, StoredTx>)
      ensures this.signer == signer && this.address == address && this.changeScript == changeScript
      ensures this.rate == rate && this.store == store && this.pendingStore == pendingStore
      ensures Matches(store, utxos, address)
      ensures pending == map t | t in pendingStore :: ToCreated(pendingStore[t])
      ensures forall w: Books :: w.store == store && w.pendingStore == pendingStore ==> Books() == Reopen(w, utxos)
    {
      this.signer, this.address, this.changeScript, this.rate := signer, address, changeScript, rate;
      this.store, this.pendingStore := store, pendingStore;
      this.pending := map t | t in pendingStore :: ToCreated(pendingStore[t]);
      this.utxos := [];
      new;
      ReloadActiveUtxos();
    }

    /** `reload_active_utxos`: the entries come in an order of the database's choosing. */
    method ReloadActiveUtxos()
      modifies this`utxos
      ensures Matches(store, utxos, address)
    {
      var rest := store.Keys;
      var list: seq<Utxo> := [];
      while rest != {}
        invariant rest <= store.Keys && Distinct(list)
        invariant forall i :: 0 <= i < |list| ==> InList(store, address, list[i]) && list[i].outpoint !in rest
        invariant forall op :: Free(store, address, op) && op !in rest ==> op in Ops(list)
      {
        var op :| op in rest;
        rest := rest - {op};
        if store[op].address == address && store[op].state == Available {
          assert Ops(list + [Utxo(op, store[op].value)]) == Ops(list) + {op} by {
            OpsAppend(list, Utxo(op, store[op].value));
          }
          list := list + [Utxo(op, store[op].value)];
        }
      }
      utxos := list;
    }

    method RegisterUtxo(op: Outpoint, amount: nat) returns (r: Result<()>)
      modifies this`store, this`utxos
      ensures r == if op in Ops(old(utxos)) || op in old(store) then Err(Duplicate) else Ok(())
      ensures Books() == if r.Ok? then Register(old(Books()), op, amount, address) else old(Books())
    {
      var i := 0;
      while i < |utxos|
        invariant 0 <= i <= |utxos| && forall j :: 0 <= j < i ==> utxos[j].outpoint != op
      {
        if utxos[i].outpoint == op {
          assert utxos[i] in utxos;
          return Err(Duplicate);
        }
        i := i + 1;
      }
      MemberOps(utxos, op);
      if op in store {
        return Err(Duplicate);
      }
      store := store[op := StoredUtxo(amount, address, Available)];
      utxos := utxos + [Utxo(op, amount)];
      r := Ok(());
    }

    /** Marks the outputs one by one; stops at one that is not in the store. */
    method MarkAll(us: seq<Utxo>, state: UtxoState) returns (ok: bool)
      modifies this`store
      ensures ok <==> forall i :: 0 <= i < |us| ==> us[i].outpoint in old(store)
      ensures ok ==> store == Mark(old(store), Ops(us), state)
      ensures store == MarkStored(old(store), us, state)
    {
      ghost var before := store;
      ghost var n := Stored(before, us);
      assert Mark(before, Ops(us[..0]), state) == before;
      for i := 0 to |us|
        invariant store == Mark(before, Ops(us[..i]), state)
        invariant forall j :: 0 <= j < i ==> us[j].outpoint in before
      {
        if us[i].outpoint !in store {
          assert n == i;
          return false;
        }
        store := store[us[i].outpoint := store[us[i].outpoint].(state := state)];
        OpsAppend(us[..i], us[i]);
        assert us[..i] + [us[i]] == us[..i + 1];
      }
      assert us[..|us|] == us;
      ok := true;
    }

    /** `commit_spend_pending`. */
    method CommitSpendPending(c: Created) returns (r: Result<()>)
      requires c.changeValue > 0 ==> |c.tx.outputs| > 0
      modifies this`store, this`utxos, this`pending, this`pendingStore
      ensures r == if forall i :: 0 <= i < |c.spent| ==> c.spent[i].outpoint in old(store) then Ok(()) else Err(Missing)
      ensures Books() == if r.Ok? then Commit(old(Books()), signer, c)
                         else old(Books()).(store := MarkStored(old(store), c.spent, SpentUnconfirmed))
    {
      var txid := signer.txid(c.tx);
      var ok := MarkAll(c.spent, SpentUnconfirmed);
      if !ok {
        return Err(Missing);
      }
      utxos := Without(utxos, Ops(c.spent));
      if c.changeValue > 0 {
        var op := Outpoint(txid, |c.tx.outputs| - 1);
        store := store[op := StoredUtxo(c.changeValue, c.changeAddress, Available)];
        utxos := utxos + [Utxo(op, c.changeValue)];
      }
      pending := pending[txid := c];
      pendingStore := pendingStore[txid := FromCreated(c)];
      r := Ok(());
    }

    /** `confirm_transaction`. */
    method ConfirmTransaction(txid: Txid) returns (r: Result<()>)
      modifies this`store, this`pending, this`pendingStore
      ensures r == if txid in old(pending) then Ok(()) else Err(Missing)
      ensures Books() == if r.Ok? then Confirm(old(Books()), txid) else old(Books())
    {
      if txid !in pending {
        return Err(Missing);
      }
      var spent := pending[txid].spent;
      pending := pending - {txid};
      pendingStore := pendingStore - {txid};
      ghost var before := store;
      assert before - Ops(spent[..0]) == before;
      for i := 0 to |spent|
        invariant store == before - Ops(spent[..i])
        invariant pending == old(pending) - {txid} && pendingStore == old(pendingStore) - {txid}
      {
        store := store - {spent[i].outpoint};
        OpsAppend(spent[..i], spent[i]);
        assert spent[..i] + [spent[i]] == spent[..i + 1];
      }
      assert spent[..|spent|] == spent;
      r := Ok(());
    }

    /** `replace_transaction`. A build that fails leaves the original inputs in the list and marked
        available, as the code does; a replacement that pays no more is undone. */
    method ReplaceTransaction(txid: Txid, newRate: nat) returns (r: Result<Created>)
      requires txid in pending ==> Paid(Payments(pending[txid])) <= U64_MAX
      modifies this`rate, this`store, this`utxos, this`pending, this`pendingStore
      ensures rate == old(rate)
      ensures txid !in old(pending) ==> r == Err(Missing) && Books() == old(Books())
      ensures r == Err(Missing) <==>
        || txid !in old(pending)
        || (newRate > rate && exists i :: 0 <= i < |old(pending[txid]).spent| &&
                                          old(pending[txid]).spent[i].outpoint !in old(store))
      ensures txid in old(pending) && newRate <= rate ==> r == Err(NotHigher) && Books() == old(Books())
      ensures r.Ok? ==>
        && txid in old(pending) && newRate > rate
        && WellBuilt(signer, newRate, old(pending[txid]).spent, Payments(old(pending[txid])), changeScript, r.value)
        && r.value.changeAddress == address && r.value.fee > old(pending[txid]).fee
        && Books() == Replace(old(Books()), txid)
      ensures txid in old(pending) && r == Err(Missing) ==>
        Books() == old(Books()).(store := MarkStored(old(store), old(pending[txid]).spent, Available))
      ensures r == Err(Insufficient) || r == Err(Overflow) ==>
        txid in old(pending) && Books() == FailReplace(old(Books()), txid)
      ensures r == Err(NotHigher) && newRate > rate ==>
        && pending == old(pending) && pendingStore == old(pendingStore) && utxos == old(utxos)
        && var ops := Ops(old(pending[txid]).spent);
           store == Mark(Mark(old(store), ops, Available), ops, SpentUnconfirmed)
    {
      hide Without, Sum, Paid, Ops;
      if txid !in pending {
        return Err(Missing);
      }
      var original := pending[txid];
      if newRate <= rate {
        return Err(NotHigher);
      }
      var ok := MarkAll(original.spent, Available);
      if !ok {
        return Err(Missing);
      }
      var savedUtxos, oldRate := utxos, rate;
      utxos, rate := original.spent, newRate;
      var outputs := Payments(original);
      var total := Paid(outputs);
      var replacement, _ := BuildTransaction(signer, rate, utxos, outputs, total, changeScript, address);
      rate := oldRate;
      if replacement.Err? {
        return Err(replacement.error);
      }
      utxos := savedUtxos;
      if replacement.value.fee <= original.fee {
        ok := MarkAll(original.spent, SpentUnconfirmed);
        return Err(NotHigher);
      }
      pending := pending - {txid};
      pendingStore := pendingStore - {txid};
      store := store - OldChange(txid, original);
      utxos := Without(utxos, OldChange(txid, original));
      r := replacement;
    }
  }

  lemma OpsAppend(us: seq<Utxo>, u: Utxo)
    ensures Ops(us + [u]) == Ops(us) + {u.outpoint}
  {
    forall op | op in Ops(us) + {u.outpoint}
      ensures op in Ops(us + [u])
    {
      if op == u.outpoint {
        assert u in us + [u];
      } else {
        var v :| v in us && v.outpoint == op;
        assert v in us + [u];
      }
    }
  }
}
