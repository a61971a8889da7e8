/** Building a payment in the Bitcoin wallet (cli/bitcoin-wallet/src/wallet.rs): greedy selection of
    unspent outputs, and a loop that redrafts the transaction until its fee covers its size.
    Signing is a parameter: a signed transaction is its inputs and outputs, with a size and an id. */
module TxBuilder {
  import opened Common

  const P2WPKH_DUST_LIMIT: nat := 330

  datatype Error = Overflow | Insufficient | Missing | NotHigher | Duplicate
  datatype Result<+T> = Ok(value: T) | Err(error: Error)

  type Txid = nat
  datatype Outpoint = Outpoint(txid: Txid, vout: nat)
  datatype Utxo = Utxo(outpoint: Outpoint, value: nat)
  datatype TxOut = TxOut(value: nat, script: string)
  datatype Tx = Tx(inputs: seq<Outpoint>, outputs: seq<TxOut>)

  /** What signing makes of a transaction. */
  datatype Signer = Signer(vsize: Tx -> nat, txid: Tx -> Txid)

  datatype Created = Created(
    tx: Tx,
    change: Option<Utxo>,
    fee: nat,
    spentIndices: seq<nat>,
    spent: seq<Utxo>,
    changeValue: nat,
    changeAddress: string)

  function Sum(us: seq<Utxo>): nat {
    if us == [] then 0 else Sum(us[..|us| - 1]) + us[|us| - 1].value
  }

  function Paid(outs: seq<TxOut>): nat {
    if outs == [] then 0 else Paid(outs[..|outs| - 1]) + outs[|outs| - 1].value
  }

  function Outpoints(us: seq<Utxo>): seq<Outpoint> {
    seq(|us|, i requires 0 <= i < |us| => us[i].outpoint)
  }

  function Upto(n: nat): (r: seq<nat>)
    ensures |r| == n
  {
    seq(n, i => i)
  }

  lemma {:induction false} SumGrows(us: seq<Utxo>, i: nat, j: nat)
    requires i <= j <= |us|
    ensures Sum(us[..i]) <= Sum(us[..j])
    decreases j
  {
    if i < j {
      SumGrows(us, i, j - 1);
      SumPrefix(us, j);
    }
  }

  lemma SumPrefix(us: seq<Utxo>, j: nat)
    requires 0 < j <= |us|
    ensures Sum(us[..j]) == Sum(us[..j - 1]) + us[j - 1].value
  {
    assert us[..j][..j - 1] == us[..j - 1];
  }

  /** How many outputs the greedy selection takes: at least one if there is one, and then as few as
      reach the amount, or all. */
  function Reach(us: seq<Utxo>, required: nat, k: nat): (n: nat)
    requires k <= |us|
    ensures k <= n <= |us|
    ensures n < |us| ==> 0 < n && Sum(us[..n]) >= required
    ensures forall j :: k <= j < n && 0 < j ==> Sum(us[..j]) < required
    decreases |us| - k
  {
    if k == |us| || (0 < k && Sum(us[..k]) >= required) then k else Reach(us, required, k + 1)
  }

  /** `select_utxos`. */
  method SelectUtxos(us: seq<Utxo>, required: nat) returns (r: Result<nat>, indices: seq<nat>, selected: seq<Utxo>)
    requires required <= U64_MAX
    ensures var n := Reach(us, required, 0);
            r == if Sum(us[..n]) > U64_MAX then Err(Overflow)
                 else if Sum(us[..n]) < required then Err(Insufficient)
                 else Ok(Sum(us[..n]))
    ensures r.Ok? ==> selected == us[..Reach(us, required, 0)] && indices == Upto(|selected|)
  {
    indices, selected := [], [];
    var total := 0;
    var k := 0;
    ghost var n := Reach(us, required, 0);
    while k < |us|
      invariant k <= |us| && selected == us[..k] && indices == Upto(k)
      invariant total == Sum(us[..k]) <= U64_MAX
      invariant n == Reach(us, required, k) && (0 < k < |us| ==> total < required)
      decreases |us| - k
    {
      SumPrefix(us, k + 1);
      indices := indices + [k];
      selected := selected + [us[k]];
      if total + us[k].value > U64_MAX {
        assert n == k + 1;
        return Err(Overflow), indices, selected;
      }
      total := total + us[k].value;
      k := k + 1;
      if total >= required {
        break;
      }
    }
    assert n == k;
    if total < required {
      return Err(Insufficient), indices, selected;
    }
    r := Ok(total);
  }

  function Draft(selected: seq<Utxo>, outputs: seq<TxOut>, change: nat, changeScript: string): Tx {
    Tx(Outpoints(selected),
       outputs + if change >= P2WPKH_DUST_LIMIT then [TxOut(change, changeScript)] else [])
  }

  /** The fee rate is in satoshi per virtual byte. */
  function Fee(s: Signer, rate: nat, tx: Tx): nat {
    rate * s.vsize(tx)
  }

  datatype Drafted = NeedMore(required: nat) | Built(tx: Tx, fee: nat, change: nat) | TooLarge

  /** The inner loop on one selection: redraft with a higher assumed fee until the fee of the draft
      is covered. The drafts made are kept for the statement of the bounds. */
  method BuildOn(s: Signer, rate: nat, selected: seq<Utxo>, totalInput: nat, outputs: seq<TxOut>,
                 totalOutput: nat, changeScript: string)
    returns (r: Drafted, ghost drafts: seq<Tx>)
    requires totalOutput <= totalInput <= U64_MAX
    ensures forall d :: d in drafts ==> exists c :: d == Draft(selected, outputs, c, changeScript)
    ensures r.NeedMore? ==> totalInput < r.required <= U64_MAX &&
                            exists d :: d in drafts && r.required == totalOutput + Fee(s, rate, d)
    ensures r.TooLarge? ==> exists d :: d in drafts && totalOutput + Fee(s, rate, d) > U64_MAX
    ensures r.Built? ==>
      && totalInput == totalOutput + r.change + r.fee
      && (r.change == 0 || r.change >= 330)
      && r.tx == Draft(selected, outputs, r.change, changeScript)
      && r.fee >= Fee(s, rate, r.tx)
      && exists d :: d in drafts && r.fee < Fee(s, rate, d) + 330
  {
    hide Fee;
    var change := totalInput - totalOutput;
    var includeChange := change >= P2WPKH_DUST_LIMIT;
    var assumedFee := 0;
    drafts := [];
    while true
      invariant 0 <= change == totalInput - totalOutput - assumedFee
      invariant includeChange == (change >= P2WPKH_DUST_LIMIT)
      invariant forall d :: d in drafts ==> exists c :: d == Draft(selected, outputs, c, changeScript)
      invariant assumedFee == 0 || exists d :: d in drafts && assumedFee == Fee(s, rate, d)
      decreases change
    {
      var tx := Tx(Outpoints(selected), outputs);
      if includeChange {
        tx := tx.(outputs := tx.outputs + [TxOut(change, changeScript)]);
      } else {
        assert outputs + [] == outputs;
      }
      assert tx == Draft(selected, outputs, change, changeScript);
      drafts := drafts + [tx];
      assert tx in drafts;
      var fee := Fee(s, rate, tx);
      if totalOutput + fee > U64_MAX {
        return TooLarge, drafts;
      }
      if totalInput < totalOutput + fee {
        return NeedMore(totalOutput + fee), drafts;
      }
      if fee > assumedFee {
        assumedFee := fee;
        var newChange := totalInput - totalOutput - assumedFee;
        var shouldInclude := newChange >= P2WPKH_DUST_LIMIT;
        if shouldInclude != includeChange || newChange != change {
          includeChange, change := shouldInclude, newChange;
          continue;
        }
      }
      if !includeChange {
        change := 0;
      }
      return Built(tx, totalInput - totalOutput - change, change), drafts;
    }
  }

  /** Taking more of the funds never makes a smaller transaction for the payment. */
  ghost predicate Grows(s: Signer, us: seq<Utxo>, outputs: seq<TxOut>, changeScript: string) {
    forall m: nat, n: nat, c: nat, c': nat
      {:trigger Draft(us[..m], outputs, c, changeScript), Draft(us[..n], outputs, c', changeScript)} ::
      m < n <= |us| ==>
        s.vsize(Draft(us[..m], outputs, c, changeScript)) <= s.vsize(Draft(us[..n], outputs, c', changeScript))
  }

  /** A signed input weighs 271 or 272 units, depending on its signature; `rest` is the weight of all
      else, to which a change output adds at most `change`. */
  ghost predicate Weighs(s: Signer, changeScript: string, weight: Tx -> nat, rest: seq<TxOut> -> nat, change: nat) {
    && (forall tx: Tx :: s.vsize(tx) == (weight(tx) + 3) / 4)
    && (forall tx: Tx :: rest(tx.outputs) + 271 * |tx.inputs| <= weight(tx) <= rest(tx.outputs) + 272 * |tx.inputs|)
    && (forall outputs: seq<TxOut>, c: nat {:trigger outputs + [TxOut(c, changeScript)]} ::
          rest(outputs) <= rest(outputs + [TxOut(c, changeScript)]) <= rest(outputs) + change)
  }

  /** With such inputs sizes grow as long as the funds are few enough for the signatures not to
      outweigh an input: 148 outputs, for a change output of 124 units. */
  lemma InputsOutweighChange(s: Signer, us: seq<Utxo>, outputs: seq<TxOut>, changeScript: string,
                             weight: Tx -> nat, rest: seq<TxOut> -> nat, change: nat)
    requires Weighs(s, changeScript, weight, rest, change) && |us| + change <= 272
    ensures Grows(s, us, outputs, changeScript)
  {
    hide Draft, Weighs;
    forall m: nat, n: nat, c: nat, c': nat | m < n <= |us|
      ensures s.vsize(Draft(us[..m], outputs, c, changeScript)) <= s.vsize(Draft(us[..n], outputs, c', changeScript))
    {
      DraftWeight(s, changeScript, weight, rest, change, us[..m], outputs, c);
      DraftWeight(s, changeScript, weight, rest, change, us[..n], outputs, c');
    }
  }

  lemma DraftWeight(s: Signer, changeScript: string, weight: Tx -> nat, rest: seq<TxOut> -> nat, change: nat,
                    us: seq<Utxo>, outputs: seq<TxOut>, c: nat)
    requires Weighs(s, changeScript, weight, rest, change)
    ensures var d := Draft(us, outputs, c, changeScript);
            && s.vsize(d) == (weight(d) + 3) / 4
            && rest(outputs) + 271 * |us| <= weight(d) <= rest(outputs) + change + 272 * |us|
  {
    var d := Draft(us, outputs, c, changeScript);
    assert outputs + [] == outputs;
    assert d.outputs == outputs || d.outputs == outputs + [TxOut(c, changeScript)];
    assert rest(outputs) <= rest(outputs + [TxOut(c, changeScript)]) <= rest(outputs) + change;
  }

  /** No shorter stretch of the inputs, but for the empty one, reaches the amount. */
  predicate Tight(us: seq<Utxo>, amount: nat) {
    forall m {:trigger us[..m]} :: 0 < m < |us| ==> Sum(us[..m]) < amount
  }

  /** What a successful build promises about the funds it was given. */
  ghost predicate WellBuilt(s: Signer, rate: nat, us: seq<Utxo>, outputs: seq<TxOut>, changeScript: string,
                            c: Created)
  {
    && |c.spent| <= |us| && c.spent == us[..|c.spent|] && c.spentIndices == Upto(|c.spent|)
    && Sum(c.spent) == Paid(outputs) + c.changeValue + c.fee
    && c.fee >= Fee(s, rate, c.tx)
    && (c.changeValue == 0 || c.changeValue >= 330)
    && c.tx == Draft(c.spent, outputs, c.changeValue, changeScript)
    && c.change == (if c.changeValue > 0 then Some(Utxo(ChangeOutpoint(s, c), c.changeValue)) else None)
    && (Grows(s, us, outputs, changeScript) ==> Tight(c.spent, Paid(outputs) + c.fee))
  }

  function ChangeOutpoint(s: Signer, c: Created): Outpoint {
    Outpoint(s.txid(c.tx), if |c.tx.outputs| > 0 then |c.tx.outputs| - 1 else 0)
  }

  ghost predicate IsDraft(us: seq<Utxo>, n: nat, outputs: seq<TxOut>, changeScript: string, d: Tx)
    requires n <= |us|
  {
    exists c :: d == Draft(us[..n], outputs, c, changeScript)
  }

  /** Every draft was made for this payment, from an initial stretch of the funds. */
  ghost predicate AllDrafts(us: seq<Utxo>, outputs: seq<TxOut>, changeScript: string, drafts: seq<Tx>) {
    forall d :: d in drafts ==> exists n: nat :: n <= |us| && IsDraft(us, n, outputs, changeScript, d)
  }

  /** The amount is the fee of a draft on the first `n` outputs. */
  ghost predicate FeeOfDraft(s: Signer, rate: nat, us: seq<Utxo>, n: nat, outputs: seq<TxOut>, changeScript: string,
                             fee: nat)
    requires n <= |us|
  {
    exists d :: IsDraft(us, n, outputs, changeScript, d) && fee == Fee(s, rate, d)
  }

  lemma FeeGrows(s: Signer, rate: nat, d: Tx, e: Tx)
    requires s.vsize(d) <= s.vsize(e)
    ensures Fee(s, rate, d) <= Fee(s, rate, e)
  {
  }

  /** A selection that was made for the fee of a shorter one is tight for any fee that covers its own
      size, if sizes grow. */
  lemma SelectionIsTight(s: Signer, rate: nat, us: seq<Utxo>, outputs: seq<TxOut>, changeScript: string,
                         total: nat, required: nat, before: int, n: nat, change: nat, fee: nat)
    requires n == Reach(us, required, 0) && before < n
    requires || required == total
             || (0 <= before && required >= total &&
                 FeeOfDraft(s, rate, us, before, outputs, changeScript, required - total))
    requires fee >= Fee(s, rate, Draft(us[..n], outputs, change, changeScript))
    ensures Grows(s, us, outputs, changeScript) ==> Tight(us[..n], total + fee)
  {
    hide Fee, Sum, Draft, Reach;
    if Grows(s, us, outputs, changeScript) {
      if required > total {
        var d :| IsDraft(us, before, outputs, changeScript, d) && required - total == Fee(s, rate, d);
        var c :| d == Draft(us[..before], outputs, c, changeScript);
        FeeGrows(s, rate, d, Draft(us[..n], outputs, change, changeScript));
      }
      forall m | 0 < m < n
        ensures Sum(us[..n][..m]) < total + fee
      {
        assert us[..n][..m] == us[..m];
      }
    }
  }

  /** `build_transaction_with_outputs`: it ends, because every new selection is longer and every new
      draft assumes a higher fee. Inputs are outputs plus change plus fee, the fee covers the size
      of the final transaction and exceeds the fee of some draft by less than the dust limit. It
      fails only when all funds fall short of the payments, alone or with the fee of a draft, or
      when an amount leaves the range of `u64`. */
  method BuildTransaction(s: Signer, rate: nat, us: seq<Utxo>, outputs: seq<TxOut>, total: nat,
                          changeScript: string, address: string)
    returns (r: Result<Created>, ghost drafts: seq<Tx>)
    requires total == Paid(outputs) <= U64_MAX
    ensures r.Ok? ==> WellBuilt(s, rate, us, outputs, changeScript, r.value) && r.value.changeAddress == address
    ensures r.Ok? ==> exists d :: d in drafts && IsDraft(us, |r.value.spent|, outputs, changeScript, d)
                                  && r.value.fee < Fee(s, rate, d) + 330
    ensures AllDrafts(us, outputs, changeScript, drafts)
    ensures r.Err? ==> r.error == Insufficient || r.error == Overflow
    ensures r == Err(Insufficient) ==>
      Sum(us) < total || exists d :: d in drafts && Sum(us) < total + Fee(s, rate, d)
    ensures r == Err(Overflow) ==>
      Sum(us) > U64_MAX || exists d :: d in drafts && total + Fee(s, rate, d) > U64_MAX
  {
    hide Fee, Sum, Paid, Reach, Upto, Draft, Tight, Grows, AllDrafts, FeeOfDraft;
    drafts := [];
    NoDrafts(us, outputs, changeScript);
    var required := total;
    ghost var taken := -1;
    while true
      invariant -1 <= taken <= |us| && total <= required <= U64_MAX
      invariant 0 <= taken ==> Sum(us[..taken]) < required
      invariant AllDrafts(us, outputs, changeScript, drafts)
      invariant required == total || exists d :: d in drafts && required == total + Fee(s, rate, d)
      invariant
        || required == total
        || (0 <= taken && FeeOfDraft(s, rate, us, taken, outputs, changeScript, required - total))
      decreases |us| - taken
    {
      ghost var n := Reach(us, required, 0);
      SumGrows(us, n, |us|);
      assert us[..|us|] == us;
      var totalInput, indices, selected := SelectUtxos(us, required);
      if totalInput.Err? {
        return Err(totalInput.error), drafts;
      }
      if taken >= n {
        SumGrows(us, n, taken);
      }
      ghost var before := taken;
      taken := n;
      var step;
      ghost var more;
      step, more := BuildOn(s, rate, selected, totalInput.value, outputs, total, changeScript);
      DraftsOf(us, n, outputs, changeScript, drafts, more);
      drafts := drafts + more;
      match step
      case NeedMore(amount) =>
        OwedByDraft(s, rate, us, n, outputs, changeScript, more, amount - total);
        required := amount;
      case TooLarge =>
        return Err(Overflow), drafts;
      case Built(tx, fee, changeValue) =>
        SelectionIsTight(s, rate, us, outputs, changeScript, total, required, before, n, changeValue, fee);
        HasChange(selected, outputs, changeValue, changeScript);
        var c := Created(tx, None, fee, indices, selected, changeValue, address);
        if changeValue > 0 {
          c := c.(change := Some(Utxo(Outpoint(s.txid(tx), |tx.outputs| - 1), changeValue)));
        }
        return Ok(c), drafts;
    }
  }

  lemma HasChange(selected: seq<Utxo>, outputs: seq<TxOut>, change: nat, changeScript: string)
    ensures change >= P2WPKH_DUST_LIMIT ==> Draft(selected, outputs, change, changeScript).outputs != []
  {
  }

  lemma NoDrafts(us: seq<Utxo>, outputs: seq<TxOut>, changeScript: string)
    ensures AllDrafts(us, outputs, changeScript, [])
  {
  }

  lemma DraftsOf(us: seq<Utxo>, n: nat, outputs: seq<TxOut>, changeScript: string, drafts: seq<Tx>, more: seq<Tx>)
    requires n <= |us| && AllDrafts(us, outputs, changeScript, drafts)
    requires forall d :: d in more ==> exists c :: d == Draft(us[..n], outputs, c, changeScript)
    ensures AllDrafts(us, outputs, changeScript, drafts + more)
    ensures forall d :: d in more ==> IsDraft(us, n, outputs, changeScript, d)
  {
    hide Draft;
    forall d | d in drafts + more
      ensures exists k: nat :: k <= |us| && IsDraft(us, k, outputs, changeScript, d)
    {
      if d !in drafts {
        assert d in more && IsDraft(us, n, outputs, changeScript, d);
      }
    }
  }

  lemma OwedByDraft(s: Signer, rate: nat, us: seq<Utxo>, n: nat, outputs: seq<TxOut>, changeScript: string,
                    more: seq<Tx>, fee: nat)
    requires n <= |us| && forall d :: d in more ==> IsDraft(us, n, outputs, changeScript, d)
    requires exists d :: d in more && fee == Fee(s, rate, d)
    ensures FeeOfDraft(s, rate, us, n, outputs, changeScript, fee)
  {
  }

  lemma FeeIsRateTimesSize(s: Signer, rate: nat, tx: Tx)
    ensures Fee(s, rate, tx) == rate * s.vsize(tx)
  {
  }

  /** A built transaction in plain terms: its inputs are the first outputs of the funds, in order, its
      outputs the payments and then the change, if that is at least 330, and what is left over is a
      fee of at least the rate for every byte. */
  lemma BuiltInPlainTerms(s: Signer, rate: nat, us: seq<Utxo>, outputs: seq<TxOut>, changeScript: string, c: Created)
    requires WellBuilt(s, rate, us, outputs, changeScript, c)
    ensures |c.tx.inputs| == |c.spent| <= |us| && forall i :: 0 <= i < |c.spent| ==>
      c.spent[i] == us[i] && c.tx.inputs[i] == us[i].outpoint && c.spentIndices[i] == i
    ensures if c.changeValue == 0 then c.tx.outputs == outputs && c.change.None?
            else && c.changeValue >= 330 && c.tx.outputs == outputs + [TxOut(c.changeValue, changeScript)]
                 && c.change == Some(Utxo(Outpoint(s.txid(c.tx), |outputs|), c.changeValue))
    ensures Sum(c.spent) == Paid(outputs) + c.changeValue + c.fee && c.fee >= rate * s.vsize(c.tx)
  {
    hide Sum, Paid, Fee, Grows, Tight;
    FeeIsRateTimesSize(s, rate, c.tx);
    assert outputs + [] == outputs;
  }
}
