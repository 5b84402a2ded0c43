/** Connecting and disconnecting a block on a coin cache, step by step. */
module ConnectBlock {
  import opened Transactions
  import opened Coins
  import opened CoinsView
  import opened CoinsCache
  import opened BlockUndo
  import opened BlockRules
  import opened MoneySupply
  import opened ChainRuns

  /** What a reader of the cache sees. */
  ghost function Sees(view: CoinsViewCache): Utxo
    requires view.Wired()
    reads view.Repr
  {
    Visible(view.Abs())
  }

  /** What a reader of each view behind the cache sees. */
  ghost function Behind(view: CoinsViewCache): Plain
    requires view.Wired()
    reads view.Repr
  {
    CoinsView.Abs(view.Abs().base)
  }

  /** inputs.ModifyCoins(hash)->Spend(prevout, undo). */
  method SpendOutput(view: CoinsViewCache, out: OutPoint) returns (ret: bool, undo: TxInUndo)
    requires view.Valid() && GoodUtxo(Sees(view))
    modifies view.Repr
    ensures view.Valid() && Behind(view) == old(Behind(view))
    ensures ret == old(CanSpend(Sees(view), out))
    ensures ret ==> Sees(view) == old(SpendInput(Sees(view), out)) && undo == old(Sees(view)[out.hash].UndoOf(out.n))
    ensures !ret ==> Sees(view) == old(Sees(view))
  {
    ghost var m := Sees(view);
    var coins := view.ModifyCoins(out.hash);
    assert Sees(view) == m;
    var spent;
    ret, spent, undo := Spend(coins, out.n);
    view.EndModify(out.hash, spent);
    assert Sees(view) == Put(m, out.hash, spent);
    if !ret { PutSame(m, out.hash, coins); }
  }

  lemma PutSame(m: Utxo, t: Hash, c: Coins)
    requires GoodUtxo(m)
    requires if t in m then c == m[t] else c.IsPruned()
    ensures Put(m, t, c) == m
  {
    CleanedFacts(c);
  }

  method SpendInputs(vin: seq<TxIn>, view: CoinsViewCache) returns (vprevout: seq<TxInUndo>)
    requires view.Valid() && GoodUtxo(Sees(view)) && CanSpendAll(Sees(view), vin)
    modifies view.Repr
    ensures view.Valid() && Behind(view) == old(Behind(view)) && GoodUtxo(Sees(view))
    ensures Sees(view) == old(SpendAll(Sees(view), vin))
    ensures vprevout == old(UndoOfAll(Sees(view), vin))
  {
    hide GoodUtxo, Visible, CoinsView.Abs, CoinsView.Valid, SpendInput, CanSpend, LayerAgrees, SpendAll, CanSpendAll,
         UndoOfAll;
    ghost var m := Sees(view);
    vprevout := [];
    SpendsLeft(m, vin, 0);
    for i := 0 to |vin|
      invariant view.Valid() && Behind(view) == old(Behind(view)) && GoodUtxo(Sees(view))
      invariant CanSpendAll(Sees(view), vin[i..])
      invariant SpendAll(Sees(view), vin[i..]) == SpendAll(m, vin)
      invariant vprevout + UndoOfAll(Sees(view), vin[i..]) == UndoOfAll(m, vin)
    {
      ghost var m0 := Sees(view);
      SpendsLeft(m0, vin, i);
      SpendKeepsGood(m0, vin[i].prevout);
      var ret, undo := SpendOutput(view, vin[i].prevout);
      assert ret;
      assert vprevout + ([undo] + UndoOfAll(Sees(view), vin[i + 1..]))
        == vprevout + [undo] + UndoOfAll(Sees(view), vin[i + 1..]);
      vprevout := vprevout + [undo];
    }
    SpendsLeft(Sees(view), vin, |vin|);
    assert vprevout + [] == vprevout;
  }

  /** The inputs from i on: the first of them and the rest, or none. */
  lemma SpendsLeft(m: Utxo, vin: seq<TxIn>, i: nat)
    requires i <= |vin| && CanSpendAll(m, vin[i..])
    ensures vin[0..] == vin
    ensures i < |vin| ==>
              && CanSpend(m, vin[i].prevout) && CanSpendAll(SpendInput(m, vin[i].prevout), vin[i + 1..])
              && SpendAll(m, vin[i..]) == SpendAll(SpendInput(m, vin[i].prevout), vin[i + 1..])
              && UndoOfAll(m, vin[i..]) == [m[vin[i].prevout.hash].UndoOf(vin[i].prevout.n)]
                                           + UndoOfAll(SpendInput(m, vin[i].prevout), vin[i + 1..])
    ensures i == |vin| ==> SpendAll(m, vin[i..]) == m && UndoOfAll(m, vin[i..]) == []
  {
    if i < |vin| { assert vin[i..][0] == vin[i] && vin[i..][1..] == vin[i + 1..]; }
  }

  /** UpdateCoins: spends the inputs, then adds the outputs; the assertion on every spend holds. */
  method UpdateCoins(tx: Transaction, view: CoinsViewCache, nHeight: int) returns (txundo: seq<TxInUndo>)
    requires view.Valid() && GoodUtxo(Sees(view))
    requires CanSpendAll(Sees(view), InputsOf(tx))
    modifies view.Repr
    ensures view.Valid() && Behind(view) == old(Behind(view))
    ensures Sees(view) == old(ApplyTx(Sees(view), tx, nHeight))
    ensures txundo == old(UndoOfAll(Sees(view), InputsOf(tx)))
  {
    hide GoodUtxo, Visible, CoinsView.Valid, SpendInput, CanSpend;
    ghost var m := Sees(view);
    txundo := [];
    if !tx.IsCoinBase() {
      txundo := SpendInputs(tx.vin, view);
    }
    assert Sees(view) == SpendAll(m, InputsOf(tx));
    AddOutputs(tx, view, nHeight);
  }

  method AddOutputs(tx: Transaction, view: CoinsViewCache, nHeight: int)
    requires view.Valid()
    modifies view.Repr
    ensures view.Valid() && Behind(view) == old(Behind(view))
    ensures Sees(view) == Put(old(Sees(view)), tx.hash, FromTx(tx, nHeight))
  {
    var _ := view.ModifyCoins(tx.hash);
    view.EndModify(tx.hash, FromTx(tx, nHeight));
  }

  /** CheckInputs without the scripts: maturity, value ranges, and no more out than in. */
  method CheckInputValues(tx: Transaction, view: CoinsViewCache, nSpendHeight: int, prm: Params) returns (ok: bool)
    requires view.Valid() && HaveInputs(Sees(view), tx.vin)
    modifies view.Repr
    ensures view.Valid() && Behind(view) == old(Behind(view)) && Sees(view) == old(Sees(view))
    ensures ok == old(InputsAccepted(Sees(view), tx, nSpendHeight, prm))
  {
    ghost var m := Sees(view);
    var nValueIn := 0;
    for i := 0 to |tx.vin|
      invariant view.Valid() && Behind(view) == old(Behind(view)) && Sees(view) == m
      invariant nValueIn + ValueIn(m, tx.vin[i..]) == ValueIn(m, tx.vin)
      invariant forall j :: 0 <= j < i ==> InputAccepted(m, tx.vin[j].prevout, nSpendHeight, prm)
      invariant 0 <= nValueIn && (i > 0 ==> nValueIn <= prm.nMaxMoneyOut)
    {
      var prevout := tx.vin[i].prevout;
      assert tx.vin[i..][0] == tx.vin[i] && tx.vin[i..][1..] == tx.vin[i + 1..];
      var coins := AccessCoins(view, prevout.hash);
      if (coins.fCoinBase || coins.fCoinStake) && nSpendHeight - coins.nHeight < prm.nMaturity {
        return false;
      }
      var nValue := coins.vout[prevout.n].nValue;
      nValueIn := nValueIn + nValue;
      if !MoneyRange(nValue, prm) {
        return false;
      }
      if !MoneyRange(nValueIn, prm) {
        // the remaining values are either out of range themselves or only add to the sum
        RestOutOfRange(m, tx, i + 1, nValueIn, nSpendHeight, prm);
        return false;
      }
    }
    assert tx.vin[|tx.vin|..] == [];
    ok := tx.IsCoinStake() || nValueIn >= ValueOut(tx.vout);
  }

  lemma {:induction false} RestOutOfRange(m: Utxo, tx: Transaction, i: nat, nValueIn: int, nSpendHeight: int,
                                          prm: Params)
    requires HaveInputs(m, tx.vin) && i <= |tx.vin|
    requires nValueIn > prm.nMaxMoneyOut && nValueIn + ValueIn(m, tx.vin[i..]) == ValueIn(m, tx.vin)
    ensures !InputsAccepted(m, tx, nSpendHeight, prm)
    decreases |tx.vin| - i
  {
    if i < |tx.vin| {
      assert tx.vin[i..][0] == tx.vin[i] && tx.vin[i..][1..] == tx.vin[i + 1..];
      if InputAccepted(m, tx.vin[i].prevout, nSpendHeight, prm) {
        var o := tx.vin[i].prevout;
        RestOutOfRange(m, tx, i + 1, nValueIn + m[o.hash].vout[o.n].nValue, nSpendHeight, prm);
      }
    } else {
      assert tx.vin[i..] == [];
    }
  }

  method AccessCoins(view: CoinsViewCache, txid: Hash) returns (coins: Coins)
    requires view.Valid() && txid in Sees(view)
    modifies view.Repr
    ensures view.Valid() && Behind(view) == old(Behind(view)) && Sees(view) == old(Sees(view))
    ensures coins == Sees(view)[txid]
  {
    FetchKeeps(view.Abs(), txid);
    LookupIsVisible(view.Abs(), txid);
    var c := view.FetchCoins(txid);
    coins := c.value;
  }

  /** HaveInputs of the cache, for a transaction that spends ordinary outputs. */
  method HasInputs(tx: Transaction, view: CoinsViewCache) returns (have: bool)
    requires view.Valid()
    modifies view.Repr
    ensures view.Valid() && Behind(view) == old(Behind(view)) && Sees(view) == old(Sees(view))
    ensures have == old(HaveInputs(Sees(view), tx.vin))
  {
    ghost var m := Sees(view);
    for i := 0 to |tx.vin|
      invariant view.Valid() && Behind(view) == old(Behind(view)) && Sees(view) == m
      invariant HaveInputs(m, tx.vin[..i])
    {
      var prevout := tx.vin[i].prevout;
      FetchKeeps(view.Abs(), prevout.hash);
      LookupIsVisible(view.Abs(), prevout.hash);
      var coins := view.FetchCoins(prevout.hash);
      if coins.None? || !coins.value.IsAvailable(prevout.n) {
        assert !HasOutput(m, tx.vin[i].prevout);
        return false;
      }
      assert tx.vin[..i + 1] == tx.vin[..i] + [tx.vin[i]];
    }
    assert tx.vin[..|tx.vin|] == tx.vin;
    have := true;
  }

  method GetValueIn(tx: Transaction, view: CoinsViewCache) returns (nResult: int)
    requires view.Valid() && HaveInputs(Sees(view), InputsOf(tx))
    modifies view.Repr
    ensures view.Valid() && Behind(view) == old(Behind(view)) && Sees(view) == old(Sees(view))
    ensures nResult == old(TxValueIn(Sees(view), tx))
  {
    ghost var m := Sees(view);
    nResult := 0;
    if tx.IsCoinBase() {
      return;
    }
    for i := 0 to |tx.vin|
      invariant view.Valid() && Behind(view) == old(Behind(view)) && Sees(view) == m
      invariant nResult + ValueIn(m, tx.vin[i..]) == ValueIn(m, tx.vin)
    {
      assert tx.vin[i..][0] == tx.vin[i] && tx.vin[i..][1..] == tx.vin[i + 1..];
      var coins := AccessCoins(view, tx.vin[i].prevout.hash);
      nResult := nResult + coins.vout[tx.vin[i].prevout.n].nValue;
    }
    assert tx.vin[|tx.vin|..] == [];
  }

  ghost function PlaceAll(vtx: seq<Transaction>, nHeight: int): (r: seq<Placed>)
    ensures |r| == |vtx|
  {
    seq(|vtx|, i requires 0 <= i < |vtx| => Placed(vtx[i], nHeight))
  }

  /** The running totals of ConnectBlock. */
  datatype Totals = Totals(nValueOut: int, nValueIn: int, nFees: int)

  /** One transaction of the loop in ConnectBlock. */
  method ConnectTx(tx: Transaction, view: CoinsViewCache, nHeight: int, prm: Params, other: Transaction -> bool,
                   before: Totals)
    returns (ok: bool, txundo: seq<TxInUndo>, after: Totals)
    requires view.Valid() && GoodUtxo(Sees(view)) && CheckedTx(tx) && nHeight != 0
    requires CanSpendAll(Sees(view), InputsOf(tx)) ==> tx.hash !in SpendAll(Sees(view), InputsOf(tx))
    modifies view.Repr
    ensures view.Valid() && Behind(view) == old(Behind(view))
    ensures ok == old(TxAccepted(Sees(view), Placed(tx, nHeight), prm, other))
    ensures ok ==> old(TxConnectable(Sees(view), tx, nHeight))
    ensures ok ==> Sees(view) == old(ApplyTx(Sees(view), tx, nHeight)) && GoodUtxo(Sees(view))
    ensures ok ==> txundo == old(UndoOfAll(Sees(view), InputsOf(tx)))
    ensures ok ==> after == old(Totals(before.nValueOut + ValueOut(tx.vout),
                                       before.nValueIn + TxValueIn(Sees(view), tx),
                                       before.nFees + TxFee(Sees(view), tx)))
  {
    hide GoodUtxo, Visible, CoinsView.Valid, CoinsView.Abs, ApplyTx, SpendAll, CanSpendAll, UndoOfAll;
    ghost var m := Sees(view);
    txundo, after := [], before;
    if !tx.IsCoinBase() {
      var have := HasInputs(tx, view);
      if !have {
        return false, txundo, after;
      }
      if !other(tx) {
        return false, txundo, after;
      }
      var nValueIn := GetValueIn(tx, view);
      if !tx.IsCoinStake() {
        after := after.(nFees := after.nFees + nValueIn - ValueOut(tx.vout));
      }
      after := after.(nValueIn := after.nValueIn + nValueIn);
      var accepted := CheckInputValues(tx, view, nHeight, prm);
      if !accepted {
        return false, txundo, after;
      }
    }
    assert HaveInputs(m, InputsOf(tx)) && DistinctInputs(InputsOf(tx));
    HaveInputsSuffices(m, InputsOf(tx));
    ApplyKeepsGood(m, tx, nHeight);
    after := after.(nValueOut := after.nValueOut + ValueOut(tx.vout));
    txundo := UpdateCoins(tx, view, nHeight);
    ok := true;
  }

  ghost function TotalsOf(m: Utxo, txs: seq<Placed>): Totals
    requires Connectable(m, txs)
  {
    Totals(BlockValueOut(txs), BlockValueIn(m, txs), BlockFees(m, txs))
  }

  ghost function AddTotals(a: Totals, b: Totals): Totals {
    Totals(a.nValueOut + b.nValueOut, a.nValueIn + b.nValueIn, a.nFees + b.nFees)
  }

  /** What is left of the loop in ConnectBlock, seen from the start of the block. */
  ghost predicate LoopAgrees(m: Utxo, txs: seq<Placed>, now: Utxo, rest: seq<Placed>,
                             undo: seq<seq<TxInUndo>>, totals: Totals, prm: Params, other: Transaction -> bool) {
    && (TxsAccepted(m, txs, prm, other) <==> TxsAccepted(now, rest, prm, other))
    && (Connectable(now, rest) ==>
          && Connectable(m, txs)
          && ApplyTxs(m, txs) == ApplyTxs(now, rest)
          && UndoRecords(m, txs) == undo + UndoRecords(now, rest)
          && TotalsOf(m, txs) == AddTotals(totals, TotalsOf(now, rest)))
  }

  lemma LoopAdvances(m: Utxo, txs: seq<Placed>, now: Utxo, rest: seq<Placed>,
                     undo: seq<seq<TxInUndo>>, totals: Totals, prm: Params, other: Transaction -> bool)
    requires rest != [] && LoopAgrees(m, txs, now, rest, undo, totals, prm, other)
    requires TxAccepted(now, rest[0], prm, other) && TxConnectable(now, rest[0].tx, rest[0].nHeight)
    ensures var tx := rest[0].tx;
            LoopAgrees(m, txs, ApplyTx(now, tx, rest[0].nHeight), rest[1..], undo + [UndoOfAll(now, InputsOf(tx))],
                       AddTotals(totals, Totals(ValueOut(tx.vout), TxValueIn(now, tx), TxFee(now, tx))), prm, other)
  {
    hide ApplyTx, SpendAll, CanSpendAll, UndoOfAll, TxValueIn, TxFee, TxAccepted, ValueOut;
    var tx := rest[0].tx;
    var now1 := ApplyTx(now, tx, rest[0].nHeight);
    if Connectable(now1, rest[1..]) {
      var u := UndoOfAll(now, InputsOf(tx));
      assert undo + ([u] + UndoRecords(now1, rest[1..])) == undo + [u] + UndoRecords(now1, rest[1..]);
    }
  }

  /** The transaction loop of ConnectBlock. */
  method ConnectTxs(vtx: seq<Transaction>, view: CoinsViewCache, nHeight: int, prm: Params, other: Transaction -> bool)
    returns (ok: bool, vtxundo: seq<seq<TxInUndo>>, totals: Totals)
    requires view.Valid() && GoodUtxo(Sees(view))
    requires CheckedTxs(PlaceAll(vtx, nHeight)) && NoOverwrite(Sees(view), PlaceAll(vtx, nHeight))
    modifies view.Repr
    ensures view.Valid() && Behind(view) == old(Behind(view))
    ensures ok == old(TxsAccepted(Sees(view), PlaceAll(vtx, nHeight), prm, other))
    ensures ok ==> old(Connectable(Sees(view), PlaceAll(vtx, nHeight)))
    ensures ok ==> Sees(view) == old(ApplyTxs(Sees(view), PlaceAll(vtx, nHeight)))
    ensures ok ==> vtxundo == old(UndoRecords(Sees(view), PlaceAll(vtx, nHeight)))
    ensures ok ==> totals == old(TotalsOf(Sees(view), PlaceAll(vtx, nHeight)))
  {
    hide GoodUtxo, Visible, CoinsView.Valid, CoinsView.Abs, ApplyTx, SpendAll, CanSpendAll, UndoOfAll, ApplyTxs,
         UndoRecords, Connectable, TxAccepted, TxsAccepted, TxConnectable, LoopAgrees, TotalsOf, NoOverwrite;
    ghost var m, txs := Sees(view), PlaceAll(vtx, nHeight);
    vtxundo, totals := [], Totals(0, 0, 0);
    LoopStarts(m, txs, prm, other);
    for i := 0 to |vtx|
      invariant view.Valid() && Behind(view) == old(Behind(view)) && GoodUtxo(Sees(view))
      invariant NoOverwrite(Sees(view), txs[i..])
      invariant LoopAgrees(m, txs, Sees(view), txs[i..], vtxundo, totals, prm, other)
    {
      ghost var now, rest := Sees(view), txs[i..];
      assert rest[0] == Placed(vtx[i], nHeight) && rest[1..] == txs[i + 1..];
      assert CheckedTx(txs[i].tx);
      NoOverwriteStep(now, rest);
      var accepted, txundo, after := ConnectTx(vtx[i], view, nHeight, prm, other, totals);
      if !accepted {
        LoopRejects(m, txs, now, rest, vtxundo, totals, prm, other);
        return false, vtxundo, totals;
      }
      LoopAdvances(m, txs, now, rest, vtxundo, totals, prm, other);
      vtxundo, totals := vtxundo + [txundo], after;
    }
    assert txs[|vtx|..] == [];
    LoopEnds(m, txs, Sees(view), vtxundo, totals, prm, other);
    ok := true;
  }

  lemma NoOverwriteStep(now: Utxo, rest: seq<Placed>)
    requires rest != [] && NoOverwrite(now, rest)
    ensures CanSpendAll(now, InputsOf(rest[0].tx)) ==>
              rest[0].tx.hash !in SpendAll(now, InputsOf(rest[0].tx))
    ensures TxConnectable(now, rest[0].tx, rest[0].nHeight) ==>
              NoOverwrite(ApplyTx(now, rest[0].tx, rest[0].nHeight), rest[1..])
  {
  }

  lemma LoopStarts(m: Utxo, txs: seq<Placed>, prm: Params, other: Transaction -> bool)
    ensures LoopAgrees(m, txs, m, txs[0..], [], Totals(0, 0, 0), prm, other)
  {
    assert txs[0..] == txs;
    if Connectable(m, txs) { assert [] + UndoRecords(m, txs) == UndoRecords(m, txs); }
  }

  lemma LoopRejects(m: Utxo, txs: seq<Placed>, now: Utxo, rest: seq<Placed>,
                    undo: seq<seq<TxInUndo>>, totals: Totals, prm: Params, other: Transaction -> bool)
    requires rest != [] && LoopAgrees(m, txs, now, rest, undo, totals, prm, other)
    requires !TxAccepted(now, rest[0], prm, other)
    ensures !TxsAccepted(m, txs, prm, other)
  {
  }

  lemma LoopEnds(m: Utxo, txs: seq<Placed>, now: Utxo, undo: seq<seq<TxInUndo>>, totals: Totals,
                 prm: Params, other: Transaction -> bool)
    requires LoopAgrees(m, txs, now, [], undo, totals, prm, other)
    ensures TxsAccepted(m, txs, prm, other) && Connectable(m, txs)
    ensures now == ApplyTxs(m, txs) && undo == UndoRecords(m, txs) && totals == TotalsOf(m, txs)
  {
    assert undo + [] == undo;
  }

  // ---- the whole of ConnectBlock ----

  /** What IsBlockValueValid reads besides the two amounts. */
  datatype BudgetState = BudgetState(fTip: bool, nHeight: nat, fSynced: bool, fSuperblocks: bool, fPaymentBlock: bool,
                                     nCycle: nat)

  predicate IsBlockValueValid(nExpectedValue: int, nMinted: int, budget: BudgetState)
    requires budget.nCycle > 0
  {
    if !budget.fTip then true
    else if !budget.fSynced then
      if budget.nHeight % budget.nCycle < 100 then true else nMinted <= nExpectedValue
    else if !budget.fSuperblocks then nMinted <= nExpectedValue
    else if budget.fPaymentBlock then true
    else nMinted <= nExpectedValue
  }

  /**
   * More than expected is refused only with a tip: on a synced node unless a superblock may be paid,
   * and on one that is not from the hundredth block of a payment cycle on.
   */
  lemma LimitIs(nExpectedValue: int, nMinted: int, budget: BudgetState)
    requires budget.nCycle > 0
    ensures !IsBlockValueValid(nExpectedValue, nMinted, budget) <==>
              && nMinted > nExpectedValue && budget.fTip
              && if budget.fSynced then !(budget.fSuperblocks && budget.fPaymentBlock)
                 else budget.nHeight % budget.nCycle >= 100
  {
  }

  /** The limit bites on a synced node while superblocks are switched off. */
  predicate Enforced(budget: BudgetState) {
    budget.fTip && budget.fSynced && !budget.fSuperblocks
  }

  /** The block map entry ConnectBlock fills in, and the undo data it would write. */
  datatype Connected = Connected(vtxundo: seq<seq<TxInUndo>>, nMoneySupply: int, nMint: int)

  /**
   * The block is of the kind its height asks for, each transaction is accepted in turn, and it mints
   * no more than allowed.
   */
  ghost predicate BlockAccepted(m: Utxo, vtx: seq<Transaction>, nHeight: int, rules: Rules, other: Transaction -> bool,
                                budget: BudgetState)
    requires budget.nCycle > 0
  {
    var txs := PlaceAll(vtx, nHeight);
    && InPeriod(txs, nHeight, rules.nLastPow)
    && TxsAccepted(m, txs, rules.prm, other)
    && (Connectable(m, txs) ==>
          var fees := BlockFees(m, txs);
          IsBlockValueValid(GetBlockValue(nHeight - 1, rules.main) + (if IsProofOfStake(txs) then 0 else fees),
                            BlockValueOut(txs) - BlockValueIn(m, txs) + fees, budget))
  }

  // ---- undoing one transaction ----

  /** The entry a modifier hands out for a missing transaction is pruned; nothing else about it matters. */
  lemma PrunedLooksEmpty(now: Coins, tx: Transaction, nHeight: int, n: nat, undo: TxInUndo)
    requires now.IsPruned()
    ensures OutputsMatch(now, tx, nHeight) == OutputsMatch(EmptyCoins, tx, nHeight)
    ensures RestoreClean(now, n, undo) == RestoreClean(EmptyCoins, n, undo)
    ensures RestoreClean(now, n, undo) ==> RestoredCoins(now, n, undo) == RestoredCoins(EmptyCoins, n, undo)
  {
    var nulled := now.(vout := NullUnspendable(now.vout));
    assert nulled.IsPruned();
    CleanedFacts(nulled);
    var none := EmptyCoins.(vout := NullUnspendable(EmptyCoins.vout));
    assert none.vout == [];
    CleanedFacts(none);
  }

  // ---- what disconnecting does to a stack of caches, clean or not ----

  function RestoreIn(v: View, out: OutPoint, undo: TxInUndo): (r: View)
    requires v.Cache?
    ensures r.Cache?
  {
    var b := BeginModify(v, out.hash);
    EndModify(b, out.hash, RestoredCoins(b.entries[out.hash].coins, out.n, undo))
  }

  function RestoreAllIn(v: View, vin: seq<TxIn>, undo: seq<TxInUndo>): (r: View)
    requires v.Cache? && |vin| == |undo|
    ensures r.Cache?
  {
    if vin == [] then v else RestoreIn(RestoreAllIn(v, vin[1..], undo[1..]), vin[0].prevout, undo[0])
  }

  function RemovedIn(v: View, txid: Hash): (r: View)
    requires v.Cache?
    ensures r.Cache?
  {
    Modify(v, txid, EmptyCoins)
  }

  function UndoTxIn(v: View, tx: Transaction, undo: seq<TxInUndo>): (r: View)
    requires v.Cache? && |undo| == |InputsOf(tx)|
    ensures r.Cache?
  {
    RestoreAllIn(RemovedIn(v, tx.hash), InputsOf(tx), undo)
  }

  ghost function UndoTxsIn(v: View, txs: seq<Placed>, undo: seq<seq<TxInUndo>>): (r: View)
    requires v.Cache? && UndoFits(txs, undo)
    ensures r.Cache?
    decreases |txs|
  {
    if txs == [] then v else UndoTxIn(UndoTxsIn(v, txs[1..], undo[1..]), txs[0].tx, undo[0])
  }

  /** Checks and removes the outputs a transaction added. */
  method RemoveOutputs(tx: Transaction, view: CoinsViewCache, nHeight: int) returns (clean: bool)
    requires view.Valid()
    modifies view.Repr
    ensures view.Valid() && Behind(view) == old(Behind(view)) && view.Abs() == RemovedIn(old(view.Abs()), tx.hash)
    ensures clean == OutputsMatch(GetOrEmpty(old(Sees(view)), tx.hash), tx, nHeight)
    ensures Sees(view) == old(Sees(view)) - {tx.hash}
  {
    var coins := view.ModifyCoins(tx.hash);
    if tx.hash !in old(Sees(view)) {
      PrunedLooksEmpty(coins, tx, nHeight, 0, TxInUndo(NullTxOut, false, false, 0, 0));
    }
    clean := CompareOutputs(coins, tx, nHeight);
    hide OutputsMatch;
    view.EndModify(tx.hash, EmptyCoins);
  }

  method CompareOutputs(coins: Coins, tx: Transaction, nHeight: int) returns (clean: bool)
    ensures clean == OutputsMatch(coins, tx, nHeight)
  {
    var outs := ClearUnspendable(coins);
    var outsBlock := FromTx(tx, nHeight);
    if outsBlock.nVersion < 0 {
      outs := outs.(nVersion := outsBlock.nVersion);
    }
    clean := outs.Same(outsBlock);
  }

  /** The coins with one spent output put back. */
  method PutOutputBack(coins: Coins, n: nat, undo: TxInUndo) returns (clean: bool, target: Coins)
    ensures clean == RestoreClean(coins, n, undo)
    ensures target == RestoredCoins(coins, n, undo)
  {
    clean, target := true, coins;
    if undo.nHeight != 0 {
      if !coins.IsPruned() {
        clean := false;
      }
      target := Coins(undo.fCoinBase, false, [], undo.nHeight, undo.nVersion);
    } else if coins.IsPruned() {
      clean := false;
    }
    if target.IsAvailable(n) {
      clean := false;
    }
    if |target.vout| < n + 1 {
      target := target.(vout := target.vout + seq(n + 1 - |target.vout|, _ => NullTxOut));
    }
    target := target.(vout := target.vout[n := undo.txout]);
  }

  method RestoreOutput(view: CoinsViewCache, out: OutPoint, undo: TxInUndo) returns (clean: bool)
    requires view.Valid()
    modifies view.Repr
    ensures view.Valid() && Behind(view) == old(Behind(view)) && view.Abs() == RestoreIn(old(view.Abs()), out, undo)
    ensures clean == RestoreClean(GetOrEmpty(old(Sees(view)), out.hash), out.n, undo)
    ensures clean ==> Sees(view) == RestoreInput(old(Sees(view)), out, undo)
  {
    hide RestoreClean, RestoredCoins, Put;
    var coins := view.ModifyCoins(out.hash);
    if out.hash !in old(Sees(view)) {
      PrunedLooksEmpty(coins, Transaction(0, 0, [], []), 0, out.n, undo);
    }
    var target;
    clean, target := PutOutputBack(coins, out.n, undo);
    view.EndModify(out.hash, target);
  }

  lemma RestoreNone(m: Utxo, v: View)
    requires v.Cache?
    ensures RestoreAllClean(m, [], []) && RestoreAll(m, [], []) == m && RestoreAllIn(v, [], []) == v
  {
  }

  lemma RestoreOneMore(m: Utxo, v: View, vin: seq<TxIn>, undo: seq<TxInUndo>, j: nat)
    requires |vin| == |undo| && j < |vin| && v.Cache?
    ensures RestoreAllIn(v, vin[j..], undo[j..])
            == RestoreIn(RestoreAllIn(v, vin[j + 1..], undo[j + 1..]), vin[j].prevout, undo[j])
    ensures RestoreAll(m, vin[j..], undo[j..]) ==
            RestoreInput(RestoreAll(m, vin[j + 1..], undo[j + 1..]), vin[j].prevout, undo[j])
    ensures RestoreAllClean(m, vin[j..], undo[j..]) ==
            (&& RestoreAllClean(m, vin[j + 1..], undo[j + 1..])
             && RestoreClean(GetOrEmpty(RestoreAll(m, vin[j + 1..], undo[j + 1..]), vin[j].prevout.hash),
                             vin[j].prevout.n, undo[j]))
  {
    assert vin[j..][0] == vin[j] && vin[j..][1..] == vin[j + 1..];
    assert undo[j..][0] == undo[j] && undo[j..][1..] == undo[j + 1..];
  }

  /** The inputs of one transaction are put back, last to first. */
  method RestoreInputs(vin: seq<TxIn>, txundo: seq<TxInUndo>, view: CoinsViewCache) returns (clean: bool)
    requires view.Valid() && |txundo| == |vin|
    modifies view.Repr
    ensures view.Valid() && Behind(view) == old(Behind(view))
    ensures view.Abs() == RestoreAllIn(old(view.Abs()), vin, txundo)
    ensures clean == RestoreAllClean(old(Sees(view)), vin, txundo)
    ensures clean ==> Sees(view) == RestoreAll(old(Sees(view)), vin, txundo)
  {
    hide Visible, CoinsView.Valid, CoinsView.Abs, RestoreInput, RestoreClean, GetOrEmpty, RestoreAll, RestoreAllClean,
         RestoreIn, RestoreAllIn;
    ghost var m, v := Sees(view), view.Abs();
    clean := true;
    var j := |txundo|;
    assert vin[j..] == [] && txundo[j..] == [];
    RestoreNone(m, v);
    while j > 0
      invariant 0 <= j <= |txundo| && view.Valid() && Behind(view) == old(Behind(view))
      invariant view.Abs() == RestoreAllIn(v, vin[j..], txundo[j..])
      invariant clean == RestoreAllClean(m, vin[j..], txundo[j..])
      invariant clean ==> Sees(view) == RestoreAll(m, vin[j..], txundo[j..])
    {
      j := j - 1;
      RestoreOneMore(m, v, vin, txundo, j);
      var c := RestoreOutput(view, vin[j].prevout, txundo[j]);
      clean := clean && c;
    }
    assert vin[0..] == vin && txundo[0..] == txundo;
  }

  /** The outputs are removed before the undo data are looked at. */
  method UndoOne(tx: Transaction, txundo: seq<TxInUndo>, view: CoinsViewCache, nHeight: int)
    returns (fits: bool, clean: bool)
    requires view.Valid()
    modifies view.Repr
    ensures view.Valid() && Behind(view) == old(Behind(view)) && (fits <==> |txundo| == |InputsOf(tx)|)
    ensures view.Abs() == if fits then UndoTxIn(old(view.Abs()), tx, txundo) else RemovedIn(old(view.Abs()), tx.hash)
    ensures fits ==> clean == old(UndoTxClean(Sees(view), tx, txundo, nHeight))
    ensures fits && old(RestoreAllClean(Sees(view) - {tx.hash}, InputsOf(tx), txundo)) ==>
              Sees(view) == old(UndoTx(Sees(view), tx, txundo))
  {
    hide Visible, CoinsView.Valid, CoinsView.Abs, OutputsMatch, GetOrEmpty, RestoreAll, RestoreAllClean, RestoreAllIn,
         RemovedIn;
    clean := RemoveOutputs(tx, view, nHeight);
    fits := |txundo| == |InputsOf(tx)|;
    if fits {
      var restored := RestoreInputs(InputsOf(tx), txundo, view);
      clean := clean && restored;
    }
  }

  lemma BaseValid(view: CoinsViewCache)
    requires view.Valid() && view.base != null
    ensures view.base.Valid() && view.Abs().base == view.base.Abs()
  {
  }

  lemma SpentByNone(s: StakeSpent)
    ensures s - SpentBy([]) == s
  {
  }

  /** An empty cache shows what is behind it. */
  lemma SeesThrough(v: View)
    ensures Visible(Cache(v, map[])) == Visible(v)
  {
    assert Overlay(Visible(v), map[]) == Visible(v);
  }

  /** The undo data of transaction i do not fit: it has lost its outputs, and those above it are undone. */
  ghost predicate StoppedAt(v: View, s: StakeSpent, txs: seq<Placed>, undo: seq<seq<TxInUndo>>, i: nat, v': View,
                            s': StakeSpent)
    requires v.Cache? && |txs| == |undo|
  {
    && i < |txs| && |undo[i]| != |InputsOf(txs[i].tx)| && UndoFits(txs[i + 1..], undo[i + 1..])
    && v' == RemovedIn(UndoTxsIn(v, txs[i + 1..], undo[i + 1..]), txs[i].tx.hash)
    && s' == s - SpentBy(txs[i + 1..])
  }

  lemma EraseMore(s: StakeSpent, txs: seq<Placed>)
    requires txs != []
    ensures s - SpentBy(txs[1..]) - OutPointsOf(InputsOf(txs[0].tx)) == s - SpentBy(txs)
  {
  }

  lemma {:induction false} CleanIsRestorable(m: Utxo, txs: seq<Placed>, undo: seq<seq<TxInUndo>>)
    requires UndoFits(txs, undo)
    ensures UndoTxsClean(m, txs, undo) ==> UndoTxsRestorable(m, txs, undo)
    decreases |txs|
  {
    if txs != [] {
      CleanIsRestorable(m, txs[1..], undo[1..]);
    }
  }

  /** The state main.cpp shares between connecting and disconnecting. */
  class Chainstate {
    var mapStakeSpent: map<OutPoint, int>

    constructor ()
      ensures mapStakeSpent == map[]
    {
      mapStakeSpent := map[];
    }

    /** ConnectBlock for a block above genesis. On a rejection the view is left for the caller to discard. */
    method ConnectBlock(vtx: seq<Transaction>, view: CoinsViewCache, nHeight: int, nPrevMoneySupply: int,
                        rules: Rules, budget: BudgetState, other: Transaction -> bool)
      returns (ok: bool, result: Connected)
      requires view.Valid() && GoodUtxo(Sees(view)) && nHeight >= 1 && budget.nCycle > 0
      requires vtx != [] && vtx[0].IsCoinBase() && this !in view.Repr
      requires CheckedTxs(PlaceAll(vtx, nHeight)) && NoOverwrite(Sees(view), PlaceAll(vtx, nHeight))
      modifies this, view.Repr
      ensures view.Valid() && Behind(view) == old(Behind(view))
      ensures ok == old(BlockAccepted(Sees(view), vtx, nHeight, rules, other, budget))
      ensures !ok ==> mapStakeSpent == old(mapStakeSpent)
      ensures ok ==> old(Connectable(Sees(view), PlaceAll(vtx, nHeight)))
      ensures ok ==> Sees(view) == old(ApplyTxs(Sees(view), PlaceAll(vtx, nHeight)))
      ensures ok ==> [[]] + result.vtxundo == old(UndoRecords(Sees(view), PlaceAll(vtx, nHeight)))
      ensures ok ==> result.nMoneySupply ==
                     nPrevMoneySupply + BlockValueOut(PlaceAll(vtx, nHeight))
                     - old(BlockValueIn(Sees(view), PlaceAll(vtx, nHeight)))
      ensures ok ==> result.nMint ==
                     result.nMoneySupply - nPrevMoneySupply + old(BlockFees(Sees(view), PlaceAll(vtx, nHeight)))
      ensures ok && Enforced(budget) ==>
                old(MintAllowed(Sees(view), PlaceAll(vtx, nHeight), nHeight - 1, rules.main))
      ensures ok ==> mapStakeSpent ==
                     Pruned(Recorded(old(mapStakeSpent), SpentBy(PlaceAll(vtx, nHeight)), nHeight),
                            nHeight - rules.nMaxReorg)
    {
      hide GoodUtxo, Visible, CoinsView.Valid, CoinsView.Abs, ApplyTxs, UndoRecords, Connectable, TxsAccepted,
           NoOverwrite, GetBlockValue, Recorded, Pruned, SpentBy, BlockValueIn, BlockFees, BlockValueOut;
      ghost var m, txs := Sees(view), PlaceAll(vtx, nHeight);
      result := Connected([], 0, 0);
      var fProofOfStake := |vtx| > 1 && vtx[1].IsCoinStake();
      if nHeight <= rules.nLastPow && fProofOfStake {
        return false, result;
      }
      if nHeight > rules.nLastPow && !fProofOfStake {
        return false, result;
      }
      var vtxundo, totals;
      ok, vtxundo, totals := ConnectTxs(vtx, view, nHeight, rules.prm, other);
      if !ok {
        return;
      }
      CoinBaseUndo(m, txs);
      var nMoneySupply := nPrevMoneySupply + totals.nValueOut - totals.nValueIn;
      var nMint := nMoneySupply - nPrevMoneySupply + totals.nFees;
      result := Connected(vtxundo[1..], nMoneySupply, nMint);
      var nExpectedMint := GetBlockValue(nHeight - 1, rules.main);
      if !fProofOfStake {
        nExpectedMint := nExpectedMint + totals.nFees;
      }
      if !IsBlockValueValid(nExpectedMint, nMint, budget) {
        return false, result;
      }
      RecordInputs(vtx, nHeight);
      PruneBelow(nHeight - rules.nMaxReorg);
    }

    /**
     * DisconnectBlock. ok is false when the undo data does not fit the block; otherwise fClean is
     * false when a complaint was logged. Undo records that find their place restore the coins even
     * then; in any case the caches are left as stated, and the inputs handled are erased.
     */
    method DisconnectBlock(vtx: seq<Transaction>, vtxundo: seq<seq<TxInUndo>>, view: CoinsViewCache, nHeight: int)
      returns (ok: bool, fClean: bool)
      requires view.Valid() && this !in view.Repr
      requires vtx != [] && vtx[0].IsCoinBase()
      requires forall i :: 1 <= i < |vtx| ==> !vtx[i].IsCoinBase()
      modifies this, view.Repr
      ensures view.Valid() && Behind(view) == old(Behind(view))
      ensures ok == UndoFits(PlaceAll(vtx, nHeight), [[]] + vtxundo)
      ensures ok ==> fClean == old(UndoTxsClean(Sees(view), PlaceAll(vtx, nHeight), [[]] + vtxundo))
      ensures ok && old(UndoTxsRestorable(Sees(view), PlaceAll(vtx, nHeight), [[]] + vtxundo)) ==>
                Sees(view) == old(UndoTxs(Sees(view), PlaceAll(vtx, nHeight), [[]] + vtxundo))
      ensures ok ==> view.Abs() == UndoTxsIn(old(view.Abs()), PlaceAll(vtx, nHeight), [[]] + vtxundo)
      ensures ok ==> mapStakeSpent == old(mapStakeSpent) - SpentBy(PlaceAll(vtx, nHeight))
      ensures !ok && |vtxundo| + 1 != |vtx| ==> view.Abs() == old(view.Abs()) && mapStakeSpent == old(mapStakeSpent)
      ensures !ok && |vtxundo| + 1 == |vtx| ==>
                exists i :: 0 <= i < |vtx| &&
                  StoppedAt(old(view.Abs()), old(mapStakeSpent), PlaceAll(vtx, nHeight), [[]] + vtxundo, i, view.Abs(),
                            mapStakeSpent)
    {
      hide Visible, CoinsView.Valid, CoinsView.Abs, UndoTx, UndoTxClean, RestoreAllClean, OutPointsOf, LayerAgrees,
           UndoTxIn, RemovedIn, SpentBy;
      ghost var m, v, txs, undo := Sees(view), view.Abs(), PlaceAll(vtx, nHeight), [[]] + vtxundo;
      ok, fClean := true, true;
      if |vtxundo| + 1 != |vtx| {
        return false, false;
      }
      var i := |vtx|;
      assert txs[i..] == [] && undo[i..] == [];
      SpentByNone(mapStakeSpent);
      while i > 0
        invariant 0 <= i <= |vtx| && view.Valid() && Behind(view) == old(Behind(view))
        invariant forall j :: i <= j < |vtx| ==> |undo[j]| == |InputsOf(txs[j].tx)|
        invariant UndoFits(txs[i..], undo[i..])
        invariant fClean == UndoTxsClean(m, txs[i..], undo[i..])
        invariant UndoTxsRestorable(m, txs[i..], undo[i..]) ==> Sees(view) == UndoTxs(m, txs[i..], undo[i..])
        invariant view.Abs() == UndoTxsIn(v, txs[i..], undo[i..])
        invariant mapStakeSpent == old(mapStakeSpent) - SpentBy(txs[i..])
      {
        i := i - 1;
        assert txs[i..][0] == txs[i] && txs[i..][1..] == txs[i + 1..];
        assert undo[i..][0] == undo[i] && undo[i..][1..] == undo[i + 1..];
        var txundo := if i == 0 then [] else vtxundo[i - 1];
        assert txundo == undo[i];
        CleanIsRestorable(m, txs[i + 1..], undo[i + 1..]);
        var fits, clean := UndoOne(vtx[i], txundo, view, nHeight);
        if !fits {
          assert |undo[i]| != |InputsOf(txs[i].tx)|;
          assert StoppedAt(v, old(mapStakeSpent), txs, undo, i, view.Abs(), mapStakeSpent);
          return false, false;
        }
        fClean := fClean && clean;
        EraseInputs(vtx[i]);
        EraseMore(old(mapStakeSpent), txs[i..]);
      }
      assert txs[0..] == txs && undo[0..] == undo;
    }

    /**
     * DisconnectTip: the block is disconnected in a view of its own, which is flushed only after a
     * clean report. The inputs are erased from mapStakeSpent either way.
     */
    method DisconnectTip(vtx: seq<Transaction>, vtxundo: seq<seq<TxInUndo>>, coinsTip: CoinsViewCache, nHeight: int)
      returns (ok: bool)
      requires coinsTip.Valid() && this !in coinsTip.Repr
      requires vtx != [] && vtx[0].IsCoinBase()
      requires forall i :: 1 <= i < |vtx| ==> !vtx[i].IsCoinBase()
      modifies this, coinsTip.Repr
      ensures coinsTip.Valid() && Behind(coinsTip) == old(Behind(coinsTip))
      ensures var txs, undo := PlaceAll(vtx, nHeight), [[]] + vtxundo;
              && (ok <==> UndoFits(txs, undo) && UndoTxsClean(old(Sees(coinsTip)), txs, undo))
              && Sees(coinsTip) == (if ok then UndoTxs(old(Sees(coinsTip)), txs, undo) else old(Sees(coinsTip)))
              && (UndoFits(txs, undo) ==> mapStakeSpent == old(mapStakeSpent) - SpentBy(txs))
    {
      hide Visible, CoinsView.Valid, CoinsView.Flush, BatchWrite, LayerAgrees, UndoTxs, UndoTxsClean,
           UndoTxsRestorable, UndoTxsIn, SpentBy, UndoFits;
      ghost var txs, undo := PlaceAll(vtx, nHeight), [[]] + vtxundo;
      var view := new CoinsViewCache.OnCache(coinsTip);
      SeesThrough(coinsTip.Abs());
      var clean;
      ok, clean := DisconnectBlock(vtx, vtxundo, view, nHeight);
      if ok { CleanIsRestorable(old(Sees(coinsTip)), txs, undo); }
      ok := ok && clean;
      BaseValid(view);
      assert Behind(view) == old(CoinsView.Abs(coinsTip.Abs()));
      if ok {
        FlushRefines(view.Abs());
        view.Flush();
      }
    }

    method EraseInputs(tx: Transaction)
      modifies this
      ensures mapStakeSpent == old(mapStakeSpent) - OutPointsOf(InputsOf(tx))
    {
      if tx.IsCoinBase() {
        return;
      }
      var j := |tx.vin|;
      while j > 0
        invariant 0 <= j <= |tx.vin|
        invariant mapStakeSpent == old(mapStakeSpent) - OutPointsOf(tx.vin[j..])
      {
        j := j - 1;
        OutPointsSplit(tx.vin[j..]);
        assert tx.vin[j..][1..] == tx.vin[j + 1..];
        mapStakeSpent := mapStakeSpent - {tx.vin[j].prevout};
      }
      assert tx.vin[0..] == tx.vin;
    }

    /** Every input of the block is inserted; an entry already there stays. */
    method RecordInputs(vtx: seq<Transaction>, nHeight: int)
      modifies this
      ensures mapStakeSpent == Recorded(old(mapStakeSpent), SpentBy(PlaceAll(vtx, nHeight)), nHeight)
    {
      ghost var txs := PlaceAll(vtx, nHeight);
      for i := 0 to |vtx|
        invariant Recorded(mapStakeSpent, SpentBy(txs[i..]), nHeight)
                  == Recorded(old(mapStakeSpent), SpentBy(txs), nHeight)
      {
        assert txs[i..][0].tx == vtx[i] && txs[i..][1..] == txs[i + 1..];
        ghost var s := mapStakeSpent;
        if !vtx[i].IsCoinBase() {
          RecordTx(vtx[i].vin, nHeight);
        }
        assert mapStakeSpent == Recorded(s, OutPointsOf(InputsOf(vtx[i])), nHeight);
        assert Recorded(mapStakeSpent, SpentBy(txs[i + 1..]), nHeight) == Recorded(s, SpentBy(txs[i..]), nHeight);
      }
      assert txs[|vtx|..] == [];
    }

    method RecordTx(vin: seq<TxIn>, nHeight: int)
      modifies this
      ensures mapStakeSpent == Recorded(old(mapStakeSpent), OutPointsOf(vin), nHeight)
    {
      for j := 0 to |vin|
        invariant mapStakeSpent == Recorded(old(mapStakeSpent), OutPointsOf(vin[..j]), nHeight)
      {
        assert OutPointsOf(vin[..j + 1]) == OutPointsOf(vin[..j]) + {vin[j].prevout} by { OutPointsPrefix(vin, j); }
        if vin[j].prevout !in mapStakeSpent {
          mapStakeSpent := mapStakeSpent[vin[j].prevout := nHeight];
        }
      }
      assert vin[..|vin|] == vin;
    }

    method PruneBelow(cutoff: int)
      modifies this
      ensures mapStakeSpent == Pruned(old(mapStakeSpent), cutoff)
    {
      var todo := mapStakeSpent.Keys;
      while todo != {}
        invariant todo <= old(mapStakeSpent).Keys
        invariant forall o :: o in mapStakeSpent <==>
                              o in old(mapStakeSpent) && (o in todo || old(mapStakeSpent)[o] >= cutoff)
        invariant forall o :: o in mapStakeSpent ==> mapStakeSpent[o] == old(mapStakeSpent)[o]
        decreases todo
      {
        var o :| o in todo;
        if mapStakeSpent[o] < cutoff {
          mapStakeSpent := mapStakeSpent - {o};
        }
        todo := todo - {o};
      }
    }
  }

  lemma OutPointsPrefix(vin: seq<TxIn>, j: nat)
    requires j < |vin|
    ensures OutPointsOf(vin[..j + 1]) == OutPointsOf(vin[..j]) + {vin[j].prevout}
  {
    forall o | o in OutPointsOf(vin[..j]) + {vin[j].prevout}
      ensures o in OutPointsOf(vin[..j + 1])
    {
      if o in OutPointsOf(vin[..j]) {
        var i :| 0 <= i < j && vin[..j][i].prevout == o;
        assert vin[..j + 1][i].prevout == o;
      } else {
        assert vin[..j + 1][j].prevout == o;
      }
    }
  }

  /** The coinbase leaves no undo record behind. */
  lemma CoinBaseUndo(m: Utxo, txs: seq<Placed>)
    requires txs != [] && txs[0].tx.IsCoinBase() && Connectable(m, txs)
    ensures UndoRecords(m, txs) == [[]] + UndoRecords(m, txs)[1..]
  {
  }
}
