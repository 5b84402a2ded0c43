/** What a clean report of DisconnectBlock means: connecting the block again gives the coins back. */
module UndoInverse {
  import opened Transactions
  import opened Coins
  import opened CoinsView
  import opened BlockUndo
  import opened BlockRules

  /** Neither a zerocoin mint, which counts as not available, nor an output that can never be spent. */
  predicate IsOrdinary(out: TxOut) {
    !out.IsZerocoinMint() && !out.IsUnspendable()
  }

  ghost predicate Ordinary(m: Utxo) {
    forall t, n :: t in m && 0 <= n < |m[t].vout| ==> IsOrdinary(m[t].vout[n])
  }

  predicate OrdinaryUndo(undo: seq<TxInUndo>) {
    forall i :: 0 <= i < |undo| ==> !undo[i].txout.IsNull() && IsOrdinary(undo[i].txout)
  }

  lemma {:induction false} TrimPadded(v: seq<TxOut>, w: seq<TxOut>)
    requires v <= w && v != [] && !v[|v| - 1].IsNull() && AllNull(w[|v|..])
    ensures Trim(w) == v
    decreases |w|
  {
    if |w| == |v| {
      assert w == v;
    } else {
      assert w[|w| - 1] == w[|v|..][|w| - 1 - |v|];
      assert w[..|w| - 1][|v|..] == w[|v|..][..|w| - 1 - |v|];
      TrimPadded(v, w[..|w| - 1]);
    }
  }

  lemma RestoredIs(c: Coins, n: nat, undo: TxInUndo)
    requires c.WellFormed() && RestoreClean(c, n, undo) && !undo.txout.IsNull()
    requires forall k :: 0 <= k < |c.vout| ==> IsOrdinary(c.vout[k])
    ensures var r := RestoredCoins(c, n, undo);
            && r.WellFormed() && r.Spendable(n) && r.vout[n] == undo.txout && (!c.IsPruned() ==> r.nHeight == c.nHeight)
            && (IsOrdinary(undo.txout) ==> forall k :: 0 <= k < |r.vout| ==> IsOrdinary(r.vout[k]))
  {
  }

  lemma SpentAgain(c: Coins, n: nat, undo: TxInUndo)
    requires c.WellFormed() && RestoreClean(c, n, undo) && !undo.txout.IsNull()
    requires forall k :: 0 <= k < |c.vout| ==> IsOrdinary(c.vout[k])
    ensures var r := RestoredCoins(c, n, undo);
            && r.Spendable(n) && (c.IsPruned() ==> r.AfterSpend(n).vout == [])
            && (!c.IsPruned() ==> r.AfterSpend(n) == c)
  {
    var r := RestoredCoins(c, n, undo);
    var spent := r.(vout := r.vout[n := NullTxOut]);
    if c.IsPruned() {
      CleanedFacts(c);
      assert spent.IsPruned();
      CleanedFacts(spent);
    } else {
      assert c.vout != [] && !c.vout[|c.vout| - 1].IsNull();
      if n < |c.vout| {
        assert c.vout[n] == NullTxOut;
        assert spent.vout == c.vout;
      }
      TrimPadded(c.vout, spent.vout);
    }
  }

  /** One input: restored without complaint, it can be spent again, and then nothing has changed. */
  lemma RestoreThenSpend(m: Utxo, out: OutPoint, undo: TxInUndo)
    requires GoodUtxo(m) && Ordinary(m) && !undo.txout.IsNull() && IsOrdinary(undo.txout)
    requires RestoreClean(GetOrEmpty(m, out.hash), out.n, undo)
    ensures GoodUtxo(RestoreInput(m, out, undo)) && Ordinary(RestoreInput(m, out, undo))
    ensures CanSpend(RestoreInput(m, out, undo), out) && SpendInput(RestoreInput(m, out, undo), out) == m
  {
    hide RestoredCoins, RestoreClean, Coins.AfterSpend;
    var c := GetOrEmpty(m, out.hash);
    var r := RestoredCoins(c, out.n, undo);
    GoodEntry(m, out.hash);
    RestoredIs(c, out.n, undo);
    SpentAgain(c, out.n, undo);
    RestoredHeight(c, out.n, undo);
    CleanedFacts(r);
    EntryReplaced(m, out, c, r);
  }

  lemma GoodEntry(m: Utxo, t: Hash)
    requires GoodUtxo(m) && Ordinary(m)
    ensures var c := GetOrEmpty(m, t);
            && c.WellFormed() && (t in m <==> !c.IsPruned()) && (t in m ==> c.nHeight != 0)
            && c.Cleaned() == c && forall k :: 0 <= k < |c.vout| ==> IsOrdinary(c.vout[k])
  {
    CleanedFacts(GetOrEmpty(m, t));
  }

  lemma EntryReplaced(m: Utxo, out: OutPoint, c: Coins, r: Coins)
    requires GoodUtxo(m) && Ordinary(m) && c == GetOrEmpty(m, out.hash) && c.Cleaned() == c
    requires out.hash in m <==> !c.IsPruned()
    requires r.WellFormed() && r.Spendable(out.n) && r.nHeight != 0 && r.Cleaned() == r
    requires forall k :: 0 <= k < |r.vout| ==> IsOrdinary(r.vout[k])
    requires (c.IsPruned() ==> r.AfterSpend(out.n).vout == []) && (!c.IsPruned() ==> r.AfterSpend(out.n) == c)
    ensures var m' := CoinsView.Put(m, out.hash, r);
            && GoodUtxo(m') && Ordinary(m') && CanSpend(m', out) && SpendInput(m', out) == m
  {
    hide Coins.AfterSpend;
    var m' := CoinsView.Put(m, out.hash, r);
    assert m' == m[out.hash := r];
  }

  lemma RestoredHeight(c: Coins, n: nat, undo: TxInUndo)
    requires RestoreClean(c, n, undo) && (!c.IsPruned() ==> c.nHeight != 0)
    ensures RestoredCoins(c, n, undo).nHeight != 0
  {
  }

  lemma {:induction false} RestoreThenSpendAll(m: Utxo, vin: seq<TxIn>, undo: seq<TxInUndo>)
    requires GoodUtxo(m) && Ordinary(m) && |vin| == |undo| && OrdinaryUndo(undo)
    requires RestoreAllClean(m, vin, undo)
    ensures GoodUtxo(RestoreAll(m, vin, undo)) && Ordinary(RestoreAll(m, vin, undo))
    ensures CanSpendAll(RestoreAll(m, vin, undo), vin) && SpendAll(RestoreAll(m, vin, undo), vin) == m
    decreases |vin|
  {
    hide GoodUtxo, Ordinary, RestoreInput, RestoreClean, SpendInput, CanSpend, GetOrEmpty;
    if vin != [] {
      RestoreThenSpendAll(m, vin[1..], undo[1..]);
      RestoreThenSpend(RestoreAll(m, vin[1..], undo[1..]), vin[0].prevout, undo[0]);
    }
  }

  lemma MatchingEntry(m: Utxo, tx: Transaction, nHeight: int)
    requires GoodUtxo(m) && Ordinary(m) && OutputsMatch(GetOrEmpty(m, tx.hash), tx, nHeight) && tx.nVersion >= 0
    ensures CoinsView.Put(m - {tx.hash}, tx.hash, FromTx(tx, nHeight)) == m
  {
    hide FromTx, OutputsMatch, GoodUtxo, Ordinary;
    var c := GetOrEmpty(m, tx.hash);
    GoodEntry(m, tx.hash);
    EntryIsClean(tx, nHeight);
    MatchIsSame(c, tx, nHeight);
    if tx.hash in m { assert m - {tx.hash} == m - {tx.hash} && (m - {tx.hash})[tx.hash := c] == m; }
  }

  lemma MatchIsSame(c: Coins, tx: Transaction, nHeight: int)
    requires c.Cleaned() == c && (forall k :: 0 <= k < |c.vout| ==> IsOrdinary(c.vout[k]))
    requires OutputsMatch(c, tx, nHeight) && tx.nVersion >= 0
    ensures c == FromTx(tx, nHeight) || (c.IsPruned() && FromTx(tx, nHeight).IsPruned())
  {
    assert NullUnspendable(c.vout) == c.vout;
  }

  lemma EntryIsClean(tx: Transaction, nHeight: int)
    ensures FromTx(tx, nHeight).Cleaned() == FromTx(tx, nHeight) && FromTx(tx, nHeight).nVersion == tx.nVersion
  {
    var nulled := Coins(tx.IsCoinBase(), tx.IsCoinStake(), NullUnspendable(tx.vout), nHeight, tx.nVersion);
    var v := Trim(nulled.vout);
    if v != [] { TrimPadded(v, v); }
  }

  /** With a zerocoin mint in place the report is clean although an output is overwritten. */
  lemma MintIsOverwritten(c: Coins, n: nat, undo: TxInUndo)
    requires n < |c.vout| && c.vout[n].IsZerocoinMint() && !c.vout[n].IsNull() && undo.nHeight == 0
    ensures RestoreClean(c, n, undo) && RestoredCoins(c, n, undo).vout == c.vout[n := undo.txout]
  {
    assert !c.IsPruned();
  }

  /** Removing the entry a transaction made and putting its inputs back, without complaint, is undone by applying it. */
  lemma UndoThenApply(m: Utxo, p: Placed, undo: seq<TxInUndo>)
    requires GoodUtxo(m) && Ordinary(m) && |undo| == |InputsOf(p.tx)| && OrdinaryUndo(undo)
    requires CheckedTx(p.tx) && p.tx.nVersion >= 0 && p.nHeight != 0
    requires UndoTxClean(m, p.tx, undo, p.nHeight)
    ensures var r := UndoTx(m, p.tx, undo);
            && GoodUtxo(r) && Ordinary(r) && TxConnectable(r, p.tx, p.nHeight) && ApplyTx(r, p.tx, p.nHeight) == m
  {
    hide RestoreAll, RestoreAllClean, CanSpendAll, SpendAll, OutputsMatch, FromTx, InputsOf;
    RestoreThenSpendAll(m - {p.tx.hash}, InputsOf(p.tx), undo);
    MatchingEntry(m, p.tx, p.nHeight);
  }

  /**
   * A clean report means what it should: if DisconnectBlock has nothing to complain about, the block
   * can be connected to the coins it leaves, and connecting it gives back the coins it was given.
   */
  lemma {:induction false} UndoThenConnect(m: Utxo, txs: seq<Placed>, undo: seq<seq<TxInUndo>>)
    requires GoodUtxo(m) && Ordinary(m) && UndoFits(txs, undo) && CheckedTxs(txs)
    requires forall i :: 0 <= i < |txs| ==> OrdinaryUndo(undo[i]) && txs[i].tx.nVersion >= 0
    requires UndoTxsClean(m, txs, undo)
    ensures var r := UndoTxs(m, txs, undo);
            GoodUtxo(r) && Ordinary(r) && Connectable(r, txs) && ApplyTxs(r, txs) == m
    decreases |txs|
  {
    hide GoodUtxo, Ordinary, UndoTx, UndoTxClean, ApplyTx, TxConnectable, CheckedTx, OrdinaryUndo;
    if txs != [] {
      UndoThenConnect(m, txs[1..], undo[1..]);
      UndoThenApply(UndoTxs(m, txs[1..], undo[1..]), txs[0], undo[0]);
    }
  }
}
