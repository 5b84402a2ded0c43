/** What ConnectBlock asks of a block's transactions, and the money they move. */
module BlockRules {
  import opened Transactions
  import opened Coins
  import opened BlockUndo

  datatype Params = Params(nMaturity: nat, nMaxMoneyOut: nat)

  // ---- what CheckTransaction has already established ----

  predicate DistinctInputs(vin: seq<TxIn>) {
    forall i, j :: 0 <= i < j < |vin| ==> vin[i].prevout != vin[j].prevout
  }

  predicate CheckedTx(tx: Transaction) {
    && tx.vin != [] && tx.vout != []
    && (forall i :: 0 <= i < |tx.vout| ==> tx.vout[i].nValue >= 0)
    && DistinctInputs(tx.vin)
    && (tx.IsCoinBase() || forall i :: 0 <= i < |tx.vin| ==> !tx.vin[i].prevout.IsNull())
  }

  // ---- inputs ----

  predicate HasOutput(m: Utxo, out: OutPoint) {
    out.hash in m && m[out.hash].IsAvailable(out.n)
  }

  predicate HaveInputs(m: Utxo, vin: seq<TxIn>) {
    forall i :: 0 <= i < |vin| ==> HasOutput(m, vin[i].prevout)
  }

  function ValueIn(m: Utxo, vin: seq<TxIn>): int
    requires HaveInputs(m, vin)
  {
    if vin == [] then 0
    else m[vin[0].prevout.hash].vout[vin[0].prevout.n].nValue + ValueIn(m, vin[1..])
  }

  function ValueOut(vout: seq<TxOut>): int {
    if vout == [] then 0 else vout[0].nValue + ValueOut(vout[1..])
  }

  predicate MoneyRange(nValue: int, prm: Params) {
    0 <= nValue <= prm.nMaxMoneyOut
  }

  /** The input may be spent at this height: coinbases and coinstakes must have matured. */
  predicate InputAccepted(m: Utxo, out: OutPoint, nSpendHeight: int, prm: Params)
    requires HasOutput(m, out)
  {
    var c := m[out.hash];
    (c.fCoinBase || c.fCoinStake ==> nSpendHeight - c.nHeight >= prm.nMaturity) && MoneyRange(c.vout[out.n].nValue, prm)
  }

  predicate InputsAccepted(m: Utxo, tx: Transaction, nSpendHeight: int, prm: Params)
    requires HaveInputs(m, tx.vin)
  {
    && (forall i :: 0 <= i < |tx.vin| ==> InputAccepted(m, tx.vin[i].prevout, nSpendHeight, prm))
    && MoneyRange(ValueIn(m, tx.vin), prm)
    && (tx.IsCoinStake() || ValueIn(m, tx.vin) >= ValueOut(tx.vout))
  }

  /** `other` stands for the script, sigop and blacklist checks. */
  predicate TxAccepted(m: Utxo, p: Placed, prm: Params, other: Transaction -> bool) {
    p.tx.IsCoinBase() ||
    (HaveInputs(m, p.tx.vin) && InputsAccepted(m, p.tx, p.nHeight, prm) && other(p.tx))
  }

  ghost predicate TxsAccepted(m: Utxo, txs: seq<Placed>, prm: Params, other: Transaction -> bool)
    decreases |txs|
  {
    txs == [] ||
    (&& TxAccepted(m, txs[0], prm, other)
     && CanSpendAll(m, InputsOf(txs[0].tx))
     && TxsAccepted(ApplyTx(m, txs[0].tx, txs[0].nHeight), txs[1..], prm, other))
  }

  /** BIP 30, which the code leaves to the chain's history: no transaction overwrites a live entry. */
  ghost predicate NoOverwrite(m: Utxo, txs: seq<Placed>)
    decreases |txs|
  {
    txs == [] ||
    (CanSpendAll(m, InputsOf(txs[0].tx)) ==>
       && txs[0].tx.hash !in SpendAll(m, InputsOf(txs[0].tx))
       && NoOverwrite(ApplyTx(m, txs[0].tx, txs[0].nHeight), txs[1..]))
  }

  ghost predicate CheckedTxs(txs: seq<Placed>) {
    forall i :: 0 <= i < |txs| ==> CheckedTx(txs[i].tx) && txs[i].nHeight != 0
  }

  // ---- proof of work and proof of stake ----

  predicate IsProofOfStake(txs: seq<Placed>) {
    |txs| > 1 && txs[1].tx.IsCoinStake()
  }

  /** Blocks are proof of work up to a height, and proof of stake from there on. */
  predicate InPeriod(txs: seq<Placed>, nHeight: int, nLastPow: int) {
    IsProofOfStake(txs) <==> nHeight > nLastPow
  }

  /** What CheckBlock asks of the kinds of a block's transactions. */
  predicate InOrder(txs: seq<Placed>) {
    && txs != [] && txs[0].tx.IsCoinBase() && (forall i :: 1 <= i < |txs| ==> !txs[i].tx.IsCoinBase())
    && (IsProofOfStake(txs) ==>
          && |txs[0].tx.vout| == 1 && txs[0].tx.vout[0].IsEmpty()
          && forall i :: 2 <= i < |txs| ==> !txs[i].tx.IsCoinStake())
  }

  // ---- distinct inputs: spending one leaves the others ----

  lemma SpendKeepsOthers(m: Utxo, out: OutPoint, other: OutPoint)
    requires CanSpend(m, out) && out != other
    ensures CanSpend(m, other) ==>
              CanSpend(SpendInput(m, out), other)
              && SpendInput(m, out)[other.hash].vout[other.n] == m[other.hash].vout[other.n]
    ensures HasOutput(m, other) ==> HasOutput(SpendInput(m, out), other)
  {
    if out.hash == other.hash && CanSpend(m, other) {
      var c := m[out.hash];
      var spent := c.(vout := c.vout[out.n := NullTxOut]);
      assert !spent.vout[other.n].IsNull();
      CleanedFacts(spent);
      CleanedFacts(c.AfterSpend(out.n));
    }
  }

  /** HaveInputs on distinct inputs is what the assertion in UpdateCoins needs; values are unaffected. */
  lemma {:induction false} HaveInputsSuffices(m: Utxo, vin: seq<TxIn>)
    requires HaveInputs(m, vin) && DistinctInputs(vin)
    ensures CanSpendAll(m, vin)
  {
    if vin != [] {
      var m1 := SpendInput(m, vin[0].prevout);
      forall i | 0 <= i < |vin[1..]|
        ensures HasOutput(m1, vin[1..][i].prevout)
      {
        SpendKeepsOthers(m, vin[0].prevout, vin[1 + i].prevout);
      }
      HaveInputsSuffices(m1, vin[1..]);
    }
  }

  lemma {:induction false} ValueInStable(m: Utxo, m': Utxo, vin: seq<TxIn>)
    requires HaveInputs(m, vin) && HaveInputs(m', vin)
    requires forall i :: 0 <= i < |vin| ==>
               var o := vin[i].prevout; m[o.hash].vout[o.n] == m'[o.hash].vout[o.n]
    ensures ValueIn(m, vin) == ValueIn(m', vin)
  {
    if vin != [] {
      ValueInStable(m, m', vin[1..]);
    }
  }

  /** An accepted block is connectable, as the round trip of BlockUndo asks. */
  lemma {:induction false} AcceptedIsConnectable(m: Utxo, txs: seq<Placed>, prm: Params, other: Transaction -> bool)
    requires TxsAccepted(m, txs, prm, other) && NoOverwrite(m, txs) && CheckedTxs(txs)
    ensures Connectable(m, txs)
    decreases |txs|
  {
    if txs != [] {
      AcceptedIsConnectable(ApplyTx(m, txs[0].tx, txs[0].nHeight), txs[1..], prm, other);
    }
  }

  // ---- maturity: a block never spends a coinstake of its own ----

  /** Entries of height h that are coinstakes. */
  ghost predicate YoungStake(m: Utxo, t: Hash, h: int) {
    t in m && m[t].fCoinStake && m[t].nHeight == h
  }

  lemma {:induction false} YoungStakeSurvivesInputs(m: Utxo, vin: seq<TxIn>, t: Hash, h: int, prm: Params)
    requires CanSpendAll(m, vin) && YoungStake(m, t, h)
    requires forall i :: 0 <= i < |vin| ==> vin[i].prevout.hash != t
    ensures YoungStake(SpendAll(m, vin), t, h)
  {
    if vin != [] {
      YoungStakeSurvivesInputs(SpendInput(m, vin[0].prevout), vin[1..], t, h, prm);
    }
  }

  /** The block leaves a coinstake of its own height alone: only a flag lost before can be missing. */
  lemma {:induction false} YoungStakeIsNotLost(m: Utxo, txs: seq<Placed>, t: Hash, h: int, lost: set<Hash>,
                                               prm: Params, other: Transaction -> bool)
    requires Connectable(m, txs) && TxsAccepted(m, txs, prm, other) && prm.nMaturity > 0
    requires forall i :: 0 <= i < |txs| ==> txs[i].nHeight == h
    requires YoungStake(m, t, h)
    ensures YoungStake(ApplyTxs(m, txs), t, h)
    ensures t in LostFrom(m, txs, lost) <==> t in lost
    decreases |txs|
  {
    if txs != [] {
      var tx := txs[0].tx;
      forall i | 0 <= i < |InputsOf(tx)|
        ensures InputsOf(tx)[i].prevout.hash != t
      {
        assert InputAccepted(m, tx.vin[i].prevout, h, prm);
      }
      YoungStakeSurvivesInputs(m, InputsOf(tx), t, h, prm);
      YoungStakeIsNotLost(ApplyTx(m, tx, h), txs[1..], t, h, lost, prm, other);
    }
  }

  /** The empty output that marks a coinstake keeps its entry alive. */
  lemma CoinStakeIsLive(tx: Transaction, nHeight: int)
    requires tx.IsCoinStake() && forall i :: 0 <= i < |tx.vout| ==> tx.vout[i].nValue >= 0
    ensures !FromTx(tx, nHeight).IsPruned()
  {
    var nulled := Coins(tx.IsCoinBase(), true, NullUnspendable(tx.vout), nHeight, tx.nVersion);
    assert !nulled.vout[0].IsNull();
    CleanedFacts(nulled);
  }

  ghost predicate SomeStakeIn(txs: seq<Placed>, lost: set<Hash>) {
    exists i :: 0 <= i < |txs| && txs[i].tx.IsCoinStake() && txs[i].tx.hash in lost
  }

  /** For an accepted block: disconnecting it is unclean exactly when one of its coinstakes has lost its flag. */
  lemma {:induction false} AcceptedLoses(m: Utxo, txs: seq<Placed>, h: int, lost: set<Hash>,
                                         prm: Params, other: Transaction -> bool)
    requires Connectable(m, txs) && TxsAccepted(m, txs, prm, other) && prm.nMaturity > 0
    requires forall i :: 0 <= i < |txs| ==> txs[i].nHeight == h
    ensures LosesCoinStake(m, txs, lost) <==> SomeStakeIn(txs, lost)
    ensures forall i :: 0 <= i < |txs| && txs[i].tx.IsCoinStake() ==> YoungStake(ApplyTxs(m, txs), txs[i].tx.hash, h)
    decreases |txs|
  {
    hide SpendAll, CanSpendAll, HaveInputs, InputsAccepted;
    if txs != [] {
      var tx, m1 := txs[0].tx, ApplyTx(m, txs[0].tx, h);
      AcceptedLoses(m1, txs[1..], h, lost, prm, other);
      if tx.IsCoinStake() {
        FromTxFacts(tx, h);
        CoinStakeIsLive(tx, h);
        YoungStakeIsNotLost(m1, txs[1..], tx.hash, h, lost, prm, other);
      }
      FirstOrLater(txs, lost);
      forall i | 0 <= i < |txs| && txs[i].tx.IsCoinStake()
        ensures YoungStake(ApplyTxs(m, txs), txs[i].tx.hash, h)
      {
        if i > 0 { assert txs[i] == txs[1..][i - 1]; }
      }
    }
  }

  lemma FirstOrLater(txs: seq<Placed>, lost: set<Hash>)
    requires txs != []
    ensures SomeStakeIn(txs, lost) <==>
              (txs[0].tx.IsCoinStake() && txs[0].tx.hash in lost) || SomeStakeIn(txs[1..], lost)
  {
    if SomeStakeIn(txs, lost) {
      var i :| 0 <= i < |txs| && txs[i].tx.IsCoinStake() && txs[i].tx.hash in lost;
      if i > 0 { assert txs[1..][i - 1].tx.IsCoinStake(); }
    }
    if SomeStakeIn(txs[1..], lost) {
      var i :| 0 <= i < |txs[1..]| && txs[1..][i].tx.IsCoinStake() && txs[1..][i].tx.hash in lost;
      assert txs[i + 1].tx.IsCoinStake();
    }
  }

  /** With any maturity at all, disconnecting a block right after ConnectBlock accepted it is clean. */
  lemma AcceptedBlockIsClean(m: Utxo, txs: seq<Placed>, h: int, prm: Params, other: Transaction -> bool)
    requires Connectable(m, txs) && TxsAccepted(m, txs, prm, other) && prm.nMaturity > 0
    requires forall i :: 0 <= i < |txs| ==> txs[i].nHeight == h
    ensures !SpendsOwnCoinStake(m, txs)
  {
    AcceptedLoses(m, txs, h, {}, prm, other);
  }

  /**
   * ConnectBlock followed by DisconnectBlock: clean, and every entry is back, all but the coinstake
   * flag of entries whose last output the block spent.
   */
  lemma AcceptedRoundTrip(m: Utxo, txs: seq<Placed>, h: int, prm: Params, other: Transaction -> bool)
    requires GoodUtxo(m) && TxsAccepted(m, txs, prm, other) && NoOverwrite(m, txs) && CheckedTxs(txs)
    requires prm.nMaturity > 0 && forall i :: 0 <= i < |txs| ==> txs[i].nHeight == h
    ensures Connectable(m, txs) && UndoFits(txs, UndoRecords(m, txs))
    ensures UndoTxsClean(ApplyTxs(m, txs), txs, UndoRecords(m, txs))
    ensures UndoTxs(ApplyTxs(m, txs), txs, UndoRecords(m, txs)) == DropStake(m, Lost(m, txs))
  {
    AcceptedIsConnectable(m, txs, prm, other);
    AcceptedBlockIsClean(m, txs, h, prm, other);
    BlockRoundTrip(m, txs);
  }

  // ---- the money a block moves ----

  ghost function BlockValueOut(txs: seq<Placed>): int {
    if txs == [] then 0 else ValueOut(txs[0].tx.vout) + BlockValueOut(txs[1..])
  }

  ghost function TxValueIn(m: Utxo, tx: Transaction): int {
    if HaveInputs(m, InputsOf(tx)) then ValueIn(m, InputsOf(tx)) else 0
  }

  ghost function TxFee(m: Utxo, tx: Transaction): int {
    if tx.IsCoinBase() || tx.IsCoinStake() then 0 else TxValueIn(m, tx) - ValueOut(tx.vout)
  }

  ghost function BlockValueIn(m: Utxo, txs: seq<Placed>): int
    requires Connectable(m, txs)
    decreases |txs|
  {
    if txs == [] then 0
    else TxValueIn(m, txs[0].tx) + BlockValueIn(ApplyTx(m, txs[0].tx, txs[0].nHeight), txs[1..])
  }

  ghost function BlockFees(m: Utxo, txs: seq<Placed>): int
    requires Connectable(m, txs)
    decreases |txs|
  {
    if txs == [] then 0
    else TxFee(m, txs[0].tx) + BlockFees(ApplyTx(m, txs[0].tx, txs[0].nHeight), txs[1..])
  }

  lemma {:induction false} FeesNonnegative(m: Utxo, txs: seq<Placed>, prm: Params, other: Transaction -> bool)
    requires Connectable(m, txs) && TxsAccepted(m, txs, prm, other)
    ensures BlockFees(m, txs) >= 0
    decreases |txs|
  {
    if txs != [] {
      FeesNonnegative(ApplyTx(m, txs[0].tx, txs[0].nHeight), txs[1..], prm, other);
    }
  }
}
