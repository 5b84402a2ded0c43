/** Connecting the transactions of a block to a set of unspent outputs, and disconnecting them. */
module BlockUndo {
  import opened Transactions
  import opened Coins
  import opened CoinsView

  type Utxo = map<Hash, Coins>

  /** A transaction of the block at the given height. */
  datatype Placed = Placed(tx: Transaction, nHeight: int)

  /** Entries are live, trimmed, and from a block above genesis: what the coin database holds. */
  ghost predicate GoodUtxo(m: Utxo) {
    forall t :: t in m ==> m[t].WellFormed() && !m[t].IsPruned() && m[t].nHeight != 0
  }

  function GetOrEmpty(m: Utxo, txid: Hash): Coins {
    if txid in m then m[txid] else EmptyCoins
  }

  // ---- connecting ----

  predicate CanSpend(m: Utxo, out: OutPoint) {
    out.hash in m && m[out.hash].Spendable(out.n)
  }

  function SpendInput(m: Utxo, out: OutPoint): Utxo
    requires CanSpend(m, out)
  {
    Put(m, out.hash, m[out.hash].AfterSpend(out.n))
  }

  /** Every Spend of the inputs in turn succeeds. */
  predicate CanSpendAll(m: Utxo, vin: seq<TxIn>) {
    vin == [] || (CanSpend(m, vin[0].prevout) && CanSpendAll(SpendInput(m, vin[0].prevout), vin[1..]))
  }

  function SpendAll(m: Utxo, vin: seq<TxIn>): Utxo
    requires CanSpendAll(m, vin)
  {
    if vin == [] then m else SpendAll(SpendInput(m, vin[0].prevout), vin[1..])
  }

  function UndoOfAll(m: Utxo, vin: seq<TxIn>): (u: seq<TxInUndo>)
    requires CanSpendAll(m, vin)
    ensures |u| == |vin|
  {
    if vin == [] then []
    else [m[vin[0].prevout.hash].UndoOf(vin[0].prevout.n)] + UndoOfAll(SpendInput(m, vin[0].prevout), vin[1..])
  }

  function InputsOf(tx: Transaction): seq<TxIn> {
    if tx.IsCoinBase() then [] else tx.vin
  }

  function ApplyTx(m: Utxo, tx: Transaction, nHeight: int): Utxo
    requires CanSpendAll(m, InputsOf(tx))
  {
    Put(SpendAll(m, InputsOf(tx)), tx.hash, FromTx(tx, nHeight))
  }

  /**
   * What must hold of the next transaction: its inputs are there to be spent, no live entry is
   * overwritten (BIP 30), and CheckTransaction has refused negative output values.
   */
  ghost predicate TxConnectable(m: Utxo, tx: Transaction, nHeight: int) {
    && CanSpendAll(m, InputsOf(tx))
    && tx.hash !in SpendAll(m, InputsOf(tx))
    && (forall i :: 0 <= i < |tx.vout| ==> tx.vout[i].nValue >= 0)
    && nHeight != 0
  }

  ghost predicate Connectable(m: Utxo, txs: seq<Placed>)
    decreases |txs|
  {
    txs == [] ||
    (TxConnectable(m, txs[0].tx, txs[0].nHeight)
     && Connectable(ApplyTx(m, txs[0].tx, txs[0].nHeight), txs[1..]))
  }

  ghost function ApplyTxs(m: Utxo, txs: seq<Placed>): Utxo
    requires Connectable(m, txs)
    decreases |txs|
  {
    if txs == [] then m else ApplyTxs(ApplyTx(m, txs[0].tx, txs[0].nHeight), txs[1..])
  }

  ghost function UndoRecords(m: Utxo, txs: seq<Placed>): (u: seq<seq<TxInUndo>>)
    requires Connectable(m, txs)
    ensures |u| == |txs|
    decreases |txs|
  {
    if txs == [] then []
    else [UndoOfAll(m, InputsOf(txs[0].tx))] + UndoRecords(ApplyTx(m, txs[0].tx, txs[0].nHeight), txs[1..])
  }

  // ---- disconnecting ----

  /** The coins an undo record is written into: cleared first when it carries metadata. */
  function RestoreTarget(coins: Coins, undo: TxInUndo): Coins {
    if undo.nHeight != 0 then Coins(undo.fCoinBase, false, [], undo.nHeight, undo.nVersion) else coins
  }

  function PadNull(vout: seq<TxOut>, n: nat): (r: seq<TxOut>)
    ensures |r| == if |vout| < n then n else |vout|
  {
    if |vout| < n then vout + seq(n - |vout|, _ => NullTxOut) else vout
  }

  function RestoredCoins(coins: Coins, n: nat, undo: TxInUndo): Coins {
    var c := RestoreTarget(coins, undo);
    c.(vout := PadNull(c.vout, n + 1)[n := undo.txout])
  }

  /** No complaint is logged for this input. */
  predicate RestoreClean(coins: Coins, n: nat, undo: TxInUndo) {
    (undo.nHeight != 0) == coins.IsPruned() && !RestoreTarget(coins, undo).IsAvailable(n)
  }

  function RestoreInput(m: Utxo, out: OutPoint, undo: TxInUndo): Utxo {
    Put(m, out.hash, RestoredCoins(GetOrEmpty(m, out.hash), out.n, undo))
  }

  /** The inputs are restored last to first. */
  function RestoreAll(m: Utxo, vin: seq<TxIn>, undo: seq<TxInUndo>): Utxo
    requires |vin| == |undo|
  {
    if vin == [] then m else RestoreInput(RestoreAll(m, vin[1..], undo[1..]), vin[0].prevout, undo[0])
  }

  predicate RestoreAllClean(m: Utxo, vin: seq<TxIn>, undo: seq<TxInUndo>)
    requires |vin| == |undo|
  {
    vin == [] ||
    (&& RestoreAllClean(m, vin[1..], undo[1..])
     && RestoreClean(GetOrEmpty(RestoreAll(m, vin[1..], undo[1..]), vin[0].prevout.hash), vin[0].prevout.n, undo[0]))
  }

  /** The entry found for a transaction is the one the block would have created. */
  predicate OutputsMatch(coins: Coins, tx: Transaction, nHeight: int) {
    var outs := coins.ClearedUnspendable();
    var outsBlock := FromTx(tx, nHeight);
    (if outsBlock.nVersion < 0 then outs.(nVersion := outsBlock.nVersion) else outs).Same(outsBlock)
  }

  function UndoTx(m: Utxo, tx: Transaction, undo: seq<TxInUndo>): Utxo
    requires |undo| == |InputsOf(tx)|
  {
    RestoreAll(m - {tx.hash}, InputsOf(tx), undo)
  }

  predicate UndoTxClean(m: Utxo, tx: Transaction, undo: seq<TxInUndo>, nHeight: int)
    requires |undo| == |InputsOf(tx)|
  {
    OutputsMatch(GetOrEmpty(m, tx.hash), tx, nHeight) && RestoreAllClean(m - {tx.hash}, InputsOf(tx), undo)
  }

  ghost predicate UndoFits(txs: seq<Placed>, undo: seq<seq<TxInUndo>>) {
    |txs| == |undo| && forall i :: 0 <= i < |txs| ==> |undo[i]| == |InputsOf(txs[i].tx)|
  }

  /** Transactions are undone last to first. */
  ghost function UndoTxs(m: Utxo, txs: seq<Placed>, undo: seq<seq<TxInUndo>>): Utxo
    requires UndoFits(txs, undo)
    decreases |txs|
  {
    if txs == [] then m else UndoTx(UndoTxs(m, txs[1..], undo[1..]), txs[0].tx, undo[0])
  }

  ghost predicate UndoTxsClean(m: Utxo, txs: seq<Placed>, undo: seq<seq<TxInUndo>>)
    requires UndoFits(txs, undo)
    decreases |txs|
  {
    txs == [] ||
    (UndoTxsClean(m, txs[1..], undo[1..])
     && UndoTxClean(UndoTxs(m, txs[1..], undo[1..]), txs[0].tx, undo[0], txs[0].nHeight))
  }

  /** Every undo record finds its place, whatever the added outputs look like. */
  ghost predicate UndoTxsRestorable(m: Utxo, txs: seq<Placed>, undo: seq<seq<TxInUndo>>)
    requires UndoFits(txs, undo)
    decreases |txs|
  {
    txs == [] ||
    (UndoTxsRestorable(m, txs[1..], undo[1..])
     && RestoreAllClean(UndoTxs(m, txs[1..], undo[1..]) - {txs[0].tx.hash}, InputsOf(txs[0].tx), undo[0]))
  }

  // ---- the round trip ----

  /** The coinstake flag is recorded in the undo data but never restored; `lost` is where that shows. */
  ghost function DropStake(m: Utxo, lost: set<Hash>): Utxo {
    map t | t in m :: if t in lost then m[t].(fCoinStake := false) else m[t]
  }

  /** Entries of m whose last output the inputs spend. */
  function Emptied(m: Utxo, vin: seq<TxIn>): set<Hash>
    requires CanSpendAll(m, vin)
  {
    m.Keys - SpendAll(m, vin).Keys
  }

  /**
   * Entries of m that come back without their flag when the flags in `lost` are missing already
   * and the transactions are then undone: those whose last output is spent on the way.
   */
  ghost function LostFrom(m: Utxo, txs: seq<Placed>, lost: set<Hash>): set<Hash>
    requires Connectable(m, txs)
    decreases |txs|
  {
    if txs == [] then lost
    else Emptied(m, InputsOf(txs[0].tx)) +
         (LostFrom(ApplyTx(m, txs[0].tx, txs[0].nHeight), txs[1..], lost) - {txs[0].tx.hash})
  }

  ghost function Lost(m: Utxo, txs: seq<Placed>): set<Hash>
    requires Connectable(m, txs)
  {
    LostFrom(m, txs, {})
  }

  /**
   * Some coinstake connected here is without its flag when it is looked at again: the flag is among
   * those lost before, or the last output of the coinstake is spent here as well.
   */
  ghost predicate LosesCoinStake(m: Utxo, txs: seq<Placed>, lost: set<Hash>)
    requires Connectable(m, txs)
    decreases |txs|
  {
    txs != [] &&
    var m1 := ApplyTx(m, txs[0].tx, txs[0].nHeight);
    (txs[0].tx.IsCoinStake() && txs[0].tx.hash in m1 && txs[0].tx.hash in LostFrom(m1, txs[1..], lost))
    || LosesCoinStake(m1, txs[1..], lost)
  }

  ghost predicate SpendsOwnCoinStake(m: Utxo, txs: seq<Placed>)
    requires Connectable(m, txs)
  {
    LosesCoinStake(m, txs, {})
  }

  lemma {:induction false} LosesMore(m: Utxo, txs: seq<Placed>, lost: set<Hash>, lost': set<Hash>)
    requires Connectable(m, txs) && lost <= lost'
    ensures LostFrom(m, txs, lost) <= LostFrom(m, txs, lost')
    ensures LosesCoinStake(m, txs, lost) ==> LosesCoinStake(m, txs, lost')
    decreases |txs|
  {
    hide ApplyTx, CanSpendAll, Emptied;
    if txs != [] {
      LosesMore(ApplyTx(m, txs[0].tx, txs[0].nHeight), txs[1..], lost, lost');
    }
  }

  /** One output: what Spend removes, the undo record puts back, all but the coinstake flag. */
  lemma SpendThenRestore(c: Coins, n: nat, now: Coins)
    requires c.WellFormed() && c.Spendable(n) && c.nHeight != 0
    requires if c.AfterSpend(n).vout == [] then now.IsPruned() else now.(fCoinStake := c.fCoinStake) == c.AfterSpend(n)
    ensures RestoreClean(now, n, c.UndoOf(n))
    ensures RestoredCoins(now, n, c.UndoOf(n)) ==
            c.(fCoinStake := if c.AfterSpend(n).vout == [] then false else now.fCoinStake)
  {
    var spent := c.vout[n := NullTxOut];
    var t := Trim(spent);
    forall i | |t| <= i < |spent|
      ensures spent[i] == NullTxOut
    {
      assert spent[i] == spent[|t|..][i - |t|];
    }
    var target := RestoreTarget(now, c.UndoOf(n));
    assert target.vout == t;
    assert PadNull(t, n + 1)[n := c.vout[n]] == c.vout;
  }

  lemma SpendKeepsGood(m: Utxo, out: OutPoint)
    requires GoodUtxo(m) && CanSpend(m, out)
    ensures GoodUtxo(SpendInput(m, out))
    ensures SpendInput(m, out).Keys <= m.Keys
    ensures out.hash in SpendInput(m, out) <==> m[out.hash].AfterSpend(out.n).vout != []
    ensures out.hash in SpendInput(m, out) ==> SpendInput(m, out)[out.hash] == m[out.hash].AfterSpend(out.n)
  {
    var c := m[out.hash];
    var spent := c.(vout := c.vout[out.n := NullTxOut]);
    CleanedFacts(spent);
    CleanedFacts(c.AfterSpend(out.n));
    assert c.AfterSpend(out.n).WellFormed();
  }

  lemma NothingLost(m: Utxo, lost: set<Hash>)
    requires forall t :: t in m && t in lost ==> !m[t].fCoinStake
    ensures DropStake(m, lost) == m
  {
  }

  /** Writing back the one entry in which `spent` differs from m. */
  lemma PutBack(m: Utxo, spent: Utxo, h: Hash, back: Coins, lost: set<Hash>)
    requires h in m && spent.Keys <= m.Keys && m.Keys <= spent.Keys + {h}
    requires forall t :: t in spent && t != h ==> spent[t] == m[t]
    requires !back.IsPruned() && back.Cleaned() == back
    requires back == if h in lost || h !in spent then m[h].(fCoinStake := false) else m[h]
    ensures Put(DropStake(spent, lost), h, back) == DropStake(m, lost + (m.Keys - spent.Keys))
  {
  }

  lemma InputRoundTrip(m: Utxo, out: OutPoint, lost: set<Hash>)
    requires GoodUtxo(m) && CanSpend(m, out)
    ensures var spent, undo := SpendInput(m, out), m[out.hash].UndoOf(out.n);
            var now := DropStake(spent, lost);
            && RestoreClean(GetOrEmpty(now, out.hash), out.n, undo)
            && RestoreInput(now, out, undo) == DropStake(m, lost + (m.Keys - spent.Keys))
  {
    SpendKeepsGood(m, out);
    var h, c := out.hash, m[out.hash];
    var spent := SpendInput(m, out);
    var now := GetOrEmpty(DropStake(spent, lost), h);
    SpendThenRestore(c, out.n, now);
    var back := RestoredCoins(now, out.n, c.UndoOf(out.n));
    assert !back.vout[out.n].IsNull();
    CleanedFacts(back);
    PutBack(m, spent, h, back, lost);
  }

  lemma {:induction false} SpendAllKeepsGood(m: Utxo, vin: seq<TxIn>)
    requires GoodUtxo(m) && CanSpendAll(m, vin)
    ensures GoodUtxo(SpendAll(m, vin)) && SpendAll(m, vin).Keys <= m.Keys
  {
    if vin != [] {
      SpendKeepsGood(m, vin[0].prevout);
      SpendAllKeepsGood(SpendInput(m, vin[0].prevout), vin[1..]);
    }
  }

  /** Restoring the first input after the others were restored. */
  lemma InputsStep(m: Utxo, vin: seq<TxIn>, now: Utxo, lost: set<Hash>)
    requires GoodUtxo(m) && vin != [] && CanSpendAll(m, vin)
    requires var m1, undo := SpendInput(m, vin[0].prevout), UndoOfAll(m, vin);
             RestoreAllClean(now, vin[1..], undo[1..]) && RestoreAll(now, vin[1..], undo[1..]) == DropStake(m1, lost)
    ensures RestoreAllClean(now, vin, UndoOfAll(m, vin))
    ensures RestoreAll(now, vin, UndoOfAll(m, vin)) ==
            DropStake(m, lost + (m.Keys - SpendInput(m, vin[0].prevout).Keys))
  {
    InputRoundTrip(m, vin[0].prevout, lost);
  }

  lemma EmptiedSplit(m: Utxo, vin: seq<TxIn>)
    requires GoodUtxo(m) && vin != [] && CanSpendAll(m, vin)
    ensures GoodUtxo(SpendInput(m, vin[0].prevout))
    ensures var m1 := SpendInput(m, vin[0].prevout);
            Emptied(m, vin) == Emptied(m1, vin[1..]) + (m.Keys - m1.Keys)
  {
    SpendKeepsGood(m, vin[0].prevout);
    SpendAllKeepsGood(SpendInput(m, vin[0].prevout), vin[1..]);
  }

  lemma InputsStepEmptied(m: Utxo, vin: seq<TxIn>, now: Utxo, lost: set<Hash>)
    requires GoodUtxo(m) && vin != [] && CanSpendAll(m, vin)
    requires var m1 := SpendInput(m, vin[0].prevout);
             && RestoreAllClean(now, vin[1..], UndoOfAll(m1, vin[1..]))
             && RestoreAll(now, vin[1..], UndoOfAll(m1, vin[1..])) == DropStake(m1, lost + Emptied(m1, vin[1..]))
    ensures RestoreAllClean(now, vin, UndoOfAll(m, vin))
    ensures RestoreAll(now, vin, UndoOfAll(m, vin)) == DropStake(m, lost + Emptied(m, vin))
  {
    hide GoodUtxo, DropStake, RestoreAll, RestoreAllClean, SpendInput, SpendAll, Emptied;
    var m1 := SpendInput(m, vin[0].prevout);
    assert UndoOfAll(m, vin)[1..] == UndoOfAll(m1, vin[1..]);
    InputsStep(m, vin, now, lost + Emptied(m1, vin[1..]));
    EmptiedSplit(m, vin);
    assert lost + Emptied(m1, vin[1..]) + (m.Keys - m1.Keys) == lost + Emptied(m, vin);
  }

  lemma {:induction false} InputsRoundTrip(m: Utxo, vin: seq<TxIn>, lost: set<Hash>)
    requires GoodUtxo(m) && CanSpendAll(m, vin)
    ensures var now := DropStake(SpendAll(m, vin), lost);
            && RestoreAllClean(now, vin, UndoOfAll(m, vin))
            && RestoreAll(now, vin, UndoOfAll(m, vin)) == DropStake(m, lost + Emptied(m, vin))
    decreases |vin|
  {
    hide GoodUtxo, DropStake, SpendInput;
    if vin == [] {
      assert lost + Emptied(m, vin) == lost;
    } else {
      EmptiedSplit(m, vin);
      InputsRoundTrip(SpendInput(m, vin[0].prevout), vin[1..], lost);
      InputsStepEmptied(m, vin, DropStake(SpendAll(m, vin), lost), lost);
    }
  }

  lemma FromTxFacts(tx: Transaction, nHeight: int)
    requires forall i :: 0 <= i < |tx.vout| ==> tx.vout[i].nValue >= 0
    ensures FromTx(tx, nHeight).WellFormed()
    ensures FromTx(tx, nHeight).ClearedUnspendable() == FromTx(tx, nHeight)
    ensures FromTx(tx, nHeight).nVersion == tx.nVersion && FromTx(tx, nHeight).nHeight == nHeight
    ensures FromTx(tx, nHeight).fCoinStake == tx.IsCoinStake()
    ensures FromTx(tx, nHeight).Cleaned() == FromTx(tx, nHeight)
  {
    var c := FromTx(tx, nHeight);
    forall i | 0 <= i < |c.vout|
      ensures c.vout[i].IsNull() ==> c.vout[i] == NullTxOut
      ensures !c.vout[i].IsUnspendable()
    {
      assert c.vout[i] == NullUnspendable(tx.vout)[i];
    }
    assert NullUnspendable(c.vout) == c.vout;
    CleanedFacts(c);
  }

  lemma ApplyKeepsGood(m: Utxo, tx: Transaction, nHeight: int)
    requires GoodUtxo(m) && TxConnectable(m, tx, nHeight)
    ensures GoodUtxo(ApplyTx(m, tx, nHeight))
  {
    hide SpendAll, CanSpendAll;
    SpendAllKeepsGood(m, InputsOf(tx));
    FromTxFacts(tx, nHeight);
  }

  lemma RemoveAdded(spent: Utxo, h: Hash, c: Coins, lost: set<Hash>)
    requires h !in spent
    ensures DropStake(Put(spent, h, c), lost) - {h} == DropStake(spent, lost - {h})
  {
  }

  lemma TxRestores(m: Utxo, tx: Transaction, nHeight: int, lost: set<Hash>)
    requires GoodUtxo(m) && CanSpendAll(m, InputsOf(tx)) && tx.hash !in SpendAll(m, InputsOf(tx))
    ensures var now, undo := DropStake(ApplyTx(m, tx, nHeight), lost), UndoOfAll(m, InputsOf(tx));
            && RestoreAllClean(now - {tx.hash}, InputsOf(tx), undo)
            && UndoTx(now, tx, undo) == DropStake(m, lost - {tx.hash} + Emptied(m, InputsOf(tx)))
  {
    RemoveAdded(SpendAll(m, InputsOf(tx)), tx.hash, FromTx(tx, nHeight), lost);
    InputsRoundTrip(m, InputsOf(tx), lost - {tx.hash});
  }

  lemma TxRoundTrip(m: Utxo, tx: Transaction, nHeight: int, lost: set<Hash>)
    requires GoodUtxo(m) && TxConnectable(m, tx, nHeight)
    ensures var m1, undo := ApplyTx(m, tx, nHeight), UndoOfAll(m, InputsOf(tx));
            var now := DropStake(m1, lost);
            && (UndoTxClean(now, tx, undo, nHeight) <==> !(tx.IsCoinStake() && tx.hash in m1 && tx.hash in lost))
            && UndoTx(now, tx, undo) == DropStake(m, Emptied(m, InputsOf(tx)) + (lost - {tx.hash}))
  {
    TxRestores(m, tx, nHeight, lost);
    assert Emptied(m, InputsOf(tx)) + (lost - {tx.hash}) == lost - {tx.hash} + Emptied(m, InputsOf(tx));
    FromTxFacts(tx, nHeight);
    OutputsMatchFound(ApplyTx(m, tx, nHeight), tx, nHeight, lost);
  }

  lemma OutputsMatchFound(m1: Utxo, tx: Transaction, nHeight: int, lost: set<Hash>)
    requires forall i :: 0 <= i < |tx.vout| ==> tx.vout[i].nValue >= 0
    requires if FromTx(tx, nHeight).IsPruned() then tx.hash !in m1
             else tx.hash in m1 && m1[tx.hash] == FromTx(tx, nHeight)
    ensures OutputsMatch(GetOrEmpty(DropStake(m1, lost), tx.hash), tx, nHeight) <==>
            !(tx.IsCoinStake() && tx.hash in m1 && tx.hash in lost)
  {
    FromTxFacts(tx, nHeight);
    var c := FromTx(tx, nHeight);
    var now := GetOrEmpty(DropStake(m1, lost), tx.hash);
    assert now.ClearedUnspendable() == if tx.hash in m1 && tx.hash in lost then c.(fCoinStake := false)
                                       else if tx.hash in m1 then c else EmptyCoins;
  }

  lemma {:induction false} RecordsFit(m: Utxo, txs: seq<Placed>)
    requires Connectable(m, txs)
    ensures UndoFits(txs, UndoRecords(m, txs))
    decreases |txs|
  {
    hide ApplyTx, SpendAll, CanSpendAll, UndoOfAll;
    if txs != [] {
      var m1, undo := ApplyTx(m, txs[0].tx, txs[0].nHeight), UndoRecords(m, txs);
      RecordsFit(m1, txs[1..]);
      forall i | 0 <= i < |txs|
        ensures |undo[i]| == |InputsOf(txs[i].tx)|
      {
        if i > 0 { assert |UndoRecords(m1, txs[1..])[i - 1]| == |InputsOf(txs[1..][i - 1].tx)|; }
      }
    }
  }

  /**
   * Undoing from a state that has already lost some flags: what comes back, and that it is reported
   * clean exactly when no coinstake connected here is found without its flag.
   */
  lemma {:induction false} TxsRestored(m: Utxo, txs: seq<Placed>, lost: set<Hash>)
    requires GoodUtxo(m) && Connectable(m, txs)
    ensures UndoFits(txs, UndoRecords(m, txs))
    ensures UndoTxs(DropStake(ApplyTxs(m, txs), lost), txs, UndoRecords(m, txs)) ==
            DropStake(m, LostFrom(m, txs, lost))
    ensures UndoTxsRestorable(DropStake(ApplyTxs(m, txs), lost), txs, UndoRecords(m, txs))
    ensures UndoTxsClean(DropStake(ApplyTxs(m, txs), lost), txs, UndoRecords(m, txs)) <==> !LosesCoinStake(m, txs, lost)
    decreases |txs|
  {
    hide RestoreAllClean, UndoTx, UndoTxClean, ApplyTx, CanSpendAll, Emptied, DropStake, GoodUtxo;
    RecordsFit(m, txs);
    if txs != [] {
      var m1 := ApplyTx(m, txs[0].tx, txs[0].nHeight);
      ApplyKeepsGood(m, txs[0].tx, txs[0].nHeight);
      TxsRestored(m1, txs[1..], lost);
      TxRestores(m, txs[0].tx, txs[0].nHeight, LostFrom(m1, txs[1..], lost));
      TxRoundTrip(m, txs[0].tx, txs[0].nHeight, LostFrom(m1, txs[1..], lost));
      assert UndoRecords(m, txs)[1..] == UndoRecords(m1, txs[1..]);
    }
  }

  /**
   * Disconnecting what was connected restores every entry, all but the coinstake flag of entries
   * whose last output was spent; it is reported clean exactly when no coinstake connected here
   * also loses its last output here.
   */
  lemma {:induction false} BlockRoundTrip(m: Utxo, txs: seq<Placed>)
    requires GoodUtxo(m) && Connectable(m, txs)
    ensures UndoFits(txs, UndoRecords(m, txs))
    ensures UndoTxs(ApplyTxs(m, txs), txs, UndoRecords(m, txs)) == DropStake(m, Lost(m, txs))
    ensures UndoTxsClean(ApplyTxs(m, txs), txs, UndoRecords(m, txs)) <==> !SpendsOwnCoinStake(m, txs)
  {
    TxsRestored(m, txs, {});
    NothingLost(ApplyTxs(m, txs), {});
  }

  /** The round trip is exact, and clean, when no entry emptied by the block is a coinstake. */
  lemma {:induction false} BlockRoundTripExact(m: Utxo, txs: seq<Placed>)
    requires GoodUtxo(m) && Connectable(m, txs)
    requires !SpendsOwnCoinStake(m, txs)
    requires forall t :: t in m && t in Lost(m, txs) ==> !m[t].fCoinStake
    ensures UndoFits(txs, UndoRecords(m, txs))
    ensures UndoTxs(ApplyTxs(m, txs), txs, UndoRecords(m, txs)) == m
    ensures UndoTxsClean(ApplyTxs(m, txs), txs, UndoRecords(m, txs))
  {
    BlockRoundTrip(m, txs);
    NothingLost(m, Lost(m, txs));
  }

  // ---- several blocks ----

  lemma {:induction false} ConcatConnects(m: Utxo, xs: seq<Placed>, ys: seq<Placed>)
    requires Connectable(m, xs) && Connectable(ApplyTxs(m, xs), ys)
    ensures Connectable(m, xs + ys)
    ensures ApplyTxs(m, xs + ys) == ApplyTxs(ApplyTxs(m, xs), ys)
    decreases |xs|
  {
    hide ApplyTx, SpendAll, CanSpendAll;
    var zs := xs + ys;
    if xs == [] {
      assert zs == ys;
    } else {
      var m1 := ApplyTx(m, xs[0].tx, xs[0].nHeight);
      ConcatConnects(m1, xs[1..], ys);
      assert zs[0] == xs[0] && zs[1..] == xs[1..] + ys;
      assert Connectable(m, zs);
    }
  }

  lemma {:induction false} ConcatRecords(m: Utxo, xs: seq<Placed>, ys: seq<Placed>)
    requires Connectable(m, xs) && Connectable(ApplyTxs(m, xs), ys)
    requires Connectable(m, xs + ys)
    ensures UndoRecords(m, xs + ys) == UndoRecords(m, xs) + UndoRecords(ApplyTxs(m, xs), ys)
    decreases |xs|
  {
    hide ApplyTx, UndoOfAll, SpendAll, CanSpendAll;
    var zs := xs + ys;
    if xs == [] {
      assert zs == ys;
    } else {
      var m1 := ApplyTx(m, xs[0].tx, xs[0].nHeight);
      assert zs[0] == xs[0] && zs[1..] == xs[1..] + ys;
      ConcatRecords(m1, xs[1..], ys);
      var u := UndoOfAll(m, InputsOf(xs[0].tx));
      assert UndoRecords(m, zs) == [u] + UndoRecords(m1, xs[1..] + ys);
      assert [u] + (UndoRecords(m1, xs[1..]) + UndoRecords(ApplyTxs(m1, xs[1..]), ys)) ==
             [u] + UndoRecords(m1, xs[1..]) + UndoRecords(ApplyTxs(m1, xs[1..]), ys);
    }
  }

  /** Disconnecting two stretches of transactions is disconnecting the later one, then the earlier one. */
  lemma {:induction false} ConcatDisconnects(m: Utxo, xs: seq<Placed>, us: seq<seq<TxInUndo>>,
                                             ys: seq<Placed>, ws: seq<seq<TxInUndo>>)
    requires UndoFits(xs, us) && UndoFits(ys, ws)
    ensures UndoFits(xs + ys, us + ws)
    ensures UndoTxs(m, xs + ys, us + ws) == UndoTxs(UndoTxs(m, ys, ws), xs, us)
    ensures UndoTxsClean(m, xs + ys, us + ws) <==>
            UndoTxsClean(m, ys, ws) && UndoTxsClean(UndoTxs(m, ys, ws), xs, us)
    decreases |xs|
  {
    if xs == [] {
      assert xs + ys == ys && us + ws == ws;
    } else {
      assert (xs + ys)[1..] == xs[1..] + ys && (us + ws)[1..] == us[1..] + ws;
      ConcatDisconnects(m, xs[1..], us[1..], ys, ws);
    }
  }
}
