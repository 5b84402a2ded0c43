/** One entry of the coin database: the outputs of a transaction that are still unspent. */
module Coins {
  import opened Transactions

  predicate AllNull(vout: seq<TxOut>) {
    forall i :: 0 <= i < |vout| ==> vout[i].IsNull()
  }

  /** vout without its trailing null outputs. */
  function Trim(vout: seq<TxOut>): (r: seq<TxOut>)
    ensures r <= vout
    ensures AllNull(vout[|r|..])
    ensures r == [] || !r[|r| - 1].IsNull()
  {
    if vout != [] && vout[|vout| - 1].IsNull() then Trim(vout[..|vout| - 1]) else vout
  }

  function NullUnspendable(vout: seq<TxOut>): (r: seq<TxOut>)
    ensures |r| == |vout|
  {
    seq(|vout|, i requires 0 <= i < |vout| => if vout[i].IsUnspendable() then NullTxOut else vout[i])
  }

  datatype Coins = Coins(fCoinBase: bool, fCoinStake: bool, vout: seq<TxOut>, nHeight: int, nVersion: int) {
    predicate IsPruned() {
      AllNull(vout)
    }

    /** No trailing null outputs, and every null output is the null output. */
    ghost predicate WellFormed() {
      && (vout == [] || !vout[|vout| - 1].IsNull())
      && forall i :: 0 <= i < |vout| && vout[i].IsNull() ==> vout[i] == NullTxOut
    }

    function Cleaned(): Coins {
      this.(vout := Trim(vout))
    }

    function ClearedUnspendable(): Coins {
      this.(vout := NullUnspendable(vout)).Cleaned()
    }

    /** operator==: pruned entries are all equal. */
    predicate Same(c: Coins) {
      (IsPruned() && c.IsPruned()) || this == c
    }

    predicate IsAvailable(n: nat) {
      n < |vout| && !vout[n].IsNull() && !vout[n].IsZerocoinMint()
    }

    predicate Spendable(n: nat) {
      n < |vout| && !vout[n].IsNull()
    }

    function AfterSpend(n: nat): Coins
      requires Spendable(n)
    {
      this.(vout := vout[n := NullTxOut]).Cleaned()
    }

    function UndoOf(n: nat): TxInUndo
      requires Spendable(n)
    {
      if AfterSpend(n).vout == [] then TxInUndo(vout[n], fCoinBase, fCoinStake, nHeight, nVersion)
      else TxInUndo(vout[n], false, false, 0, 0)
    }
  }

  const EmptyCoins := Coins(false, false, [], 0, 0)

  function FromTx(tx: Transaction, nHeight: int): Coins {
    Coins(tx.IsCoinBase(), tx.IsCoinStake(), tx.vout, nHeight, tx.nVersion).ClearedUnspendable()
  }

  /** CCoins::Cleanup pops null outputs off the end one at a time. */
  method Cleanup(c: Coins) returns (r: Coins)
    ensures r == c.Cleaned()
  {
    var vout := c.vout;
    while |vout| > 0 && vout[|vout| - 1].IsNull()
      invariant Trim(vout) == Trim(c.vout)
    {
      vout := vout[..|vout| - 1];
    }
    r := c.(vout := vout);
  }

  method ClearUnspendable(c: Coins) returns (r: Coins)
    ensures r == c.ClearedUnspendable()
  {
    var vout := c.vout;
    for i := 0 to |vout|
      invariant |vout| == |c.vout|
      invariant vout[..i] == NullUnspendable(c.vout)[..i]
      invariant vout[i..] == c.vout[i..]
    {
      if vout[i].IsUnspendable() {
        vout := vout[i := NullTxOut];
      }
    }
    assert vout == NullUnspendable(c.vout);
    r := Cleanup(c.(vout := vout));
  }

  /** CCoins::Spend: refuses a missing or spent output and changes nothing then. */
  method Spend(c: Coins, n: nat) returns (ok: bool, r: Coins, undo: TxInUndo)
    ensures ok == c.Spendable(n)
    ensures ok ==> r == c.AfterSpend(n) && undo == c.UndoOf(n)
    ensures !ok ==> r == c
  {
    r, undo := c, TxInUndo(NullTxOut, false, false, 0, 0);
    if n >= |c.vout| {
      return false, r, undo;
    }
    if c.vout[n].IsNull() {
      return false, r, undo;
    }
    undo := undo.(txout := c.vout[n]);
    r := Cleanup(c.(vout := c.vout[n := NullTxOut]));
    if |r.vout| == 0 {
      undo := TxInUndo(undo.txout, c.fCoinBase, c.fCoinStake, c.nHeight, c.nVersion);
    }
    ok := true;
  }

  lemma CleanedFacts(c: Coins)
    ensures c.Cleaned().IsPruned() == c.IsPruned()
    ensures c.IsPruned() ==> c.Cleaned().vout == []
    ensures c.WellFormed() ==> c.Cleaned() == c
  {
    var t := Trim(c.vout);
    forall i | 0 <= i < |c.vout|
      ensures i >= |t| ==> c.vout[i].IsNull()
      ensures i < |t| ==> c.vout[i] == t[i]
    {
      if i >= |t| { assert c.vout[i] == c.vout[|t|..][i - |t|]; }
    }
  }
}
