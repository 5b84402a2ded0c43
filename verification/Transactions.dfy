/** Transactions, outputs and undo records, as far as the coin database looks at them. */
module Transactions {
  import opened Common

  /** One coin, in the unit amounts are counted in. */
  const COIN := 100_000_000

  type Hash = nat
  type Script = seq<byte>

  const OP_RETURN: byte := 0x6a
  const OP_ZEROCOINMINT: byte := 0xc1
  const OP_ZEROCOINSPEND: byte := 0xc2

  predicate StartsWith(script: Script, op: byte) {
    |script| > 0 && script[0] == op
  }

  datatype TxOut = TxOut(nValue: int, scriptPubKey: Script, nRounds: int) {
    predicate IsNull() {
      nValue == -1
    }

    predicate IsEmpty() {
      nValue == 0 && scriptPubKey == []
    }

    predicate IsUnspendable() {
      StartsWith(scriptPubKey, OP_RETURN)
    }

    predicate IsZerocoinMint() {
      StartsWith(scriptPubKey, OP_ZEROCOINMINT)
    }
  }

  const NullTxOut := TxOut(-1, [], -10)

  const NULL_INDEX := 0xffff_ffff

  datatype OutPoint = OutPoint(hash: Hash, n: nat) {
    predicate IsNull() {
      hash == 0 && n == NULL_INDEX
    }
  }

  datatype TxIn = TxIn(prevout: OutPoint, scriptSig: Script)

  /** The transaction hash is carried along, as the source caches it. */
  datatype Transaction = Transaction(hash: Hash, nVersion: int, vin: seq<TxIn>, vout: seq<TxOut>) {
    predicate IsZerocoinSpend() {
      |vin| > 0 && vin[0].prevout.IsNull() && StartsWith(vin[0].scriptSig, OP_ZEROCOINSPEND)
    }

    predicate IsZerocoinMint() {
      exists i :: 0 <= i < |vout| && vout[i].IsZerocoinMint()
    }

    predicate IsCoinBase() {
      |vin| == 1 && vin[0].prevout.IsNull() && !IsZerocoinSpend() && !IsZerocoinMint()
    }

    predicate IsCoinStake() {
      |vin| > 0 && !vin[0].prevout.IsNull() && |vout| >= 2 && vout[0].IsEmpty()
    }
  }

  /** What a spent input leaves behind; the metadata is recorded only by the last spend of an entry. */
  datatype TxInUndo = TxInUndo(txout: TxOut, fCoinBase: bool, fCoinStake: bool, nHeight: int, nVersion: int)
}
