/** The coins in terms of the active chain's transactions: what is unspent, and what may be spent. */
module ChainCoins {
  import opened Transactions
  import opened Coins
  import CoinsView
  import opened BlockUndo
  import opened BlockRules
  import opened ChainRuns

  // ---- what a sequence of transactions leaves unspent ----

  /** The last transaction with this id, or -1. */
  function CreatorOf(past: seq<Placed>, t: Hash): (k: int)
    ensures -1 <= k < |past| && (k >= 0 ==> past[k].tx.hash == t)
    ensures forall i :: k < i < |past| ==> past[i].tx.hash != t
  {
    if past == [] then -1
    else if past[|past| - 1].tx.hash == t then |past| - 1
    else CreatorOf(past[..|past| - 1], t)
  }

  /** An output that can be spent at all: its script does not begin with OP_RETURN. */
  predicate Created(tx: Transaction, n: nat) {
    n < |tx.vout| && !(|tx.vout[n].scriptPubKey| > 0 && tx.vout[n].scriptPubKey[0] == 0x6a)
  }

  /** Created by the last transaction with its id, and spent by none of those after it. */
  ghost predicate Unspent(past: seq<Placed>, out: OutPoint) {
    var k := CreatorOf(past, out.hash);
    k >= 0 && Created(past[k].tx, out.n) && forall i :: k < i < |past| ==> !Spends(past[i].tx, out)
  }

  ghost predicate Spends(tx: Transaction, out: OutPoint) {
    !tx.IsCoinBase() && Among(tx.vin, out)
  }

  ghost predicate Among(vin: seq<TxIn>, out: OutPoint) {
    exists x :: 0 <= x < |vin| && vin[x].prevout == out
  }

  /** An entry that agrees with the transaction that created it; a coinstake flag may have been lost. */
  ghost predicate Agrees(c: Coins, p: Placed) {
    && c.fCoinBase == p.tx.IsCoinBase() && (c.fCoinStake ==> p.tx.IsCoinStake())
    && c.nHeight == p.nHeight && c.nVersion == p.tx.nVersion && |c.vout| <= |p.tx.vout|
    && forall n :: 0 <= n < |c.vout| && !c.vout[n].IsNull() ==> c.vout[n] == p.tx.vout[n]
  }

  ghost predicate EntriesAgree(m: Utxo, past: seq<Placed>) {
    forall t :: t in m ==> CreatorOf(past, t) >= 0 && Agrees(m[t], past[CreatorOf(past, t)])
  }

  /** The coins are exactly the unspent outputs of these transactions. */
  ghost predicate Traced(m: Utxo, past: seq<Placed>) {
    EntriesAgree(m, past) && forall out :: CanSpend(m, out) <==> Unspent(past, out)
  }

  // ---- one transaction more ----

  lemma CreatorNext(past: seq<Placed>, p: Placed, t: Hash)
    ensures CreatorOf(past + [p], t) == if p.tx.hash == t then |past| else CreatorOf(past, t)
  {
    assert (past + [p])[..|past|] == past;
  }

  lemma UnspentNext(past: seq<Placed>, p: Placed, out: OutPoint)
    ensures Unspent(past + [p], out) <==>
              if p.tx.hash == out.hash then Created(p.tx, out.n) else Unspent(past, out) && !Spends(p.tx, out)
  {
    CreatorNext(past, p, out.hash);
    var k, all := CreatorOf(past, out.hash), past + [p];
    hide Created, Spends, CreatorOf;
    if p.tx.hash != out.hash && k >= 0 {
      assert all[k] == past[k] && all[|past|] == p;
      assert forall i :: k < i < |past| ==> all[i] == past[i];
    }
  }

  /** What is left of m after some inputs were spent. */
  ghost predicate SpentFrom(m: Utxo, rest: Utxo, vin: seq<TxIn>) {
    forall out :: CanSpend(rest, out) <==> CanSpend(m, out) && !Among(vin, out)
  }

  ghost predicate Remain(m: Utxo, rest: Utxo) {
    forall t :: t in rest ==> t in m && Remains(m[t], rest[t])
  }

  ghost predicate Remains(c: Coins, c': Coins) {
    && c' == c.(vout := c'.vout) && |c'.vout| <= |c.vout|
    && forall n :: 0 <= n < |c'.vout| && !c'.vout[n].IsNull() ==> c'.vout[n] == c.vout[n]
  }

  lemma SpendOne(m: Utxo, out: OutPoint)
    requires CanSpend(m, out)
    ensures Remain(m, SpendInput(m, out))
    ensures forall o :: CanSpend(SpendInput(m, out), o) <==> CanSpend(m, o) && o != out
  {
    var c := m[out.hash];
    var spent := c.(vout := c.vout[out.n := NullTxOut]);
    CleanedFacts(spent);
    CleanedFacts(c.AfterSpend(out.n));
    forall o | CanSpend(m, o) && o != out
      ensures CanSpend(SpendInput(m, out), o)
    {
      SpendKeepsOthers(m, out, o);
    }
  }

  lemma AmongMore(vin: seq<TxIn>, out: OutPoint)
    requires vin != []
    ensures Among(vin, out) <==> vin[0].prevout == out || Among(vin[1..], out)
  {
    if x :| 0 <= x < |vin| && vin[x].prevout == out {
      if x > 0 { assert vin[1..][x - 1].prevout == out; }
    }
    if x :| 0 <= x < |vin[1..]| && vin[1..][x].prevout == out {
      assert vin[x + 1].prevout == out;
    }
  }

  lemma {:induction false} SpendMany(m: Utxo, vin: seq<TxIn>)
    requires CanSpendAll(m, vin)
    ensures SpentFrom(m, SpendAll(m, vin), vin) && Remain(m, SpendAll(m, vin))
    decreases |vin|
  {
    hide CanSpend, SpendInput, Among, Remains;
    if vin != [] {
      SpendOne(m, vin[0].prevout);
      SpendMany(SpendInput(m, vin[0].prevout), vin[1..]);
      RemainOn(m, SpendInput(m, vin[0].prevout), SpendAll(m, vin));
      forall out
        ensures Among(vin, out) <==> vin[0].prevout == out || Among(vin[1..], out)
      {
        AmongMore(vin, out);
      }
    } else {
      NoneSpent(m);
    }
  }

  lemma NoneSpent(m: Utxo)
    ensures SpentFrom(m, m, []) && Remain(m, m)
  {
  }

  lemma RemainOn(m: Utxo, m1: Utxo, rest: Utxo)
    requires Remain(m, m1) && Remain(m1, rest)
    ensures Remain(m, rest)
  {
  }

  /** The entry a transaction makes has exactly its outputs, those aside that can never be spent. */
  lemma EntryMade(tx: Transaction, nHeight: int)
    requires forall i :: 0 <= i < |tx.vout| ==> tx.vout[i].nValue >= 0
    ensures forall n: nat :: FromTx(tx, nHeight).Spendable(n) <==> Created(tx, n)
    ensures Agrees(FromTx(tx, nHeight), Placed(tx, nHeight))
    ensures FromTx(tx, nHeight).fCoinStake == tx.IsCoinStake()
    ensures FromTx(tx, nHeight).Cleaned() == FromTx(tx, nHeight)
  {
    var nulled := NullUnspendable(tx.vout);
    var r := Trim(nulled);
    var c := Coins(tx.IsCoinBase(), tx.IsCoinStake(), nulled, nHeight, tx.nVersion);
    CleanedFacts(c);
    CleanedFacts(c.Cleaned());
    forall n: nat | n < |nulled|
      ensures !nulled[n].IsNull() <==> Created(tx, n)
      ensures n >= |r| ==> nulled[n].IsNull()
      ensures n < |r| ==> r[n] == nulled[n]
    {
      if n >= |r| { assert nulled[n] == nulled[|r|..][n - |r|]; }
    }
  }

  lemma TracedNext(m: Utxo, past: seq<Placed>, p: Placed)
    requires Traced(m, past) && TxConnectable(m, p.tx, p.nHeight)
    ensures Traced(ApplyTx(m, p.tx, p.nHeight), past + [p])
  {
    hide SpendAll, CanSpendAll, FromTx, CreatorOf, Unspent, CanSpend, Agrees, Remains, CoinsView.Put;
    var rest := SpendAll(m, InputsOf(p.tx));
    SpendMany(m, InputsOf(p.tx));
    EntryMade(p.tx, p.nHeight);
    CoinsNext(m, rest, past, p);
    EntriesNext(m, rest, past, p);
  }

  lemma CoinsNext(m: Utxo, rest: Utxo, past: seq<Placed>, p: Placed)
    requires Traced(m, past) && SpentFrom(m, rest, InputsOf(p.tx)) && p.tx.hash !in rest
    requires var c := FromTx(p.tx, p.nHeight); c.Cleaned() == c && forall n: nat :: c.Spendable(n) <==> Created(p.tx, n)
    ensures forall out :: CanSpend(CoinsView.Put(rest, p.tx.hash, FromTx(p.tx, p.nHeight)), out) <==>
              Unspent(past + [p], out)
  {
    var m' := CoinsView.Put(rest, p.tx.hash, FromTx(p.tx, p.nHeight));
    hide FromTx, CreatorOf, Unspent, Created, EntriesAgree;
    forall out
      ensures CanSpend(m', out) <==> Unspent(past + [p], out)
    {
      UnspentNext(past, p, out);
      if p.tx.hash == out.hash {
        PutEntry(rest, p.tx.hash, FromTx(p.tx, p.nHeight), out);
      } else {
        assert CanSpend(m', out) <==> CanSpend(rest, out);
        SpendsIs(p.tx, out);
      }
    }
  }

  lemma SpendsIs(tx: Transaction, out: OutPoint)
    ensures Spends(tx, out) <==> Among(InputsOf(tx), out)
  {
  }

  lemma PutEntry(rest: Utxo, t: Hash, c: Coins, out: OutPoint)
    requires out.hash == t && c.Cleaned() == c
    ensures CanSpend(CoinsView.Put(rest, t, c), out) <==> c.Spendable(out.n)
  {
  }

  lemma EntriesNext(m: Utxo, rest: Utxo, past: seq<Placed>, p: Placed)
    requires EntriesAgree(m, past) && Remain(m, rest) && Agrees(FromTx(p.tx, p.nHeight), p)
    requires FromTx(p.tx, p.nHeight).Cleaned() == FromTx(p.tx, p.nHeight)
    ensures EntriesAgree(CoinsView.Put(rest, p.tx.hash, FromTx(p.tx, p.nHeight)), past + [p])
  {
    hide FromTx, CreatorOf, Agrees, Remains;
    var m' := CoinsView.Put(rest, p.tx.hash, FromTx(p.tx, p.nHeight));
    forall t | t in m'
      ensures CreatorOf(past + [p], t) >= 0 && Agrees(m'[t], (past + [p])[CreatorOf(past + [p], t)])
    {
      CreatorNext(past, p, t);
      if t != p.tx.hash { AgreesStill(m[t], m'[t], past[CreatorOf(past, t)]); }
    }
  }

  lemma AgreesStill(c: Coins, c': Coins, p: Placed)
    requires Agrees(c, p) && Remains(c, c')
    ensures Agrees(c', p)
  {
  }

  lemma {:induction false} TracedOn(m: Utxo, past: seq<Placed>, txs: seq<Placed>)
    requires Traced(m, past) && Connectable(m, txs)
    ensures Traced(ApplyTxs(m, txs), past + txs)
    decreases |txs|
  {
    hide Traced, TxConnectable, ApplyTx;
    if txs == [] {
      assert past + txs == past;
    } else {
      TracedNextOf(m, past, txs);
      TracedOn(ApplyTx(m, txs[0].tx, txs[0].nHeight), past + [txs[0]], txs[1..]);
      assert past + txs == past + [txs[0]] + txs[1..];
    }
  }

  lemma TracedNextOf(m: Utxo, past: seq<Placed>, txs: seq<Placed>)
    requires Traced(m, past) && Connectable(m, txs) && txs != []
    ensures TxConnectable(m, txs[0].tx, txs[0].nHeight)
    ensures Traced(ApplyTx(m, txs[0].tx, txs[0].nHeight), past + [txs[0]])
  {
    TracedNext(m, past, txs[0]);
  }

  // ---- acceptance in terms of the past ----

  function SpentOutput(past: seq<Placed>, out: OutPoint): TxOut
    requires CreatorOf(past, out.hash) >= 0 && Created(past[CreatorOf(past, out.hash)].tx, out.n)
  {
    past[CreatorOf(past, out.hash)].tx.vout[out.n]
  }

  ghost predicate AllUnspent(past: seq<Placed>, vin: seq<TxIn>) {
    forall x :: 0 <= x < |vin| ==> Unspent(past, vin[x].prevout)
  }

  ghost function SumSpent(past: seq<Placed>, vin: seq<TxIn>): int
    requires AllUnspent(past, vin)
  {
    if vin == [] then 0 else SpentOutput(past, vin[0].prevout).nValue + SumSpent(past, vin[1..])
  }

  /**
   * The output may be spent at this height: it is no zerocoin mint, its value is in range, and it has
   * matured if it is of a coinbase, or of a coinstake whose flag is `flagged`.
   */
  ghost predicate MaySpend(past: seq<Placed>, out: OutPoint, flagged: bool, nHeight: int, prm: Params)
    requires Unspent(past, out)
  {
    var p, o := past[CreatorOf(past, out.hash)], SpentOutput(past, out);
    && !(|o.scriptPubKey| > 0 && o.scriptPubKey[0] == 0xc1)
    && 0 <= o.nValue <= prm.nMaxMoneyOut
    && (p.tx.IsCoinBase() || (p.tx.IsCoinStake() && flagged) ==> p.nHeight + prm.nMaturity <= nHeight)
  }

  lemma TracedOutput(m: Utxo, past: seq<Placed>, out: OutPoint)
    requires Traced(m, past)
    ensures CanSpend(m, out) <==> Unspent(past, out)
    ensures CanSpend(m, out) ==> m[out.hash].vout[out.n] == SpentOutput(past, out)
    ensures CanSpend(m, out) ==> Agrees(m[out.hash], past[CreatorOf(past, out.hash)])
  {
    hide CreatorOf, Created;
    if CanSpend(m, out) {
      assert Unspent(past, out) && Agrees(m[out.hash], past[CreatorOf(past, out.hash)]);
    }
  }

  lemma InputByHistory(m: Utxo, past: seq<Placed>, out: OutPoint, nHeight: int, prm: Params)
    requires Traced(m, past)
    ensures HasOutput(m, out) ==> Unspent(past, out)
    ensures HasOutput(m, out) && InputAccepted(m, out, nHeight, prm) <==>
              Unspent(past, out) && MaySpend(past, out, out.hash in m && m[out.hash].fCoinStake, nHeight, prm)
  {
    TracedOutput(m, past, out);
    hide Traced, CreatorOf, Unspent, Created;
  }

  lemma {:induction false} SumByHistory(m: Utxo, past: seq<Placed>, vin: seq<TxIn>)
    requires Traced(m, past) && HaveInputs(m, vin)
    ensures AllUnspent(past, vin) && SumSpent(past, vin) == ValueIn(m, vin)
  {
    forall x | 0 <= x < |vin|
      ensures Unspent(past, vin[x].prevout)
    {
      TracedOutput(m, past, vin[x].prevout);
    }
    if vin != [] {
      TracedOutput(m, past, vin[0].prevout);
      hide Traced, Unspent, CreatorOf;
      SumByHistory(m, past, vin[1..]);
    }
  }

  /**
   * A transaction is accepted if and only if, by what the chain has done before it, each output it
   * spends is unspent, mature and in range, all of them together are in range, and no more goes out
   * than in, a coinstake apart.
   */
  lemma AcceptedByHistory(m: Utxo, past: seq<Placed>, p: Placed, prm: Params, other: Transaction -> bool)
    requires Traced(m, past)
    ensures TxAccepted(m, p, prm, other) <==>
              p.tx.IsCoinBase() ||
              (&& AllUnspent(past, p.tx.vin)
               && (forall x :: 0 <= x < |p.tx.vin| ==>
                     var out := p.tx.vin[x].prevout;
                     MaySpend(past, out, out.hash in m && m[out.hash].fCoinStake, p.nHeight, prm))
               && var sum := SumSpent(past, p.tx.vin);
                  0 <= sum <= prm.nMaxMoneyOut && (p.tx.IsCoinStake() || sum >= ValueOut(p.tx.vout)) && other(p.tx))
  {
    hide Traced, Unspent, MaySpend, HasOutput, InputAccepted, ValueOut;
    forall x | 0 <= x < |p.tx.vin|
      ensures HasOutput(m, p.tx.vin[x].prevout) ==> Unspent(past, p.tx.vin[x].prevout)
      ensures var out := p.tx.vin[x].prevout;
              HasOutput(m, out) && InputAccepted(m, out, p.nHeight, prm) <==>
                Unspent(past, out) && MaySpend(past, out, out.hash in m && m[out.hash].fCoinStake, p.nHeight, prm)
    {
      InputByHistory(m, past, p.tx.vin[x].prevout, p.nHeight, prm);
    }
    if HaveInputs(m, p.tx.vin) { SumByHistory(m, past, p.tx.vin); }
  }

  // ---- runs ----

  /** The transactions of the active chain, in order. */
  ghost function AllTxs(frames: seq<Frame>): seq<Placed> {
    if frames == [] then [] else AllTxs(frames[..|frames| - 1]) + frames[|frames| - 1].txs
  }

  lemma TracedKept(m: Utxo, m': Utxo, past: seq<Placed>)
    requires Traced(m, past) && LostFlags(m, m')
    ensures Traced(m', past)
  {
    hide CreatorOf, Unspent;
    forall out
      ensures CanSpend(m', out) <==> CanSpend(m, out)
    {
    }
  }

  lemma {:induction false} FramesTraced(frames: seq<Frame>, rules: Rules, other: Transaction -> bool)
    requires FramesOk(frames, rules, other)
    ensures Traced(After(frames), AllTxs(frames))
  {
    hide FramesOk, Traced, Connectable, ApplyTxs, LostFlags;
    if frames == [] {
      NothingTraced();
    } else {
      var before, f := frames[..|frames| - 1], frames[|frames| - 1];
      FrameConnects(frames, rules, other);
      FramesTraced(before, rules, other);
      TracedKept(After(before), f.base, AllTxs(before));
      TracedOn(f.base, AllTxs(before), f.txs);
    }
  }

  lemma NothingTraced()
    ensures Traced(map[], [])
  {
  }

  /**
   * After any run the coins are exactly the unspent outputs of the active chain, with their heights
   * and kinds; only a coinstake's flag may be missing.
   */
  lemma UtxoOfRun(ops: seq<Op>, rules: Rules, other: Transaction -> bool)
    requires Runnable(Genesis, ops, rules, other)
    ensures var st := Run(Genesis, ops, rules, other); Traced(st.utxo, AllTxs(st.frames))
  {
    hide Run, Runnable, FramesOk, Traced, GoodUtxo, LostFlags, After, Unclean;
    GenesisInv(rules, other);
    RunKeepsInv(Genesis, ops, rules, other);
    var st := Run(Genesis, ops, rules, other);
    FramesTraced(st.frames, rules, other);
    TracedKept(After(st.frames), st.utxo, AllTxs(st.frames));
  }

  /** The coins a transaction of a block is checked against. */
  lemma {:induction false} AcceptedAt(m: Utxo, txs: seq<Placed>, i: nat, prm: Params, other: Transaction -> bool)
    requires Connectable(m, txs) && TxsAccepted(m, txs, prm, other) && i < |txs|
    ensures Connectable(m, txs[..i]) && TxAccepted(ApplyTxs(m, txs[..i]), txs[i], prm, other)
    decreases |txs|
  {
    hide TxAccepted, ApplyTx;
    if i > 0 {
      AcceptedAt(ApplyTx(m, txs[0].tx, txs[0].nHeight), txs[1..], i - 1, prm, other);
      assert txs[..i][1..] == txs[1..][..i - 1] && txs[..i][0] == txs[0];
    }
  }

  /**
   * In the active chain after any run, at height h: what a transaction spends was unspent before it,
   * of a value in range, and matured if it is of a coinbase. Of a coinstake it has matured unless its
   * flag had been lost in the coins the block was connected to.
   */
  lemma MaturityOfRun(ops: seq<Op>, h: nat, i: nat, x: nat, rules: Rules, other: Transaction -> bool)
    requires Runnable(Genesis, ops, rules, other)
    requires var frames := Run(Genesis, ops, rules, other).frames;
             && 1 <= h <= |frames| && i < |frames[h - 1].txs|
             && !frames[h - 1].txs[i].tx.IsCoinBase() && x < |frames[h - 1].txs[i].tx.vin|
    ensures var frames := Run(Genesis, ops, rules, other).frames;
            var f, past := frames[h - 1], AllTxs(frames[..h - 1]) + frames[h - 1].txs[..i];
            var out := f.txs[i].tx.vin[x].prevout;
            && Connectable(f.base, f.txs[..i]) && Unspent(past, out)
            && var m, p := ApplyTxs(f.base, f.txs[..i]), past[CreatorOf(past, out.hash)];
               && 0 <= SpentOutput(past, out).nValue <= rules.prm.nMaxMoneyOut
               && (p.tx.IsCoinBase() ==> p.nHeight + rules.prm.nMaturity <= h)
               && (p.tx.IsCoinStake() ==>
                     p.nHeight + rules.prm.nMaturity <= h || (out.hash in m && !m[out.hash].fCoinStake))
  {
    hide Run, Runnable, FramesOk, Traced, After, Unclean, Unspent, CreatorOf, LostFlags, Connectable, ApplyTxs,
         TxsAccepted;
    GenesisInv(rules, other);
    RunKeepsInv(Genesis, ops, rules, other);
    var frames := Run(Genesis, ops, rules, other).frames;
    var f, before := frames[h - 1], frames[..h - 1];
    FrameSpends(frames, h, i, rules, other);
    var m, past := ApplyTxs(f.base, f.txs[..i]), AllTxs(before) + f.txs[..i];
    AcceptedByHistory(m, past, f.txs[i], rules.prm, other);
    SpentAt(m, past, f.txs[i], x, rules.prm, other);
  }

  lemma SpentAt(m: Utxo, past: seq<Placed>, p: Placed, x: nat, prm: Params, other: Transaction -> bool)
    requires Traced(m, past) && TxAccepted(m, p, prm, other) && !p.tx.IsCoinBase() && x < |p.tx.vin|
    ensures var out := p.tx.vin[x].prevout;
            && Unspent(past, out) && out.hash in m
            && MaySpend(past, out, m[out.hash].fCoinStake, p.nHeight, prm)
  {
    hide Traced, Unspent, MaySpend, CreatorOf;
    InputByHistory(m, past, p.tx.vin[x].prevout, p.nHeight, prm);
  }

  /** A transaction of an active block was accepted against the coins of those before it. */
  lemma FrameSpends(frames: seq<Frame>, h: nat, i: nat, rules: Rules, other: Transaction -> bool)
    requires FramesOk(frames, rules, other) && 1 <= h <= |frames| && i < |frames[h - 1].txs|
    ensures var f := frames[h - 1];
            && f.txs[i].nHeight == h && Connectable(f.base, f.txs[..i])
            && TxAccepted(ApplyTxs(f.base, f.txs[..i]), f.txs[i], rules.prm, other)
            && Traced(ApplyTxs(f.base, f.txs[..i]), AllTxs(frames[..h - 1]) + f.txs[..i])
  {
    hide FramesOk, Traced, LostFlags, Connectable, ApplyTxs, TxAccepted, GoodUtxo, UndoRecords, MintAllowed,
         CheckedTxs, TxsAccepted;
    var f, before := frames[h - 1], frames[..h - 1];
    FrameAt(frames, h, rules, other);
    FramesBelow(frames, h - 1, rules, other);
    AcceptedAt(f.base, f.txs, i, rules.prm, other);
    FramesTraced(before, rules, other);
    TracedKept(After(before), f.base, AllTxs(before));
    TracedOn(f.base, AllTxs(before), f.txs[..i]);
  }

  lemma {:induction false} FramesBelow(frames: seq<Frame>, h: nat, rules: Rules, other: Transaction -> bool)
    requires FramesOk(frames, rules, other) && h <= |frames|
    ensures FramesOk(frames[..h], rules, other)
    ensures h < |frames| ==> LostFlags(After(frames[..h]), frames[h].base)
    decreases |frames|
  {
    hide FrameOk, LostFlags, After;
    if h < |frames| {
      var before := frames[..|frames| - 1];
      FramesBelow(before, h, rules, other);
      assert before[..h] == frames[..h];
    } else {
      assert frames[..h] == frames;
    }
  }
}
