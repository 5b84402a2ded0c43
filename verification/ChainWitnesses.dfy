/** Runs from genesis at which mapStakeSpent misses inputs of active blocks, and why. */
module ChainWitnesses {
  import opened Transactions
  import opened Coins
  import opened BlockUndo
  import opened BlockRules
  import opened MoneySupply
  import opened ChainRuns

  // ---- extending a run by one operation ----

  lemma {:induction false} Extend(st: State, ops: seq<Op>, op: Op, rules: Rules, other: Transaction -> bool)
    requires Runnable(st, ops, rules, other) && Enabled(Run(st, ops, rules, other), op, rules, other)
    ensures Runnable(st, ops + [op], rules, other)
    ensures Run(st, ops + [op], rules, other) == Step(Run(st, ops, rules, other), op, rules, other)
    ensures TxidsFresh(st, ops, rules, other) &&
            (op.Connect? ==> TxidsNew(AllSpent(Run(st, ops, rules, other).frames), op.txs)) ==>
              TxidsFresh(st, ops + [op], rules, other)
    ensures Unrecorded(st, ops, rules, other) &&
            (op.Connect? ==> InsertsAll(Run(st, ops, rules, other), op.txs, rules)) ==>
              Unrecorded(st, ops + [op], rules, other)
    decreases |ops|
  {
    hide Step, Enabled, TxidsNew, AllSpent, InsertsAll;
    if ops == [] {
      assert [op][1..] == [] && ops + [op] == [op];
    } else {
      assert (ops + [op])[0] == ops[0] && (ops + [op])[1..] == ops[1..] + [op];
      Extend(Step(st, ops[0], rules, other), ops[1..], op, rules, other);
    }
  }

  // ---- a chain of blocks, connected from genesis ----

  type Chain = nat -> seq<Placed>

  /** The coins the first n blocks leave. */
  ghost function CoinsAfter(chain: Chain, n: nat): Utxo {
    if n == 0 then map[] else
    var m := CoinsAfter(chain, n - 1);
    if Connectable(m, chain(n)) then ApplyTxs(m, chain(n)) else m
  }

  ghost function SpentUpTo(chain: Chain, n: nat): set<OutPoint> {
    if n == 0 then {} else SpentUpTo(chain, n - 1) + SpentBy(chain(n))
  }

  /** The block at height h is accepted after those below it. */
  ghost predicate Fits(chain: Chain, h: nat, rules: Rules, other: Transaction -> bool) {
    h > 0 && BlockFits(CoinsAfter(chain, h - 1), chain(h), h, rules, other)
    && MintAllowed(CoinsAfter(chain, h - 1), chain(h), h - 1, rules.main)
  }

  lemma FitsConnects(chain: Chain, h: nat, rules: Rules, other: Transaction -> bool)
    requires Fits(chain, h, rules, other)
    ensures Connectable(CoinsAfter(chain, h - 1), chain(h))
    ensures CoinsAfter(chain, h) == ApplyTxs(CoinsAfter(chain, h - 1), chain(h))
  {
    hide TxsAccepted, CheckedTxs, InOrder, InPeriod, MintAllowed, ApplyTxs, Connectable;
  }

  /** A run without refusals whose active blocks are the first n of the chain; `lost` says which flags are missing. */
  ghost predicate On(ops: seq<Op>, chain: Chain, n: nat, lost: set<Hash>, nHighest: nat,
                     rules: Rules, other: Transaction -> bool)
  {
    Runnable(Genesis, ops, rules, other) &&
    var st := Run(Genesis, ops, rules, other);
    && |st.frames| == n && st.nHighest == nHighest && st.refused == {}
    && st.utxo == DropStake(CoinsAfter(chain, n), lost)
    && forall i :: 0 <= i < n ==> st.frames[i].txs == chain(i + 1) && st.frames[i].base == CoinsAfter(chain, i)
  }

  ghost predicate FreshUpTo(chain: Chain, n: nat) {
    forall h :: 1 <= h <= n ==> TxidsNew(SpentUpTo(chain, h - 1), chain(h))
  }

  ghost predicate SpendsOnce(chain: Chain, n: nat) {
    forall h :: 1 <= h <= n ==> SpentUpTo(chain, h - 1) !! SpentBy(chain(h))
  }

  /** Connecting the first n blocks one after the other. */
  lemma {:induction false} Climb(chain: Chain, n: nat, rules: Rules, other: Transaction -> bool) returns (ops: seq<Op>)
    requires forall h :: 1 <= h <= n ==> Fits(chain, h, rules, other)
    ensures On(ops, chain, n, {}, n, rules, other)
    ensures AllSpent(Run(Genesis, ops, rules, other).frames) == SpentUpTo(chain, n)
    ensures FreshUpTo(chain, n) ==> TxidsFresh(Genesis, ops, rules, other)
    ensures SpendsOnce(chain, n) ==> Unrecorded(Genesis, ops, rules, other)
  {
    hide TxidsNew, SpentBy, Fits, Run, Runnable, TxidsFresh, Unrecorded, AllSpent, CoinsAfter, DropStake, SpentUpTo;
    if n == 0 {
      ops := NoBlocks(chain, rules, other);
    } else {
      var before := Climb(chain, n - 1, rules, other);
      ops := ClimbOne(before, chain, n, rules, other);
    }
  }

  lemma ClimbOne(before: seq<Op>, chain: Chain, n: nat, rules: Rules, other: Transaction -> bool) returns (ops: seq<Op>)
    requires Fits(chain, n, rules, other) && On(before, chain, n - 1, {}, n - 1, rules, other)
    requires AllSpent(Run(Genesis, before, rules, other).frames) == SpentUpTo(chain, n - 1)
    ensures On(ops, chain, n, {}, n, rules, other)
    ensures AllSpent(Run(Genesis, ops, rules, other).frames) == SpentUpTo(chain, n)
    ensures TxidsNew(SpentUpTo(chain, n - 1), chain(n)) && TxidsFresh(Genesis, before, rules, other)
            ==> TxidsFresh(Genesis, ops, rules, other)
    ensures SpentUpTo(chain, n - 1) !! SpentBy(chain(n)) && Unrecorded(Genesis, before, rules, other)
            ==> Unrecorded(Genesis, ops, rules, other)
  {
    hide Step, Enabled, TxidsNew, SpentBy, BlockFits, MintAllowed, Run, Runnable, TxidsFresh, Unrecorded, InsertsAll,
         Connectable, ApplyTxs, UndoRecords, StakeSound, Pruned, Recorded, DropStake, SpentSets, StakeInv, FreshInv;
    var st, txs := Run(Genesis, before, rules, other), chain(n);
    DropNothing(CoinsAfter(chain, n - 1));
    FitsIsEnabled(st, txs, rules, other);
    Extend(Genesis, before, Connect(txs), rules, other);
    ConnectShape(st, txs, rules, other);
    SoundFromGenesis(before, rules, other);
    if SpentUpTo(chain, n - 1) !! SpentBy(txs) { NeverSpentIsUnlisted(st, txs, rules); }
    DropNothing(CoinsAfter(chain, n));
    ops := before + [Connect(txs)];
  }

  lemma SoundFromGenesis(ops: seq<Op>, rules: Rules, other: Transaction -> bool)
    requires Runnable(Genesis, ops, rules, other)
    ensures var st := Run(Genesis, ops, rules, other); StakeSound(SpentSets(st.frames), st.stakeSpent)
  {
    hide Run, Runnable;
    RunKeepsSound(Genesis, ops, rules, other);
  }

  lemma NoBlocks(chain: Chain, rules: Rules, other: Transaction -> bool) returns (ops: seq<Op>)
    ensures On(ops, chain, 0, {}, 0, rules, other)
    ensures AllSpent(Run(Genesis, ops, rules, other).frames) == SpentUpTo(chain, 0)
    ensures TxidsFresh(Genesis, ops, rules, other) && Unrecorded(Genesis, ops, rules, other)
  {
    ops := [];
    assert DropStake(map[], {}) == map[];
  }

  lemma DropNothing(m: Utxo)
    ensures DropStake(m, {}) == m
  {
  }

  lemma FitsIsEnabled(st: State, txs: seq<Placed>, rules: Rules, other: Transaction -> bool)
    requires BlockFits(st.utxo, txs, |st.frames| + 1, rules, other)
    requires MintAllowed(st.utxo, txs, |st.frames|, rules.main)
    ensures Enabled(st, Connect(txs), rules, other)
  {
  }

  /** The flags of the block's coinstakes are still there. */
  ghost predicate Flagged(txs: seq<Placed>, lost: set<Hash>) {
    forall i :: 0 <= i < |txs| && txs[i].tx.IsCoinStake() ==> txs[i].tx.hash !in lost
  }

  /** Disconnecting the topmost block of the chain. */
  lemma Drop(ops: seq<Op>, chain: Chain, n: nat, lost: set<Hash>, nHighest: nat, rules: Rules,
             other: Transaction -> bool)
    requires On(ops, chain, n + 1, lost, nHighest, rules, other) && TxidsFresh(Genesis, ops, rules, other)
    requires Fits(chain, n + 1, rules, other) && Flagged(chain(n + 1), lost) && rules.prm.nMaturity > 0
    ensures Connectable(CoinsAfter(chain, n), chain(n + 1))
    ensures On(ops + [Disconnect], chain, n, LostFrom(CoinsAfter(chain, n), chain(n + 1), lost), nHighest, rules, other)
    ensures TxidsFresh(Genesis, ops + [Disconnect], rules, other)
  {
    hide Step, Enabled, TipClean, SpentBy, UndoTxs, Run, Runnable, TxidsFresh, Inv, Unclean, DropStake, LostFrom,
         MintAllowed, TxsAccepted, CheckedTxs, InOrder, InPeriod, LosesCoinStake, ApplyTxs, Connectable, UndoTxsClean,
         UndoTxsRestorable, UndoRecords, Unrecorded, GoodUtxo;
    var st, m, txs := Run(Genesis, ops, rules, other), CoinsAfter(chain, n), chain(n + 1);
    assert st.frames[n].txs == txs && st.frames[n].base == m;
    GenesisInv(rules, other);
    RunKeepsInv(Genesis, ops, rules, other);
    TipRestores(st, rules, other);
    TipRecorded(st, rules, other);
    TipFlagged(st, m, txs, lost, rules, other);
    TxsRestored(m, txs, lost);
    CommitShape(st, rules, other);
    Extend(Genesis, ops, Disconnect, rules, other);
  }

  lemma TipRecorded(st: State, rules: Rules, other: Transaction -> bool)
    requires Inv(st, rules, other) && st.frames != []
    ensures var f := st.frames[|st.frames| - 1];
            Connectable(f.base, f.txs) && f.undo == UndoRecords(f.base, f.txs) && GoodUtxo(f.base)
  {
    hide Connectable, UndoRecords, GoodUtxo, TxsAccepted, CheckedTxs, InOrder, InPeriod, MintAllowed, Unclean,
         LostFlags, After;
    assert FrameOk(st.frames[|st.frames| - 1], st.frames[..|st.frames| - 1], rules, other);
  }

  /** What RefusedExactly asks of a tip whose coins are known up to lost flags. */
  lemma TipFlagged(st: State, m: Utxo, txs: seq<Placed>, lost: set<Hash>, rules: Rules, other: Transaction -> bool)
    requires Inv(st, rules, other) && st.frames != [] && rules.prm.nMaturity > 0
    requires BlockFits(m, txs, |st.frames|, rules, other) && st.utxo == DropStake(ApplyTxs(m, txs), lost)
    requires st.frames[|st.frames| - 1].txs == txs
    ensures Enabled(st, Disconnect, rules, other) && (TipClean(st) <==> Flagged(txs, lost))
  {
    hide Enabled, ApplyTxs, TipClean, Inv, TxsAccepted, CheckedTxs, InOrder, InPeriod, Connectable, LosesCoinStake,
         SomeStakeIn;
    RefusedExactly(st, rules, other);
    AcceptedLoses(m, txs, |st.frames|, {}, rules.prm, other);
    forall i | 0 <= i < |txs| && txs[i].tx.IsCoinStake()
      ensures txs[i].tx.hash in st.utxo && (st.utxo[txs[i].tx.hash].fCoinStake <==> txs[i].tx.hash !in lost)
    {
      assert YoungStake(ApplyTxs(m, txs), txs[i].tx.hash, |st.frames|);
    }
  }

  // ---- a block, one transaction at a time ----

  lemma NoTxs(m: Utxo, prm: Params, other: Transaction -> bool)
    ensures Connectable(m, []) && ApplyTxs(m, []) == m && TxsAccepted(m, [], prm, other) && CheckedTxs([])
    ensures SpentBy([]) == {} && BlockValueOut([]) == BlockValueIn(m, []) == BlockFees(m, []) == 0
  {
  }

  lemma FirstTx(m: Utxo, p: Placed, rest: seq<Placed>, prm: Params, other: Transaction -> bool)
    requires TxConnectable(m, p.tx, p.nHeight) && TxAccepted(m, p, prm, other) && CheckedTx(p.tx)
    requires var m1 := ApplyTx(m, p.tx, p.nHeight);
             Connectable(m1, rest) && TxsAccepted(m1, rest, prm, other) && CheckedTxs(rest)
    ensures var m1, txs := ApplyTx(m, p.tx, p.nHeight), [p] + rest;
            && Connectable(m, txs) && ApplyTxs(m, txs) == ApplyTxs(m1, rest) && TxsAccepted(m, txs, prm, other)
            && CheckedTxs(txs) && SpentBy(txs) == OutPointsOf(InputsOf(p.tx)) + SpentBy(rest)
            && BlockValueOut(txs) == ValueOut(p.tx.vout) + BlockValueOut(rest)
            && BlockValueIn(m, txs) == TxValueIn(m, p.tx) + BlockValueIn(m1, rest)
            && BlockFees(m, txs) == TxFee(m, p.tx) + BlockFees(m1, rest)
  {
    hide ApplyTx, CanSpendAll, TxValueIn, TxFee, ValueOut, OutPointsOf, CheckedTx, TxAccepted;
    var txs := [p] + rest;
    assert txs[0] == p && txs[1..] == rest;
  }

  // ---- the transactions of the witnesses; heights and inputs keep them apart ----

  const Coin := TxOut(1, [1], -10)
  const Marker := TxOut(0, [], -10)
  const Nothing := TxIn(OutPoint(0, NULL_INDEX), [1, 1])

  /** A coinbase that pays nothing, as a proof-of-stake block must have it. */
  function Blank(h: nat): Transaction {
    Transaction(2 * h, h, [Nothing], [Marker])
  }

  /** A coinbase with n coins, whose id does not tell its height. */
  function Mint(n: nat): Transaction {
    Transaction(1, 1, [Nothing], Purse(n))
  }

  function Purse(n: nat): seq<TxOut> {
    seq(n, _ => Coin)
  }

  function Stake(h: nat, vin: seq<TxIn>): Transaction {
    Transaction(2 * h + 1, 1, vin, [Marker, Coin])
  }

  function Transfer(h: nat, vin: seq<TxIn>): Transaction {
    Transaction(2 * h + 1, 1, vin, [Coin])
  }

  function Minted(n: nat, h: nat): Coins { Coins(true, false, Purse(n), h, 1) }
  function Staked(h: nat, flag: bool): Coins { Coins(false, flag, [Marker, Coin], h, 1) }
  function Blanked(h: nat): Coins { Coins(true, false, [Marker], h, h) }

  function FromMint(i: nat): seq<TxIn> { [TxIn(OutPoint(1, i), [])] }

  /** Both outputs of the coinstake of height h. */
  function FromStake(h: nat): seq<TxIn> { [TxIn(OutPoint(2 * h + 1, 1), []), TxIn(OutPoint(2 * h + 1, 0), [])] }

  function BlankBlock(h: nat): seq<Placed> { [Placed(Blank(h), h)] }
  function MintBlock(n: nat, h: nat): seq<Placed> { [Placed(Mint(n), h)] }
  function PairBlock(h: nat, tx: Transaction): seq<Placed> { [Placed(Blank(h), h)] + [Placed(tx, h)] }

  ghost predicate IdsBelow(m: Utxo, bound: nat) {
    forall t :: t in m ==> t < bound
  }

  lemma BlankMade(h: nat)
    ensures Blank(h).IsCoinBase() && !Blank(h).IsCoinStake() && CheckedTx(Blank(h)) && InputsOf(Blank(h)) == []
    ensures FromTx(Blank(h), h) == Blanked(h) && Blanked(h).Cleaned() == Blanked(h) && !Blanked(h).IsPruned()
    ensures ValueOut(Blank(h).vout) == 0 && OutPointsOf([]) == {}
  {
    assert NullUnspendable([Marker]) == [Marker] && Trim([Marker]) == [Marker];
    assert Blank(h).vout[1..] == [];
    assert !Blanked(h).vout[0].IsNull();
  }

  lemma MintMade(n: nat, h: nat)
    requires n > 0
    ensures Mint(n).IsCoinBase() && !Mint(n).IsCoinStake() && CheckedTx(Mint(n)) && InputsOf(Mint(n)) == []
    ensures FromTx(Mint(n), h) == Minted(n, h) && Minted(n, h).Cleaned() == Minted(n, h) && !Minted(n, h).IsPruned()
    ensures ValueOut(Mint(n).vout) == n && OutPointsOf([]) == {}
  {
    assert NullUnspendable(Purse(n)) == Purse(n) && Trim(Purse(n)) == Purse(n);
    assert !Minted(n, h).vout[0].IsNull();
    PurseValue(n);
  }

  lemma {:induction false} PurseValue(n: nat)
    ensures ValueOut(Purse(n)) == n
  {
    if n > 0 {
      assert Purse(n)[1..] == Purse(n - 1);
      PurseValue(n - 1);
    }
  }

  lemma StakeMade(h: nat, vin: seq<TxIn>)
    requires vin != [] && !vin[0].prevout.IsNull()
    ensures Stake(h, vin).IsCoinStake() && !Stake(h, vin).IsCoinBase() && FromTx(Stake(h, vin), h) == Staked(h, true)
    ensures ValueOut(Stake(h, vin).vout) == 1 && !Staked(h, true).IsPruned()
    ensures Staked(h, true).Cleaned() == Staked(h, true)
  {
    var vout := [Marker, Coin];
    assert NullUnspendable(vout) == vout && Trim(vout) == vout;
    assert vout[1..] == [Coin] && vout[1..][1..] == [];
    assert ValueOut(vout) == 0 + ValueOut(vout[1..]) && ValueOut(vout[1..]) == 1 + ValueOut(vout[1..][1..]);
    assert !Staked(h, true).vout[0].IsNull();
  }

  lemma TransferMade(h: nat, vin: seq<TxIn>)
    requires vin != [] && !vin[0].prevout.IsNull()
    ensures !Transfer(h, vin).IsCoinStake() && !Transfer(h, vin).IsCoinBase() && ValueOut(Transfer(h, vin).vout) == 1
  {
    var vout := [Coin];
    assert vout[1..] == [] && ValueOut(vout) == 1 + ValueOut(vout[1..]);
  }

  // ---- blocks that spend nothing ----

  lemma CoinBaseFits(m: Utxo, tx: Transaction, h: nat, c: Coins, rules: Rules, other: Transaction -> bool)
    requires tx.IsCoinBase() && !tx.IsCoinStake() && CheckedTx(tx) && InputsOf(tx) == [] && OutPointsOf([]) == {}
    requires FromTx(tx, h) == c && c.Cleaned() == c && !c.IsPruned() && tx.hash !in m
    requires 1 <= h <= rules.nLastPow && ValueOut(tx.vout) <= GetBlockValue(h - 1, rules.main)
    ensures var txs := [Placed(tx, h)];
            && BlockFits(m, txs, h, rules, other) && MintAllowed(m, txs, h - 1, rules.main)
            && ApplyTxs(m, txs) == m[tx.hash := c] && SpentBy(txs) == {}
  {
    CoinBaseApplies(m, tx, h, c);
    hide ApplyTx, TxConnectable, TxValueIn, CheckedTx, ValueOut, Connectable, TxsAccepted, CheckedTxs, ApplyTxs,
         FromTx, SpentBy, BlockValueOut, BlockValueIn, BlockFees, OutPointsOf, GetBlockValue, InputsOf;
    NoTxs(m[tx.hash := c], rules.prm, other);
    FirstTx(m, Placed(tx, h), [], rules.prm, other);
    assert [Placed(tx, h)] + [] == [Placed(tx, h)];
  }

  lemma CoinBaseApplies(m: Utxo, tx: Transaction, h: nat, c: Coins)
    requires tx.IsCoinBase() && CheckedTx(tx) && InputsOf(tx) == [] && h != 0
    requires FromTx(tx, h) == c && c.Cleaned() == c && !c.IsPruned() && tx.hash !in m
    ensures TxConnectable(m, tx, h) && ApplyTx(m, tx, h) == m[tx.hash := c] && TxValueIn(m, tx) == TxFee(m, tx) == 0
  {
    assert CanSpendAll(m, []) && SpendAll(m, []) == m && ValueIn(m, []) == 0;
  }

  lemma BlankFits(m: Utxo, h: nat, rules: Rules, other: Transaction -> bool)
    requires IdsBelow(m, 2 * h) && 1 <= h <= rules.nLastPow
    ensures BlockFits(m, BlankBlock(h), h, rules, other) && MintAllowed(m, BlankBlock(h), h - 1, rules.main)
    ensures ApplyTxs(m, BlankBlock(h)) == m[2 * h := Blanked(h)] && SpentBy(BlankBlock(h)) == {}
  {
    hide BlockFits, MintAllowed, ApplyTxs, SpentBy, FromTx, CheckedTx, InputsOf, OutPointsOf, GetBlockValue, ValueOut,
         Connectable;
    BlankMade(h);
    CoinBaseFits(m, Blank(h), h, Blanked(h), rules, other);
  }

  lemma MintFits(m: Utxo, n: nat, h: nat, rules: Rules, other: Transaction -> bool)
    requires 1 !in m && 1 <= h <= rules.nLastPow && 1 <= n <= GetBlockValue(h - 1, rules.main)
    ensures BlockFits(m, MintBlock(n, h), h, rules, other) && MintAllowed(m, MintBlock(n, h), h - 1, rules.main)
    ensures ApplyTxs(m, MintBlock(n, h)) == m[1 := Minted(n, h)] && SpentBy(MintBlock(n, h)) == {}
  {
    hide BlockFits, MintAllowed, ApplyTxs, SpentBy, FromTx, CheckedTx, InputsOf, OutPointsOf, GetBlockValue, ValueOut,
         Connectable;
    MintMade(n, h);
    CoinBaseFits(m, Mint(n), h, Minted(n, h), rules, other);
  }

  // ---- blocks with one transaction besides the coinbase ----

  /** An output that can be spent, with its value and the height it is from. */
  ghost predicate Funds(m: Utxo, out: OutPoint, nValue: int, nHeight: int) {
    HasOutput(m, out) && m[out.hash].vout[out.n].nValue == nValue && m[out.hash].nHeight == nHeight
  }

  /** What a transaction of one's own needs: its inputs are there, mature, and worth what it pays out. */
  ghost predicate Payable(m: Utxo, tx: Transaction, h: nat, since: nat, rules: Rules, other: Transaction -> bool) {
    && CheckedTx(tx) && !tx.IsCoinBase() && HaveInputs(m, tx.vin) && other(tx)
    && (forall i :: 0 <= i < |tx.vin| ==>
          var o := tx.vin[i].prevout;
          && m[o.hash].nHeight == since && MoneyRange(m[o.hash].vout[o.n].nValue, rules.prm)
          && (m[o.hash].fCoinBase || m[o.hash].fCoinStake ==> h - since >= rules.prm.nMaturity))
    && ValueIn(m, tx.vin) == ValueOut(tx.vout) && MoneyRange(ValueOut(tx.vout), rules.prm)
  }

  lemma PayableIsAccepted(m: Utxo, tx: Transaction, h: nat, since: nat, rules: Rules, other: Transaction -> bool)
    requires Payable(m, tx, h, since, rules, other) && tx.hash !in m && h != 0
    ensures InputsOf(tx) == tx.vin && CanSpendAll(m, tx.vin) && SpendAll(m, tx.vin).Keys <= m.Keys
    ensures TxConnectable(m, tx, h) && TxAccepted(m, Placed(tx, h), rules.prm, other)
    ensures TxValueIn(m, tx) == ValueOut(tx.vout) && TxFee(m, tx) == 0
  {
    hide ValueIn, ValueOut;
    HaveInputsSuffices(m, tx.vin);
    SpendAllIsLess(m, tx.vin);
    forall i | 0 <= i < |tx.vin|
      ensures InputAccepted(m, tx.vin[i].prevout, h, rules.prm)
    {
    }
  }

  lemma {:induction false} SpendAllIsLess(m: Utxo, vin: seq<TxIn>)
    requires CanSpendAll(m, vin)
    ensures SpendAll(m, vin).Keys <= m.Keys
    decreases |vin|
  {
    if vin != [] { SpendAllIsLess(SpendInput(m, vin[0].prevout), vin[1..]); }
  }

  lemma PayableLater(m: Utxo, tx: Transaction, h: nat, since: nat, rules: Rules, other: Transaction -> bool)
    requires Payable(m, tx, h, since, rules, other) && IdsBelow(m, 2 * h)
    ensures Payable(m[2 * h := Blanked(h)], tx, h, since, rules, other)
  {
    hide CheckedTx, ValueOut;
    ValueInStable(m, m[2 * h := Blanked(h)], tx.vin);
  }

  lemma PairFits(m: Utxo, h: nat, tx: Transaction, since: nat, rules: Rules, other: Transaction -> bool)
    requires IdsBelow(m, 2 * h) && h != 0 && tx.hash == 2 * h + 1 && Payable(m, tx, h, since, rules, other)
    requires tx.IsCoinStake() <==> h > rules.nLastPow
    ensures var m1, txs := m[2 * h := Blanked(h)], PairBlock(h, tx);
            && BlockFits(m, txs, h, rules, other) && MintAllowed(m, txs, h - 1, rules.main)
            && InputsOf(tx) == tx.vin && CanSpendAll(m1, tx.vin) && SpendAll(m1, tx.vin).Keys <= m1.Keys
            && ApplyTxs(m, txs) == ApplyTx(m1, tx, h) && SpentBy(txs) == OutPointsOf(tx.vin)
  {
    hide ApplyTx, TxValueIn, CheckedTx, ValueOut, Connectable, TxsAccepted, CheckedTxs, ApplyTxs, TxFee, SpentBy,
         FromTx, BlockValueOut, BlockValueIn, BlockFees, OutPointsOf, GetBlockValue, InputsOf, TxConnectable,
         CanSpendAll, SpendAll, Payable;
    var m1 := m[2 * h := Blanked(h)];
    BlankMade(h);
    CoinBaseApplies(m, Blank(h), h, Blanked(h));
    PayableLater(m, tx, h, since, rules, other);
    PayableIsChecked(m, tx, h, since, rules, other);
    PayableIsAccepted(m1, tx, h, since, rules, other);
    NoTxs(ApplyTx(m1, tx, h), rules.prm, other);
    FirstTx(m1, Placed(tx, h), [], rules.prm, other);
    assert [Placed(tx, h)] + [] == [Placed(tx, h)];
    FirstTx(m, Placed(Blank(h), h), [Placed(tx, h)], rules.prm, other);
  }

  lemma PayableIsChecked(m: Utxo, tx: Transaction, h: nat, since: nat, rules: Rules, other: Transaction -> bool)
    requires Payable(m, tx, h, since, rules, other)
    ensures CheckedTx(tx) && !tx.IsCoinBase()
  {
  }

  /** What the block leaves of an output it does not spend, and of an entry it does not touch. */
  lemma PairLeaves(m: Utxo, h: nat, tx: Transaction, out: OutPoint, nValue: int, since: int)
    requires IdsBelow(m, 2 * h) && tx.hash == 2 * h + 1
    requires var m1 := m[2 * h := Blanked(h)]; InputsOf(tx) == tx.vin && CanSpendAll(m1, tx.vin)
    requires Funds(m, out, nValue, since) && forall i :: 0 <= i < |tx.vin| ==> tx.vin[i].prevout != out
    ensures Funds(ApplyTx(m[2 * h := Blanked(h)], tx, h), out, nValue, since)
  {
    SpendAllKeepsFunds(m[2 * h := Blanked(h)], tx.vin, out, nValue, since);
  }

  lemma {:induction false} SpendAllKeepsFunds(m: Utxo, vin: seq<TxIn>, out: OutPoint, nValue: int, since: int)
    requires CanSpendAll(m, vin) && Funds(m, out, nValue, since)
    requires forall i :: 0 <= i < |vin| ==> vin[i].prevout != out
    ensures Funds(SpendAll(m, vin), out, nValue, since)
    decreases |vin|
  {
    if vin != [] {
      SpendKeepsFunds(m, vin[0].prevout, out, nValue, since);
      SpendAllKeepsFunds(SpendInput(m, vin[0].prevout), vin[1..], out, nValue, since);
    }
  }

  lemma SpendKeepsFunds(m: Utxo, spent: OutPoint, out: OutPoint, nValue: int, since: int)
    requires CanSpend(m, spent) && Funds(m, out, nValue, since) && spent != out
    ensures Funds(SpendInput(m, spent), out, nValue, since)
  {
    SpendKeepsOthers(m, spent, out);
    CleanedFacts(m[spent.hash].AfterSpend(spent.n));
  }

  lemma {:induction false} SpendAllKeepsEntry(m: Utxo, vin: seq<TxIn>, t: Hash)
    requires CanSpendAll(m, vin) && t in m && forall i :: 0 <= i < |vin| ==> vin[i].prevout.hash != t
    ensures t in SpendAll(m, vin) && SpendAll(m, vin)[t] == m[t]
    decreases |vin|
  {
    if vin != [] { SpendAllKeepsEntry(SpendInput(m, vin[0].prevout), vin[1..], t); }
  }

  lemma PairLeavesEntry(m: Utxo, h: nat, tx: Transaction, t: Hash)
    requires IdsBelow(m, 2 * h) && tx.hash == 2 * h + 1 && t in m
    requires var m1 := m[2 * h := Blanked(h)]; InputsOf(tx) == tx.vin && CanSpendAll(m1, tx.vin)
    requires forall i :: 0 <= i < |tx.vin| ==> tx.vin[i].prevout.hash != t
    ensures var m' := ApplyTx(m[2 * h := Blanked(h)], tx, h); t in m' && m'[t] == m[t]
  {
    SpendAllKeepsEntry(m[2 * h := Blanked(h)], tx.vin, t);
  }

  lemma PairLoses(m: Utxo, h: nat, tx: Transaction, lost: set<Hash>)
    requires Connectable(m, PairBlock(h, tx)) && tx.hash == 2 * h + 1 && InputsOf(tx) == tx.vin && IdsBelow(m, 2 * h)
    ensures var m1 := m[2 * h := Blanked(h)];
            && CanSpendAll(m1, tx.vin)
            && LostFrom(m, PairBlock(h, tx), lost) == Emptied(m1, tx.vin) + (lost - {2 * h + 1}) - {2 * h}
  {
    hide ApplyTx, CanSpendAll, FromTx;
    BlankMade(h);
    CoinBaseApplies(m, Blank(h), h, Blanked(h));
    var txs := PairBlock(h, tx);
    assert txs[0] == Placed(Blank(h), h) && txs[1..] == [Placed(tx, h)] && txs[1..][1..] == [];
    NothingEmptied(m);
    var m1, rest := m[2 * h := Blanked(h)], txs[1..];
    assert Connectable(m1, rest) && LostFrom(ApplyTx(m1, tx, h), rest[1..], lost) == lost;
    assert LostFrom(m1, rest, lost) == Emptied(m1, tx.vin) + (lost - {tx.hash});
    assert LostFrom(m, txs, lost) == {} + (LostFrom(m1, rest, lost) - {2 * h});
  }

  lemma NothingEmptied(m: Utxo)
    ensures CanSpendAll(m, []) && Emptied(m, []) == {}
  {
  }

  lemma PairIsNew(spent: set<OutPoint>, h: nat, tx: Transaction)
    requires InputsOf(tx) == tx.vin && tx.hash == 2 * h + 1
    requires forall o :: o in spent + OutPointsOf(tx.vin) ==> o.hash < 2 * h
    ensures TxidsNew(spent, PairBlock(h, tx))
  {
    var txs := PairBlock(h, tx);
    BlankMade(h);
    assert txs[0] == Placed(Blank(h), h) && txs[1..] == [Placed(tx, h)] && txs[1..][1..] == [];
  }

  lemma OneIsNew(spent: set<OutPoint>, tx: Transaction, h: nat)
    requires InputsOf(tx) == [] && forall o :: o in spent ==> o.hash != tx.hash
    ensures TxidsNew(spent, [Placed(tx, h)])
  {
    assert [Placed(tx, h)][1..] == [];
  }

  // ---- the next block of a chain ----

  lemma MintNext(chain: Chain, n: nat, h: nat, rules: Rules, other: Transaction -> bool)
    requires 1 <= h <= rules.nLastPow && 1 <= n <= GetBlockValue(h - 1, rules.main)
    requires 1 !in CoinsAfter(chain, h - 1) && chain(h) == MintBlock(n, h)
    ensures Fits(chain, h, rules, other) && SpentBy(chain(h)) == {}
    ensures CoinsAfter(chain, h) == CoinsAfter(chain, h - 1)[1 := Minted(n, h)]
  {
    hide BlockFits, MintAllowed, SpentBy, ApplyTxs, GetBlockValue, CoinsAfter, MintBlock, Minted;
    MintFits(CoinsAfter(chain, h - 1), n, h, rules, other);
    FitsConnects(chain, h, rules, other);
  }

  lemma BlankNext(chain: Chain, h: nat, rules: Rules, other: Transaction -> bool)
    requires 1 <= h <= rules.nLastPow
    requires IdsBelow(CoinsAfter(chain, h - 1), 2 * h) && chain(h) == BlankBlock(h)
    ensures Fits(chain, h, rules, other) && SpentBy(chain(h)) == {}
    ensures CoinsAfter(chain, h) == CoinsAfter(chain, h - 1)[2 * h := Blanked(h)]
  {
    hide BlockFits, MintAllowed, SpentBy, ApplyTxs, CoinsAfter, BlankBlock, Blanked;
    BlankFits(CoinsAfter(chain, h - 1), h, rules, other);
    FitsConnects(chain, h, rules, other);
  }

  lemma PairNext(chain: Chain, h: nat, tx: Transaction, since: nat, rules: Rules, other: Transaction -> bool)
    requires h != 0 && tx.hash == 2 * h + 1 && (tx.IsCoinStake() <==> h > rules.nLastPow)
    requires var m := CoinsAfter(chain, h - 1); IdsBelow(m, 2 * h) && Payable(m, tx, h, since, rules, other)
    requires chain(h) == PairBlock(h, tx)
    ensures Fits(chain, h, rules, other) && SpentBy(chain(h)) == OutPointsOf(tx.vin)
    ensures var m1 := CoinsAfter(chain, h - 1)[2 * h := Blanked(h)];
            && InputsOf(tx) == tx.vin && CanSpendAll(m1, tx.vin) && SpendAll(m1, tx.vin).Keys <= m1.Keys
            && CoinsAfter(chain, h) == ApplyTx(m1, tx, h)
  {
    hide BlockFits, MintAllowed, SpentBy, ApplyTxs, CoinsAfter, PairBlock, Blanked, Payable, CanSpendAll, SpendAll,
         ApplyTx, OutPointsOf, InputsOf;
    PairFits(CoinsAfter(chain, h - 1), h, tx, since, rules, other);
    FitsConnects(chain, h, rules, other);
  }

  // ---- a refused disconnection ----

  /** Rules under which a coinstake is refused disconnection: the main net's, among others. */
  ghost predicate Staking(rules: Rules, other: Transaction -> bool) {
    && 1 <= rules.prm.nMaturity <= rules.nMaxReorg && rules.prm.nMaturity <= rules.nLastPow
    && rules.prm.nMaturity <= GetBlockValue(0, rules.main) && rules.prm.nMaxMoneyOut >= 1
    && forall tx :: other(tx)
  }

  const MainNet := Rules(Params(25, 100_000_000 * COIN), true, 100, 57601)

  /** The height of the last block, which spends the coinstake of the first proof-of-stake block. */
  function TopHeight(rules: Rules): nat {
    rules.nLastPow + rules.prm.nMaturity + 1
  }

  /**
   * The first block mints as many coins as the maturity. Each proof-of-stake block stakes the next of
   * them, until the coinstake of the first has matured; the last block stakes that one.
   */
  function StakingBlock(rules: Rules, h: nat): seq<Placed> {
    if h == 1 then MintBlock(rules.prm.nMaturity, 1)
    else if h <= rules.nLastPow then BlankBlock(h)
    else if h < TopHeight(rules) then PairBlock(h, Stake(h, FromMint(h - rules.nLastPow - 1)))
    else PairBlock(h, Stake(h, FromStake(rules.nLastPow + 1)))
  }

  function StakingChain(rules: Rules): Chain {
    (h: nat) => StakingBlock(rules, h)
  }

  /** The coins below the last block: those minted and not yet staked, and the first coinstake. */
  ghost predicate StakingCoins(m: Utxo, n: nat, rules: Rules) {
    var first := rules.nLastPow + 1;
    && IdsBelow(m, 2 * n + 2) && (n == 0 ==> m == map[])
    && (n > 0 ==> forall i :: 0 <= i < rules.prm.nMaturity && n - rules.nLastPow <= i ==>
        Funds(m, OutPoint(1, i), 1, 1))
    && (n >= first ==> 2 * first + 1 in m && m[2 * first + 1] == Staked(first, true))
  }

  lemma MintStakes(rules: Rules, other: Transaction -> bool)
    requires Staking(rules, other)
    ensures Fits(StakingChain(rules), 1, rules, other) && StakingCoins(CoinsAfter(StakingChain(rules), 1), 1, rules)
    ensures SpentBy(StakingBlock(rules, 1)) == {}
  {
    hide Fits, GetBlockValue, SpentBy;
    var chain, n := StakingChain(rules), rules.prm.nMaturity;
    assert CoinsAfter(chain, 0) == map[];
    MintNext(chain, n, 1, rules, other);
    var m := CoinsAfter(chain, 1);
    forall i | 0 <= i < n
      ensures Funds(m, OutPoint(1, i), 1, 1)
    {
      assert m[1].vout[i] == Coin;
    }
  }

  lemma BlankStakes(h: nat, rules: Rules, other: Transaction -> bool)
    requires Staking(rules, other) && 1 < h <= rules.nLastPow
    requires StakingCoins(CoinsAfter(StakingChain(rules), h - 1), h - 1, rules)
    ensures Fits(StakingChain(rules), h, rules, other) && StakingCoins(CoinsAfter(StakingChain(rules), h), h, rules)
    ensures SpentBy(StakingBlock(rules, h)) == {}
  {
    hide Fits, GetBlockValue, SpentBy, CoinsAfter;
    BlankNext(StakingChain(rules), h, rules, other);
  }

  lemma MintIsPayable(m: Utxo, i: nat, tx: Transaction, h: nat, since: nat, rules: Rules, other: Transaction -> bool)
    requires Funds(m, OutPoint(1, i), 1, since) && h - since >= rules.prm.nMaturity && other(tx)
    requires tx.vin == FromMint(i) && tx.vout in {[Marker, Coin], [Coin]} && ValueOut(tx.vout) == 1
    requires rules.prm.nMaxMoneyOut >= 1
    ensures Payable(m, tx, h, since, rules, other)
  {
    assert tx.vin[1..] == [] && ValueIn(m, tx.vin) == 1 + ValueIn(m, tx.vin[1..]);
  }

  /** A block that stakes a minted coin. */
  lemma CoinStakes(h: nat, rules: Rules, other: Transaction -> bool)
    requires Staking(rules, other) && rules.nLastPow < h < TopHeight(rules)
    requires StakingCoins(CoinsAfter(StakingChain(rules), h - 1), h - 1, rules)
    ensures Fits(StakingChain(rules), h, rules, other) && StakingCoins(CoinsAfter(StakingChain(rules), h), h, rules)
    ensures SpentBy(StakingBlock(rules, h)) == {OutPoint(1, h - rules.nLastPow - 1)}
  {
    hide Fits, GetBlockValue, SpentBy, Funds, Payable, CanSpendAll, SpendAll, FromTx, CoinsAfter;
    var m, i, first := CoinsAfter(StakingChain(rules), h - 1), h - rules.nLastPow - 1, rules.nLastPow + 1;
    var tx := Stake(h, FromMint(i));
    StakeMade(h, tx.vin);
    MintIsPayable(m, i, tx, h, 1, rules, other);
    PairNext(StakingChain(rules), h, tx, 1, rules, other);
    var m' := CoinsAfter(StakingChain(rules), h);
    forall j | i < j < rules.prm.nMaturity
      ensures Funds(m', OutPoint(1, j), 1, 1)
    {
      PairLeaves(m, h, tx, OutPoint(1, j), 1, 1);
    }
    if h > first { PairLeavesEntry(m, h, tx, 2 * first + 1); }
    FromMintSpends(i);
  }

  lemma FromMintSpends(i: nat)
    ensures OutPointsOf(FromMint(i)) == {OutPoint(1, i)}
  {
    assert FromMint(i)[0].prevout == OutPoint(1, i);
  }

  lemma {:induction false} StakingFits(n: nat, rules: Rules, other: Transaction -> bool)
    requires Staking(rules, other) && 1 <= n < TopHeight(rules)
    ensures StakingCoins(CoinsAfter(StakingChain(rules), n), n, rules)
    ensures forall h :: 1 <= h <= n ==> Fits(StakingChain(rules), h, rules, other)
    ensures forall o :: o in SpentUpTo(StakingChain(rules), n) ==> o.hash == 1
  {
    hide Fits, StakingCoins, SpentBy, CoinsAfter, StakingBlock;
    if n == 1 {
      MintStakes(rules, other);
    } else {
      StakingFits(n - 1, rules, other);
      if n <= rules.nLastPow { BlankStakes(n, rules, other); } else { CoinStakes(n, rules, other); }
    }
  }

  lemma SpendsStaked(m: Utxo, first: nat)
    requires 2 * first + 1 in m && m[2 * first + 1] == Staked(first, true)
    ensures CanSpendAll(m, FromStake(first)) && SpendAll(m, FromStake(first)) == m - {2 * first + 1}
    ensures OutPointsOf(FromStake(first)) == {OutPoint(2 * first + 1, 1), OutPoint(2 * first + 1, 0)}
  {
    var t, vin := 2 * first + 1, FromStake(first);
    var m1 := m[t := Coins(false, true, [Marker], first, 1)];
    assert [Marker, Coin][1 := NullTxOut] == [Marker, NullTxOut];
    assert [Marker, NullTxOut][..1] == [Marker] && Trim([Marker]) == [Marker]
      && Trim([Marker, NullTxOut]) == Trim([Marker]);
    assert [Marker][0 := NullTxOut] == [NullTxOut] && [NullTxOut][..0] == [] && Trim([NullTxOut]) == Trim([]);
    assert !Coins(false, true, [Marker], first, 1).vout[0].IsNull();
    assert vin[1..] == [TxIn(OutPoint(t, 0), [])] && vin[1..][1..] == [];
    assert SpendInput(m, vin[0].prevout) == m1 && SpendInput(m1, vin[1].prevout) == m - {t};
    assert SpendAll(m - {t}, vin[1..][1..]) == m - {t};
    assert vin[0].prevout == OutPoint(t, 1) && vin[1].prevout == OutPoint(t, 0);
  }

  lemma StakedIsPayable(m: Utxo, first: nat, flag: bool, tx: Transaction, h: nat, rules: Rules,
                        other: Transaction -> bool)
    requires 2 * first + 1 in m && m[2 * first + 1] == Staked(first, flag)
    requires flag ==> h - first >= rules.prm.nMaturity
    requires tx.vin == FromStake(first) && tx.vout in {[Marker, Coin], [Coin]} && ValueOut(tx.vout) == 1 && other(tx)
    requires rules.prm.nMaxMoneyOut >= 1
    ensures Payable(m, tx, h, first, rules, other)
  {
    var vin := tx.vin;
    assert HaveInputs(m, vin) && vin[1..][1..] == [];
    assert ValueIn(m, vin) == 1 + ValueIn(m, vin[1..]) && ValueIn(m, vin[1..]) == 0 + ValueIn(m, vin[1..][1..]);
  }

  /** The last block stakes the first coinstake, and nothing is left of that. */
  lemma TopStakes(rules: Rules, other: Transaction -> bool)
    requires Staking(rules, other)
    requires var n := TopHeight(rules) - 1; StakingCoins(CoinsAfter(StakingChain(rules), n), n, rules)
    ensures Fits(StakingChain(rules), TopHeight(rules), rules, other)
    ensures SpentBy(StakingBlock(rules, TopHeight(rules))) == OutPointsOf(FromStake(rules.nLastPow + 1))
    ensures var m, txs := CoinsAfter(StakingChain(rules), TopHeight(rules) - 1), StakingBlock(rules, TopHeight(rules));
            Connectable(m, txs) && LostFrom(m, txs, {}) == {2 * rules.nLastPow + 3}
  {
    hide Fits, GetBlockValue, SpentBy, ApplyTxs, Payable, CanSpendAll, SpendAll, Connectable, FromTx, LostFrom,
         OutPointsOf, CoinsAfter;
    var h, first := TopHeight(rules), rules.nLastPow + 1;
    var m, tx := CoinsAfter(StakingChain(rules), h - 1), Stake(h, FromStake(first));
    var m1 := m[2 * h := Blanked(h)];
    StakeMade(h, tx.vin);
    StakedIsPayable(m, first, true, tx, h, rules, other);
    PairNext(StakingChain(rules), h, tx, first, rules, other);
    FitsConnects(StakingChain(rules), h, rules, other);
    PairLoses(m, h, tx, {});
    SpendsStaked(m1, first);
    assert Emptied(m1, tx.vin) == {2 * first + 1};
  }

  lemma EmptiedIds(m: Utxo, vin: seq<TxIn>, t: Hash)
    requires CanSpendAll(m, vin) && t in Emptied(m, vin)
    ensures exists i :: 0 <= i < |vin| && vin[i].prevout.hash == t
  {
    if forall i :: 0 <= i < |vin| ==> vin[i].prevout.hash != t { SpendAllKeepsEntry(m, vin, t); }
  }

  /** What disconnecting a block above the first coinstake adds to the lost flags. */
  lemma StakeBlockLoses(h: nat, lost: set<Hash>, rules: Rules, other: Transaction -> bool)
    requires rules.nLastPow + 1 < h < TopHeight(rules) && 2 * rules.nLastPow + 3 in lost
    requires lost <= {1, 2 * rules.nLastPow + 3}
    requires var m := CoinsAfter(StakingChain(rules), h - 1);
             IdsBelow(m, 2 * h) && Connectable(m, StakingBlock(rules, h))
    ensures var lost' := LostFrom(CoinsAfter(StakingChain(rules), h - 1), StakingBlock(rules, h), lost);
            2 * rules.nLastPow + 3 in lost' && lost' <= {1, 2 * rules.nLastPow + 3}
    ensures Flagged(StakingBlock(rules, h), lost)
  {
    hide SpentBy, ApplyTxs, CanSpendAll, SpendAll, Connectable, LostFrom, Emptied;
    var m, i := CoinsAfter(StakingChain(rules), h - 1), h - rules.nLastPow - 1;
    var tx := Stake(h, FromMint(i));
    PairLoses(m, h, tx, lost);
    var gone := Emptied(m[2 * h := Blanked(h)], tx.vin);
    forall t | t in gone
      ensures t == 1
    {
      EmptiedIds(m[2 * h := Blanked(h)], tx.vin, t);
    }
  }

  /** Back down to the first coinstake, whose flag stays lost. */
  lemma {:induction false} Descend(ops: seq<Op>, n: nat, lost: set<Hash>, rules: Rules, other: Transaction -> bool)
    returns (ops': seq<Op>, lost': set<Hash>)
    requires Staking(rules, other) && rules.nLastPow + 1 <= n < TopHeight(rules)
    requires On(ops, StakingChain(rules), n, lost, TopHeight(rules), rules, other)
    requires TxidsFresh(Genesis, ops, rules, other)
    requires 2 * rules.nLastPow + 3 in lost && lost <= {1, 2 * rules.nLastPow + 3}
    ensures On(ops', StakingChain(rules), rules.nLastPow + 1, lost', TopHeight(rules), rules, other)
    ensures TxidsFresh(Genesis, ops', rules, other) && 2 * rules.nLastPow + 3 in lost'
    decreases n
  {
    hide On, TxidsFresh, LostFrom, Fits, CoinsAfter, StakingBlock, Funds, Run, Runnable, GetBlockValue;
    if n == rules.nLastPow + 1 {
      ops', lost' := ops, lost;
    } else {
      var chain := StakingChain(rules);
      StakingFits(n, rules, other);
      StakingFits(n - 1, rules, other);
      FitsConnects(chain, n, rules, other);
      StakeBlockLoses(n, lost, rules, other);
      Drop(ops, chain, n - 1, lost, TopHeight(rules), rules, other);
      var lost1 := LostFrom(CoinsAfter(chain, n - 1), chain(n), lost);
      ops', lost' := Descend(ops + [Disconnect], n - 1, lost1, rules, other);
    }
  }

  lemma StakingIsFresh(n: nat, rules: Rules, other: Transaction -> bool)
    requires Staking(rules, other) && n <= TopHeight(rules)
    ensures FreshUpTo(StakingChain(rules), n)
  {
    hide TxidsNew, GetBlockValue, StakingBlock, SpentUpTo;
    var chain := StakingChain(rules);
    forall h | 1 <= h <= n
      ensures TxidsNew(SpentUpTo(chain, h - 1), chain(h))
    {
      BlockIsFresh(h, rules, other);
    }
  }

  lemma BlockIsFresh(h: nat, rules: Rules, other: Transaction -> bool)
    requires Staking(rules, other) && 1 <= h <= TopHeight(rules)
    ensures TxidsNew(SpentUpTo(StakingChain(rules), h - 1), StakingBlock(rules, h))
  {
    hide SpentBy, OutPointsOf, TxidsNew, BlockFits, CoinsAfter, GetBlockValue, StakingCoins, Fits, SpentUpTo;
    var spent := SpentUpTo(StakingChain(rules), h - 1);
    if h == 1 {
      NothingSpent(StakingChain(rules));
      MintMade(rules.prm.nMaturity, 1);
      OneIsNew(spent, Mint(rules.prm.nMaturity), 1);
    } else {
      StakingFits(h - 1, rules, other);
      if h <= rules.nLastPow {
        BlankMade(h);
        OneIsNew(spent, Blank(h), h);
      } else if h < TopHeight(rules) {
        var i := h - rules.nLastPow - 1;
        FromMintSpends(i);
        StakeMade(h, FromMint(i));
        PairIsNew(spent, h, Stake(h, FromMint(i)));
      } else {
        var first := rules.nLastPow + 1;
        StakeSpends(first);
        StakeMade(h, FromStake(first));
        PairIsNew(spent, h, Stake(h, FromStake(first)));
      }
    }
  }

  lemma NothingSpent(chain: Chain)
    ensures SpentUpTo(chain, 0) == {}
  {
  }

  lemma StakeSpends(first: nat)
    ensures OutPointsOf(FromStake(first)) == {OutPoint(2 * first + 1, 1), OutPoint(2 * first + 1, 0)}
  {
    assert FromStake(first)[0].prevout == OutPoint(2 * first + 1, 1);
    assert FromStake(first)[1].prevout == OutPoint(2 * first + 1, 0);
  }

  /** Up to the top, and down again to the first coinstake. */
  lemma ReachRefusal(rules: Rules, other: Transaction -> bool) returns (ops: seq<Op>, lost: set<Hash>)
    requires Staking(rules, other)
    ensures On(ops, StakingChain(rules), rules.nLastPow + 1, lost, TopHeight(rules), rules, other)
    ensures TxidsFresh(Genesis, ops, rules, other) && 2 * rules.nLastPow + 3 in lost
  {
    hide On, TxidsFresh, Unrecorded, LostFrom, CoinsAfter, StakingBlock, StakingCoins, Run, Runnable, GetBlockValue,
         FreshUpTo, SpendsOnce, SpentUpTo, Fits, SpentBy, AllSpent, Connectable;
    var chain, top := StakingChain(rules), TopHeight(rules);
    StakingFits(top - 1, rules, other);
    TopStakes(rules, other);
    ops := Climb(chain, top, rules, other);
    StakingIsFresh(top, rules, other);
    Drop(ops, chain, top - 1, {}, top, rules, other);
    ops, lost := Descend(ops + [Disconnect], top - 1, {2 * rules.nLastPow + 3}, rules, other);
  }

  /**
   * A run of accepted blocks that reuses no transaction id, and then goes back: proof-of-stake blocks
   * one after the other, the last of which stakes the coinstake of the first when that has matured.
   * Going back is refused at the first coinstake, although its coins are all there: it stays active
   * with its input missing from mapStakeSpent, within the depth where it should be found.
   */
  lemma RefusedRun(rules: Rules, other: Transaction -> bool) returns (ops: seq<Op>)
    requires Staking(rules, other)
    ensures Runnable(Genesis, ops, rules, other) && TxidsFresh(Genesis, ops, rules, other)
    ensures var h, st := rules.nLastPow + 1, Run(Genesis, ops, rules, other);
            && |st.frames| == h && st.refused == {h} && st.nHighest == h + rules.prm.nMaturity
            && 2 * h + 1 in st.utxo && st.utxo[2 * h + 1] == Staked(h, false) && IdsBelow(st.utxo, 2 * h + 2)
            && st.frames[h - 1].txs == PairBlock(h, Stake(h, FromMint(0)))
            && SpentSets(st.frames)[h - 1] == {OutPoint(1, 0)} && OutPoint(1, 0) !in st.stakeSpent
            && !StakeAgrees(SpentSets(st.frames), st.stakeSpent, st.nHighest - rules.nMaxReorg)
  {
    hide Run, Runnable, TxidsFresh, Step, Enabled, Inv, Unclean, TipClean, SpentBy, UndoTxs, UndoRecords, Connectable,
         ApplyTxs, LostFrom, UndoFits, StakeExact, Unrecorded, ExactThroughout, BlockFits, MintAllowed, GetBlockValue,
         CoinsAfter, StakingBlock, Funds;
    var h, chain := rules.nLastPow + 1, StakingChain(rules);
    var before, lost := ReachRefusal(rules, other);
    var st := Run(Genesis, before, rules, other);
    StakingFits(h, rules, other);
    FitsConnects(chain, h, rules, other);
    assert st.frames[h - 1].txs == chain(h);
    GenesisInv(rules, other);
    RunKeepsInv(Genesis, before, rules, other);
    TipFlagged(st, CoinsAfter(chain, h - 1), chain(h), lost, rules, other);
    NotFlagged(lost, rules);
    CommitShape(st, rules, other);
    Extend(Genesis, before, Disconnect, rules, other);
    ops := before + [Disconnect];
    StakeSpentOfRun(ops, rules, other);
    RefusedUnlisted(ops, rules, other);
  }

  /** The topmost block stakes the outputs of the coinstake of the block below it, at height h. */
  ghost predicate StakesBelow(frames: seq<Frame>, h: nat, txs: seq<Placed>) {
    && 0 < h && |frames| == h + 1 && frames[h].txs == txs && |txs| == 2 && txs[1].tx.IsCoinStake()
    && var below := frames[h - 1].txs;
       && |below| == 2 && below[1].tx.IsCoinStake()
       && txs[1].tx.vin == [TxIn(OutPoint(below[1].tx.hash, 1), []), TxIn(OutPoint(below[1].tx.hash, 0), [])]
  }

  /**
   * Nor does the coinstake of such a tip have to mature: without its flag it is not known for one, and
   * the next block may stake its outputs at once.
   */
  lemma EarlyStakeRun(rules: Rules, other: Transaction -> bool) returns (before: seq<Op>, txs: seq<Placed>)
    requires Staking(rules, other) && rules.prm.nMaturity > 1
    ensures Runnable(Genesis, before + [Connect(txs)], rules, other)
    ensures var h := rules.nLastPow + 1;
            && h + 1 < h + rules.prm.nMaturity
            && StakesBelow(Run(Genesis, before + [Connect(txs)], rules, other).frames, h, txs)
  {
    hide Run, Runnable, TxidsFresh, Step, Enabled, SpentBy, UndoRecords, Connectable, ApplyTxs, BlockFits,
         MintAllowed, GetBlockValue, Payable, StakeAgrees, FromTx, CanSpendAll, SpendAll, Pruned, Recorded;
    var h := rules.nLastPow + 1;
    before := RefusedRun(rules, other);
    var st, tx := Run(Genesis, before, rules, other), Stake(h + 1, FromStake(h));
    txs := PairBlock(h + 1, tx);
    StakeMade(h, FromMint(0));
    StakeMade(h + 1, tx.vin);
    StakedIsPayable(st.utxo, h, false, tx, h + 1, rules, other);
    PairFits(st.utxo, h + 1, tx, h, rules, other);
    FitsIsEnabled(st, txs, rules, other);
    Extend(Genesis, before, Connect(txs), rules, other);
    ConnectShape(st, txs, rules, other);
  }

  lemma NotFlagged(lost: set<Hash>, rules: Rules)
    requires 2 * rules.nLastPow + 3 in lost && rules.nLastPow > 0 && rules.prm.nMaturity > 0
    ensures !Flagged(StakingBlock(rules, rules.nLastPow + 1), lost)
    ensures var h := rules.nLastPow + 1; StakingBlock(rules, h) == PairBlock(h, Stake(h, FromMint(0)))
  {
    var h := rules.nLastPow + 1;
    var txs := StakingBlock(rules, h);
    StakeMade(h, FromMint(0));
    assert txs[1].tx.IsCoinStake();
  }

  lemma RefusedUnlisted(ops: seq<Op>, rules: Rules, other: Transaction -> bool)
    requires Staking(rules, other)
    requires Runnable(Genesis, ops, rules, other)
    requires var n, st := rules.nLastPow + 1, Run(Genesis, ops, rules, other);
             && |st.frames| == n && st.refused == {n} && st.nHighest - rules.nMaxReorg <= n
             && StakeExact(SpentSets(st.frames), st.stakeSpent, st.nHighest - rules.nMaxReorg, st.refused)
             && forall i :: 0 <= i < n ==> st.frames[i].txs == StakingBlock(rules, i + 1)
    ensures var n, st := rules.nLastPow + 1, Run(Genesis, ops, rules, other);
            && SpentSets(st.frames)[n - 1] == {OutPoint(1, 0)} && OutPoint(1, 0) !in st.stakeSpent
  {
    hide Run, Runnable, SpentBy, StakingBlock, Funds, GetBlockValue, CoinsAfter, Fits;
    var n, st := rules.nLastPow + 1, Run(Genesis, ops, rules, other);
    SpentInStaking(n, rules, other);
    forall k | 0 <= k < n - 1
      ensures SpentSets(st.frames)[k] == {}
    {
      SpentInStaking(k + 1, rules, other);
    }
  }

  lemma SpentInStaking(h: nat, rules: Rules, other: Transaction -> bool)
    requires Staking(rules, other) && 1 <= h <= rules.nLastPow + 1
    ensures SpentBy(StakingBlock(rules, h)) == if h <= rules.nLastPow then {} else {OutPoint(1, 0)}
  {
    hide Funds, GetBlockValue, CoinsAfter, Fits, StakingBlock, StakingCoins, SpentBy;
    if h == 1 {
      MintStakes(rules, other);
    } else {
      StakingFits(h - 1, rules, other);
      if h <= rules.nLastPow { BlankStakes(h, rules, other); } else { CoinStakes(h, rules, other); }
    }
  }

  /** On the main net: maturity 25, reorganizations up to 100 deep, proof of stake from height 57602 on. */
  lemma MainNetRefusedRun() returns (ops: seq<Op>)
    ensures var other := (_: Transaction) => true;
            && Runnable(Genesis, ops, MainNet, other) && TxidsFresh(Genesis, ops, MainNet, other)
            && Run(Genesis, ops, MainNet, other).refused == {57602}
            && var st := Run(Genesis, ops, MainNet, other);
               !StakeAgrees(SpentSets(st.frames), st.stakeSpent, st.nHighest - 100)
  {
    hide Run, Runnable, TxidsFresh, StakeAgrees;
    ops := RefusedRun(MainNet, (_: Transaction) => true);
  }

  // ---- two accepted transactions that do not disconnect cleanly together ----

  /**
   * Accepted under the main net's rules at heights of its proof-of-stake period: a coinstake, and the
   * stake of its outputs when it has matured. Disconnecting both restores the coins exactly, but the
   * report is not clean, since the coinstake comes back without its flag and no longer matches.
   */
  lemma CoinStakeReorgUnclean() returns (m: Utxo, txs: seq<Placed>)
    ensures var first, second := Stake(57602, FromMint(0)), Stake(57627, FromStake(57602));
            txs == [Placed(first, 57602), Placed(second, 57627)] && first.IsCoinStake() && second.IsCoinStake()
    ensures 57602 > MainNet.nLastPow && 57627 == 57602 + MainNet.prm.nMaturity && GoodUtxo(m)
    ensures TxsAccepted(m, txs, MainNet.prm, (_: Transaction) => true) && CheckedTxs(txs)
    ensures Connectable(m, txs) && UndoFits(txs, UndoRecords(m, txs))
    ensures UndoTxs(ApplyTxs(m, txs), txs, UndoRecords(m, txs)) == m
    ensures !UndoTxsClean(ApplyTxs(m, txs), txs, UndoRecords(m, txs))
  {
    hide UndoTxs, UndoRecords, UndoTxsClean, UndoFits, ApplyTxs, TxsAccepted, Connectable, LostFrom, CheckedTx,
         CheckedTxs, SpendsOwnCoinStake, GoodUtxo, DropStake, FromTx;
    var p1, p2 := Placed(Stake(57602, FromMint(0)), 57602), Placed(Stake(57627, FromStake(57602)), 57627);
    m, txs := map[1 := Minted(1, 1)], [p1, p2];
    StakeMade(57602, FromMint(0));
    StakeMade(57627, FromStake(57602));
    MintIsGood();
    BothStake(m, p1, p2);
    BlockRoundTrip(m, txs);
    NothingLost(m, Lost(m, txs));
  }

  lemma MintIsGood()
    ensures GoodUtxo(map[1 := Minted(1, 1)])
  {
    assert !Minted(1, 1).vout[0].IsNull();
  }

  lemma SpendsMint(m: Utxo, h0: nat)
    requires 1 in m && m[1] == Minted(1, h0)
    ensures CanSpendAll(m, FromMint(0)) && SpendAll(m, FromMint(0)) == m - {1} && Funds(m, OutPoint(1, 0), 1, h0)
  {
    assert Purse(1) == [Coin] && [Coin][0 := NullTxOut] == [NullTxOut];
    assert [NullTxOut][..0] == [] && Trim([NullTxOut]) == Trim([]);
    assert FromMint(0)[1..] == [] && SpendInput(m, OutPoint(1, 0)) == m - {1};
    assert SpendAll(m - {1}, []) == m - {1};
  }

  lemma StakeOfMint(m: Utxo)
    requires m == map[1 := Minted(1, 1)]
    ensures var h, tx, other := 57602, Stake(57602, FromMint(0)), (_: Transaction) => true;
            && TxConnectable(m, tx, h) && TxAccepted(m, Placed(tx, h), MainNet.prm, other) && CheckedTx(tx)
            && ApplyTx(m, tx, h) == map[2 * h + 1 := Staked(h, true)]
  {
    hide TxConnectable, TxAccepted, FromTx, Payable, CanSpendAll, SpendAll, CheckedTx;
    var h, tx, other := 57602, Stake(57602, FromMint(0)), (_: Transaction) => true;
    SpendsMint(m, 1);
    StakeMade(h, tx.vin);
    MintIsPayable(m, 0, tx, h, 1, MainNet, other);
    PayableIsChecked(m, tx, h, 1, MainNet, other);
    PayableIsAccepted(m, tx, h, 1, MainNet, other);
    assert m - {1} == map[];
  }

  lemma StakeOfStaked(m: Utxo)
    requires m == map[2 * 57602 + 1 := Staked(57602, true)]
    ensures var h, tx, other := 57627, Stake(57627, FromStake(57602)), (_: Transaction) => true;
            && TxConnectable(m, tx, h) && TxAccepted(m, Placed(tx, h), MainNet.prm, other) && CheckedTx(tx)
            && InputsOf(tx) == tx.vin && Emptied(m, tx.vin) == {2 * 57602 + 1}
  {
    hide TxConnectable, TxAccepted, FromTx, Payable, CanSpendAll, SpendAll, CheckedTx;
    var h, tx, other := 57627, Stake(57627, FromStake(57602)), (_: Transaction) => true;
    SpendsStaked(m, 57602);
    StakeMade(h, tx.vin);
    StakedIsPayable(m, 57602, true, tx, h, MainNet, other);
    PayableIsChecked(m, tx, h, 57602, MainNet, other);
    PayableIsAccepted(m, tx, h, 57602, MainNet, other);
  }

  lemma BothStake(m: Utxo, p1: Placed, p2: Placed)
    requires m == map[1 := Minted(1, 1)]
    requires p1 == Placed(Stake(57602, FromMint(0)), 57602) && p2 == Placed(Stake(57627, FromStake(57602)), 57627)
    requires p1.tx.IsCoinStake()
    ensures TxsAccepted(m, [p1, p2], MainNet.prm, (_: Transaction) => true) && CheckedTxs([p1, p2])
    ensures Connectable(m, [p1, p2]) && SpendsOwnCoinStake(m, [p1, p2])
  {
    hide ApplyTx, TxAccepted, CheckedTx, SpendAll, CanSpendAll, Emptied, BlockFees, BlockValueIn, BlockValueOut,
         TxValueIn, TxFee, SpentBy, ApplyTxs;
    var other := (_: Transaction) => true;
    var m1 := map[2 * 57602 + 1 := Staked(57602, true)];
    StakeOfMint(m);
    StakeOfStaked(m1);
    NoTxs(ApplyTx(m1, p2.tx, 57627), MainNet.prm, other);
    FirstTx(m1, p2, [], MainNet.prm, other);
    assert [p2] + [] == [p2] && [p1] + [p2] == [p1, p2];
    FirstTx(m, p1, [p2], MainNet.prm, other);
    assert [p1, p2][1..] == [p2];
    assert p1.tx.hash in LostFrom(m1, [p2], {});
  }

  // ---- a reused transaction id ----

  /** Rules under which an id can be reused: the main net's, among others. */
  ghost predicate Reusing(rules: Rules, other: Transaction -> bool) {
    && 1 <= rules.prm.nMaturity < rules.nMaxReorg && 2 * rules.prm.nMaturity + 2 <= rules.nLastPow
    && rules.prm.nMaturity < 500 && rules.prm.nMaxMoneyOut >= 1
    && forall tx :: other(tx)
  }

  /** The coin is minted, spent when mature, minted again under the same id, and spent again. */
  function ReuseBlock(rules: Rules, h: nat): seq<Placed> {
    var n := rules.prm.nMaturity;
    if h == 1 || h == n + 2 then MintBlock(1, h)
    else if h == n + 1 || h == 2 * n + 2 then PairBlock(h, Transfer(h, FromMint(0)))
    else BlankBlock(h)
  }

  function ReuseChain(rules: Rules): Chain {
    (h: nat) => ReuseBlock(rules, h)
  }

  ghost predicate ReuseCoins(m: Utxo, n: nat, rules: Rules) {
    var half := rules.prm.nMaturity + 1;
    && IdsBelow(m, 2 * n + 2) && (n == 0 ==> m == map[])
    && (0 < n < half ==> 1 in m && m[1] == Minted(1, 1))
    && (n == half ==> 1 !in m)
    && (half < n < 2 * half ==> 1 in m && m[1] == Minted(1, half + 1))
  }

  ghost predicate ReuseStep(h: nat, rules: Rules, other: Transaction -> bool) {
    && Fits(ReuseChain(rules), h, rules, other) && ReuseCoins(CoinsAfter(ReuseChain(rules), h), h, rules)
    && SpentBy(ReuseBlock(rules, h)) ==
       if h == rules.prm.nMaturity + 1 || h == 2 * rules.prm.nMaturity + 2 then {OutPoint(1, 0)} else {}
  }

  lemma MintReused(h: nat, rules: Rules, other: Transaction -> bool)
    requires Reusing(rules, other) && (h == 1 || h == rules.prm.nMaturity + 2)
    requires ReuseCoins(CoinsAfter(ReuseChain(rules), h - 1), h - 1, rules)
    ensures ReuseStep(h, rules, other)
  {
    hide Fits, SpentBy, GetBlockValue, CoinsAfter;
    RewardLeft(h - 1, rules.main);
    MintNext(ReuseChain(rules), 1, h, rules, other);
  }

  lemma RewardLeft(h: nat, main: bool)
    requires h <= 501
    ensures GetBlockValue(h, main) >= 1
  {
  }

  lemma BlankReused(h: nat, rules: Rules, other: Transaction -> bool)
    requires Reusing(rules, other) && 1 < h < 2 * rules.prm.nMaturity + 2
    requires h != rules.prm.nMaturity + 1 && h != rules.prm.nMaturity + 2
    requires ReuseCoins(CoinsAfter(ReuseChain(rules), h - 1), h - 1, rules)
    ensures ReuseStep(h, rules, other)
  {
    hide Fits, SpentBy, CoinsAfter;
    BlankNext(ReuseChain(rules), h, rules, other);
  }

  lemma TransferReused(h: nat, rules: Rules, other: Transaction -> bool)
    requires Reusing(rules, other) && (h == rules.prm.nMaturity + 1 || h == 2 * rules.prm.nMaturity + 2)
    requires ReuseCoins(CoinsAfter(ReuseChain(rules), h - 1), h - 1, rules)
    ensures ReuseStep(h, rules, other)
  {
    hide Fits, SpentBy, Payable, CanSpendAll, SpendAll, FromTx, CoinsAfter;
    var m, tx := CoinsAfter(ReuseChain(rules), h - 1), Transfer(h, FromMint(0));
    var since := m[1].nHeight;
    SpendsMint(m, since);
    SpendsMint(m[2 * h := Blanked(h)], since);
    TransferMade(h, tx.vin);
    MintIsPayable(m, 0, tx, h, since, rules, other);
    PairNext(ReuseChain(rules), h, tx, since, rules, other);
    FromMintSpends(0);
  }

  lemma {:induction false} ReuseFits(n: nat, rules: Rules, other: Transaction -> bool)
    requires Reusing(rules, other) && n <= 2 * rules.prm.nMaturity + 2
    ensures ReuseCoins(CoinsAfter(ReuseChain(rules), n), n, rules)
    ensures forall h :: 1 <= h <= n ==> ReuseStep(h, rules, other)
    ensures SpentUpTo(ReuseChain(rules), n) == if n <= rules.prm.nMaturity then {} else {OutPoint(1, 0)}
  {
    hide ReuseCoins, ReuseBlock, SpentBy, Fits;
    if n == 0 {
      NoCoinsYet(rules);
    } else {
      var half := rules.prm.nMaturity + 1;
      ReuseFits(n - 1, rules, other);
      if n == 1 || n == half + 1 {
        MintReused(n, rules, other);
      } else if n == half || n == 2 * half {
        TransferReused(n, rules, other);
      } else {
        BlankReused(n, rules, other);
      }
    }
  }

  lemma NoCoinsYet(rules: Rules)
    ensures ReuseCoins(CoinsAfter(ReuseChain(rules), 0), 0, rules)
  {
  }

  /** The run up to the second spend: the map is exact so far, and it lists the outpoint to be spent next. */
  lemma ReachReuse(rules: Rules, other: Transaction -> bool) returns (before: seq<Op>)
    requires Reusing(rules, other)
    ensures var n := 2 * rules.prm.nMaturity + 1;
            && On(before, ReuseChain(rules), n, {}, n, rules, other) && Unrecorded(Genesis, before, rules, other)
            && var st := Run(Genesis, before, rules, other);
               Inv(st, rules, other) && Exact(st, rules)
               && OutPoint(1, 0) in st.stakeSpent && st.stakeSpent[OutPoint(1, 0)] == rules.prm.nMaturity + 1
  {
    hide Run, Runnable, Unrecorded, Inv, Apart, ExactThroughout, CoinsAfter, SpentBy, Fits, ReuseCoins, ReuseBlock,
         SpentUpTo, DropStake, StakeSound, FreshInv;
    var n, chain := 2 * rules.prm.nMaturity + 1, ReuseChain(rules);
    ReuseFits(n, rules, other);
    forall h | 1 <= h <= n
      ensures Fits(chain, h, rules, other) && SpentUpTo(chain, h - 1) !! SpentBy(chain(h))
    {
      ReuseFits(h - 1, rules, other);
      assert ReuseStep(h, rules, other);
    }
    before := Climb(chain, n, rules, other);
    GenesisInv(rules, other);
    GenesisStakes(rules);
    RunKeepsInv(Genesis, before, rules, other);
    RunExactly(Genesis, before, rules, other);
    var k, st := rules.prm.nMaturity, Run(Genesis, before, rules, other);
    assert ReuseStep(k + 1, rules, other);
    assert st.frames[k].txs == chain(k + 1);
    assert OutPoint(1, 0) in SpentSets(st.frames)[k];
  }

  /**
   * Without refusals, but with the id of a spent coinbase used again, as BIP 30 permits: the map is
   * exact up to the last block, which does not meet the guard, and after it an input is missing.
   */
  lemma ReuseRun(rules: Rules, other: Transaction -> bool) returns (before: seq<Op>, txs: seq<Placed>)
    requires Reusing(rules, other)
    ensures Runnable(Genesis, before + [Connect(txs)], rules, other) && Runnable(Genesis, before, rules, other)
    ensures Unrecorded(Genesis, before, rules, other) && !InsertsAll(Run(Genesis, before, rules, other), txs, rules)
    ensures var st := Run(Genesis, before + [Connect(txs)], rules, other);
            && st.refused == {} && |st.frames| == st.nHighest == 2 * rules.prm.nMaturity + 2
            && SpentSets(st.frames)[|st.frames| - 1] == {OutPoint(1, 0)}
            && OutPoint(1, 0) in st.stakeSpent && st.stakeSpent[OutPoint(1, 0)] == rules.prm.nMaturity + 1
            && !StakeAgrees(SpentSets(st.frames), st.stakeSpent, st.nHighest - rules.nMaxReorg)
  {
    hide Run, Runnable, Unrecorded, Inv, CoinsAfter, SpentBy, BlockFits, MintAllowed, ReuseCoins, ReuseBlock,
         DropStake, Step, Enabled, Exact, UndoRecords, ApplyTxs, Connectable;
    var n, chain := 2 * rules.prm.nMaturity + 1, ReuseChain(rules);
    before := ReachReuse(rules, other);
    txs := chain(n + 1);
    var st := Run(Genesis, before, rules, other);
    ReuseFits(n + 1, rules, other);
    assert ReuseStep(n + 1, rules, other);
    DropNothing(CoinsAfter(chain, n));
    FitsIsEnabled(st, txs, rules, other);
    Extend(Genesis, before, Connect(txs), rules, other);
    ConnectShape(st, txs, rules, other);
    var r := Run(Genesis, before + [Connect(txs)], rules, other);
    SpentSetsAppend(st.frames, r.frames[|st.frames|]);
    assert OutPoint(1, 0) in r.stakeSpent && r.stakeSpent[OutPoint(1, 0)] == rules.prm.nMaturity + 1;
    assert OutPoint(1, 0) in SpentSets(r.frames)[n];
  }
}
