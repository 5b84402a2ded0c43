/** Runs of block connections and disconnections: the coins, the supply and the recently spent stakes. */
module ChainRuns {
  import opened Transactions
  import opened Common
  import opened Coins
  import opened CoinsView
  import opened BlockUndo
  import opened BlockRules
  import opened MoneySupply

  // ---- views that differ only in coinstake flags that were lost ----

  ghost predicate LostFlags(m: Utxo, m': Utxo) {
    m.Keys == m'.Keys && forall t :: t in m ==> m'[t] == m[t] || m'[t] == m[t].(fCoinStake := false)
  }

  lemma LostFlagsIsDrop(m: Utxo, m': Utxo) returns (lost: set<Hash>)
    requires LostFlags(m, m')
    ensures m' == DropStake(m, lost)
  {
    lost := set t | t in m && m'[t] != m[t];
  }

  lemma DropIsLostFlags(m: Utxo, lost: set<Hash>)
    ensures LostFlags(m, DropStake(m, lost))
    ensures GoodUtxo(m) ==> GoodUtxo(DropStake(m, lost))
  {
  }

  lemma {:induction false} DropKeepsTotal(m: Utxo, lost: set<Hash>)
    ensures Total(DropStake(m, lost)) == Total(m)
    decreases |m|
  {
    if m != map[] {
      var t :| t in m;
      TotalRemove(m, t);
      TotalRemove(DropStake(m, lost), t);
      assert DropStake(m, lost) - {t} == DropStake(m - {t}, lost);
      DropKeepsTotal(m - {t}, lost);
    }
  }

  // ---- outpoints that were spent ----

  ghost function OutPointsOf(vin: seq<TxIn>): set<OutPoint> {
    set i | 0 <= i < |vin| :: vin[i].prevout
  }

  ghost function SpentBy(txs: seq<Placed>): set<OutPoint> {
    if txs == [] then {} else OutPointsOf(InputsOf(txs[0].tx)) + SpentBy(txs[1..])
  }

  ghost predicate SpentGone(spent: set<OutPoint>, m: Utxo) {
    forall o :: o in spent ==> !CanSpend(m, o)
  }

  /** Transaction hashes are not reused: no transaction recreates one whose outputs were spent. */
  ghost predicate TxidsNew(spent: set<OutPoint>, txs: seq<Placed>)
    decreases |txs|
  {
    txs == [] ||
    var spent1 := spent + OutPointsOf(InputsOf(txs[0].tx));
    (forall o :: o in spent1 ==> o.hash != txs[0].tx.hash) && TxidsNew(spent1, txs[1..])
  }

  lemma SpendIsGone(m: Utxo, out: OutPoint, o: OutPoint)
    requires CanSpend(m, out)
    ensures o == out || !CanSpend(m, o) ==> !CanSpend(SpendInput(m, out), o)
  {
    CleanedFacts(m[out.hash].(vout := m[out.hash].vout[out.n := NullTxOut]));
    CleanedFacts(m[out.hash].AfterSpend(out.n));
  }

  lemma {:induction false} InputsAreGone(m: Utxo, vin: seq<TxIn>, spent: set<OutPoint>)
    requires CanSpendAll(m, vin) && SpentGone(spent, m)
    ensures SpentGone(spent + OutPointsOf(vin), SpendAll(m, vin))
    ensures spent !! OutPointsOf(vin)
    decreases |vin|
  {
    if vin != [] {
      var out := vin[0].prevout;
      var spent1 := spent + {out};
      forall o | o in spent1
        ensures !CanSpend(SpendInput(m, out), o)
      {
        SpendIsGone(m, out, o);
      }
      InputsAreGone(SpendInput(m, out), vin[1..], spent1);
      OutPointsSplit(vin);
      assert spent + OutPointsOf(vin) == spent1 + OutPointsOf(vin[1..]);
    } else {
      assert spent + OutPointsOf(vin) == spent;
    }
  }

  lemma OutPointsSplit(vin: seq<TxIn>)
    requires vin != []
    ensures OutPointsOf(vin) == {vin[0].prevout} + OutPointsOf(vin[1..])
  {
    forall o | o in OutPointsOf(vin)
      ensures o in {vin[0].prevout} + OutPointsOf(vin[1..])
    {
      var i :| 0 <= i < |vin| && vin[i].prevout == o;
      if i > 0 { assert vin[1..][i - 1].prevout == o; }
    }
  }

  /** What a block spends is gone afterwards, and was not spent before. */
  lemma {:induction false} SpentStaysGone(m: Utxo, txs: seq<Placed>, spent: set<OutPoint>)
    requires Connectable(m, txs) && SpentGone(spent, m) && TxidsNew(spent, txs)
    ensures SpentGone(spent + SpentBy(txs), ApplyTxs(m, txs))
    ensures spent !! SpentBy(txs)
    decreases |txs|
  {
    if txs == [] {
      assert spent + SpentBy(txs) == spent;
    } else {
      var tx := txs[0].tx;
      var spent1 := spent + OutPointsOf(InputsOf(tx));
      InputsAreGone(m, InputsOf(tx), spent);
      SpentStaysGone(ApplyTx(m, tx, txs[0].nHeight), txs[1..], spent1);
      assert spent + SpentBy(txs) == spent1 + SpentBy(txs[1..]);
    }
  }

  // ---- mapStakeSpent ----

  type StakeSpent = map<OutPoint, int>

  ghost function Recorded(s: StakeSpent, spent: set<OutPoint>, nHeight: int): StakeSpent {
    map o | o in s.Keys + spent :: if o in s then s[o] else nHeight
  }

  ghost function Pruned(s: StakeSpent, cutoff: int): StakeSpent {
    map o | o in s && s[o] >= cutoff :: s[o]
  }

  /**
   * spent[k] is what the active block at height k + 1 spends: every entry names an input of the
   * block at its height, and every input from the cutoff on is there.
   */
  ghost predicate StakeAgrees(spent: seq<set<OutPoint>>, s: StakeSpent, cutoff: int) {
    StakeSound(spent, s) &&
    forall k, o :: 0 <= k < |spent| && k + 1 >= cutoff && o in spent[k] ==> o in s && s[o] == k + 1
  }

  ghost predicate StakeSound(spent: seq<set<OutPoint>>, s: StakeSpent) {
    forall o :: o in s ==> 1 <= s[o] <= |spent| && o in spent[s[o] - 1]
  }

  /**
   * From the cutoff on the map has, at their heights, the inputs of exactly the blocks at other
   * heights than those in `refused`.
   */
  ghost predicate StakeExact(spent: seq<set<OutPoint>>, s: StakeSpent, cutoff: int, refused: set<int>) {
    && StakeSound(spent, s)
    && forall k, o :: 0 <= k < |spent| && k + 1 >= cutoff && o in spent[k] ==>
                        (k + 1 !in refused <==> o in s && s[o] == k + 1)
  }

  /** What a block spends from the cutoff on, no block above it spends again, unless it was refused. */
  ghost predicate Apart(spent: seq<set<OutPoint>>, cutoff: int, refused: set<int>) {
    forall k, j :: 0 <= k < j < |spent| && k + 1 >= cutoff && k + 1 !in refused ==> spent[k] !! spent[j]
  }

  /** insert adds every input at the block's height: the map has none of them yet. */
  ghost predicate Unlisted(s: StakeSpent, more: set<OutPoint>, nHeight: int, cutoff: int) {
    nHeight >= cutoff ==> more !! s.Keys
  }

  lemma RecordKeepsSound(spent: seq<set<OutPoint>>, s: StakeSpent, more: set<OutPoint>, pruned: int)
    requires StakeSound(spent, s)
    ensures StakeSound(spent + [more], Pruned(Recorded(s, more, |spent| + 1), pruned))
  {
    forall o | o in s
      ensures (spent + [more])[s[o] - 1] == spent[s[o] - 1]
    {
    }
  }

  /** Connecting a block keeps the map exact if and only if insert adds each of its inputs. */
  lemma RecordExactly(spent: seq<set<OutPoint>>, s: StakeSpent, cutoff: int, refused: set<int>,
                      more: set<OutPoint>, cutoff': int, pruned: int)
    requires StakeExact(spent, s, cutoff, refused) && cutoff <= cutoff' && pruned <= cutoff'
    requires |spent| + 1 !in refused
    ensures StakeExact(spent + [more], Pruned(Recorded(s, more, |spent| + 1), pruned), cutoff', refused)
            <==> Unlisted(s, more, |spent| + 1, cutoff')
  {
    var h := |spent| + 1;
    var spent', s' := spent + [more], Pruned(Recorded(s, more, h), pruned);
    RecordKeepsSound(spent, s, more, pruned);
    if Unlisted(s, more, h, cutoff') {
      forall k, o | 0 <= k < |spent'| && k + 1 >= cutoff' && o in spent'[k]
        ensures k + 1 !in refused <==> o in s' && s'[o] == k + 1
      {
        if k < |spent| { assert o in spent[k]; }
      }
    } else {
      var o :| o in more && o in s;
      assert o in s' ==> s'[o] <= |spent|;
      assert |spent| + 1 >= cutoff' && o in spent'[|spent|] && spent' == spent + [more];
    }
  }

  lemma RecordKeepsApart(spent: seq<set<OutPoint>>, s: StakeSpent, cutoff: int, refused: set<int>,
                         more: set<OutPoint>, cutoff': int)
    requires StakeExact(spent, s, cutoff, refused) && Apart(spent, cutoff, refused) && cutoff <= cutoff'
    requires Unlisted(s, more, |spent| + 1, cutoff')
    ensures Apart(spent + [more], cutoff', refused)
  {
    forall k, j | 0 <= k < j < |spent + [more]| && k + 1 >= cutoff' && k + 1 !in refused
      ensures (spent + [more])[k] !! (spent + [more])[j]
    {
      if j == |spent| {
        forall o | o in spent[k]
          ensures o !in more
        {
          assert o in s;
        }
      }
    }
  }

  lemma EraseKeepsSound(spent: seq<set<OutPoint>>, s: StakeSpent, last: set<OutPoint>)
    requires StakeSound(spent + [last], s)
    ensures StakeSound(spent, s - last)
  {
    forall o | o in s - last
      ensures s[o] <= |spent| && o in spent[s[o] - 1]
    {
      assert o in (spent + [last])[s[o] - 1];
    }
  }

  lemma EraseKeeps(spent: seq<set<OutPoint>>, s: StakeSpent, cutoff: int, refused: set<int>, last: set<OutPoint>)
    requires StakeExact(spent + [last], s, cutoff, refused) && Apart(spent + [last], cutoff, refused)
    ensures StakeExact(spent, s - last, cutoff, refused) && Apart(spent, cutoff, refused)
  {
    var all := spent + [last];
    EraseKeepsSound(spent, s, last);
    forall k, o | 0 <= k < |spent| && k + 1 >= cutoff && o in spent[k]
      ensures k + 1 !in refused <==> o in s - last && s[o] == k + 1
    {
      assert o in all[k];
      if k + 1 !in refused { assert all[k] !! all[|spent|]; }
    }
    forall k, j | 0 <= k < j < |spent| && k + 1 >= cutoff && k + 1 !in refused
      ensures spent[k] !! spent[j]
    {
      assert all[k] !! all[j];
    }
  }

  /** A refused disconnection erases the inputs of a tip that stays. */
  lemma RefusalKeeps(spent: seq<set<OutPoint>>, s: StakeSpent, cutoff: int, refused: set<int>, last: set<OutPoint>)
    requires StakeExact(spent + [last], s, cutoff, refused) && Apart(spent + [last], cutoff, refused)
    ensures var h := |spent| + 1;
            && StakeExact(spent + [last], s - last, cutoff, refused + {h})
            && Apart(spent + [last], cutoff, refused + {h})
  {
    var all, h := spent + [last], |spent| + 1;
    forall k, o | 0 <= k < |all| && k + 1 >= cutoff && o in all[k]
      ensures k + 1 !in refused + {h} <==> o in s - last && s[o] == k + 1
    {
      if k < |spent| && k + 1 !in refused { assert all[k] !! all[|spent|]; }
    }
  }

  /** Nothing is missing exactly when no refusal lies at or above the cutoff. */
  lemma ExactAgrees(spent: seq<set<OutPoint>>, s: StakeSpent, cutoff: int, refused: set<int>)
    requires StakeExact(spent, s, cutoff, refused)
    requires forall h :: h in refused ==> 1 <= h <= |spent| && spent[h - 1] != {}
    ensures StakeAgrees(spent, s, cutoff) <==> forall h :: h in refused ==> h < cutoff
  {
    if h :| h in refused && h >= cutoff {
      var o :| o in spent[h - 1];
      assert !(o in s && s[o] == h);
    }
  }

  // ---- the state of a run ----

  /** A connected block: the coins it was connected to, its transactions, its undo data, the supply after it. */
  datatype Frame = Frame(base: Utxo, txs: seq<Placed>, undo: seq<seq<TxInUndo>>, nMoneySupply: int)

  /** `refused` is history: the heights of tips that could not be disconnected. */
  datatype State = State(frames: seq<Frame>, utxo: Utxo, stakeSpent: StakeSpent, nHighest: nat, refused: set<int>)

  datatype Rules = Rules(prm: Params, main: bool, nMaxReorg: nat, nLastPow: nat)

  /** Only genesis: its transactions are not connected. */
  const Genesis := State([], map[], map[], 0, {})

  ghost function Supply(frames: seq<Frame>): int {
    if frames == [] then 0 else frames[|frames| - 1].nMoneySupply
  }

  ghost function AllSpent(frames: seq<Frame>): set<OutPoint> {
    if frames == [] then {} else AllSpent(frames[..|frames| - 1]) + SpentBy(frames[|frames| - 1].txs)
  }

  /** The mint limit of a block whose parent has the given height; fees go to the miner only under proof of work. */
  ghost predicate MintAllowed(m: Utxo, txs: seq<Placed>, nPrevHeight: int, main: bool)
    requires Connectable(m, txs)
  {
    var fees := BlockFees(m, txs);
    BlockValueOut(txs) - BlockValueIn(m, txs) + fees
    <= GetBlockValue(nPrevHeight, main) + (if IsProofOfStake(txs) then 0 else fees)
  }

  ghost predicate BlockFits(m: Utxo, txs: seq<Placed>, nHeight: int, rules: Rules, other: Transaction -> bool) {
    && CheckedTxs(txs) && InOrder(txs) && InPeriod(txs, nHeight, rules.nLastPow)
    && (forall i :: 0 <= i < |txs| ==> txs[i].nHeight == nHeight)
    && TxsAccepted(m, txs, rules.prm, other)
    && Connectable(m, txs)
  }

  datatype Op = Connect(txs: seq<Placed>) | Disconnect

  ghost predicate Enabled(st: State, op: Op, rules: Rules, other: Transaction -> bool) {
    match op
    case Connect(txs) =>
      && BlockFits(st.utxo, txs, |st.frames| + 1, rules, other)
      && MintAllowed(st.utxo, txs, |st.frames|, rules.main)
    case Disconnect =>
      st.frames != [] && var f := st.frames[|st.frames| - 1]; UndoFits(f.txs, f.undo)
  }

  /** What DisconnectBlock reports for the tip. */
  ghost predicate TipClean(st: State)
    requires st.frames != [] && UndoFits(st.frames[|st.frames| - 1].txs, st.frames[|st.frames| - 1].undo)
  {
    var f := st.frames[|st.frames| - 1]; UndoTxsClean(st.utxo, f.txs, f.undo)
  }

  /**
   * DisconnectTip keeps the view only when the report is clean. Otherwise the tip and its coins
   * stay, but its inputs have already been erased from mapStakeSpent.
   */
  ghost function Step(st: State, op: Op, rules: Rules, other: Transaction -> bool): State
    requires Enabled(st, op, rules, other)
  {
    match op
    case Connect(txs) =>
      var h := |st.frames| + 1;
      var supply := Supply(st.frames) + BlockValueOut(txs) - BlockValueIn(st.utxo, txs);
      State(st.frames + [Frame(st.utxo, txs, UndoRecords(st.utxo, txs), supply)],
            ApplyTxs(st.utxo, txs),
            Pruned(Recorded(st.stakeSpent, SpentBy(txs), h), h - rules.nMaxReorg),
            if h > st.nHighest then h else st.nHighest, st.refused)
    case Disconnect =>
      var f := st.frames[|st.frames| - 1];
      if TipClean(st) then
        State(st.frames[..|st.frames| - 1], UndoTxs(st.utxo, f.txs, f.undo), st.stakeSpent - SpentBy(f.txs),
              st.nHighest, st.refused)
      else
        st.(stakeSpent := st.stakeSpent - SpentBy(f.txs), refused := st.refused + {|st.frames|})
  }

  // ---- the mint limit, in terms of what comes in and goes out ----

  /** Under proof of work the miner takes the fees: a block may put out no more than it takes in and the reward. */
  lemma WorkMint(m: Utxo, txs: seq<Placed>, nPrevHeight: int, main: bool)
    requires Connectable(m, txs) && !IsProofOfStake(txs)
    ensures MintAllowed(m, txs, nPrevHeight, main) <==>
              BlockValueOut(txs) <= BlockValueIn(m, txs) + GetBlockValue(nPrevHeight, main)
  {
  }

  /** Under proof of stake the fees are destroyed: the coinstake alone may put out the reward more than it takes in. */
  lemma StakeMint(m: Utxo, txs: seq<Placed>, nPrevHeight: int, main: bool)
    requires Connectable(m, txs) && InOrder(txs) && IsProofOfStake(txs)
    ensures CanSpendAll(m, InputsOf(txs[0].tx))
    ensures MintAllowed(m, txs, nPrevHeight, main) <==>
              ValueOut(txs[1].tx.vout) <=
              TxValueIn(ApplyTx(m, txs[0].tx, txs[0].nHeight), txs[1].tx) + GetBlockValue(nPrevHeight, main)
  {
    var m1 := ApplyTx(m, txs[0].tx, txs[0].nHeight);
    var m2 := ApplyTx(m1, txs[1].tx, txs[1].nHeight);
    var rest := txs[1..][1..];
    assert Connectable(m1, txs[1..]) && Connectable(m2, rest);
    FeesAreTheRest(m2, rest);
    OneEmptyOutput(txs[0].tx);
    assert BlockValueOut(txs[1..]) == ValueOut(txs[1].tx.vout) + BlockValueOut(rest);
    assert BlockValueIn(m1, txs[1..]) == TxValueIn(m1, txs[1].tx) + BlockValueIn(m2, rest);
    assert BlockFees(m1, txs[1..]) == BlockFees(m2, rest);
  }

  lemma OneEmptyOutput(tx: Transaction)
    requires |tx.vout| == 1 && tx.vout[0].IsEmpty()
    ensures ValueOut(tx.vout) == 0
  {
    assert ValueOut(tx.vout[1..]) == 0;
  }

  /** Without a coinbase or coinstake all that comes in and does not go out is fees. */
  lemma {:induction false} FeesAreTheRest(m: Utxo, txs: seq<Placed>)
    requires Connectable(m, txs) && forall i :: 0 <= i < |txs| ==> !txs[i].tx.IsCoinBase() && !txs[i].tx.IsCoinStake()
    ensures BlockFees(m, txs) == BlockValueIn(m, txs) - BlockValueOut(txs)
    decreases |txs|
  {
    hide ApplyTx, TxValueIn, ValueOut, CanSpendAll, SpendAll;
    if txs != [] { FeesAreTheRest(ApplyTx(m, txs[0].tx, txs[0].nHeight), txs[1..]); }
  }

  // ---- the invariant ----

  ghost predicate FrameOk(f: Frame, before: seq<Frame>, rules: Rules, other: Transaction -> bool) {
    && GoodUtxo(f.base)
    && BlockFits(f.base, f.txs, |before| + 1, rules, other)
    && f.undo == UndoRecords(f.base, f.txs)
    && f.nMoneySupply == Supply(before) + BlockValueOut(f.txs) - BlockValueIn(f.base, f.txs)
    && MintAllowed(f.base, f.txs, |before|, rules.main)
  }

  /** The coins right after the last frame was connected. */
  ghost function After(frames: seq<Frame>): Utxo {
    if frames == [] then map[] else
    var f := frames[|frames| - 1];
    if Connectable(f.base, f.txs) then ApplyTxs(f.base, f.txs) else map[]
  }

  ghost predicate FramesOk(frames: seq<Frame>, rules: Rules, other: Transaction -> bool) {
    frames == [] ||
    var before, f := frames[..|frames| - 1], frames[|frames| - 1];
    && FramesOk(before, rules, other)
    && FrameOk(f, before, rules, other)
    && LostFlags(After(before), f.base)
  }

  ghost function SpentSets(frames: seq<Frame>): seq<set<OutPoint>> {
    seq(|frames|, i requires 0 <= i < |frames| => SpentBy(frames[i].txs))
  }

  /** The coins the block at height h left, as they are now or when the next block was connected. */
  ghost function Above(st: State, h: int): Utxo
    requires 1 <= h <= |st.frames|
  {
    if h == |st.frames| then st.utxo else st.frames[h].base
  }

  ghost predicate Unclean(st: State, h: int) {
    && 1 <= h <= |st.frames| && UndoFits(st.frames[h - 1].txs, st.frames[h - 1].undo)
    && !UndoTxsClean(Above(st, h), st.frames[h - 1].txs, st.frames[h - 1].undo)
  }

  ghost predicate Inv(st: State, rules: Rules, other: Transaction -> bool) {
    && FramesOk(st.frames, rules, other)
    && GoodUtxo(st.utxo)
    && LostFlags(After(st.frames), st.utxo)
    && |st.frames| <= st.nHighest
    && forall h :: h in st.refused ==> Unclean(st, h)
  }

  // ---- one step ----

  lemma {:induction false} TxsKeepGood(m: Utxo, txs: seq<Placed>)
    requires GoodUtxo(m) && Connectable(m, txs)
    ensures GoodUtxo(ApplyTxs(m, txs))
    decreases |txs|
  {
    if txs != [] {
      ApplyKeepsGood(m, txs[0].tx, txs[0].nHeight);
      TxsKeepGood(ApplyTx(m, txs[0].tx, txs[0].nHeight), txs[1..]);
    }
  }

  lemma ConnectShape(st: State, txs: seq<Placed>, rules: Rules, other: Transaction -> bool)
    requires Enabled(st, Connect(txs), rules, other)
    ensures Connectable(st.utxo, txs)
    ensures var r := Step(st, Connect(txs), rules, other);
            && |r.frames| == |st.frames| + 1 && r.frames[..|st.frames|] == st.frames
            && r.frames == st.frames + [r.frames[|st.frames|]]
            && r.frames[|st.frames|].base == st.utxo && r.frames[|st.frames|].txs == txs
            && r.frames[|st.frames|].undo == UndoRecords(st.utxo, txs)
            && r.utxo == ApplyTxs(st.utxo, txs) && r.refused == st.refused
            && r.nHighest == Max(|r.frames|, st.nHighest)
            && r.stakeSpent == Pruned(Recorded(st.stakeSpent, SpentBy(txs), |r.frames|), |r.frames| - rules.nMaxReorg)
  {
    hide Pruned, Recorded, SpentBy, MintAllowed, TxsAccepted, UndoRecords, ApplyTxs, CheckedTxs, Connectable;
  }

  lemma FrameFits(st: State, txs: seq<Placed>, rules: Rules, other: Transaction -> bool)
    requires Inv(st, rules, other) && Enabled(st, Connect(txs), rules, other)
    ensures var r := Step(st, Connect(txs), rules, other);
            |r.frames| == |st.frames| + 1 && FrameOk(r.frames[|st.frames|], st.frames, rules, other)
  {
    hide ApplyTxs, UndoRecords, TxsAccepted, CheckedTxs, Connectable, GoodUtxo, Pruned, Recorded, SpentBy, Unclean,
         FramesOk, LostFlags, After, BlockFees, BlockValueIn, BlockValueOut, GetBlockValue;
    var r := Step(st, Connect(txs), rules, other);
    assert MintAllowed(st.utxo, txs, |st.frames|, rules.main);
  }

  lemma ConnectKeepsFrames(st: State, txs: seq<Placed>, rules: Rules, other: Transaction -> bool)
    requires Inv(st, rules, other) && Enabled(st, Connect(txs), rules, other)
    ensures var r := Step(st, Connect(txs), rules, other);
            FramesOk(r.frames, rules, other) && GoodUtxo(r.utxo) && LostFlags(After(r.frames), r.utxo)
  {
    hide Step, Enabled, FrameOk, Unclean, Connectable, ApplyTxs, UndoRecords, GoodUtxo, Pruned, Recorded, SpentBy;
    ConnectShape(st, txs, rules, other);
    FrameFits(st, txs, rules, other);
    TxsKeepGood(st.utxo, txs);
  }

  lemma ConnectKeeps(st: State, txs: seq<Placed>, rules: Rules, other: Transaction -> bool)
    requires Inv(st, rules, other) && Enabled(st, Connect(txs), rules, other)
    ensures Inv(Step(st, Connect(txs), rules, other), rules, other)
  {
    hide Step, Enabled, UndoTxsClean, FramesOk, GoodUtxo, Pruned, Recorded, SpentBy, UndoFits, LostFlags, After,
         ApplyTxs, UndoRecords, Connectable;
    ConnectShape(st, txs, rules, other);
    ConnectKeepsFrames(st, txs, rules, other);
    var r := Step(st, Connect(txs), rules, other);
    forall h | h in r.refused
      ensures Unclean(r, h)
    {
      assert Unclean(st, h) && r.frames[h - 1] == st.frames[h - 1] && Above(r, h) == Above(st, h);
    }
  }

  /** The tip's undo data fit, and tell what disconnecting it would do. */
  lemma TipRestores(st: State, rules: Rules, other: Transaction -> bool)
    requires Inv(st, rules, other) && st.frames != []
    ensures Enabled(st, Disconnect, rules, other)
    ensures var f := st.frames[|st.frames| - 1];
            && UndoFits(f.txs, f.undo)
            && LostFlags(f.base, UndoTxs(st.utxo, f.txs, f.undo)) && GoodUtxo(UndoTxs(st.utxo, f.txs, f.undo))
            && UndoTxsRestorable(st.utxo, f.txs, f.undo)
  {
    var before, f := st.frames[..|st.frames| - 1], st.frames[|st.frames| - 1];
    assert FrameOk(f, before, rules, other);
    var lost := LostFlagsIsDrop(ApplyTxs(f.base, f.txs), st.utxo);
    hide ApplyTxs, UndoTxs, UndoRecords, LostFlags, GoodUtxo, LostFrom, UndoTxsClean, LosesCoinStake;
    TxsRestored(f.base, f.txs, lost);
    DropIsLostFlags(f.base, LostFrom(f.base, f.txs, lost));
  }

  lemma LostFlagsChain(m0: Utxo, m1: Utxo, m2: Utxo)
    requires LostFlags(m0, m1) && LostFlags(m1, m2)
    ensures LostFlags(m0, m2)
  {
  }

  lemma LostInTwo(m: Utxo, now: Utxo, later: Utxo) returns (lost: set<Hash>, more: set<Hash>)
    requires LostFlags(m, now) && LostFlags(now, later)
    ensures now == DropStake(m, lost) && later == DropStake(m, lost + more)
  {
    lost := LostFlagsIsDrop(m, now);
    more := LostFlagsIsDrop(now, later);
  }

  /** A block that cannot be disconnected cleanly cannot be once more flags are lost, either. */
  lemma UncleanStays(f: Frame, now: Utxo, later: Utxo)
    requires GoodUtxo(f.base) && Connectable(f.base, f.txs) && f.undo == UndoRecords(f.base, f.txs)
    requires LostFlags(ApplyTxs(f.base, f.txs), now) && LostFlags(now, later)
    ensures UndoFits(f.txs, f.undo)
    ensures !UndoTxsClean(now, f.txs, f.undo) ==> !UndoTxsClean(later, f.txs, f.undo)
  {
    hide UndoTxs, UndoTxsClean, LosesCoinStake, LostFrom, DropStake, ApplyTxs, UndoRecords, GoodUtxo, LostFlags,
         UndoTxsRestorable, Connectable;
    var lost, more := LostInTwo(ApplyTxs(f.base, f.txs), now, later);
    TxsRestored(f.base, f.txs, lost);
    TxsRestored(f.base, f.txs, lost + more);
    LosesMore(f.base, f.txs, lost, lost + more);
  }

  lemma BelowTip(st: State, rules: Rules, other: Transaction -> bool)
    requires Inv(st, rules, other) && st.frames != []
    ensures var before, f := st.frames[..|st.frames| - 1], st.frames[|st.frames| - 1];
            FramesOk(before, rules, other) && LostFlags(After(before), f.base) && FrameOk(f, before, rules, other)
  {
    hide FrameOk, LostFlags, After, GoodUtxo, Unclean;
  }

  lemma CommitShape(st: State, rules: Rules, other: Transaction -> bool)
    requires st.frames != [] && Enabled(st, Disconnect, rules, other)
    ensures var r, f := Step(st, Disconnect, rules, other), st.frames[|st.frames| - 1];
            && UndoFits(f.txs, f.undo)
            && r.stakeSpent == st.stakeSpent - SpentBy(f.txs) && r.nHighest == st.nHighest
            && (TipClean(st) ==> r.frames == st.frames[..|st.frames| - 1] && r.utxo == UndoTxs(st.utxo, f.txs, f.undo)
                                 && r.refused == st.refused)
            && (!TipClean(st) ==> r.frames == st.frames && r.utxo == st.utxo && r.refused == st.refused + {|st.frames|})
            && (TipClean(st) <==> !Unclean(st, |st.frames|))
  {
    hide SpentBy, UndoTxs, UndoTxsClean;
  }

  /** The block below a disconnected tip stays as unclean as it was. */
  lemma BelowStaysUnclean(frames: seq<Frame>, f: Frame, now: Utxo, rules: Rules, other: Transaction -> bool)
    requires frames != [] && FramesOk(frames, rules, other) && LostFlags(After(frames), f.base)
    requires LostFlags(f.base, now)
    ensures var g := frames[|frames| - 1];
            UndoFits(g.txs, g.undo) && (!UndoTxsClean(f.base, g.txs, g.undo) ==> !UndoTxsClean(now, g.txs, g.undo))
  {
    var g := frames[|frames| - 1];
    assert FrameOk(g, frames[..|frames| - 1], rules, other);
    hide FramesOk, LostFlags, GoodUtxo, UndoTxsClean, UndoRecords, ApplyTxs, Connectable, UndoFits, TxsAccepted,
         MintAllowed;
    UncleanStays(g, f.base, now);
  }

  /** A committed disconnection: the tip had never been refused, and every refused block stays refused. */
  lemma CommitKeepsRefused(st: State, rules: Rules, other: Transaction -> bool)
    requires Inv(st, rules, other) && st.frames != [] && Enabled(st, Disconnect, rules, other) && TipClean(st)
    ensures forall h :: h in st.refused ==> h < |st.frames| && Unclean(Step(st, Disconnect, rules, other), h)
  {
    hide Step, Enabled, TipClean, UndoTxsClean, UndoTxs, UndoFits, LostFlags, FramesOk, FrameOk, After, GoodUtxo,
         SpentBy, UndoTxsRestorable, Connectable, ApplyTxs;
    var r, before, f := Step(st, Disconnect, rules, other), st.frames[..|st.frames| - 1], st.frames[|st.frames| - 1];
    CommitShape(st, rules, other);
    TipRestores(st, rules, other);
    BelowTip(st, rules, other);
    if before != [] { BelowStaysUnclean(before, f, r.utxo, rules, other); }
    forall h | h in st.refused
      ensures h < |st.frames| && Unclean(r, h)
    {
      assert Unclean(st, h) && h != |st.frames|;
      assert r.frames[h - 1] == st.frames[h - 1];
    }
  }

  /** The tip can always be tried; committed or refused, the invariant is kept. */
  lemma DisconnectKeeps(st: State, rules: Rules, other: Transaction -> bool)
    requires Inv(st, rules, other) && st.frames != []
    ensures Enabled(st, Disconnect, rules, other)
    ensures Inv(Step(st, Disconnect, rules, other), rules, other)
  {
    hide Step, Enabled, TipClean, UndoTxsClean, UndoTxs, UndoFits, LostFlags, FramesOk, FrameOk, After, GoodUtxo,
         SpentBy, UndoTxsRestorable, Connectable, ApplyTxs;
    TipRestores(st, rules, other);
    CommitShape(st, rules, other);
    BelowTip(st, rules, other);
    var r, before, f := Step(st, Disconnect, rules, other), st.frames[..|st.frames| - 1], st.frames[|st.frames| - 1];
    if TipClean(st) {
      CommitKeepsRefused(st, rules, other);
      LostFlagsChain(After(before), f.base, r.utxo);
    } else {
      forall h | h in r.refused
        ensures Unclean(r, h)
      {
        if h in st.refused { assert Unclean(st, h); }
        assert Above(r, h) == Above(st, h);
      }
    }
  }

  /** Checkable beforehand: a disconnection is refused exactly when a coinstake of the tip has lost its flag. */
  lemma RefusedExactly(st: State, rules: Rules, other: Transaction -> bool)
    requires Inv(st, rules, other) && st.frames != [] && rules.prm.nMaturity > 0
    ensures Enabled(st, Disconnect, rules, other)
    ensures var txs := st.frames[|st.frames| - 1].txs;
            && (forall i :: 0 <= i < |txs| && txs[i].tx.IsCoinStake() ==> txs[i].tx.hash in st.utxo)
            && (TipClean(st) <==>
                  forall i :: 0 <= i < |txs| && txs[i].tx.IsCoinStake() ==> st.utxo[txs[i].tx.hash].fCoinStake)
  {
    hide Enabled, ApplyTxs, UndoTxs, UndoRecords, UndoTxsClean, LosesCoinStake, LostFrom, UndoTxsRestorable,
         TxsAccepted, Connectable, GoodUtxo, FramesOk, Unclean, MintAllowed;
    TipRestores(st, rules, other);
    BelowTip(st, rules, other);
    var f := st.frames[|st.frames| - 1];
    var m := ApplyTxs(f.base, f.txs);
    var lost := LostFlagsIsDrop(m, st.utxo);
    TxsRestored(f.base, f.txs, lost);
    AcceptedLoses(f.base, f.txs, |st.frames|, lost, rules.prm, other);
    forall i | 0 <= i < |f.txs| && f.txs[i].tx.IsCoinStake()
      ensures f.txs[i].tx.hash in st.utxo && (st.utxo[f.txs[i].tx.hash].fCoinStake <==> f.txs[i].tx.hash !in lost)
    {
      assert YoungStake(m, f.txs[i].tx.hash, |st.frames|);
    }
  }

  // ---- whole runs ----

  ghost predicate Runnable(st: State, ops: seq<Op>, rules: Rules, other: Transaction -> bool)
    decreases |ops|
  {
    ops == [] || (Enabled(st, ops[0], rules, other) && Runnable(Step(st, ops[0], rules, other), ops[1..], rules, other))
  }

  ghost function Run(st: State, ops: seq<Op>, rules: Rules, other: Transaction -> bool): State
    requires Runnable(st, ops, rules, other)
    decreases |ops|
  {
    if ops == [] then st else Run(Step(st, ops[0], rules, other), ops[1..], rules, other)
  }

  lemma GenesisInv(rules: Rules, other: Transaction -> bool)
    ensures Inv(Genesis, rules, other)
  {
  }

  /** Any run of connections and disconnections, refused ones included, keeps the invariant. */
  lemma {:induction false} RunKeepsInv(st: State, ops: seq<Op>, rules: Rules, other: Transaction -> bool)
    requires Inv(st, rules, other) && Runnable(st, ops, rules, other)
    ensures Inv(Run(st, ops, rules, other), rules, other)
    decreases |ops|
  {
    if ops != [] {
      match ops[0]
      case Connect(txs) =>
        ConnectKeeps(st, txs, rules, other);
        RunKeepsInv(Step(st, ops[0], rules, other), ops[1..], rules, other);
      case Disconnect =>
        DisconnectKeeps(st, rules, other);
        RunKeepsInv(Step(st, ops[0], rules, other), ops[1..], rules, other);
    }
  }

  /** A tip that was refused once is never disconnected, nor is anything below it. */
  lemma {:induction false} RefusedTipStays(st: State, ops: seq<Op>, h: int, rules: Rules, other: Transaction -> bool)
    requires Inv(st, rules, other) && Runnable(st, ops, rules, other) && h in st.refused
    ensures var r := Run(st, ops, rules, other);
            1 <= h <= |st.frames| && h <= |r.frames| && r.frames[..h] == st.frames[..h]
    decreases |ops|
  {
    hide FramesOk, GoodUtxo, LostFlags, After, UndoTxsClean, UndoFits, BlockFits, MintAllowed, SpentBy, UndoTxs, Supply;
    assert Unclean(st, h);
    if ops != [] {
      var r := Step(st, ops[0], rules, other);
      match ops[0] {
        case Connect(txs) => ConnectKeeps(st, txs, rules, other);
        case Disconnect =>
          DisconnectKeeps(st, rules, other);
          if TipClean(st) { CommitKeepsRefused(st, rules, other); }
      }
      assert h <= |r.frames| && r.frames[..h] == st.frames[..h];
      RefusedTipStays(r, ops[1..], h, rules, other);
    }
  }

  // ---- what the invariant says about money ----

  ghost function AllDropped(frames: seq<Frame>): int {
    if frames == [] then 0 else AllDropped(frames[..|frames| - 1]) + BlockDropped(frames[|frames| - 1].txs)
  }

  lemma {:induction false} SupplyOfFrames(frames: seq<Frame>, rules: Rules, other: Transaction -> bool)
    requires FramesOk(frames, rules, other)
    ensures Supply(frames) == Total(After(frames)) + AllDropped(frames)
    ensures Supply(frames) <= Emitted(|frames|, rules.main)
  {
    if frames != [] {
      var before, f := frames[..|frames| - 1], frames[|frames| - 1];
      SupplyOfFrames(before, rules, other);
      assert FrameOk(f, before, rules, other);
      var lost := LostFlagsIsDrop(After(before), f.base);
      DropKeepsTotal(After(before), lost);
      BlockConserves(f.base, f.txs, rules.prm, other);
      FeesNonnegative(f.base, f.txs, rules.prm, other);
    }
  }

  /**
   * After any run: the supply on the tip is what the coins hold plus what was dropped as
   * unspendable, and it never exceeds the schedule, nor 100,000,015 coins on the main net or 62,992,470 elsewhere.
   */
  lemma SupplyOfRun(ops: seq<Op>, rules: Rules, other: Transaction -> bool)
    requires Runnable(Genesis, ops, rules, other)
    ensures var st := Run(Genesis, ops, rules, other);
            && Supply(st.frames) == Total(st.utxo) + AllDropped(st.frames)
            && Supply(st.frames) <= Emitted(|st.frames|, rules.main)
            && Supply(st.frames) <= (if rules.main then 100_000_015 else 62_992_470) * COIN
  {
    GenesisInv(rules, other);
    RunKeepsInv(Genesis, ops, rules, other);
    var st := Run(Genesis, ops, rules, other);
    SupplyOfFrames(st.frames, rules, other);
    var lost := LostFlagsIsDrop(After(st.frames), st.utxo);
    DropKeepsTotal(After(st.frames), lost);
    EmissionTotal(|st.frames|, rules.main);
  }

  // ---- what a run says about recently spent stakes ----

  /** Looked up before the block is connected: insert adds each of its inputs, or none of them matters. */
  ghost predicate InsertsAll(st: State, txs: seq<Placed>, rules: Rules) {
    var h := |st.frames| + 1;
    Unlisted(st.stakeSpent, SpentBy(txs), h, Max(h, st.nHighest) - rules.nMaxReorg)
  }

  /** Each block of the run is connected while the map has none of its inputs, or is too deep to matter. */
  ghost predicate Unrecorded(st: State, ops: seq<Op>, rules: Rules, other: Transaction -> bool)
    requires Runnable(st, ops, rules, other)
    decreases |ops|
  {
    ops == [] ||
    (&& (ops[0].Connect? ==> InsertsAll(st, ops[0].txs, rules))
     && Unrecorded(Step(st, ops[0], rules, other), ops[1..], rules, other))
  }

  ghost predicate Exact(st: State, rules: Rules) {
    StakeExact(SpentSets(st.frames), st.stakeSpent, st.nHighest - rules.nMaxReorg, st.refused)
  }

  ghost predicate ExactThroughout(st: State, ops: seq<Op>, rules: Rules, other: Transaction -> bool)
    requires Runnable(st, ops, rules, other)
    decreases |ops|
  {
    Exact(st, rules) && (ops == [] || ExactThroughout(Step(st, ops[0], rules, other), ops[1..], rules, other))
  }

  ghost predicate StakeInv(st: State, rules: Rules) {
    Exact(st, rules) && Apart(SpentSets(st.frames), st.nHighest - rules.nMaxReorg, st.refused)
  }

  lemma SpentSetsAppend(frames: seq<Frame>, f: Frame)
    ensures SpentSets(frames + [f]) == SpentSets(frames) + [SpentBy(f.txs)]
    ensures |SpentSets(frames)| == |frames|
  {
    hide SpentBy;
  }

  lemma RefusedBelow(st: State, rules: Rules, other: Transaction -> bool)
    requires Inv(st, rules, other)
    ensures forall h :: h in st.refused ==> h <= |st.frames|
  {
    hide FramesOk, GoodUtxo, LostFlags, After, UndoTxsClean, UndoFits;
    forall h | h in st.refused
      ensures h <= |st.frames|
    {
      assert Unclean(st, h);
    }
  }

  /** With an exact map, connecting a block leaves it exact if and only if insert adds all the block's inputs. */
  lemma ConnectExactly(st: State, txs: seq<Placed>, rules: Rules, other: Transaction -> bool)
    requires Inv(st, rules, other) && Exact(st, rules) && Enabled(st, Connect(txs), rules, other)
    ensures Exact(Step(st, Connect(txs), rules, other), rules) <==> InsertsAll(st, txs, rules)
    ensures StakeInv(st, rules) && InsertsAll(st, txs, rules) ==> StakeInv(Step(st, Connect(txs), rules, other), rules)
  {
    hide Step, Enabled, ApplyTxs, UndoRecords, Connectable, SpentBy, Inv, StakeExact, Apart, Unlisted, Pruned,
         Recorded, SpentSets;
    var r := Step(st, Connect(txs), rules, other);
    ConnectShape(st, txs, rules, other);
    RefusedBelow(st, rules, other);
    SpentSetsAppend(st.frames, r.frames[|st.frames|]);
    RecordExactly(SpentSets(st.frames), st.stakeSpent, st.nHighest - rules.nMaxReorg, st.refused, SpentBy(txs),
                  r.nHighest - rules.nMaxReorg, |r.frames| - rules.nMaxReorg);
    if StakeInv(st, rules) && InsertsAll(st, txs, rules) {
      RecordKeepsApart(SpentSets(st.frames), st.stakeSpent, st.nHighest - rules.nMaxReorg, st.refused, SpentBy(txs),
                       r.nHighest - rules.nMaxReorg);
    }
  }

  /** Committed or refused, a disconnection leaves an exact map exact. */
  lemma DisconnectKeepsStakes(st: State, rules: Rules, other: Transaction -> bool)
    requires StakeInv(st, rules) && st.frames != [] && Enabled(st, Disconnect, rules, other)
    ensures StakeInv(Step(st, Disconnect, rules, other), rules)
  {
    hide Step, Enabled, TipClean, SpentBy, Unclean, StakeExact, Apart, SpentSets, UndoTxs;
    var before, f := st.frames[..|st.frames| - 1], st.frames[|st.frames| - 1];
    assert before + [f] == st.frames;
    CommitShape(st, rules, other);
    SpentSetsAppend(before, f);
    if TipClean(st) {
      EraseKeeps(SpentSets(before), st.stakeSpent, st.nHighest - rules.nMaxReorg, st.refused, SpentBy(f.txs));
    } else {
      RefusalKeeps(SpentSets(before), st.stakeSpent, st.nHighest - rules.nMaxReorg, st.refused, SpentBy(f.txs));
    }
  }

  /** The map is exact after each step of a run if and only if each block meets the guard when it is connected. */
  lemma {:induction false} RunExactly(st: State, ops: seq<Op>, rules: Rules, other: Transaction -> bool)
    requires Inv(st, rules, other) && StakeInv(st, rules) && Runnable(st, ops, rules, other)
    ensures ExactThroughout(st, ops, rules, other) <==> Unrecorded(st, ops, rules, other)
    ensures Unrecorded(st, ops, rules, other) ==> StakeInv(Run(st, ops, rules, other), rules)
    decreases |ops|
  {
    hide Inv, Exact, Apart, InsertsAll, Enabled, Step;
    if ops != [] {
      var r := Step(st, ops[0], rules, other);
      match ops[0] {
        case Connect(txs) =>
          ConnectKeeps(st, txs, rules, other);
          ConnectExactly(st, txs, rules, other);
        case Disconnect =>
          DisconnectNeedsTip(st, rules, other);
          DisconnectKeeps(st, rules, other);
          DisconnectKeepsStakes(st, rules, other);
      }
      if StakeInv(r, rules) {
        RunExactly(r, ops[1..], rules, other);
      }
    }
  }

  /** No entry is ever wrong, whatever the run connects: each names an input of the active block at its height. */
  lemma {:induction false} RunKeepsSound(st: State, ops: seq<Op>, rules: Rules, other: Transaction -> bool)
    requires StakeSound(SpentSets(st.frames), st.stakeSpent) && Runnable(st, ops, rules, other)
    ensures var r := Run(st, ops, rules, other); StakeSound(SpentSets(r.frames), r.stakeSpent)
    decreases |ops|
  {
    hide Enabled, Step, SpentBy, StakeSound, SpentSets;
    if ops != [] {
      StepKeepsSound(st, ops[0], rules, other);
      RunKeepsSound(Step(st, ops[0], rules, other), ops[1..], rules, other);
    }
  }

  lemma StepKeepsSound(st: State, op: Op, rules: Rules, other: Transaction -> bool)
    requires StakeSound(SpentSets(st.frames), st.stakeSpent) && Enabled(st, op, rules, other)
    ensures var r := Step(st, op, rules, other); StakeSound(SpentSets(r.frames), r.stakeSpent)
  {
    hide Enabled, Step, SpentBy, StakeSound, SpentSets, Pruned, Recorded, TipClean, Unclean, UndoTxs, ApplyTxs,
         UndoRecords, Connectable;
    var r := Step(st, op, rules, other);
    match op {
      case Connect(txs) =>
        ConnectShape(st, txs, rules, other);
        SpentSetsAppend(st.frames, r.frames[|st.frames|]);
        RecordKeepsSound(SpentSets(st.frames), st.stakeSpent, SpentBy(txs), |r.frames| - rules.nMaxReorg);
      case Disconnect =>
        DisconnectNeedsTip(st, rules, other);
        var before, f := st.frames[..|st.frames| - 1], st.frames[|st.frames| - 1];
        assert before + [f] == st.frames;
        CommitShape(st, rules, other);
        SpentSetsAppend(before, f);
        EraseKeepsSound(SpentSets(before), st.stakeSpent, SpentBy(f.txs));
        FewerIsSound(SpentSets(st.frames), st.stakeSpent, SpentBy(f.txs));
    }
  }

  /** Nothing older than the depth is left: PruneBelow follows each block, and going back only makes entries younger. */
  ghost predicate NoneOlder(st: State, rules: Rules) {
    forall o :: o in st.stakeSpent ==> st.stakeSpent[o] >= |st.frames| - rules.nMaxReorg
  }

  lemma StepPrunes(st: State, op: Op, rules: Rules, other: Transaction -> bool)
    requires Enabled(st, op, rules, other)
    ensures op.Connect? || NoneOlder(st, rules) ==> NoneOlder(Step(st, op, rules, other), rules)
  {
    hide Enabled, Step, SpentBy, TipClean, Unclean, UndoTxs, ApplyTxs, UndoRecords, Connectable;
    match op {
      case Connect(txs) => ConnectShape(st, txs, rules, other);
      case Disconnect =>
        DisconnectNeedsTip(st, rules, other);
        CommitShape(st, rules, other);
    }
  }

  lemma {:induction false} RunPrunes(st: State, ops: seq<Op>, rules: Rules, other: Transaction -> bool)
    requires NoneOlder(st, rules) && Runnable(st, ops, rules, other)
    ensures NoneOlder(Run(st, ops, rules, other), rules)
    decreases |ops|
  {
    hide Enabled, Step, NoneOlder;
    if ops != [] {
      StepPrunes(st, ops[0], rules, other);
      RunPrunes(Step(st, ops[0], rules, other), ops[1..], rules, other);
    }
  }

  lemma FewerIsSound(spent: seq<set<OutPoint>>, s: StakeSpent, gone: set<OutPoint>)
    requires StakeSound(spent, s)
    ensures StakeSound(spent, s - gone)
  {
  }

  lemma DisconnectNeedsTip(st: State, rules: Rules, other: Transaction -> bool)
    requires Enabled(st, Disconnect, rules, other)
    ensures st.frames != []
  {
  }

  /** Only a block with a coinstake can be refused, and a coinstake spends something. */
  lemma RefusedSpends(st: State, h: int, rules: Rules, other: Transaction -> bool)
    requires Inv(st, rules, other) && Unclean(st, h)
    ensures SpentBy(st.frames[h - 1].txs) != {}
  {
    FrameAt(st.frames, h, rules, other);
    var f := st.frames[h - 1];
    hide FramesOk;
    if h == |st.frames| { assert st.frames[..h] == st.frames; }
    assert LostFlags(After(st.frames[..h]), Above(st, h));
    var lost := LostFlagsIsDrop(ApplyTxs(f.base, f.txs), Above(st, h));
    hide LostFlags, After, UndoTxs, UndoRecords, UndoTxsClean, GoodUtxo, DropStake;
    TxsRestored(f.base, f.txs, lost);
    LosingSpends(f.base, f.txs, lost);
  }

  lemma {:induction false} FrameAt(frames: seq<Frame>, h: int, rules: Rules, other: Transaction -> bool)
    requires FramesOk(frames, rules, other) && 1 <= h <= |frames|
    ensures FrameOk(frames[h - 1], frames[..h - 1], rules, other)
    ensures h < |frames| ==> LostFlags(After(frames[..h]), frames[h].base)
    decreases |frames|
  {
    hide FrameOk, LostFlags, After;
    var before := frames[..|frames| - 1];
    if h < |frames| {
      FrameAt(before, h, rules, other);
      assert before[..h - 1] == frames[..h - 1];
      if h < |before| { assert before[..h] == frames[..h]; } else { assert frames[..h] == before; }
    }
  }

  lemma {:induction false} LosingSpends(m: Utxo, txs: seq<Placed>, lost: set<Hash>)
    requires Connectable(m, txs) && LosesCoinStake(m, txs, lost)
    ensures SpentBy(txs) != {}
    decreases |txs|
  {
    hide ApplyTx, LostFrom, CanSpendAll;
    var tx := txs[0].tx;
    if tx.IsCoinStake() {
      assert tx.vin[0].prevout in OutPointsOf(InputsOf(tx));
    } else {
      LosingSpends(ApplyTx(m, tx, txs[0].nHeight), txs[1..], lost);
    }
  }

  lemma RefusedAreListed(st: State, rules: Rules, other: Transaction -> bool)
    requires Inv(st, rules, other)
    ensures forall h :: h in st.refused ==> 1 <= h <= |SpentSets(st.frames)| && SpentSets(st.frames)[h - 1] != {}
  {
    hide SpentBy, FramesOk, After, GoodUtxo, LostFlags, UndoTxsClean, UndoFits;
    forall h | h in st.refused
      ensures 1 <= h <= |SpentSets(st.frames)| && SpentSets(st.frames)[h - 1] != {}
    {
      RefusedSpends(st, h, rules, other);
    }
  }

  // ---- runs that reuse no transaction id ----

  /** No block of the run reuses the id of a transaction with an output that an active block spent. */
  ghost predicate TxidsFresh(st: State, ops: seq<Op>, rules: Rules, other: Transaction -> bool)
    requires Runnable(st, ops, rules, other)
    decreases |ops|
  {
    ops == [] ||
    (&& (ops[0].Connect? ==> TxidsNew(AllSpent(st.frames), ops[0].txs))
     && TxidsFresh(Step(st, ops[0], rules, other), ops[1..], rules, other))
  }

  ghost predicate FreshFrames(frames: seq<Frame>) {
    frames == [] ||
    var before, f := frames[..|frames| - 1], frames[|frames| - 1];
    FreshFrames(before) && TxidsNew(AllSpent(before), f.txs) && SpentGone(AllSpent(before), f.base)
  }

  /** The outputs spent by active blocks are gone, and the map lists no others. */
  ghost predicate FreshInv(st: State) {
    && FreshFrames(st.frames) && SpentGone(AllSpent(st.frames), st.utxo)
    && StakeSound(SpentSets(st.frames), st.stakeSpent)
  }

  lemma {:induction false} SpentAmongAll(frames: seq<Frame>, k: nat)
    requires k < |frames|
    ensures SpentSets(frames)[k] <= AllSpent(frames)
  {
    var before := frames[..|frames| - 1];
    if k < |before| {
      SpentAmongAll(before, k);
      assert SpentSets(frames)[k] == SpentSets(before)[k];
    }
  }

  /** What was never spent by an active block is not listed. */
  lemma NeverSpentIsUnlisted(st: State, txs: seq<Placed>, rules: Rules)
    requires StakeSound(SpentSets(st.frames), st.stakeSpent) && AllSpent(st.frames) !! SpentBy(txs)
    ensures InsertsAll(st, txs, rules)
  {
    hide SpentBy, AllSpent;
    forall o | o in st.stakeSpent
      ensures o in AllSpent(st.frames)
    {
      SpentAmongAll(st.frames, st.stakeSpent[o] - 1);
    }
  }

  lemma SpentGoneKept(m: Utxo, m': Utxo, spent: set<OutPoint>)
    requires LostFlags(m, m') && SpentGone(spent, m)
    ensures SpentGone(spent, m')
  {
  }

  lemma ConnectKeepsFresh(st: State, txs: seq<Placed>, rules: Rules, other: Transaction -> bool)
    requires FreshInv(st) && Enabled(st, Connect(txs), rules, other) && TxidsNew(AllSpent(st.frames), txs)
    ensures FreshInv(Step(st, Connect(txs), rules, other)) && InsertsAll(st, txs, rules)
  {
    hide Step, Enabled, ApplyTxs, UndoRecords, Connectable, SpentBy, SpentGone, TxidsNew, StakeSound, Pruned,
         Recorded, SpentSets, InsertsAll;
    ConnectShape(st, txs, rules, other);
    SpentStaysGone(st.utxo, txs, AllSpent(st.frames));
    NeverSpentIsUnlisted(st, txs, rules);
    StepKeepsSound(st, Connect(txs), rules, other);
  }

  /** What was spent below the tip is gone after it is disconnected, too. */
  lemma DisconnectKeepsFresh(st: State, rules: Rules, other: Transaction -> bool)
    requires Inv(st, rules, other) && FreshInv(st) && st.frames != [] && Enabled(st, Disconnect, rules, other)
    ensures FreshInv(Step(st, Disconnect, rules, other))
  {
    hide Step, Inv, Enabled, UndoFits, SpentBy, TxidsNew, FramesOk, StakeSound, SpentSets, LostFlags, UndoTxs, After,
         SpentGone, TxsAccepted, MintAllowed, UndoTxsRestorable, ApplyTxs, Connectable, GoodUtxo, TipClean, Unclean;
    TipRestores(st, rules, other);
    BelowTip(st, rules, other);
    CommitShape(st, rules, other);
    StepKeepsSound(st, Disconnect, rules, other);
    var before, f := st.frames[..|st.frames| - 1], st.frames[|st.frames| - 1];
    SpentGoneKept(f.base, UndoTxs(st.utxo, f.txs, f.undo), AllSpent(before));
  }

  /** A run that reuses no id of a spent transaction meets the guard throughout. */
  lemma {:induction false} FreshIsUnrecorded(st: State, ops: seq<Op>, rules: Rules, other: Transaction -> bool)
    requires Inv(st, rules, other) && FreshInv(st)
    requires Runnable(st, ops, rules, other) && TxidsFresh(st, ops, rules, other)
    ensures Unrecorded(st, ops, rules, other)
    decreases |ops|
  {
    hide Inv, FreshInv, Enabled, Step, TxidsNew, InsertsAll;
    if ops != [] {
      match ops[0] {
        case Connect(txs) =>
          ConnectKeeps(st, txs, rules, other);
          ConnectKeepsFresh(st, txs, rules, other);
        case Disconnect =>
          DisconnectNeedsTip(st, rules, other);
          DisconnectKeeps(st, rules, other);
          DisconnectKeepsFresh(st, rules, other);
      }
      FreshIsUnrecorded(Step(st, ops[0], rules, other), ops[1..], rules, other);
    }
  }

  // ---- the whole of it ----

  /**
   * After any run, mapStakeSpent names inputs spent by active blocks at their heights, none of them
   * further below the tip than MaxReorganizationDepth. From
   * MaxReorganizationDepth below the highest block ever connected on it is exact throughout the run
   * if and only if insert adds all the inputs of each block; a run that reuses no transaction id is
   * one of these. It then holds exactly the inputs of the blocks that were not refused
   * disconnection: none is missing if and only if every refusal was of a tip below that.
   */
  lemma StakeSpentOfRun(ops: seq<Op>, rules: Rules, other: Transaction -> bool)
    requires Runnable(Genesis, ops, rules, other)
    ensures var st := Run(Genesis, ops, rules, other);
            var spent, cutoff := SpentSets(st.frames), st.nHighest - rules.nMaxReorg;
            && StakeSound(spent, st.stakeSpent) && NoneOlder(st, rules)
            && (ExactThroughout(Genesis, ops, rules, other) <==> Unrecorded(Genesis, ops, rules, other))
            && (TxidsFresh(Genesis, ops, rules, other) ==> Unrecorded(Genesis, ops, rules, other))
            && (Unrecorded(Genesis, ops, rules, other) ==>
                  && StakeExact(spent, st.stakeSpent, cutoff, st.refused)
                  && (StakeAgrees(spent, st.stakeSpent, cutoff) <==> forall h :: h in st.refused ==> h < cutoff))
  {
    hide Step, Enabled, FramesOk, After, GoodUtxo, LostFlags, AllSpent, StakeAgrees, StakeSound, StakeExact, Apart,
         Run, Runnable, TxidsFresh, Unrecorded, ExactThroughout, SpentBy, Unclean, SpentSets, FreshInv;
    GenesisInv(rules, other);
    GenesisStakes(rules);
    RunKeepsInv(Genesis, ops, rules, other);
    RunKeepsSound(Genesis, ops, rules, other);
    RunPrunes(Genesis, ops, rules, other);
    RunExactly(Genesis, ops, rules, other);
    if TxidsFresh(Genesis, ops, rules, other) { FreshIsUnrecorded(Genesis, ops, rules, other); }
    var st := Run(Genesis, ops, rules, other);
    if Unrecorded(Genesis, ops, rules, other) {
      RefusedAreListed(st, rules, other);
      ExactAgrees(SpentSets(st.frames), st.stakeSpent, st.nHighest - rules.nMaxReorg, st.refused);
    }
  }

  lemma GenesisStakes(rules: Rules)
    ensures StakeInv(Genesis, rules) && FreshInv(Genesis) && NoneOlder(Genesis, rules)
  {
  }

  // ---- what the invariant says about the coins ----

  lemma InputIgnoresFlags(m: Utxo, out: OutPoint, lost: set<Hash>)
    ensures CanSpend(DropStake(m, lost), out) == CanSpend(m, out)
    ensures CanSpend(m, out) ==> SpendInput(DropStake(m, lost), out) == DropStake(SpendInput(m, out), lost)
  {
  }

  lemma {:induction false} SpendIgnoresFlags(m: Utxo, vin: seq<TxIn>, lost: set<Hash>)
    ensures CanSpendAll(DropStake(m, lost), vin) == CanSpendAll(m, vin)
    ensures CanSpendAll(m, vin) ==> SpendAll(DropStake(m, lost), vin) == DropStake(SpendAll(m, vin), lost)
    decreases |vin|
  {
    hide DropStake, SpendInput, CanSpend;
    if vin != [] {
      InputIgnoresFlags(m, vin[0].prevout, lost);
      if CanSpend(m, vin[0].prevout) {
        SpendIgnoresFlags(SpendInput(m, vin[0].prevout), vin[1..], lost);
      }
    }
  }

  lemma ApplyIgnoresFlags(m: Utxo, p: Placed, lost: set<Hash>)
    requires TxConnectable(DropStake(m, lost), p.tx, p.nHeight)
    ensures TxConnectable(m, p.tx, p.nHeight)
    ensures ApplyTx(DropStake(m, lost), p.tx, p.nHeight) == DropStake(ApplyTx(m, p.tx, p.nHeight), lost - {p.tx.hash})
  {
    SpendIgnoresFlags(m, InputsOf(p.tx), lost);
    hide SpendAll, CanSpendAll;
    AddIgnoresFlags(SpendAll(m, InputsOf(p.tx)), p.tx.hash, FromTx(p.tx, p.nHeight), lost);
  }

  lemma AddIgnoresFlags(m: Utxo, t: Hash, c: Coins, lost: set<Hash>)
    requires t !in m
    ensures Put(DropStake(m, lost), t, c) == DropStake(Put(m, t, c), lost - {t})
  {
  }

  /** Connecting to coins with lost flags gives the coins with lost flags. */
  lemma {:induction false} ConnectIgnoresFlags(m: Utxo, txs: seq<Placed>, lost: set<Hash>) returns (lost': set<Hash>)
    requires Connectable(DropStake(m, lost), txs)
    ensures Connectable(m, txs)
    ensures ApplyTxs(DropStake(m, lost), txs) == DropStake(ApplyTxs(m, txs), lost')
    decreases |txs|
  {
    if txs == [] {
      lost' := lost;
    } else {
      ApplyIgnoresFlags(m, txs[0], lost);
      hide ApplyTx, DropStake;
      lost' := ConnectIgnoresFlags(ApplyTx(m, txs[0].tx, txs[0].nHeight), txs[1..], lost - {txs[0].tx.hash});
    }
  }

  /** The coins obtained by connecting the active blocks alone, from genesis. */
  ghost function Replay(frames: seq<Frame>): Option<Utxo> {
    if frames == [] then Some(map[]) else
    var before, f := Replay(frames[..|frames| - 1]), frames[|frames| - 1];
    if before.Some? && Connectable(before.value, f.txs) then Some(ApplyTxs(before.value, f.txs)) else None
  }

  lemma FrameConnects(frames: seq<Frame>, rules: Rules, other: Transaction -> bool)
    requires FramesOk(frames, rules, other) && frames != []
    ensures var before, f := frames[..|frames| - 1], frames[|frames| - 1];
            && FramesOk(before, rules, other) && LostFlags(After(before), f.base)
            && Connectable(f.base, f.txs) && After(frames) == ApplyTxs(f.base, f.txs)
  {
    hide LostFlags, Connectable, ApplyTxs, GoodUtxo, TxsAccepted, MintAllowed, UndoRecords, CheckedTxs, InOrder,
         InPeriod;
    assert FrameOk(frames[|frames| - 1], frames[..|frames| - 1], rules, other);
  }

  lemma {:induction false} FramesReplay(frames: seq<Frame>, rules: Rules, other: Transaction -> bool)
    returns (lost: set<Hash>)
    requires FramesOk(frames, rules, other)
    ensures Replay(frames).Some? && After(frames) == DropStake(Replay(frames).value, lost)
  {
    hide FramesOk, Connectable, ApplyTxs;
    if frames == [] {
      lost := {};
    } else {
      var before, f := frames[..|frames| - 1], frames[|frames| - 1];
      FrameConnects(frames, rules, other);
      var lost0 := FramesReplay(before, rules, other);
      var lost1 := LostFlagsIsDrop(After(before), f.base);
      assert f.base == DropStake(Replay(before).value, lost0 + lost1);
      hide DropStake, LostFlags;
      lost := ConnectIgnoresFlags(Replay(before).value, f.txs, lost0 + lost1);
    }
  }

  lemma CoinsOfInv(st: State, rules: Rules, other: Transaction -> bool)
    requires Inv(st, rules, other)
    ensures Replay(st.frames).Some? && LostFlags(Replay(st.frames).value, st.utxo)
  {
    hide FramesOk, After, Replay, GoodUtxo, Unclean;
    var lost := FramesReplay(st.frames, rules, other);
    DropIsLostFlags(Replay(st.frames).value, lost);
    assert LostFlags(DropStake(Replay(st.frames).value, lost), st.utxo);
  }

  /** Whatever was connected and disconnected on the way, the coins are those of the active chain, up to lost flags. */
  lemma CoinsOfRun(ops: seq<Op>, rules: Rules, other: Transaction -> bool)
    requires Runnable(Genesis, ops, rules, other)
    ensures var st := Run(Genesis, ops, rules, other);
            Replay(st.frames).Some? && LostFlags(Replay(st.frames).value, st.utxo)
  {
    hide Inv, Run, Runnable, Replay, LostFlags;
    GenesisInv(rules, other);
    RunKeepsInv(Genesis, ops, rules, other);
    CoinsOfInv(Run(Genesis, ops, rules, other), rules, other);
  }
}
