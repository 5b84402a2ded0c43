/** The money supply a run of blocks creates, against the unspent outputs and the emission schedule. */
module MoneySupply {
  import opened Transactions
  import opened Coins
  import opened CoinsView
  import opened BlockUndo
  import opened BlockRules

  // ---- the value held by a set of unspent outputs ----

  function LiveValue(vout: seq<TxOut>): int {
    if vout == [] then 0
    else (if vout[0].IsNull() then 0 else vout[0].nValue) + LiveValue(vout[1..])
  }

  /** Value of the outputs that are dropped because their script can never be satisfied. */
  function DroppedValue(vout: seq<TxOut>): int {
    if vout == [] then 0
    else (if vout[0].IsUnspendable() then vout[0].nValue else 0) + DroppedValue(vout[1..])
  }

  ghost function Total(m: Utxo): int {
    if m == map[] then 0 else
    var t :| t in m;
    LiveValue(m[t].vout) + Total(m - {t})
  }

  lemma {:induction false} TotalRemove(m: Utxo, t: Hash)
    requires t in m
    ensures Total(m) == LiveValue(m[t].vout) + Total(m - {t})
    decreases |m|
  {
    var u :| u in m && Total(m) == LiveValue(m[u].vout) + Total(m - {u});
    if u != t {
      TotalRemove(m - {u}, t);
      TotalRemove(m - {t}, u);
      assert m - {u} - {t} == m - {t} - {u};
    }
  }

  lemma {:induction false} LiveValueConcat(a: seq<TxOut>, b: seq<TxOut>)
    ensures LiveValue(a + b) == LiveValue(a) + LiveValue(b)
  {
    if a == [] {
      assert a + b == b;
    } else {
      assert (a + b)[1..] == a[1..] + b;
      LiveValueConcat(a[1..], b);
    }
  }

  lemma {:induction false} LiveValueOfNulls(vout: seq<TxOut>)
    requires AllNull(vout)
    ensures LiveValue(vout) == 0
  {
    if vout != [] { LiveValueOfNulls(vout[1..]); }
  }

  lemma TrimKeepsValue(vout: seq<TxOut>)
    ensures LiveValue(Trim(vout)) == LiveValue(vout)
  {
    var t := Trim(vout);
    assert vout == t + vout[|t|..];
    LiveValueConcat(t, vout[|t|..]);
    LiveValueOfNulls(vout[|t|..]);
  }

  lemma SpendValue(c: Coins, n: nat)
    requires c.Spendable(n)
    ensures LiveValue(c.AfterSpend(n).vout) == LiveValue(c.vout) - c.vout[n].nValue
  {
    var v, w := c.vout, c.vout[n := NullTxOut];
    assert v == v[..n] + ([v[n]] + v[n + 1..]) && w == v[..n] + ([NullTxOut] + v[n + 1..]);
    LiveValueConcat(v[..n], [v[n]] + v[n + 1..]);
    LiveValueConcat(v[..n], [NullTxOut] + v[n + 1..]);
    LiveValueConcat([v[n]], v[n + 1..]);
    LiveValueConcat([NullTxOut], v[n + 1..]);
    assert LiveValue([v[n]]) == v[n].nValue;
    TrimKeepsValue(w);
  }

  lemma {:induction false} CreatedValue(vout: seq<TxOut>)
    requires forall i :: 0 <= i < |vout| ==> vout[i].nValue >= 0
    ensures LiveValue(NullUnspendable(vout)) == ValueOut(vout) - DroppedValue(vout)
  {
    if vout != [] {
      CreatedValue(vout[1..]);
      assert NullUnspendable(vout)[1..] == NullUnspendable(vout[1..]);
    }
  }

  /** Writing one entry changes the total by the difference of the entry's values. */
  lemma PutTotal(m: Utxo, t: Hash, c: Coins)
    ensures Total(Put(m, t, c)) ==
            Total(m) - (if t in m then LiveValue(m[t].vout) else 0) + LiveValue(c.vout)
  {
    var r := Put(m, t, c);
    if t in m { TotalRemove(m, t); } else { assert m - {t} == m; }
    assert r - {t} == m - {t};
    if c.IsPruned() {
      LiveValueOfNulls(c.vout);
      assert r == m - {t};
    } else {
      TotalRemove(r, t);
      TrimKeepsValue(c.vout);
    }
  }

  lemma {:induction false} SpendAllTotal(m: Utxo, vin: seq<TxIn>)
    requires HaveInputs(m, vin) && DistinctInputs(vin) && CanSpendAll(m, vin)
    ensures Total(SpendAll(m, vin)) == Total(m) - ValueIn(m, vin)
  {
    if vin != [] {
      var out := vin[0].prevout;
      var m1 := SpendInput(m, out);
      PutTotal(m, out.hash, m[out.hash].AfterSpend(out.n));
      SpendValue(m[out.hash], out.n);
      forall i | 0 <= i < |vin[1..]|
        ensures HasOutput(m1, vin[1..][i].prevout)
        ensures var o := vin[1..][i].prevout; m[o.hash].vout[o.n] == m1[o.hash].vout[o.n]
      {
        SpendKeepsOthers(m, out, vin[1 + i].prevout);
      }
      ValueInStable(m, m1, vin[1..]);
      SpendAllTotal(m1, vin[1..]);
    }
  }

  /** One transaction conserves value: what enters leaves as outputs, spendable or dropped. */
  lemma TxConserves(m: Utxo, tx: Transaction, nHeight: int)
    requires TxConnectable(m, tx, nHeight) && CheckedTx(tx) && HaveInputs(m, InputsOf(tx))
    ensures Total(ApplyTx(m, tx, nHeight)) + DroppedValue(tx.vout) ==
            Total(m) - TxValueIn(m, tx) + ValueOut(tx.vout)
  {
    SpendAllTotal(m, InputsOf(tx));
    PutTotal(SpendAll(m, InputsOf(tx)), tx.hash, FromTx(tx, nHeight));
    TrimKeepsValue(NullUnspendable(tx.vout));
    CreatedValue(tx.vout);
  }

  ghost function BlockDropped(txs: seq<Placed>): int {
    if txs == [] then 0 else DroppedValue(txs[0].tx.vout) + BlockDropped(txs[1..])
  }

  lemma {:induction false} BlockConserves(m: Utxo, txs: seq<Placed>, prm: Params, other: Transaction -> bool)
    requires Connectable(m, txs) && CheckedTxs(txs) && TxsAccepted(m, txs, prm, other)
    ensures Total(ApplyTxs(m, txs)) + BlockDropped(txs) == Total(m) - BlockValueIn(m, txs) + BlockValueOut(txs)
    decreases |txs|
  {
    if txs != [] {
      var m1 := ApplyTx(m, txs[0].tx, txs[0].nHeight);
      assert CheckedTx(txs[0].tx);
      TxConserves(m, txs[0].tx, txs[0].nHeight);
      BlockConserves(m1, txs[1..], prm, other);
    }
  }

  // ---- the emission schedule ----

  /** GetBlockValue. */
  function GetBlockValue(nHeight: int, main: bool): (v: int)
    ensures v >= 0
  {
    if main then
      if nHeight == 0 then 33000000 * COIN
      else if nHeight > 0 && nHeight <= 43201 then 15 * COIN
      else if nHeight > 43201 && nHeight <= 57601 then 10 * COIN
      else if nHeight > 57601 && nHeight <= 72001 then 20 * COIN
      else if nHeight > 72001 && nHeight <= 86401 then 30 * COIN
      else if nHeight > 86401 && nHeight <= 100801 then 40 * COIN
      else if nHeight > 100801 && nHeight <= 144001 then 50 * COIN
      else if nHeight > 144001 && nHeight <= 273601 then 55 * COIN
      else if nHeight > 273601 && nHeight <= 316801 then 50 * COIN
      else if nHeight > 316801 && nHeight <= 360001 then 45 * COIN
      else if nHeight > 360001 && nHeight <= 403201 then 40 * COIN
      else if nHeight > 403201 && nHeight <= 446401 then 35 * COIN
      else if nHeight > 446401 && nHeight <= 489601 then 30 * COIN
      else if nHeight > 489601 && nHeight <= 532802 then 25 * COIN
      else if nHeight > 532802 && nHeight <= 576003 then 24 * COIN
      else if nHeight > 576003 && nHeight <= 662404 then 23 * COIN
      else if nHeight > 662404 && nHeight <= 748805 then 22 * COIN
      else if nHeight > 748805 && nHeight <= 835206 then 21 * COIN
      else if nHeight > 835206 && nHeight <= 969127 then 20 * COIN
      else if nHeight > 969127 && nHeight <= 1098728 then 19 * COIN
      else if nHeight > 1098728 && nHeight <= 1228329 then 18 * COIN
      else if nHeight > 1228329 && nHeight <= 1357930 then 17 * COIN
      else if nHeight > 1357930 && nHeight <= 1487531 then 16 * COIN
      else if nHeight > 1487531 && nHeight <= 1660332 then 15 * COIN
      else if nHeight > 1660332 && nHeight <= 1833133 then 14 * COIN
      else if nHeight > 1833133 && nHeight <= 2049134 then 13 * COIN
      else if nHeight > 2049134 && nHeight <= 2265135 then 12 * COIN
      else if nHeight > 2265135 && nHeight <= 2481136 then 11 * COIN
      else if nHeight > 2481136 && nHeight <= 2697137 then 10 * COIN
      else if nHeight > 2697137 && nHeight <= 2956338 then 9 * COIN
      else if nHeight > 2956338 && nHeight <= 3215539 then 8 * COIN
      else if nHeight > 3215539 && nHeight <= 3474740 then 7 * COIN
      else if nHeight > 3474740 && nHeight <= 3733941 then 6 * COIN
      else if nHeight > 3733941 && nHeight <= 3993142 then 5 * COIN
      else if nHeight > 3993142 && nHeight <= 4338743 then 4 * COIN
      else if nHeight > 4338743 && nHeight <= 4684344 then 3 * COIN
      else if nHeight > 4684344 && nHeight <= 5029945 then 2 * COIN
      else if nHeight > 5029945 && nHeight <= 5314421 then 1 * COIN
      else 0
    else
      if nHeight == 0 then 33000000 * COIN
      else if nHeight > 0 && nHeight <= 500 then 15 * COIN
      else if nHeight > 500 && nHeight <= 999999 then 30 * COIN
      else 0
  }

  /** The sum of GetBlockValue over all heights below n. */
  ghost function Emitted(n: nat, main: bool): int {
    if n == 0 then 0 else Emitted(n - 1, main) + GetBlockValue(n - 1, main)
  }

  /** Heights lo..hi-1 all pay v coins. */
  ghost predicate Plateau(lo: nat, hi: nat, v: int, main: bool) {
    forall h :: lo <= h < hi ==> GetBlockValue(h, main) == v * COIN
  }

  lemma {:induction false} EmissionPlateau(lo: nat, hi: nat, v: int, main: bool)
    requires lo <= hi && Plateau(lo, hi, v, main)
    ensures Emitted(hi, main) == Emitted(lo, main) + (hi - lo) * (v * COIN)
    decreases hi
  {
    hide GetBlockValue;
    if lo < hi {
      EmissionPlateau(lo, hi - 1, v, main);
      assert GetBlockValue(hi - 1, main) == v * COIN;
      assert (hi - lo) * (v * COIN) == (hi - 1 - lo) * (v * COIN) + v * COIN;
    }
  }

  /** The heights at which the main net's reward changes. */
  const RewardSteps: set<nat> := {
    1, 43202, 57602, 72002, 86402, 100802, 144002, 273602, 316802, 360002, 403202, 446402, 489602,
    532803, 576004, 662405, 748806, 835207, 969128, 1098729, 1228330, 1357931, 1487532, 1660333,
    1833134, 2049135, 2265136, 2481137, 2697138, 2956339, 3215540, 3474741, 3733942, 3993143, 4338744,
    4684345, 5029946, 5314422
  }

  /** On the main net the reward changes at these heights and at no other. */
  lemma RewardChanges(h: nat)
    ensures GetBlockValue(h, true) != GetBlockValue(h + 1, true) <==> h + 1 in RewardSteps
  {
  }

  /** It never falls until height 273601, and never rises from height 144002 on. */
  lemma RewardRisesAndFalls(a: nat, b: nat)
    requires a <= b
    ensures 43202 <= a && b <= 273601 ==> GetBlockValue(a, true) <= GetBlockValue(b, true)
    ensures 144002 <= a ==> GetBlockValue(a, true) >= GetBlockValue(b, true)
  {
    if 43202 <= a && b <= 273601 { RewardRises(a, b); }
    if 144002 <= a { RewardFalls(a, b); }
  }

  lemma {:induction false} RewardRises(a: nat, b: nat)
    requires 43202 <= a <= b <= 273601
    ensures GetBlockValue(a, true) <= GetBlockValue(b, true)
    decreases b
  {
    if a < b {
      assert GetBlockValue(b - 1, true) <= GetBlockValue(b, true);
      hide GetBlockValue;
      RewardRises(a, b - 1);
    }
  }

  lemma {:induction false} RewardFalls(a: nat, b: nat)
    requires 144002 <= a <= b
    ensures GetBlockValue(a, true) >= GetBlockValue(b, true)
    decreases b
  {
    if a < b {
      assert GetBlockValue(b - 1, true) >= GetBlockValue(b, true);
      hide GetBlockValue;
      RewardFalls(a, b - 1);
    }
  }

  // ---- what is emitted up to the end of each stretch of constant reward ----

  lemma EmittedFirst()
    ensures Emitted(1, true) == 33_000_000 * COIN
    ensures Emitted(43202, true) == 33_648_015 * COIN
    ensures Emitted(57602, true) == 33_792_015 * COIN
    ensures Emitted(72002, true) == 34_080_015 * COIN
    ensures Emitted(86402, true) == 34_512_015 * COIN
    ensures Emitted(100802, true) == 35_088_015 * COIN
  {
    assert Emitted(0, true) == 0;
    hide Emitted;
    EmissionPlateau(0, 1, 33000000, true);
    EmissionPlateau(1, 43202, 15, true);
    EmissionPlateau(43202, 57602, 10, true);
    EmissionPlateau(57602, 72002, 20, true);
    EmissionPlateau(72002, 86402, 30, true);
    EmissionPlateau(86402, 100802, 40, true);
  }

  lemma EmittedEarly()
    ensures Emitted(144002, true) == 37_248_015 * COIN
    ensures Emitted(273602, true) == 44_376_015 * COIN
    ensures Emitted(316802, true) == 46_536_015 * COIN
    ensures Emitted(360002, true) == 48_480_015 * COIN
  {
    hide Emitted;
    EmittedFirst();
    EmissionPlateau(100802, 144002, 50, true);
    EmissionPlateau(144002, 273602, 55, true);
    EmissionPlateau(273602, 316802, 50, true);
    EmissionPlateau(316802, 360002, 45, true);
  }

  lemma EmittedMiddle()
    ensures Emitted(403202, true) == 50_208_015 * COIN
    ensures Emitted(446402, true) == 51_720_015 * COIN
    ensures Emitted(489602, true) == 53_016_015 * COIN
    ensures Emitted(532803, true) == 54_096_040 * COIN
    ensures Emitted(576004, true) == 55_132_864 * COIN
    ensures Emitted(662405, true) == 57_120_087 * COIN
    ensures Emitted(748806, true) == 59_020_909 * COIN
    ensures Emitted(835207, true) == 60_835_330 * COIN
    ensures Emitted(969128, true) == 63_513_750 * COIN
    ensures Emitted(1098729, true) == 65_976_169 * COIN
    ensures Emitted(1228330, true) == 68_308_987 * COIN
    ensures Emitted(1357931, true) == 70_512_204 * COIN
    ensures Emitted(1487532, true) == 72_585_820 * COIN
  {
    hide Emitted;
    EmittedEarly();
    EmissionPlateau(360002, 403202, 40, true);
    EmissionPlateau(403202, 446402, 35, true);
    EmissionPlateau(446402, 489602, 30, true);
    EmissionPlateau(489602, 532803, 25, true);
    EmissionPlateau(532803, 576004, 24, true);
    EmissionPlateau(576004, 662405, 23, true);
    EmissionPlateau(662405, 748806, 22, true);
    EmissionPlateau(748806, 835207, 21, true);
    EmissionPlateau(835207, 969128, 20, true);
    EmissionPlateau(969128, 1098729, 19, true);
    EmissionPlateau(1098729, 1228330, 18, true);
    EmissionPlateau(1228330, 1357931, 17, true);
    EmissionPlateau(1357931, 1487532, 16, true);
  }

  lemma EmittedLate()
    ensures Emitted(1660333, true) == 75_177_835 * COIN
    ensures Emitted(1833134, true) == 77_597_049 * COIN
    ensures Emitted(2049135, true) == 80_405_062 * COIN
    ensures Emitted(2265136, true) == 82_997_074 * COIN
    ensures Emitted(2481137, true) == 85_373_085 * COIN
    ensures Emitted(2697138, true) == 87_533_095 * COIN
    ensures Emitted(2956339, true) == 89_865_904 * COIN
    ensures Emitted(3215540, true) == 91_939_512 * COIN
    ensures Emitted(3474741, true) == 93_753_919 * COIN
    ensures Emitted(3733942, true) == 95_309_125 * COIN
    ensures Emitted(3993143, true) == 96_605_130 * COIN
    ensures Emitted(4338744, true) == 97_987_534 * COIN
    ensures Emitted(4684345, true) == 99_024_337 * COIN
    ensures Emitted(5029946, true) == 99_715_539 * COIN
    ensures Emitted(5314422, true) == 100_000_015 * COIN
  {
    hide Emitted;
    EmittedMiddle();
    EmissionPlateau(1487532, 1660333, 15, true);
    EmissionPlateau(1660333, 1833134, 14, true);
    EmissionPlateau(1833134, 2049135, 13, true);
    EmissionPlateau(2049135, 2265136, 12, true);
    EmissionPlateau(2265136, 2481137, 11, true);
    EmissionPlateau(2481137, 2697138, 10, true);
    EmissionPlateau(2697138, 2956339, 9, true);
    EmissionPlateau(2956339, 3215540, 8, true);
    EmissionPlateau(3215540, 3474741, 7, true);
    EmissionPlateau(3474741, 3733942, 6, true);
    EmissionPlateau(3733942, 3993143, 5, true);
    EmissionPlateau(3993143, 4338744, 4, true);
    EmissionPlateau(4338744, 4684345, 3, true);
    EmissionPlateau(4684345, 5029946, 2, true);
    EmissionPlateau(5029946, 5314422, 1, true);
  }

  lemma EmittedElsewhere()
    ensures Emitted(1, false) == 33_000_000 * COIN && Emitted(501, false) == 33_007_500 * COIN
    ensures Emitted(1_000_000, false) == 62_992_470 * COIN
  {
    assert Emitted(0, false) == 0;
    hide Emitted;
    EmissionPlateau(0, 1, 33_000_000, false);
    EmissionPlateau(1, 501, 15, false);
    EmissionPlateau(501, 1_000_000, 30, false);
  }

  /** The other nets' reward rises once, and ends after 999,999 blocks. */
  lemma RewardElsewhere(a: nat, b: nat)
    requires 1 <= a <= b
    ensures b <= 999_999 ==> GetBlockValue(a, false) <= GetBlockValue(b, false)
    ensures GetBlockValue(a, false) != GetBlockValue(a + 1, false) <==> a in {500, 999_999}
  {
  }

  lemma {:induction false} EmittedMonotone(a: nat, b: nat, main: bool)
    requires a <= b
    ensures Emitted(a, main) <= Emitted(b, main)
    decreases b
  {
    if a < b { EmittedMonotone(a, b - 1, main); }
  }

  /**
   * The whole schedule: on the main net 15 coins above the declared maximum of 100 million, on the
   * others 62,992,470 coins.
   */
  lemma EmissionTotal(n: nat, main: bool)
    ensures var total := if main then 100_000_015 else 62_992_470;
            && Emitted(n, main) <= total * COIN
            && (n >= (if main then 5314422 else 1_000_000) ==> Emitted(n, main) == total * COIN)
  {
    hide Emitted;
    EmittedLate();
    EmittedElsewhere();
    var last := if main then 5314422 else 1_000_000;
    if n >= last {
      EmissionPlateau(last, n, 0, main);
    } else {
      EmittedMonotone(n, last, main);
    }
  }
}
