/** The stake modifier: sixty-four rounds of selecting a recent block, each contributing one bit. */
module StakeModifier {
  import opened Products
  import opened Common
  import opened BitStrings

  const MODIFIER_INTERVAL := 60
  const MODIFIER_INTERVAL_RATIO := 3
  const ROUNDS := 64

  /** "stakemodifier" read as a number: the modifier of the first block, some fixed 64-bit value. */
  datatype Params = Params(firstModifier: nat, nModifierUpgradeBlock: int, Hash: (nat, nat) -> nat)

  datatype Block = Block(hash: nat, nTime: int, nHeight: int, fProofOfStake: bool, entropyBit: bool,
                         fGenerated: bool, nStakeModifier: nat)

  /** (time, hash) pairs in lexicographic order. */
  datatype Candidate = Candidate(nTime: int, hash: nat)

  predicate Before(a: Candidate, b: Candidate) {
    a.nTime < b.nTime || (a.nTime == b.nTime && a.hash <= b.hash)
  }

  predicate Sorted(v: seq<Candidate>) {
    forall i, j :: 0 <= i < j < |v| ==> Before(v[i], v[j])
  }

  // ---- the selection interval ----

  function Section(nSection: int): int
    requires 0 <= nSection < ROUNDS
  {
    MODIFIER_INTERVAL * 63 / (63 + (63 - nSection) * (MODIFIER_INTERVAL_RATIO - 1))
  }

  function SumSections(n: nat): int
    requires n <= ROUNDS
  {
    if n == 0 then 0 else SumSections(n - 1) + Section(n - 1)
  }

  method GetStakeModifierSelectionInterval() returns (nSelectionInterval: int)
    ensures nSelectionInterval == SumSections(ROUNDS)
  {
    nSelectionInterval := 0;
    for nSection := 0 to ROUNDS
      invariant nSelectionInterval == SumSections(nSection)
    {
      nSelectionInterval := nSelectionInterval + Section(nSection);
    }
  }

  /** Later sections are never shorter: the first is a third of the last, which is the whole interval. */
  lemma SectionsGrow(m: int, n: int)
    requires 0 <= m <= n < ROUNDS
    ensures MODIFIER_INTERVAL / MODIFIER_INTERVAL_RATIO <= Section(m) <= Section(n) <= MODIFIER_INTERVAL
  {
    var a := MODIFIER_INTERVAL * 63;
    QuotientShrinks(a, 63 + (63 - n) * 2, 63 + (63 - m) * 2);
    QuotientShrinks(a, 63 + (63 - m) * 2, 189);
    QuotientShrinks(a, 63, 63 + (63 - n) * 2);
  }

  lemma NextSection(n: nat, before: int, after: int)
    requires n < ROUNDS && SumSections(n) == before && Section(n) == after - before
    ensures SumSections(n + 1) == after
  {
  }

  lemma SectionsTo16()
    ensures SumSections(16) == 341
  {
    assert SumSections(0) == 0;
    hide SumSections;
    NextSection(0, 0, 20);
    NextSection(1, 20, 40);
    NextSection(2, 40, 60);
    NextSection(3, 60, 80);
    NextSection(4, 80, 100);
    NextSection(5, 100, 121);
    NextSection(6, 121, 142);
    NextSection(7, 142, 163);
    NextSection(8, 163, 184);
    NextSection(9, 184, 206);
    NextSection(10, 206, 228);
    NextSection(11, 228, 250);
    NextSection(12, 250, 272);
    NextSection(13, 272, 295);
    NextSection(14, 295, 318);
    NextSection(15, 318, 341);
  }

  lemma SectionsTo32()
    requires SumSections(16) == 341
    ensures SumSections(32) == 762
  {
    hide SumSections;
    NextSection(16, 341, 365);
    NextSection(17, 365, 389);
    NextSection(18, 389, 413);
    NextSection(19, 413, 438);
    NextSection(20, 438, 463);
    NextSection(21, 463, 488);
    NextSection(22, 488, 514);
    NextSection(23, 514, 540);
    NextSection(24, 540, 566);
    NextSection(25, 566, 593);
    NextSection(26, 593, 620);
    NextSection(27, 620, 648);
    NextSection(28, 648, 676);
    NextSection(29, 676, 704);
    NextSection(30, 704, 733);
    NextSection(31, 733, 762);
  }

  lemma SectionsTo48()
    requires SumSections(32) == 762
    ensures SumSections(48) == 1308
  {
    hide SumSections;
    NextSection(32, 762, 792);
    NextSection(33, 792, 822);
    NextSection(34, 822, 853);
    NextSection(35, 853, 884);
    NextSection(36, 884, 916);
    NextSection(37, 916, 948);
    NextSection(38, 948, 981);
    NextSection(39, 981, 1015);
    NextSection(40, 1015, 1049);
    NextSection(41, 1049, 1084);
    NextSection(42, 1084, 1120);
    NextSection(43, 1120, 1156);
    NextSection(44, 1156, 1193);
    NextSection(45, 1193, 1231);
    NextSection(46, 1231, 1269);
    NextSection(47, 1269, 1308);
  }

  lemma SectionsTo64()
    requires SumSections(48) == 1308
    ensures SumSections(64) == 2087
  {
    hide SumSections;
    NextSection(48, 1308, 1348);
    NextSection(49, 1348, 1389);
    NextSection(50, 1389, 1431);
    NextSection(51, 1431, 1474);
    NextSection(52, 1474, 1518);
    NextSection(53, 1518, 1563);
    NextSection(54, 1563, 1609);
    NextSection(55, 1609, 1656);
    NextSection(56, 1656, 1705);
    NextSection(57, 1705, 1755);
    NextSection(58, 1755, 1806);
    NextSection(59, 1806, 1859);
    NextSection(60, 1859, 1913);
    NextSection(61, 1913, 1969);
    NextSection(62, 1969, 2027);
    NextSection(63, 2027, 2087);
  }

  /** The interval as it comes out, and its quarters: a little over half an hour. */
  lemma IntervalIs()
    ensures SumSections(16) == 341 && SumSections(32) == 762 && SumSections(48) == 1308 && SumSections(ROUNDS) == 2087
  {
    SectionsTo16();
    SectionsTo32();
    SectionsTo48();
    SectionsTo64();
  }

  lemma QuotientShrinks(a: nat, d: int, e: int)
    requires 0 < d <= e
    ensures a / e <= a / d
  {
    var q, r := a / e, a / d;
    ProductGrows(d, e, q);
    if q > r { ProductGrows(r + 1, q, d); }
  }

  // ---- one round ----

  /** What is hashed with the previous modifier; stake blocks get a smaller hash. */
  function SelectionHash(p: Params, b: Block, fModifierV2: bool, nStakeModifierPrev: nat): nat {
    var hashProof := if fModifierV2 then b.hash else if b.fProofOfStake then 0 else b.hash;
    var hashSelection := p.Hash(hashProof, nStakeModifierPrev);
    if b.fProofOfStake then hashSelection / 0x1_0000_0000 else hashSelection
  }

  /** All candidates are in the index under their own hash and time. */
  predicate Indexed(v: seq<Candidate>, index: map<nat, Block>) {
    forall i :: 0 <= i < |v| ==>
      v[i].hash in index && index[v[i].hash].hash == v[i].hash && index[v[i].hash].nTime == v[i].nTime
  }

  predicate Unpicked(v: seq<Candidate>, picked: set<nat>, i: int)
    requires 0 <= i < |v|
  {
    v[i].hash !in picked
  }

  /** Eligible: unpicked and up to the stop time, or the earliest unpicked one of all. */
  ghost predicate Eligible(v: seq<Candidate>, picked: set<nat>, stop: int, i: int)
    requires 0 <= i < |v|
  {
    Unpicked(v, picked, i) && (v[i].nTime <= stop || forall j :: 0 <= j < i ==> !Unpicked(v, picked, j))
  }

  function HashAt(p: Params, v: seq<Candidate>, index: map<nat, Block>, prev: nat, i: int): nat
    requires 0 <= i < |v| && Indexed(v, index)
  {
    SelectionHash(p, index[v[i].hash], index[v[0].hash].nHeight >= p.nModifierUpgradeBlock, prev)
  }

  /** The right choice: the first of the eligible candidates with the least selection hash. */
  ghost predicate Chosen(p: Params, v: seq<Candidate>, index: map<nat, Block>, picked: set<nat>, stop: int, prev: nat,
                         k: int)
    requires Indexed(v, index)
  {
    && 0 <= k < |v| && Eligible(v, picked, stop, k)
    && forall i :: 0 <= i < |v| && Eligible(v, picked, stop, i) ==>
         HashAt(p, v, index, prev, k) <= HashAt(p, v, index, prev, i)
         && (i < k ==> HashAt(p, v, index, prev, k) < HashAt(p, v, index, prev, i))
  }

  // ---- what the choice means in terms of the hash function ----

  /** From the upgrade on, by the height of the earliest candidate, stake blocks too are hashed by their own hash. */
  predicate Upgraded(p: Params, v: seq<Candidate>, index: map<nat, Block>)
    requires v != [] && Indexed(v, index)
  {
    index[v[0].hash].nHeight >= p.nModifierUpgradeBlock
  }

  /**
   * The block chosen has not been picked before, and is not late unless every block left is; then it
   * is the earliest.
   */
  lemma ChosenInTime(p: Params, v: seq<Candidate>, index: map<nat, Block>, picked: set<nat>, stop: int, prev: nat,
                     k: int, i: int)
    requires Sorted(v) && Indexed(v, index) && Chosen(p, v, index, picked, stop, prev, k)
    requires 0 <= i < |v| && v[i].hash !in picked
    ensures 0 <= k < |v| && v[k].hash !in picked
    ensures v[i].nTime <= stop ==> v[k].nTime <= stop
    ensures v[k].nTime > stop ==> k <= i && v[k].nTime <= v[i].nTime
  {
    if v[k].nTime > stop {
      assert !Unpicked(v, picked, i) || k <= i;
      assert k == i || Before(v[k], v[i]);
    }
  }

  /** A work block is chosen over other work blocks by the least hash. */
  lemma WorkAgainstWork(p: Params, v: seq<Candidate>, index: map<nat, Block>, picked: set<nat>, stop: int, prev: nat,
                        k: int, i: int)
    requires Indexed(v, index) && Chosen(p, v, index, picked, stop, prev, k)
    requires 0 <= i < |v| && v[i].hash !in picked && v[i].nTime <= stop
    requires !index[v[k].hash].fProofOfStake && !index[v[i].hash].fProofOfStake
    ensures p.Hash(v[k].hash, prev) <= p.Hash(v[i].hash, prev)
  {
    assert Eligible(v, picked, stop, i);
  }

  /**
   * Between stake blocks 32 bits of the hash are dropped. Before the upgrade they are all hashed
   * alike, and the earliest wins.
   */
  lemma StakeAgainstStake(p: Params, v: seq<Candidate>, index: map<nat, Block>, picked: set<nat>, stop: int, prev: nat,
                          k: int, i: int)
    requires Indexed(v, index) && Chosen(p, v, index, picked, stop, prev, k)
    requires 0 <= i < |v| && v[i].hash !in picked && v[i].nTime <= stop
    requires index[v[k].hash].fProofOfStake && index[v[i].hash].fProofOfStake
    ensures Upgraded(p, v, index) ==> p.Hash(v[k].hash, prev) < p.Hash(v[i].hash, prev) + 0x1_0000_0000
    ensures !Upgraded(p, v, index) ==> k <= i
  {
    assert Eligible(v, picked, stop, i);
    if Upgraded(p, v, index) {
      DroppedBits(p.Hash(v[k].hash, prev), p.Hash(v[i].hash, prev));
    }
  }

  /** A work block is chosen over a stake block only if its hash is 2^32 times smaller. */
  lemma WorkAgainstStake(p: Params, v: seq<Candidate>, index: map<nat, Block>, picked: set<nat>, stop: int, prev: nat,
                         k: int, i: int)
    requires Indexed(v, index) && Chosen(p, v, index, picked, stop, prev, k)
    requires 0 <= i < |v| && v[i].hash !in picked && v[i].nTime <= stop
    requires index[v[k].hash].fProofOfStake != index[v[i].hash].fProofOfStake
    ensures var stake := if index[v[k].hash].fProofOfStake then k else i;
            var work := if stake == k then i else k;
            var hWork := p.Hash(v[work].hash, prev);
            var hStake := p.Hash(if Upgraded(p, v, index) then v[stake].hash else 0, prev);
            && (k == work ==> hWork * 0x1_0000_0000 <= hStake)
            && (k == stake ==> hStake < (hWork + 1) * 0x1_0000_0000)
  {
    assert Eligible(v, picked, stop, i);
  }

  lemma DroppedBits(a: nat, b: nat)
    ensures a / 0x1_0000_0000 <= b / 0x1_0000_0000 ==> a < b + 0x1_0000_0000
  {
  }

  /** Before the upgrade the hashes of stake blocks matter to nothing but the order of the candidates. */
  lemma StakeHashesAreIgnored(p: Params, v: seq<Candidate>, index: map<nat, Block>, picked: set<nat>,
                              w: seq<Candidate>, index': map<nat, Block>, picked': set<nat>, stop: int, prev: nat,
                              k: int)
    requires Indexed(v, index) && Indexed(w, index') && |v| == |w|
    requires forall i :: 0 <= i < |v| ==>
               && w[i].nTime == v[i].nTime && index'[w[i].hash].nHeight == index[v[i].hash].nHeight
               && index'[w[i].hash].fProofOfStake == index[v[i].hash].fProofOfStake
               && (w[i].hash in picked' <==> v[i].hash in picked)
               && (!index[v[i].hash].fProofOfStake ==> w[i].hash == v[i].hash)
    requires v != [] && !Upgraded(p, v, index)
    ensures Chosen(p, v, index, picked, stop, prev, k) <==> Chosen(p, w, index', picked', stop, prev, k)
  {
    forall i | 0 <= i < |v|
      ensures HashAt(p, v, index, prev, i) == HashAt(p, w, index', prev, i)
      ensures Unpicked(v, picked, i) <==> Unpicked(w, picked', i)
    {
    }
    hide HashAt;
    forall i | 0 <= i < |v|
      ensures Eligible(v, picked, stop, i) <==> Eligible(w, picked', stop, i)
    {
    }
  }

  method SelectBlockFromCandidates(p: Params, v: seq<Candidate>, index: map<nat, Block>, picked: set<nat>, stop: int,
                                   prev: nat)
    returns (fSelected: bool, best: Block, ghost k: int)
    requires Sorted(v) && Indexed(v, index)
    ensures fSelected <==> exists i :: 0 <= i < |v| && Unpicked(v, picked, i)
    ensures fSelected ==> Chosen(p, v, index, picked, stop, prev, k) && best == index[v[k].hash]
  {
    hide HashAt, SelectionHash;
    fSelected, k := false, -1;
    best := Block(0, 0, 0, false, false, false, 0);
    var hashBest := 0;
    var fModifierV2 := false;
    var fFirstRun := true;
    ghost var first := -1;
    var n := 0;
    while n < |v|
      invariant 0 <= n <= |v| && (fFirstRun <==> n == 0)
      invariant n > 0 ==> fModifierV2 == (index[v[0].hash].nHeight >= p.nModifierUpgradeBlock)
      invariant !fSelected ==> forall i :: 0 <= i < n ==> !Unpicked(v, picked, i)
      invariant fSelected ==> ChosenSoFar(p, v, index, picked, stop, prev, k, n)
                              && best == index[v[k].hash] && hashBest == HashAt(p, v, index, prev, k)
    {
      var pindex := index[v[n].hash];
      if fSelected && pindex.nTime > stop {
        ChosenStops(p, v, index, picked, stop, prev, k, n);
        return;
      }
      if fFirstRun {
        fModifierV2 := pindex.nHeight >= p.nModifierUpgradeBlock;
        fFirstRun := false;
      }
      if pindex.hash !in picked {
        var hashSelection := SelectionHash(p, pindex, fModifierV2, prev);
        HashIs(p, v, index, prev, n);
        if fSelected && hashSelection < hashBest {
          hashBest, best, k := hashSelection, pindex, n;
        } else if !fSelected {
          fSelected, hashBest, best, k := true, hashSelection, pindex, n;
        }
      }
      n := n + 1;
    }
  }

  lemma HashIs(p: Params, v: seq<Candidate>, index: map<nat, Block>, prev: nat, i: int)
    requires 0 <= i < |v| && Indexed(v, index)
    ensures HashAt(p, v, index, prev, i)
            == SelectionHash(p, index[v[i].hash], index[v[0].hash].nHeight >= p.nModifierUpgradeBlock, prev)
  {
  }

  /** The right choice among the first n candidates. */
  ghost predicate ChosenSoFar(p: Params, v: seq<Candidate>, index: map<nat, Block>, picked: set<nat>, stop: int,
                              prev: nat, k: int, n: int)
    requires Indexed(v, index) && n <= |v|
  {
    && 0 <= k < n && Eligible(v, picked, stop, k)
    && forall i :: 0 <= i < n && Eligible(v, picked, stop, i) ==>
         HashAt(p, v, index, prev, k) <= HashAt(p, v, index, prev, i)
         && (i < k ==> HashAt(p, v, index, prev, k) < HashAt(p, v, index, prev, i))
  }

  /** Past the stop time no later candidate is eligible once one has been found. */
  lemma ChosenStops(p: Params, v: seq<Candidate>, index: map<nat, Block>, picked: set<nat>, stop: int, prev: nat,
                    k: int, n: int)
    requires Sorted(v) && Indexed(v, index) && 0 <= n < |v| && v[n].nTime > stop
    requires ChosenSoFar(p, v, index, picked, stop, prev, k, n)
    ensures Chosen(p, v, index, picked, stop, prev, k)
  {
    forall i | n <= i < |v|
      ensures !Eligible(v, picked, stop, i)
    {
      assert i == n || Before(v[n], v[i]);
      assert Unpicked(v, picked, k) && k < i;
    }
  }

  // ---- sorting the candidates ----

  predicate NoHashTwice(v: seq<Candidate>) {
    forall i, j :: 0 <= i < j < |v| ==> v[i].hash != v[j].hash
  }

  method Insert(v: seq<Candidate>, c: Candidate) returns (r: seq<Candidate>)
    requires Sorted(v)
    ensures Sorted(r) && multiset(r) == multiset(v) + multiset{c}
    ensures NoHashTwice(v) && (forall i :: 0 <= i < |v| ==> v[i].hash != c.hash) ==> NoHashTwice(r)
    ensures forall x :: x in r ==> x in v || x == c
  {
    var i := 0;
    while i < |v| && Before(v[i], c)
      invariant 0 <= i <= |v| && forall j :: 0 <= j < i ==> Before(v[j], c)
    {
      i := i + 1;
    }
    r := v[..i] + [c] + v[i..];
    assert v == v[..i] + v[i..];
    SortedInsert(v, c, i);
    DistinctInsert(v, c, i);
  }

  lemma SortedInsert(v: seq<Candidate>, c: Candidate, i: nat)
    requires Sorted(v) && i <= |v| && (forall j :: 0 <= j < i ==> Before(v[j], c)) && (i < |v| ==> !Before(v[i], c))
    ensures Sorted(v[..i] + [c] + v[i..])
  {
    var r := v[..i] + [c] + v[i..];
    assert forall j :: 0 <= j < |r| ==> r[j] == if j < i then v[j] else if j == i then c else v[j - 1];
    forall j | i <= j < |v|
      ensures Before(c, v[j])
    {
      assert j == i || Before(v[i], v[j]);
    }
  }

  lemma DistinctInsert(v: seq<Candidate>, c: Candidate, i: nat)
    requires i <= |v|
    ensures NoHashTwice(v) && (forall j :: 0 <= j < |v| ==> v[j].hash != c.hash) ==> NoHashTwice(v[..i] + [c] + v[i..])
  {
    var r := v[..i] + [c] + v[i..];
    assert forall j :: 0 <= j < |r| ==> r[j] == if j < i then v[j] else if j == i then c else v[j - 1];
  }

  /** std::sort: the same candidates in order. */
  method Sort(v: seq<Candidate>) returns (r: seq<Candidate>)
    requires NoHashTwice(v)
    ensures Sorted(r) && multiset(r) == multiset(v) && NoHashTwice(r)
    ensures forall x :: x in r ==> x in v
  {
    r := [];
    for i := 0 to |v|
      invariant Sorted(r) && multiset(r) == multiset(v[..i]) && NoHashTwice(r)
      invariant forall x :: x in r ==> x in v[..i]
    {
      assert v[..i + 1] == v[..i] + [v[i]];
      forall k | 0 <= k < |r|
        ensures r[k].hash != v[i].hash
      {
        assert r[k] in v[..i];
      }
      r := Insert(r, v[i]);
    }
    assert v[..|v|] == v;
  }

  // ---- the chain behind the new block, tip first ----

  predicate IsChain(chain: seq<Block>) {
    forall i, j :: 0 <= i < j < |chain| ==> chain[i].hash != chain[j].hash
  }

  /** Where the current modifier was generated: the nearest such block, or the genesis block. */
  function LastModifier(chain: seq<Block>): nat
    requires chain != []
  {
    if |chain| > 1 && !chain[0].fGenerated then 1 + LastModifier(chain[1..]) else 0
  }

  lemma {:induction false} LastModifierIs(chain: seq<Block>)
    requires chain != []
    ensures var n := LastModifier(chain);
            && n < |chain| && (chain[n].fGenerated || n == |chain| - 1)
            && forall i :: 0 <= i < n ==> !chain[i].fGenerated
  {
    if |chain| > 1 && !chain[0].fGenerated {
      LastModifierIs(chain[1..]);
      var n := LastModifier(chain);
      assert chain[n] == chain[1..][n - 1];
      forall i | 0 <= i < n
        ensures !chain[i].fGenerated
      {
        if i > 0 { assert chain[i] == chain[1..][i - 1]; }
      }
    }
  }

  method GetLastStakeModifier(chain: seq<Block>) returns (r: Option<Block>)
    requires chain != []
    ensures var b := chain[(LastModifierIs(chain); LastModifier(chain))];
            r == if b.fGenerated then Some(b) else None
  {
    LastModifierIs(chain);
    var i := 0;
    while i + 1 < |chain| && !chain[i].fGenerated
      invariant 0 <= i < |chain| && i + LastModifier(chain[i..]) == LastModifier(chain)
    {
      assert chain[i..][1..] == chain[i + 1..];
      i := i + 1;
    }
    r := if chain[i].fGenerated then Some(chain[i]) else None;
  }

  /** The candidates: the blocks from the tip down to the first one before the interval. */
  function Recent(chain: seq<Block>, start: int): (n: nat)
    ensures n <= |chain| && (forall i :: 0 <= i < n ==> chain[i].nTime >= start)
    ensures n < |chain| ==> chain[n].nTime < start
  {
    if chain == [] || chain[0].nTime < start then 0 else 1 + Recent(chain[1..], start)
  }

  function CandidateOf(b: Block): Candidate {
    Candidate(b.nTime, b.hash)
  }

  method Collect(chain: seq<Block>, start: int) returns (v: seq<Candidate>)
    ensures |v| == Recent(chain, start) && forall i :: 0 <= i < |v| ==> v[i] == CandidateOf(chain[i])
  {
    v := [];
    var i := 0;
    while i < |chain| && chain[i].nTime >= start
      invariant |v| == i <= |chain| && i + Recent(chain[i..], start) == Recent(chain, start)
      invariant forall k :: 0 <= k < i ==> v[k] == CandidateOf(chain[k])
    {
      assert chain[i..][1..] == chain[i + 1..];
      v := v + [CandidateOf(chain[i])];
      i := i + 1;
    }
  }

  // ---- the rounds ----

  function PickedBefore(v: seq<Candidate>, picks: seq<int>, r: nat): (s: set<nat>)
    requires r <= |picks| && forall i :: 0 <= i < |picks| ==> 0 <= picks[i] < |v|
  {
    set i | 0 <= i < r :: v[picks[i]].hash
  }

  function Stop(start: int, r: nat): int
    requires r < ROUNDS
  {
    start + SumSections(r + 1)
  }

  /**
   * The first round goes up to twenty seconds into the interval, the last up to its end, where the
   * tip's minute begins.
   */
  lemma StopsAre(nTime: int)
    ensures var minute := (nTime / 60) * 60;
            var start := (nTime / MODIFIER_INTERVAL) * MODIFIER_INTERVAL - SumSections(ROUNDS);
            start == minute - 2087 && Stop(start, 0) == start + 20 && Stop(start, 63) == minute
  {
    hide SumSections, Section;
    IntervalIs();
    FirstSection();
  }

  lemma FirstSection()
    ensures SumSections(1) == 20
  {
    assert SumSections(1) == SumSections(0) + Section(0) && SumSections(0) == 0;
  }

  /** Round by round the right choice among what earlier rounds left. */
  ghost predicate Rounds(p: Params, v: seq<Candidate>, index: map<nat, Block>, start: int, prev: nat, picks: seq<int>)
    requires Indexed(v, index)
  {
    && |picks| <= ROUNDS && (forall r :: 0 <= r < |picks| ==> 0 <= picks[r] < |v|)
    && forall r :: 0 <= r < |picks| ==> Chosen(p, v, index, PickedBefore(v, picks, r), Stop(start, r), prev, picks[r])
  }

  /** No block is picked twice. */
  lemma PicksDiffer(p: Params, v: seq<Candidate>, index: map<nat, Block>, start: int, prev: nat, picks: seq<int>,
                    q: int, r: int)
    requires Indexed(v, index) && Rounds(p, v, index, start, prev, picks) && 0 <= q < r < |picks|
    ensures v[picks[q]].hash != v[picks[r]].hash
  {
    assert Chosen(p, v, index, PickedBefore(v, picks, r), Stop(start, r), prev, picks[r]);
    assert v[picks[q]].hash in PickedBefore(v, picks, r);
  }

  /** Fewer picks than candidates: one is left. */
  lemma OneIsLeft(v: seq<Candidate>, picked: set<nat>)
    requires NoHashTwice(v) && |picked| < |v|
    ensures exists i :: 0 <= i < |v| && Unpicked(v, picked, i)
  {
    if forall i :: 0 <= i < |v| ==> !Unpicked(v, picked, i) {
      HashCount(v);
      var hashes := set i | 0 <= i < |v| :: v[i].hash;
      assert hashes <= picked by {
        forall h | h in hashes
          ensures h in picked
        {
          var i :| 0 <= i < |v| && v[i].hash == h;
          assert !Unpicked(v, picked, i);
        }
      }
      SubsetSize(hashes, picked);
    }
  }

  lemma {:induction false} HashCount(v: seq<Candidate>)
    requires NoHashTwice(v)
    ensures |set i | 0 <= i < |v| :: v[i].hash| == |v|
  {
    var all := set i | 0 <= i < |v| :: v[i].hash;
    if v == [] {
      assert all == {};
    } else {
      var w := v[..|v| - 1];
      HashCount(w);
      var most := set i | 0 <= i < |w| :: w[i].hash;
      assert all == most + {v[|v| - 1].hash} by {
        forall h | h in all
          ensures h in most + {v[|v| - 1].hash}
        {
          var i :| 0 <= i < |v| && v[i].hash == h;
          if i < |w| { assert w[i].hash == h; }
        }
        forall h | h in most
          ensures h in all
        {
          var i :| 0 <= i < |w| && w[i].hash == h;
          assert v[i].hash == h;
        }
        assert v[|v| - 1].hash in all;
      }
      assert v[|v| - 1].hash !in most;
    }
  }

  // ---- the bits of the modifier ----

  function EntropyBits(v: seq<Candidate>, index: map<nat, Block>, picks: seq<int>): (r: seq<bool>)
    requires Indexed(v, index) && forall i :: 0 <= i < |picks| ==> 0 <= picks[i] < |v|
    ensures |r| == |picks| && forall i :: 0 <= i < |r| ==> r[i] == index[v[picks[i]].hash].entropyBit
  {
    seq(|picks|, i requires 0 <= i < |picks| => index[v[picks[i]].hash].entropyBit)
  }

  /** The sixty-four rounds: each of them succeeds. */
  method SelectBlocks(p: Params, v: seq<Candidate>, index: map<nat, Block>, start: int, prev: nat)
    returns (ok: bool, nStakeModifierNew: nat, ghost picks: seq<int>)
    requires Sorted(v) && Indexed(v, index) && NoHashTwice(v)
    ensures ok && Rounds(p, v, index, start, prev, picks)
    ensures |picks| == if |v| < ROUNDS then |v| else ROUNDS
    ensures nStakeModifierNew == Number(EntropyBits(v, index, picks))
  {
    hide Chosen, Section, SumSections, Number, Rounds, PickedBefore, Sorted, NoHashTwice, Pow2;
    picks := [];
    nStakeModifierNew := 0;
    NoPicks(p, v, index, start, prev);
    var stop := start;
    var picked: set<nat> := {};
    var unit := 1;
    var rounds := if |v| < ROUNDS then |v| else ROUNDS;
    for nRound := 0 to rounds
      invariant |picks| == nRound && (forall i :: 0 <= i < nRound ==> 0 <= picks[i] < |v|)
      invariant Rounds(p, v, index, start, prev, picks)
      invariant stop == start + SumSections(nRound) && unit == Pow2(nRound)
      invariant picked == PickedBefore(v, picks, nRound) && |picked| <= nRound
      invariant nStakeModifierNew == Number(EntropyBits(v, index, picks))
    {
      stop := stop + Section(nRound);
      NextRound(nRound);
      OneIsLeft(v, picked);
      var fSelected, pindex, k := SelectBlockFromCandidates(p, v, index, picked, stop, prev);
      if !fSelected {
        ok := false;
        return;
      }
      ChosenInRange(p, v, index, picked, stop, prev, k);
      NumberAppend(EntropyBits(v, index, picks), pindex.entropyBit);
      assert EntropyBits(v, index, picks + [k]) == EntropyBits(v, index, picks) + [pindex.entropyBit];
      RoundsGrow(p, v, index, start, prev, picks, k);
      if pindex.entropyBit {
        nStakeModifierNew := nStakeModifierNew + unit;
      }
      unit := unit * 2;
      picked := picked + {pindex.hash};
      picks := picks + [k];
    }
    ok := true;
  }

  lemma NoPicks(p: Params, v: seq<Candidate>, index: map<nat, Block>, start: int, prev: nat)
    requires Indexed(v, index)
    ensures Rounds(p, v, index, start, prev, []) && PickedBefore(v, [], 0) == {} && EntropyBits(v, index, []) == []
    ensures Number([]) == 0 && SumSections(0) == 0 && Pow2(0) == 1
  {
  }

  lemma NextRound(n: nat)
    requires n < ROUNDS
    ensures SumSections(n + 1) == SumSections(n) + Section(n) && Pow2(n + 1) == 2 * Pow2(n)
  {
  }

  lemma ChosenInRange(p: Params, v: seq<Candidate>, index: map<nat, Block>, picked: set<nat>, stop: int, prev: nat,
                      k: int)
    requires Indexed(v, index) && Chosen(p, v, index, picked, stop, prev, k)
    ensures 0 <= k < |v| && v[k].hash !in picked && index[v[k].hash].hash == v[k].hash
  {
  }

  lemma RoundsGrow(p: Params, v: seq<Candidate>, index: map<nat, Block>, start: int, prev: nat, picks: seq<int>, k: int)
    requires Indexed(v, index) && Rounds(p, v, index, start, prev, picks) && |picks| < ROUNDS && 0 <= k < |v|
    requires Chosen(p, v, index, PickedBefore(v, picks, |picks|), Stop(start, |picks|), prev, k)
    ensures Rounds(p, v, index, start, prev, picks + [k])
    ensures PickedBefore(v, picks + [k], |picks| + 1) == PickedBefore(v, picks, |picks|) + {v[k].hash}
  {
    hide Chosen, Stop;
    var more := picks + [k];
    forall r | 0 <= r <= |picks|
      ensures PickedBefore(v, more, r) == PickedBefore(v, picks, r)
    {
      assert forall i :: 0 <= i < r ==> more[i] == picks[i];
    }
    var all := PickedBefore(v, more, |more|);
    forall h | h in all
      ensures h in PickedBefore(v, picks, |picks|) + {v[k].hash}
    {
      var i :| 0 <= i < |more| && v[more[i]].hash == h;
      if i < |picks| { assert v[picks[i]].hash == h; }
    }
    forall h | h in PickedBefore(v, picks, |picks|)
      ensures h in all
    {
      var i :| 0 <= i < |picks| && v[picks[i]].hash == h;
      assert v[more[i]].hash == h;
    }
    assert v[more[|picks|]].hash in all;
  }

  /** All blocks of the chain are in the index, under distinct hashes, and none has a negative time. */
  predicate ChainIndexed(chain: seq<Block>, index: map<nat, Block>) {
    && IsChain(chain)
    && forall i :: 0 <= i < |chain| ==>
         chain[i].hash in index && index[chain[i].hash] == chain[i] && chain[i].nTime >= 0
  }

  /** A new modifier is due: the previous block lies in a later interval than the last modifier. */
  predicate Due(last: Block, tip: Block) {
    last.nTime / MODIFIER_INTERVAL < tip.nTime / MODIFIER_INTERVAL
  }

  /**
   * chain is the previous block and its ancestors. Fails only when no ancestor ever generated a
   * modifier. A new modifier is made of the entropy bits of the blocks picked in the rounds, from
   * all recent blocks in order of time.
   */
  method ComputeNextStakeModifier(p: Params, chain: seq<Block>, index: map<nat, Block>)
    returns (ok: bool, nStakeModifier: nat, fGenerated: bool, ghost v: seq<Candidate>, ghost picks: seq<int>)
    requires ChainIndexed(chain, index)
    ensures chain == [] ==> ok && nStakeModifier == 0 && fGenerated
    ensures chain != [] && chain[0].nHeight == 0 ==> ok && nStakeModifier == p.firstModifier && fGenerated
    ensures chain != [] && chain[0].nHeight != 0 ==>
              var last := chain[(LastModifierIs(chain); LastModifier(chain))];
              && ok == last.fGenerated
              && (ok && !Due(last, chain[0]) ==> nStakeModifier == last.nStakeModifier && !fGenerated)
              && (ok && Due(last, chain[0]) ==>
                  fGenerated && Made(p, chain, index, last.nStakeModifier, nStakeModifier, v, picks))
  {
    v, picks := [], [];
    if chain == [] {
      return true, 0, true, v, picks;
    }
    var tip := chain[0];
    if tip.nHeight == 0 {
      return true, p.firstModifier, true, v, picks;
    }
    LastModifierIs(chain);
    var last := GetLastStakeModifier(chain);
    if last.None? {
      return false, 0, false, v, picks;
    }
    nStakeModifier := last.value.nStakeModifier;
    if last.value.nTime / MODIFIER_INTERVAL >= tip.nTime / MODIFIER_INTERVAL {
      return true, nStakeModifier, false, v, picks;
    }
    ok, nStakeModifier, v, picks := GenerateModifier(p, chain, index, nStakeModifier);
    fGenerated := true;
  }

  /**
   * A chain, tip first, down to the block of height 1, which always generates a modifier; above it
   * blocks generate one when ComputeNextStakeModifier says so for their parents. Times do not go back.
   */
  ghost predicate Generating(chain: seq<Block>) {
    && (forall i, j :: 0 <= i < j < |chain| ==> chain[j].nTime <= chain[i].nTime)
    && forall i :: 0 <= i < |chain| - 1 ==>
         var before := chain[i + 1..];
         LastModifierIs(before);
         chain[i].fGenerated <==> Due(before[LastModifier(before)], chain[i + 1])
  }

  /** A block generates a modifier exactly when its parent lies in a later minute than every earlier generation. */
  lemma OncePerInterval(chain: seq<Block>, i: int)
    requires Generating(chain) && 0 <= i < |chain| - 1 && chain[|chain| - 1].fGenerated
    ensures chain[i].fGenerated <==>
              forall j :: i < j < |chain| && chain[j].fGenerated ==> chain[j].nTime / 60 < chain[i + 1].nTime / 60
  {
    var before := chain[i + 1..];
    LastModifierIs(before);
    var n := LastModifier(before);
    assert before[n] == chain[i + 1 + n] && before[|before| - 1] == chain[|chain| - 1];
    forall j | i < j < |chain| && chain[j].fGenerated
      ensures chain[j].nTime / 60 <= before[n].nTime / 60
    {
      assert chain[j] == before[j - i - 1];
    }
  }

  /** The last part of ComputeNextStakeModifier: collecting, sorting and picking. */
  method GenerateModifier(p: Params, chain: seq<Block>, index: map<nat, Block>, prev: nat)
    returns (ok: bool, nStakeModifierNew: nat, ghost v: seq<Candidate>, ghost picks: seq<int>)
    requires ChainIndexed(chain, index) && chain != []
    ensures ok && Made(p, chain, index, prev, nStakeModifierNew, v, picks)
  {
    hide Rounds, Section, Number, Recent;
    var nSelectionInterval := GetStakeModifierSelectionInterval();
    var start := (chain[0].nTime / MODIFIER_INTERVAL) * MODIFIER_INTERVAL - nSelectionInterval;
    var recent := Collect(chain, start);
    var sorted := Sort(recent);
    SortedAreIndexed(chain, index, recent, sorted);
    v := sorted;
    ok, nStakeModifierNew, picks := SelectBlocks(p, sorted, index, start, prev);
    assert recent == seq(|recent|, i requires 0 <= i < |recent| => CandidateOf(chain[i]));
  }

  lemma SortedAreIndexed(chain: seq<Block>, index: map<nat, Block>, recent: seq<Candidate>, sorted: seq<Candidate>)
    requires ChainIndexed(chain, index) && |recent| <= |chain|
    requires forall i :: 0 <= i < |recent| ==> recent[i] == CandidateOf(chain[i])
    requires forall x :: x in sorted ==> x in recent
    ensures Indexed(sorted, index)
  {
    forall i | 0 <= i < |sorted|
      ensures sorted[i].hash in index && index[sorted[i].hash].hash == sorted[i].hash
      ensures index[sorted[i].hash].nTime == sorted[i].nTime
    {
      assert sorted[i] in recent;
      var j :| 0 <= j < |recent| && recent[j] == sorted[i];
      assert chain[j].hash in index;
    }
  }

  /** The modifier made from the recent blocks, sorted, by the rounds. */
  ghost predicate Made(p: Params, chain: seq<Block>, index: map<nat, Block>, prev: nat, modifier: nat,
                       v: seq<Candidate>, picks: seq<int>)
    requires chain != []
  {
    var start := (chain[0].nTime / MODIFIER_INTERVAL) * MODIFIER_INTERVAL - SumSections(ROUNDS);
    var n := Recent(chain, start);
    && Sorted(v) && NoHashTwice(v) && Indexed(v, index)
    && multiset(v) == multiset(seq(n, i requires 0 <= i < n => CandidateOf(chain[i])))
    && Rounds(p, v, index, start, prev, picks) && |picks| == (if |v| < ROUNDS then |v| else ROUNDS)
    && modifier == Number(EntropyBits(v, index, picks))
  }

  /** Bit r of a new modifier is the entropy bit of the block picked in round r, and it has 64 bits at most. */
  lemma BitsOfMade(p: Params, chain: seq<Block>, index: map<nat, Block>, prev: nat, modifier: nat, v: seq<Candidate>,
                   picks: seq<int>, r: int)
    requires chain != [] && Made(p, chain, index, prev, modifier, v, picks) && 0 <= r < |picks|
    ensures Bit(modifier, r) == index[v[picks[r]].hash].entropyBit
    ensures modifier < Pow2(ROUNDS)
  {
    BitOfNumber(EntropyBits(v, index, picks), r);
    NumberBound(EntropyBits(v, index, picks));
    Pow2Grows(|picks|, ROUNDS);
  }
}
