/** Block locators: which blocks they name, how few, and how close to a fork they lead. */
module Locators {
  import opened BitStrings
  import opened Common
  import opened BlockTree
  import opened ActiveChain

  /** nStep before the i-th step back: 1 for the first eleven, then doubling. */
  function StepSize(i: nat): (r: nat)
    ensures r >= 1
  {
    if i <= 10 then 1 else 2 * StepSize(i - 1)
  }

  /** How far below the start the i-th named block lies, as long as there are that many blocks. */
  function Depth(i: nat): nat {
    if i == 0 then 0 else Depth(i - 1) + StepSize(i - 1)
  }

  lemma {:induction false} DepthIncreases(i: nat, j: nat)
    requires i < j
    ensures Depth(i) < Depth(j)
  {
    if i < j - 1 { DepthIncreases(i, j - 1); }
  }

  /** One block each for the first eleven, then twice as far each time: depth 9 + 2^(i-10). */
  lemma {:induction false} DepthFormula(i: nat)
    ensures i <= 11 ==> Depth(i) == i
    ensures i >= 11 ==> Depth(i) == 9 + StepSize(i)
  {
    if i > 0 { DepthFormula(i - 1); }
  }

  /** The heights named by a locator from height h on, i steps back already done. */
  function Heights(h: nat, i: nat): (r: seq<nat>)
    ensures |r| > 0 && r[0] == Max(h - Depth(i), 0) && r[|r| - 1] == 0
    decreases Max(h - Depth(i), 0)
  {
    var here := Max(h - Depth(i), 0);
    if here == 0 then [0] else [here] + Heights(h, i + 1)
  }

  lemma {:induction false} HeightsAt(h: nat, i: nat, k: nat)
    requires k < |Heights(h, i)|
    ensures Heights(h, i)[k] == Max(h - Depth(i + k), 0)
    ensures k + 1 < |Heights(h, i)| ==> Depth(i + k) < h
    decreases k
  {
    if k > 0 { HeightsAt(h, i + 1, k - 1); }
  }

  /** Strictly descending, to the genesis block. */
  lemma HeightsDescend(h: nat, j: nat, k: nat)
    requires j < k < |Heights(h, 0)|
    ensures Heights(h, 0)[j] > Heights(h, 0)[k]
  {
    HeightsAt(h, 0, j);
    HeightsAt(h, 0, k);
    DepthIncreases(j, k);
  }

  /** Only logarithmically many: the last step but one doubled often enough to bound their number. */
  lemma HeightsAreFew(h: nat)
    ensures |Heights(h, 0)| > 12 ==> Pow2(|Heights(h, 0)| - 12) + 9 < h
  {
    var n := |Heights(h, 0)|;
    if n > 12 {
      HeightsAt(h, 0, n - 2);
      DepthFormula(n - 2);
      StepsDouble(n - 12);
    }
  }

  lemma {:induction false} StepsDouble(k: nat)
    ensures StepSize(10 + k) == Pow2(k)
  {
    if k > 0 { StepsDouble(k - 1); }
  }

  // ---- making a locator ----

  /** The hashes of the ancestors of b at the first of the given heights. */
  ghost predicate NamesFirst(vHave: seq<nat>, b: CBlockIndex, heights: seq<nat>)
    requires Rooted(b)
  {
    |vHave| <= |heights| && forall i :: 0 <= i < |vHave| ==>
      heights[i] <= b.nHeight && vHave[i] == At(b, heights[i]).hash
  }

  ghost predicate Names(vHave: seq<nat>, b: CBlockIndex, heights: seq<nat>)
    requires Rooted(b)
  {
    |vHave| == |heights| && NamesFirst(vHave, b, heights)
  }

  /** The block a locator is asked for; the tip when none is given. */
  ghost function Start(chain: CChain, b: CBlockIndex?): CBlockIndex?
    reads chain
  {
    if b == null then chain.Tip() else b
  }

  /** The ancestor of an entry, straight from the chain if the chain holds the entry. */
  method StepBack(chain: CChain, pindex: CBlockIndex, nHeight: int) returns (r: CBlockIndex)
    requires chain.Valid() && Skips(pindex) && 0 <= nHeight <= pindex.nHeight
    ensures r == At(pindex, nHeight) && Skips(r)
  {
    SkipsAt(pindex, nHeight);
    if chain.Contains(pindex) {
      HoldsBelow(chain.vChain, pindex, nHeight);
      r := chain.Index(nHeight);
    } else {
      r := pindex.GetAncestor(nHeight);
    }
  }

  method GetLocator(chain: CChain, b: CBlockIndex?) returns (vHave: seq<nat>)
    requires chain.Valid() && (b != null ==> Skips(b))
    ensures var p := Start(chain, b);
            if p == null then vHave == [] else Skips(p) && Names(vHave, p, Heights(p.nHeight, 0))
  {
    hide Heights, StepSize, Path, Skips;
    var nStep := 1;
    vHave := [];
    var pindex := b;
    if pindex == null {
      pindex := chain.Tip();
    }
    if pindex == null {
      return;
    }
    ghost var p: CBlockIndex := pindex;
    ghost var all := Heights(p.nHeight, 0);
    HeightsStart(p.nHeight);
    while pindex != null
      invariant |vHave| < |all| && pindex != null && nStep == StepSize(|vHave|)
      invariant all[|vHave|] == pindex.nHeight && IsAncestor(pindex, p) && Skips(pindex)
      invariant NamesFirst(vHave, p, all)
      decreases |all| - |vHave|
    {
      ghost var i := |vHave|;
      vHave := vHave + [pindex.hash];
      if pindex.nHeight == 0 {
        HeightsEnd(p.nHeight, i);
        return;
      }
      var nHeight := Max(pindex.nHeight - nStep, 0);
      HeightsNext(p.nHeight, i);
      StepNext(i);
      AtAt(p, pindex.nHeight, nHeight);
      pindex := StepBack(chain, pindex, nHeight);
      if |vHave| > 10 {
        nStep := nStep * 2;
      }
    }
  }

  lemma HeightsStart(h: int)
    ensures h >= 0 ==> |Heights(h, 0)| > 0 && Heights(h, 0)[0] == h
    ensures StepSize(0) == 1
  {
  }

  lemma StepNext(i: nat)
    ensures StepSize(i + 1) == if i + 1 > 10 then 2 * StepSize(i) else StepSize(i)
  {
  }

  lemma HeightsEnd(h: nat, i: nat)
    requires i < |Heights(h, 0)| && Heights(h, 0)[i] == 0
    ensures i == |Heights(h, 0)| - 1
  {
    if i < |Heights(h, 0)| - 1 { HeightsAt(h, 0, i); }
  }

  lemma HeightsNext(h: nat, i: nat)
    requires i < |Heights(h, 0)| && Heights(h, 0)[i] > 0
    ensures i + 1 < |Heights(h, 0)| && Heights(h, 0)[i + 1] == Max(Heights(h, 0)[i] - StepSize(i), 0)
  {
    HeightsAt(h, 0, i);
    assert i + 1 < |Heights(h, 0)|;
    HeightsAt(h, 0, i + 1);
  }

  // ---- using a locator ----

  /** The index knows every block of the chain by its hash, and no other block by the hash of an ancestor of p. */
  ghost predicate Indexed(mapBlockIndex: map<nat, CBlockIndex>, v: seq<CBlockIndex?>, p: CBlockIndex)
    requires Rooted(p)
  {
    && (forall h :: 0 <= h < |v| && v[h] != null ==> v[h].hash in mapBlockIndex && mapBlockIndex[v[h].hash] == v[h])
    && (forall h :: 0 <= h <= p.nHeight && At(p, h).hash in mapBlockIndex ==> mapBlockIndex[At(p, h).hash] == At(p, h))
  }

  /** The first block named that is in the chain; the chain's genesis block when none is. */
  method FindForkInGlobalIndex(mapBlockIndex: map<nat, CBlockIndex>, chain: CChain, vHave: seq<nat>)
    returns (r: CBlockIndex?)
    ensures (exists i :: FirstHeld(mapBlockIndex, chain.vChain, vHave, i, r))
            || (r == chain.Genesis() && NoneHeld(mapBlockIndex, chain.vChain, vHave, |vHave|))
  {
    for i := 0 to |vHave|
      invariant NoneHeld(mapBlockIndex, chain.vChain, vHave, i)
    {
      if vHave[i] in mapBlockIndex {
        var pindex := mapBlockIndex[vHave[i]];
        if chain.Contains(pindex) {
          assert FirstHeld(mapBlockIndex, chain.vChain, vHave, i, pindex);
          return pindex;
        }
      }
    }
    r := chain.Genesis();
  }

  ghost predicate Held(m: map<nat, CBlockIndex>, v: seq<CBlockIndex?>, hash: nat) {
    hash in m && Holds(v, m[hash])
  }

  ghost predicate NoneHeld(m: map<nat, CBlockIndex>, v: seq<CBlockIndex?>, vHave: seq<nat>, n: nat) {
    forall j :: 0 <= j < n && j < |vHave| ==> !Held(m, v, vHave[j])
  }

  ghost predicate FirstHeld(m: map<nat, CBlockIndex>, v: seq<CBlockIndex?>, vHave: seq<nat>, i: nat, r: CBlockIndex?) {
    i < |vHave| && Held(m, v, vHave[i]) && r == m[vHave[i]] && NoneHeld(m, v, vHave, i)
  }

  /** A named block is found exactly when it is at or below the fork. */
  lemma HeldBelowFork(m: map<nat, CBlockIndex>, v: seq<CBlockIndex?>, p: CBlockIndex, vHave: seq<nat>, fork: int,
                      i: nat)
    requires Rooted(p) && Indexed(m, v, p) && Names(vHave, p, Heights(p.nHeight, 0)) && ForksAt(v, p, fork)
    requires i < |vHave|
    ensures Held(m, v, vHave[i]) <==> Heights(p.nHeight, 0)[i] <= fork
    ensures Held(m, v, vHave[i]) ==> m[vHave[i]] == At(p, Heights(p.nHeight, 0)[i])
  {
    var h := Heights(p.nHeight, 0)[i];
    if h <= fork { assert Holds(v, At(p, h)) && v[h] == At(p, h); }
  }

  /** How deep below p the fork is, and how deep the block that the locator leads to may be. */
  ghost predicate CloseToFork(p: CBlockIndex, fork: int, r: CBlockIndex) {
    var f, d := p.nHeight - fork, p.nHeight - r.nHeight;
    && f <= d
    && (f <= 11 ==> d == f)
    && (f > 11 ==> d <= 2 * f - 11)
  }

  /**
   * Exchanging a locator for p: what is found is a common ancestor, exactly the fork when that is
   * at most 11 below p, and otherwise less than twice as deep.
   */
  lemma LocatorFindsFork(m: map<nat, CBlockIndex>, v: seq<CBlockIndex?>, p: CBlockIndex, vHave: seq<nat>, fork: int,
                         i: nat, r: CBlockIndex)
    requires Rooted(p) && Indexed(m, v, p) && Names(vHave, p, Heights(p.nHeight, 0)) && ForksAt(v, p, fork)
    requires FirstHeld(m, v, vHave, i, r)
    ensures Holds(v, r) && IsAncestor(r, p) && CloseToFork(p, fork, r)
  {
    hide Heights, Depth, Indexed;
    HeldBelowFork(m, v, p, vHave, fork, i);
    HeightsAt(p.nHeight, 0, i);
    if i > 0 {
      HeldBelowFork(m, v, p, vHave, fork, i - 1);
      HeightsAt(p.nHeight, 0, i - 1);
    }
    FirstDeepEnough(i, p.nHeight - fork);
  }

  /** The first depth that reaches f overshoots it by less than a factor of two. */
  lemma FirstDeepEnough(i: nat, f: nat)
    requires i > 0 ==> Depth(i - 1) < f
    ensures Depth(i) >= f && f <= 11 ==> Depth(i) == f
    ensures f > 11 ==> Depth(i) <= 2 * f - 11
  {
    DepthFormula(i);
    if i > 0 { DepthFormula(i - 1); }
  }

  /** When p grows from the chain's own genesis block, something is always found. */
  lemma SomethingIsFound(m: map<nat, CBlockIndex>, v: seq<CBlockIndex?>, p: CBlockIndex, vHave: seq<nat>, fork: int)
    requires Rooted(p) && Indexed(m, v, p) && Names(vHave, p, Heights(p.nHeight, 0)) && ForksAt(v, p, fork) && fork >= 0
    ensures !NoneHeld(m, v, vHave, |vHave|)
  {
    var last := |vHave| - 1;
    HeldBelowFork(m, v, p, vHave, fork, last);
    assert Held(m, v, vHave[last]);
  }

  /** GetLocator on one chain, FindForkInGlobalIndex on another. */
  method Exchange(m: map<nat, CBlockIndex>, ours: CChain, theirs: CChain, p: CBlockIndex, ghost fork: int)
    returns (r: CBlockIndex)
    requires ours.Valid() && theirs.Valid() && Skips(p) && Indexed(m, theirs.vChain, p)
    requires ForksAt(theirs.vChain, p, fork) && fork >= 0
    ensures theirs.Contains(r) && IsAncestor(r, p) && CloseToFork(p, fork, r)
  {
    var vHave := GetLocator(ours, p);
    SomethingIsFound(m, theirs.vChain, p, vHave, fork);
    var found := FindForkInGlobalIndex(m, theirs, vHave);
    ghost var i :| FirstHeld(m, theirs.vChain, vHave, i, found);
    LocatorFindsFork(m, theirs.vChain, p, vHave, fork, i, found);
    r := found;
  }
}
