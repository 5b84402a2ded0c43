/** The active chain: a vector of entries by height, forks from it and locators into it. */
module ActiveChain {
  import opened BlockTree

  /** The full path from the genesis block to b. */
  ghost function Path(b: CBlockIndex): (r: seq<CBlockIndex>)
    requires Rooted(b)
    ensures |r| == b.nHeight + 1 && forall h :: 0 <= h <= b.nHeight ==> r[h] == At(b, h)
    decreases b.nHeight
  {
    if b.nHeight == 0 then [b] else Path(b.pprev) + [b]
  }

  /** The chain ends in some block with all of its ancestors in place. */
  ghost predicate IsChain(v: seq<CBlockIndex?>) {
    v == [] || (var tip := v[|v| - 1]; tip != null && Skips(tip) && v == Path(tip))
  }

  predicate Holds(v: seq<CBlockIndex?>, b: CBlockIndex) {
    0 <= b.nHeight < |v| && v[b.nHeight] == b
  }

  /** A chain that holds a block holds all of its ancestors. */
  lemma HoldsBelow(v: seq<CBlockIndex?>, b: CBlockIndex, h: int)
    requires IsChain(v) && Rooted(b) && Holds(v, b) && 0 <= h <= b.nHeight
    ensures Holds(v, At(b, h)) && v[h] == At(b, h)
  {
    AtAt(v[|v| - 1], b.nHeight, h);
  }

  /** The height of the fork: up to there the chain holds the ancestors of b, above it holds none. */
  ghost predicate ForksAt(v: seq<CBlockIndex?>, b: CBlockIndex, h: int)
    requires Rooted(b)
  {
    && -1 <= h <= b.nHeight
    && (forall k :: 0 <= k <= h ==> Holds(v, At(b, k)))
    && (forall k :: h < k <= b.nHeight ==> !Holds(v, At(b, k)))
  }

  /** Seen from the tip, the fork is the last ancestor the tip and b share. */
  lemma ForkIsLastShared(v: seq<CBlockIndex?>, b: CBlockIndex, h: int)
    requires IsChain(v) && v != [] && Rooted(b) && 0 <= h <= b.nHeight && ForksAt(v, b, h)
    ensures LastShared(v[|v| - 1], b, h)
  {
    assert Holds(v, At(b, h));
  }

  class CChain {
    var vChain: seq<CBlockIndex?>

    ghost predicate Valid()
      reads this
    {
      IsChain(vChain)
    }

    constructor ()
      ensures Valid() && vChain == []
    {
      vChain := [];
    }

    function Genesis(): CBlockIndex?
      reads this
    {
      if |vChain| > 0 then vChain[0] else null
    }

    function Tip(): CBlockIndex?
      reads this
    {
      if |vChain| < 1 then null else vChain[|vChain| - 1]
    }

    function Index(nHeight: int): CBlockIndex?
      reads this
    {
      if nHeight < 0 || nHeight >= |vChain| then null else vChain[nHeight]
    }

    predicate Contains(b: CBlockIndex)
      reads this
      ensures Contains(b) <==> Holds(vChain, b)
    {
      Index(b.nHeight) == b
    }

    function Next(b: CBlockIndex): (r: CBlockIndex?)
      requires Valid()
      reads this
      ensures r != null ==> r.pprev == b && Holds(vChain, b) && Holds(vChain, r)
      ensures r == null <==> !Holds(vChain, b) || Tip() == b
    {
      if Contains(b) then
        (if b.nHeight + 1 < |vChain| then AtAt(vChain[|vChain| - 1], b.nHeight + 1, b.nHeight); Index(b.nHeight + 1)
         else Index(b.nHeight + 1))
      else null
    }

    function Height(): int
      reads this
    {
      |vChain| - 1
    }

    /** Walks back only until the chain already agrees, and still leaves the whole path in place. */
    method SetTip(pindex0: CBlockIndex?)
      requires Valid() && (pindex0 != null ==> Skips(pindex0))
      modifies this
      ensures Valid() && vChain == if pindex0 == null then [] else Path(pindex0)
    {
      if pindex0 == null {
        vChain := [];
        return;
      }
      var pindex: CBlockIndex? := pindex0;
      ghost var was := vChain;
      var size := pindex.nHeight + 1;
      vChain := if size <= |vChain| then vChain[..size] else vChain + seq(size - |vChain|, _ => null);
      while pindex != null && vChain[pindex.nHeight] != pindex
        invariant |vChain| == size
        invariant pindex != null ==> Rooted(pindex) && IsAncestor(pindex, pindex0)
        invariant var low := if pindex == null then -1 else pindex.nHeight;
                  && (forall h :: low < h <= pindex0.nHeight ==> vChain[h] == At(pindex0, h))
                  && (forall h :: 0 <= h <= low ==> vChain[h] == if h < |was| then was[h] else null)
        decreases if pindex == null then -1 else pindex.nHeight
      {
        if pindex.nHeight > 0 { AtAt(pindex0, pindex.nHeight, pindex.nHeight - 1); }
        vChain := vChain[pindex.nHeight := pindex];
        pindex := pindex.pprev;
      }
      if pindex != null {
        forall h | 0 <= h <= pindex.nHeight
          ensures vChain[h] == At(pindex0, h)
        {
          HoldsBelow(was, pindex, h);
          AtAt(pindex0, pindex.nHeight, h);
        }
      }
      assert vChain == Path(pindex0);
    }

    /** The last common block of this chain and the path to b, or none when not even the genesis block is shared. */
    method FindFork(b: CBlockIndex) returns (r: CBlockIndex?)
      requires Valid() && Skips(b)
      ensures ForksAt(vChain, b, if r == null then -1 else r.nHeight)
      ensures r != null ==> Holds(vChain, r) && Rooted(r) && IsAncestor(r, b)
    {
      var pindex: CBlockIndex? := b;
      if pindex.nHeight > Height() {
        pindex := pindex.GetAncestor(Height());
      }
      while pindex != null && !Contains(pindex)
        invariant pindex != null ==> Rooted(pindex) && IsAncestor(pindex, b)
        invariant forall k :: (if pindex == null then -1 else pindex.nHeight) < k <= b.nHeight ==>
                    !Holds(vChain, At(b, k))
        decreases if pindex == null then -1 else pindex.nHeight
      {
        if pindex.nHeight > 0 { AtAt(b, pindex.nHeight, pindex.nHeight - 1); }
        pindex := pindex.pprev;
      }
      r := pindex;
      if r != null {
        forall k | 0 <= k <= r.nHeight
          ensures Holds(vChain, At(b, k))
        {
          HoldsBelow(vChain, r, k);
          AtAt(b, r.nHeight, k);
        }
      }
    }
  }
}
