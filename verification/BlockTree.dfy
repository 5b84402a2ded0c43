/** The block tree: block index entries, their parents, and the skip pointers that speed up walks. */
module BlockTree {

  // ---- the height a skip pointer jumps to ----

  /** Bitwise and. */
  function BitAnd(a: nat, b: nat): nat {
    if a == 0 || b == 0 then 0 else 2 * BitAnd(a / 2, b / 2) + (a % 2) * (b % 2)
  }

  /** n & (n - 1); for n == 0 that is 0 & -1, which is 0. */
  function InvertLowestOne(n: nat): nat {
    if n == 0 then 0 else BitAnd(n, n - 1)
  }

  function GetSkipHeight(height: int): int {
    if height < 2 then 0
    else if height % 2 == 1 then InvertLowestOne(InvertLowestOne(height - 1)) + 1
    else InvertLowestOne(height)
  }

  lemma {:induction false} BitAndSelf(a: nat)
    ensures BitAnd(a, a) == a
  {
    if a > 0 { BitAndSelf(a / 2); }
  }

  lemma {:induction false} InvertLowers(n: nat)
    requires n > 0
    ensures InvertLowestOne(n) < n && (n % 2 == 1 ==> InvertLowestOne(n) == n - 1) && InvertLowestOne(n) % 2 == 0
  {
    if n % 2 == 1 {
      BitAndSelf(n / 2);
    } else {
      InvertLowers(n / 2);
    }
  }

  /** n << k */
  function Shifted(n: nat, k: nat): nat {
    if k == 0 then n else 2 * Shifted(n, k - 1)
  }

  /** What InvertLowestOne is for: the lowest one bit of a number becomes a zero. */
  lemma {:induction false} InvertClearsLowest(m: nat, k: nat)
    ensures InvertLowestOne(Shifted(2 * m + 1, k)) == Shifted(2 * m, k)
  {
    if k == 0 {
      InvertLowers(2 * m + 1);
    } else {
      InvertClearsLowest(m, k - 1);
      InvertDouble(Shifted(2 * m + 1, k - 1));
    }
  }

  lemma InvertDouble(n: nat)
    ensures InvertLowestOne(2 * n) == 2 * InvertLowestOne(n)
  {
    if n > 0 { assert (2 * n - 1) / 2 == n - 1; }
  }

  /** A skip pointer leads to a strictly lower block, never below the genesis block. */
  lemma SkipHeightIsLower(n: int)
    requires n > 0
    ensures 0 <= GetSkipHeight(n) < n
  {
    if n >= 2 {
      if n % 2 == 1 {
        InvertLowers(n - 1);
        var m := InvertLowestOne(n - 1);
        if m > 0 { InvertLowers(m); }
      } else {
        InvertLowers(n);
      }
    }
  }

  // ---- how far the skip pointers lead ----

  /** The number of one bits. */
  function Ones(n: nat): nat {
    if n == 0 then 0 else n % 2 + Ones(n / 2)
  }

  lemma {:induction false} InvertTakesOne(n: nat)
    requires n > 0
    ensures Ones(InvertLowestOne(n)) == Ones(n) - 1
  {
    InvertLowers(n);
    if n % 2 == 1 {
      assert InvertLowestOne(n) == n - 1 && (n - 1) / 2 == n / 2;
    } else {
      InvertTakesOne(n / 2);
      InvertDouble(n / 2);
    }
  }

  /** The skips from a height down to genesis. */
  function SkipsToGenesis(height: nat): nat {
    if height == 0 then 0 else
    SkipHeightIsLower(height);
    1 + SkipsToGenesis(GetSkipHeight(height))
  }

  /** Each skip from an even height drops its lowest one bit, each from an odd one the two above its last. */
  lemma {:induction false} SkipsCounted(height: nat)
    ensures SkipsToGenesis(height) ==
            if height % 2 == 0 then Ones(height) else 1 + (Ones(height - 1) + 1) / 2
    decreases height
  {
    if height >= 2 {
      SkipHeightIsLower(height);
      var next := GetSkipHeight(height);
      SkipsCounted(next);
      if height % 2 == 0 {
        InvertTakesOne(height);
        InvertLowers(height);
      } else {
        var m := InvertLowestOne(height - 1);
        InvertTakesOne(height - 1);
        InvertLowers(height - 1);
        if m > 0 {
          InvertTakesOne(m);
          InvertLowers(m);
        }
      }
    }
  }

  /** So there are no more skips than the height has binary digits: 2^(skips - 1) is at most the height. */
  lemma SkipsAreFew(height: nat)
    requires height > 0
    ensures Shifted(1, SkipsToGenesis(height) - 1) <= height
  {
    SkipsCounted(height);
    OnesBound(height);
    if height % 2 == 1 && height > 1 {
      OnesBound(height - 1);
      ShiftedGrows((Ones(height - 1) + 1) / 2, Ones(height - 1));
      assert (height - 1) % 2 == 0;
    }
  }

  lemma {:induction false} OnesBound(n: nat)
    requires n > 0
    ensures Ones(n) > 0 && Shifted(1, Ones(n) - 1) <= n
    ensures n % 2 == 0 ==> Shifted(1, Ones(n)) <= n
  {
    if n >= 2 {
      OnesBound(n / 2);
    }
  }

  lemma {:induction false} ShiftedGrows(j: nat, k: nat)
    requires j <= k
    ensures Shifted(1, j) <= Shifted(1, k)
  {
    if j < k { ShiftedGrows(j, k - 1); }
  }

  // ---- block index entries ----

  class CBlockIndex {
    const hash: nat
    const pprev: CBlockIndex?
    const nHeight: int
    const pskip: CBlockIndex?
    const nChainWork: nat
    /** The address of the entry, the last tie breaker. */
    const address: nat

    var fFailedValid: bool
    var fFailedChild: bool
    var fHaveData: bool
    var nTx: nat
    var nChainTx: nat
    var nSequenceId: nat

    constructor (hash: nat, pprev: CBlockIndex?, nHeight: int, pskip: CBlockIndex?, nChainWork: nat, address: nat)
      ensures this.hash == hash && this.pprev == pprev && this.nHeight == nHeight && this.pskip == pskip
      ensures this.nChainWork == nChainWork && this.address == address
      ensures !fFailedValid && !fFailedChild && !fHaveData && nTx == 0 && nChainTx == 0 && nSequenceId == 0
    {
      this.hash, this.pprev, this.nHeight, this.pskip := hash, pprev, nHeight, pskip;
      this.nChainWork, this.address := nChainWork, address;
      fFailedValid, fFailedChild, fHaveData := false, false, false;
      nTx, nChainTx, nSequenceId := 0, 0, 0;
    }

    /** nStatus & BLOCK_FAILED_MASK */
    predicate IsFailed()
      reads this`fFailedValid, this`fFailedChild
    {
      fFailedValid || fFailedChild
    }

    /** Follows skip pointers where they lead far enough, parents elsewhere. */
    method GetAncestor(height: int) returns (r: CBlockIndex?)
      requires Skips(this)
      ensures r == if height > nHeight || height < 0 then null else At(this, height)
    {
      if height > nHeight || height < 0 {
        return null;
      }
      var pindexWalk: CBlockIndex := this;
      var heightWalk := nHeight;
      while heightWalk > height
        invariant height <= heightWalk <= nHeight && pindexWalk.nHeight == heightWalk
        invariant Skips(pindexWalk) && At(pindexWalk, height) == At(this, height)
        decreases heightWalk
      {
        SkipHeightIsLower(heightWalk);
        SkipsAt(pindexWalk, GetSkipHeight(heightWalk));
        var heightSkip := GetSkipHeight(heightWalk);
        var heightSkipPrev := GetSkipHeight(heightWalk - 1);
        if heightSkip == height
           || (heightSkip > height && !(heightSkipPrev < heightSkip - 2 && heightSkipPrev >= height)) {
          AtAt(pindexWalk, heightSkip, height);
          pindexWalk := pindexWalk.pskip;
          heightWalk := heightSkip;
        } else {
          pindexWalk := pindexWalk.pprev;
          heightWalk := heightWalk - 1;
        }
      }
      r := pindexWalk;
    }
  }

  /** Every parent is one lower, down to a genesis block at height 0. */
  ghost predicate Rooted(b: CBlockIndex)
    decreases if b.nHeight < 0 then 0 else b.nHeight
  {
    if b.nHeight <= 0 then b.nHeight == 0 && b.pprev == null
    else b.pprev != null && b.pprev.nHeight == b.nHeight - 1 && Rooted(b.pprev)
  }

  /** The ancestor at height h, by the plain walk over parents. */
  ghost function At(b: CBlockIndex, h: int): (r: CBlockIndex)
    requires Rooted(b) && 0 <= h <= b.nHeight
    ensures Rooted(r) && r.nHeight == h
    decreases b.nHeight
  {
    if h == b.nHeight then b else At(b.pprev, h)
  }

  /** All skip pointers from here down were built by BuildSkip. */
  ghost predicate Skips(b: CBlockIndex)
    ensures Skips(b) ==> Rooted(b)
    decreases if b.nHeight < 0 then 0 else b.nHeight
  {
    if b.nHeight <= 0 then b.nHeight == 0 && b.pprev == null
    else
      && b.pprev != null && b.pprev.nHeight == b.nHeight - 1 && Skips(b.pprev)
      && (SkipHeightIsLower(b.nHeight); b.pskip == At(b.pprev, GetSkipHeight(b.nHeight)))
  }

  lemma {:induction false} AtAt(b: CBlockIndex, h: int, k: int)
    requires Rooted(b) && 0 <= k <= h <= b.nHeight
    ensures At(At(b, h), k) == At(b, k)
    decreases b.nHeight
  {
    if h < b.nHeight { AtAt(b.pprev, h, k); }
  }

  lemma {:induction false} SkipsAt(b: CBlockIndex, h: int)
    requires Skips(b) && 0 <= h <= b.nHeight
    ensures Skips(At(b, h))
    decreases b.nHeight
  {
    if h < b.nHeight { SkipsAt(b.pprev, h); }
  }

  ghost predicate IsAncestor(a: CBlockIndex, b: CBlockIndex)
    requires Rooted(b)
  {
    0 <= a.nHeight <= b.nHeight && At(b, a.nHeight) == a
  }

  /** AddToBlockIndex as far as the tree goes: the new entry above pprev, with its skip pointer. */
  method AddToBlockIndex(hash: nat, pprev: CBlockIndex?, nBlockWork: nat, address: nat) returns (b: CBlockIndex)
    requires pprev != null ==> Skips(pprev)
    ensures fresh(b) && Skips(b) && b.hash == hash && b.pprev == pprev && b.address == address
    ensures b.nChainWork == (if pprev == null then 0 else pprev.nChainWork) + nBlockWork
    ensures !b.fFailedValid && !b.fFailedChild && !b.fHaveData && b.nTx == 0 && b.nChainTx == 0
  {
    if pprev == null {
      b := new CBlockIndex(hash, null, 0, null, nBlockWork, address);
    } else {
      var nHeight := pprev.nHeight + 1;
      SkipHeightIsLower(nHeight);
      var pskip := pprev.GetAncestor(GetSkipHeight(nHeight));
      b := new CBlockIndex(hash, pprev, nHeight, pskip, pprev.nChainWork + nBlockWork, address);
    }
  }

  // ---- common ancestors ----

  /** h is the height of the last common ancestor: shared there and nowhere above. */
  ghost predicate LastShared(a: CBlockIndex, b: CBlockIndex, h: int)
    requires Rooted(a) && Rooted(b)
  {
    && 0 <= h <= a.nHeight && h <= b.nHeight && At(a, h) == At(b, h)
    && forall k :: h < k <= a.nHeight && k <= b.nHeight ==> At(a, k) != At(b, k)
  }

  method LastCommonAncestor(pa0: CBlockIndex, pb0: CBlockIndex) returns (r: CBlockIndex)
    requires Skips(pa0) && Skips(pb0) && At(pa0, 0) == At(pb0, 0)
    ensures Rooted(r) && IsAncestor(r, pa0) && IsAncestor(r, pb0) && LastShared(pa0, pb0, r.nHeight)
  {
    var pa: CBlockIndex?, pb: CBlockIndex? := pa0, pb0;
    if pa.nHeight > pb.nHeight {
      pa := pa.GetAncestor(pb.nHeight);
    } else if pb.nHeight > pa.nHeight {
      pb := pb.GetAncestor(pa.nHeight);
    }
    while pa != pb && pa != null && pb != null
      invariant pa != null && pb != null && Rooted(pa) && Rooted(pb) && pa.nHeight == pb.nHeight
      invariant IsAncestor(pa, pa0) && IsAncestor(pb, pb0)
      invariant forall k :: pa.nHeight < k <= pa0.nHeight && k <= pb0.nHeight ==> At(pa0, k) != At(pb0, k)
      decreases if pa == null then -1 else pa.nHeight
    {
      var h := pa.nHeight;
      assert h != 0;
      AtAt(pa0, h, h - 1);
      AtAt(pb0, h, h - 1);
      pa, pb := pa.pprev, pb.pprev;
    }
    assert pa == pb;
    r := pa;
  }
}
