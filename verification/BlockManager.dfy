/** The block index as it grows, and the choice of the next active tip. */
module BlockManager {
  import opened BlockTree
  import opened ActiveChain
  import opened Branches
  import opened BlockLinking

  /** What CheckBlock and ContextualCheckBlock say: only Invalid is held against the block for good. */
  datatype Checks = Passed | Invalid | Unclear

  /** A block as it arrives, with the outcome of the checks outside this model. */
  datatype Arrival = Arrival(hash: nat, hashPrev: nat, fGenesis: bool, nTx: nat, nBlockWork: nat, address: nat,
                             fWork: bool, fHeader: bool, fContext: bool, checks: Checks, fStake: bool)

  /** The entries, those marked failed and those without data. */
  datatype Index = Index(all: Blocks, failed: Blocks, dataless: Blocks)

  ghost predicate Known(ix: Index, hash: nat) {
    exists b :: b in ix.all && b.hash == hash
  }

  /** In the index and not marked failed. */
  ghost predicate KnownSound(ix: Index, hash: nat) {
    exists b :: b in ix.all && b.hash == hash && b !in ix.failed
  }

  ghost predicate HasData(ix: Index, hash: nat) {
    exists b :: b in ix.all && b.hash == hash && b !in ix.dataless
  }

  /** The entry names the parent the block names. */
  ghost predicate HasParentOf(b: CBlockIndex, a: Arrival) {
    if a.fGenesis then b.pprev == null else b.pprev != null && b.pprev.hash == a.hashPrev
  }

  ghost predicate HeaderAccepted(ix: Index, a: Arrival) {
    if Known(ix, a.hash) then KnownSound(ix, a.hash)
    else a.fHeader && (a.fGenesis || KnownSound(ix, a.hashPrev)) && a.fContext
  }

  ghost predicate ParentAccepted(ix: Index, a: Arrival) {
    a.fGenesis || (KnownSound(ix, a.hashPrev) && a.fWork)
  }

  ghost predicate Accepted(ix: Index, a: Arrival) {
    ParentAccepted(ix, a) && HeaderAccepted(ix, a) && (HasData(ix, a.hash) || (a.checks.Passed? && a.fStake))
  }

  /** A header not known before gets an entry, without data. */
  ghost function AfterHeader(ix: Index, a: Arrival, pindex: CBlockIndex): Index {
    if Known(ix, a.hash) then ix else Index(ix.all + {pindex}, ix.failed, ix.dataless + {pindex})
  }

  /** The outcome for an entry whose data had not been there. */
  ghost function AfterData(ix: Index, a: Arrival, pindex: CBlockIndex): Index {
    match a.checks
    case Invalid => ix.(failed := ix.failed + {pindex})
    case Unclear => ix
    case Passed => if a.fStake then ix.(dataless := ix.dataless - {pindex}) else ix
  }

  ghost function AfterBlock(ix: Index, a: Arrival, pindex: CBlockIndex): Index {
    var header := AfterHeader(ix, a, pindex);
    if HasData(ix, a.hash) then header else AfterData(header, a, pindex)
  }

  /** The entry of an arrival whose header is accepted: the one with its hash, or a new one. */
  ghost predicate EntryFor(ix: Index, a: Arrival, pindex: CBlockIndex) {
    && pindex.hash == a.hash && HeaderAccepted(ix, a) && HashesDiffer(ix.all)
    && (Known(ix, a.hash) ==> pindex in ix.all)
    && (!Known(ix, a.hash) ==> pindex !in ix.all && pindex !in ix.failed && pindex !in ix.dataless)
  }

  /** A block found invalid is refused whenever it comes again, and so is each block that names it as its parent. */
  lemma InvalidForGood(ix: Index, a: Arrival, pindex: CBlockIndex, b: Arrival)
    requires EntryFor(ix, a, pindex) && !HasData(ix, a.hash) && a.checks.Invalid?
    ensures b.hash == a.hash ==> !Accepted(AfterBlock(ix, a, pindex), b)
    ensures b.hashPrev == a.hash && !b.fGenesis ==> !Accepted(AfterBlock(ix, a, pindex), b)
  {
    var r := AfterBlock(ix, a, pindex);
    assert pindex in r.all && pindex in r.failed;
    forall x | x in r.all && x.hash == a.hash
      ensures x == pindex
    {
    }
    assert !KnownSound(r, a.hash);
    if b.hash == a.hash { assert Known(r, b.hash); }
  }

  /**
   * A failure that is not the block's own fault is forgotten: the same block is accepted when it
   * comes again and passes, and so it is when only its stake could not be checked.
   */
  lemma UnclearMayComeAgain(ix: Index, a: Arrival, pindex: CBlockIndex, b: Arrival)
    requires EntryFor(ix, a, pindex) && !HasData(ix, a.hash) && (a.checks.Unclear? || (a.checks.Passed? && !a.fStake))
    requires b.hash == a.hash && ParentAccepted(ix, b)
    ensures Accepted(AfterBlock(ix, a, pindex), b) <==> b.checks.Passed? && b.fStake
  {
    var r := AfterBlock(ix, a, pindex);
    assert r == AfterHeader(ix, a, pindex);
    if !Known(ix, a.hash) { assert pindex in r.all && pindex !in r.failed; }
    assert KnownSound(r, b.hash) && Known(r, b.hash);
    assert HasData(r, b.hash) <==> HasData(ix, b.hash);
    if !b.fGenesis {
      var x :| x in ix.all && x.hash == b.hashPrev && x !in ix.failed;
      assert x in r.all && x !in r.failed;
    }
  }

  class CBlockManager {
    const chainActive: CChain
    var mapBlockIndex: Blocks
    var setBlockIndexCandidates: Blocks
    /** (parent, child) pairs. */
    var mapBlocksUnlinked: Pairs
    var pindexBestInvalid: CBlockIndex?
    var nBlockSequenceId: nat

    ghost predicate Valid()
      reads this, chainActive
    {
      chainActive.Valid() && IsIndex(mapBlockIndex) && setBlockIndexCandidates <= mapBlockIndex
    }

    /** What every operation below keeps. */
    ghost predicate Sound()
      reads this, chainActive, mapBlockIndex
    {
      && chainActive.Valid()
      && SoundAt(mapBlockIndex, CountsOf(mapBlockIndex), mapBlocksUnlinked, setBlockIndexCandidates, chainActive.Tip())
    }

    /** What the assertion in FindMostWorkChain asks. */
    ghost predicate CandidatesComplete()
      reads this, chainActive, mapBlockIndex
      requires Valid()
    {
      forall b, x ::
        b in setBlockIndexCandidates && x in mapBlockIndex && IsAncestor(x, b) && !chainActive.Contains(x) ==>
        x.nChainTx != 0 || x.nHeight == 0
    }

    ghost function Choosing(): Choice
      reads this, mapBlockIndex
    {
      Choice(setBlockIndexCandidates, Failed(mapBlockIndex), mapBlocksUnlinked, pindexBestInvalid)
    }

    ghost function Snapshot(): Index
      reads this, mapBlockIndex
    {
      Index(mapBlockIndex, Failed(mapBlockIndex), Dataless(mapBlockIndex))
    }

    constructor (chainActive: CChain)
      requires chainActive.Valid() && chainActive.Tip() == null
      ensures this.chainActive == chainActive && Sound() && mapBlockIndex == {} && setBlockIndexCandidates == {}
      ensures mapBlocksUnlinked == {} && pindexBestInvalid == null && nBlockSequenceId == 1
    {
      this.chainActive := chainActive;
      mapBlockIndex, setBlockIndexCandidates, mapBlocksUnlinked := {}, {}, {};
      pindexBestInvalid, nBlockSequenceId := null, 1;
    }

    // ---- choosing the next tip ----

    /** The walk from a candidate down to the chain: the first block on it that stops it, or none. */
    method FindStop(pindexNew: CBlockIndex) returns (pindexTest: CBlockIndex?)
      requires Valid() && pindexNew in mapBlockIndex
      requires forall x :: x in mapBlockIndex && IsAncestor(x, pindexNew) && !chainActive.Contains(x) ==>
                 x.nChainTx != 0 || x.nHeight == 0
      ensures pindexTest == null <==>
                !Unusable(Failed(mapBlockIndex), Dataless(mapBlockIndex), chainActive.vChain, pindexNew)
      ensures pindexTest != null ==>
                pindexTest in mapBlockIndex &&
                StopsAt(Choosing(), Dataless(mapBlockIndex), chainActive.vChain, pindexNew, pindexTest)
    {
      hide Skips, IsChain, Stops, ClearAbove, Unusable, Failed, Dataless;
      ghost var failed, dataless, v := Failed(mapBlockIndex), Dataless(mapBlockIndex), chainActive.vChain;
      var test: CBlockIndex? := pindexNew;
      ClearAtStart(failed, dataless, v, pindexNew);
      while test != null && !chainActive.Contains(test)
        invariant test != null ==> Rooted(test) && test in mapBlockIndex && IsAncestor(test, pindexNew)
        invariant ClearAbove(failed, dataless, v, pindexNew, if test == null then -1 else test.nHeight)
        decreases if test == null then -1 else test.nHeight
      {
        assert test.nChainTx != 0 || test.nHeight == 0;
        StopsHere(mapBlockIndex, v, test);
        if test.fFailedValid || test.fFailedChild || !test.fHaveData {
          StopIsUnusable(failed, dataless, v, pindexNew, test.nHeight);
          return test;
        }
        ClearOneMore(failed, dataless, v, pindexNew, test.nHeight);
        if test.nHeight > 0 { AtAt(pindexNew, test.nHeight, test.nHeight - 1); }
        test := test.pprev;
      }
      if test != null {
        ClearOnChain(failed, dataless, v, pindexNew, test.nHeight);
      }
      ClearIsUsable(failed, dataless, v, pindexNew);
      pindexTest := null;
    }

    /** Drops one block above a stopping one. */
    method DropOne(x: CBlockIndex, fFailedChain: bool)
      requires x in mapBlockIndex && x.pprev != null
      modifies this`setBlockIndexCandidates, this`mapBlocksUnlinked, x`fFailedChild
      ensures Choosing() == WithoutOne(old(Choosing()), x, fFailedChain)
      ensures Dataless(mapBlockIndex) == old(Dataless(mapBlockIndex))
      ensures CountsOf(mapBlockIndex) == old(CountsOf(mapBlockIndex))
    {
      hide CountsOf;
      ghost var c := CountsOf(mapBlockIndex);
      if fFailedChain {
        x.fFailedChild := true;
      } else {
        mapBlocksUnlinked := mapBlocksUnlinked + {(x.pprev, x)};
      }
      setBlockIndexCandidates := setBlockIndexCandidates - {x};
      assert Failed(mapBlockIndex) ==
             if fFailedChain then old(Failed(mapBlockIndex)) + {x} else old(Failed(mapBlockIndex));
      SameCounts(mapBlockIndex, CountsOf(mapBlockIndex), c);
    }

    /** Drops the branch above a stopping block, from the top down. */
    method DropBranch(pindexNew: CBlockIndex, pindexTest: CBlockIndex, fFailedChain: bool)
      requires IsIndex(mapBlockIndex) && pindexNew in mapBlockIndex && Rooted(pindexNew)
      requires IsAncestor(pindexTest, pindexNew)
      modifies this`setBlockIndexCandidates, this`mapBlocksUnlinked, mapBlockIndex`fFailedChild
      ensures Choosing() == Removing(old(Choosing()), Branch(pindexNew, pindexTest.nHeight), fFailedChain)
      ensures Dataless(mapBlockIndex) == old(Dataless(mapBlockIndex))
      ensures CountsOf(mapBlockIndex) == old(CountsOf(mapBlockIndex))
    {
      hide Skips, Rooted, CountsOf, Dataless, Failed, Links, Branch, WithoutOne, IsIndex;
      ghost var all, s0 := mapBlockIndex, Choosing();
      var pindexFailed: CBlockIndex := pindexNew;
      BranchStarts(pindexNew);
      while pindexTest != pindexFailed
        invariant pindexFailed in all && IsAncestor(pindexFailed, pindexNew)
        invariant pindexTest.nHeight <= pindexFailed.nHeight
        invariant mapBlockIndex == all && Dataless(all) == old(Dataless(mapBlockIndex))
        invariant CountsOf(all) == old(CountsOf(mapBlockIndex))
        invariant Choosing() == Removing(s0, Branch(pindexNew, pindexFailed.nHeight), fFailedChain)
        decreases pindexFailed.nHeight
      {
        BranchGrows(pindexNew, pindexFailed.nHeight);
        ParentToo(all, pindexNew, pindexFailed, pindexTest);
        RemovingMore(s0, Branch(pindexNew, pindexFailed.nHeight), pindexFailed, fFailedChain);
        DropOne(pindexFailed, fFailedChain);
        pindexFailed := pindexFailed.pprev;
      }
    }

    /** Drops the branch above a stopping block from the candidates, and the block itself. */
    method RemoveChain(pindexNew: CBlockIndex, pindexTest: CBlockIndex)
      requires Valid() && pindexNew in mapBlockIndex && pindexTest in mapBlockIndex
      requires StopsAt(Choosing(), Dataless(mapBlockIndex), chainActive.vChain, pindexNew, pindexTest)
      modifies this`setBlockIndexCandidates, this`mapBlocksUnlinked, this`pindexBestInvalid, mapBlockIndex`fFailedChild
      ensures Valid() && Choosing() == AfterRemoval(old(Choosing()), pindexNew, pindexTest)
      ensures Dataless(mapBlockIndex) == old(Dataless(mapBlockIndex))
      ensures CountsOf(mapBlockIndex) == old(CountsOf(mapBlockIndex))
    {
      hide Skips, IsChain, Rooted, CountsOf, Dataless, Failed, Links, Branch, ClearAbove, IsIndex;
      StopsHere(mapBlockIndex, chainActive.vChain, pindexTest);
      var fFailedChain := pindexTest.fFailedValid || pindexTest.fFailedChild;
      if fFailedChain && (pindexBestInvalid == null || pindexNew.nChainWork > pindexBestInvalid.nChainWork) {
        pindexBestInvalid := pindexNew;
      }
      DropBranch(pindexNew, pindexTest, fFailedChain);
      setBlockIndexCandidates := setBlockIndexCandidates - {pindexTest};
    }

    /**
     * The greatest usable candidate, or none if no candidate is usable. When the index is sound, so it
     * stays: no candidate lacks data below, and nothing is put back among the unlinked.
     */
    method FindMostWorkChain() returns (r: CBlockIndex?)
      requires Valid() && CandidatesComplete()
      modifies this`setBlockIndexCandidates, this`mapBlocksUnlinked, this`pindexBestInvalid, mapBlockIndex`fFailedChild
      ensures Valid() && Removed(old(Choosing()), Choosing(), Dataless(mapBlockIndex), chainActive.vChain)
      ensures r == null ==> setBlockIndexCandidates == {}
      ensures r != null ==>
                && r in setBlockIndexCandidates
                && !Unusable(old(Failed(mapBlockIndex)), Dataless(mapBlockIndex), chainActive.vChain, r)
                && forall c :: c in old(setBlockIndexCandidates) && c != r ==>
                     Worse(c, r) || Unusable(old(Failed(mapBlockIndex)), Dataless(mapBlockIndex), chainActive.vChain, c)
      ensures Dataless(mapBlockIndex) == old(Dataless(mapBlockIndex))
      ensures CountsOf(mapBlockIndex) == old(CountsOf(mapBlockIndex))
      ensures old(Sound()) ==> Sound() && mapBlocksUnlinked == old(mapBlocksUnlinked)
    {
      hide Skips, IsChain, Rooted, Unusable, Above, Stops, StopsAt, CountsOf, Dataless, Failed, Marked, Relinked,
           BestInvalid, AfterRemoval, SoundAt;
      ghost var all, s0, dataless, v := mapBlockIndex, Choosing(), Dataless(mapBlockIndex), chainActive.vChain;
      ghost var sound := Sound();
      NothingYet(s0, dataless, v);
      while setBlockIndexCandidates != {}
        invariant Valid() && CandidatesComplete() && mapBlockIndex == all && Dataless(all) == dataless
        invariant Removed(s0, Choosing(), dataless, v) && CountsOf(all) == old(CountsOf(mapBlockIndex))
        invariant sound ==> Sound() && mapBlocksUnlinked == old(mapBlocksUnlinked)
        decreases setBlockIndexCandidates
      {
        var pindexNew := Greatest(mapBlockIndex, setBlockIndexCandidates);
        var pindexTest := FindStop(pindexNew);
        ghost var s := Choosing();
        if pindexTest == null {
          UsableAsBefore(s0, s, dataless, v, pindexNew);
          return pindexNew;
        }
        RemovalStep(all, s0, s, dataless, v, pindexNew, pindexTest);
        if sound { FailedStop(pindexNew, pindexTest); }
        RemoveChain(pindexNew, pindexTest);
      }
      r := null;
    }

    /**
     * In a sound index a candidate is stopped only by a failed block, and dropping its branch keeps
     * the index sound.
     */
    lemma FailedStop(b: CBlockIndex, stop: CBlockIndex)
      requires Sound() && b in setBlockIndexCandidates
      requires StopsAt(Choosing(), Dataless(mapBlockIndex), chainActive.vChain, b, stop)
      ensures stop in Failed(mapBlockIndex) && AfterRemoval(Choosing(), b, stop).unlinked == mapBlocksUnlinked
      ensures SoundAt(mapBlockIndex, CountsOf(mapBlockIndex), mapBlocksUnlinked, AfterRemoval(Choosing(), b, stop).cand,
                      chainActive.Tip())
    {
      hide ClearAbove, InProgress, CountsOf;
      var fewer := AfterRemoval(Choosing(), b, stop).cand;
      FewerCandidates(mapBlockIndex, CountsOf(mapBlockIndex), mapBlocksUnlinked, setBlockIndexCandidates, fewer,
                      chainActive.Tip());
      LinkedHasData(mapBlockIndex, CountsOf(mapBlockIndex), mapBlocksUnlinked, b, stop.nHeight);
    }

    /** A branch whose top is linked is linked all the way: the assertion in FindMostWorkChain holds. */
    lemma LinkedCandidatesAreComplete()
      requires Sound()
      ensures CandidatesComplete()
    {
      hide InProgress, CountsOf;
      forall b, x | b in setBlockIndexCandidates && x in mapBlockIndex && IsAncestor(x, b) && !chainActive.Contains(x)
        ensures x.nChainTx != 0 || x.nHeight == 0
      {
        LinkedBelow(mapBlockIndex, CountsOf(mapBlockIndex), mapBlocksUnlinked, b, x.nHeight);
      }
    }

    /** UpdateTip, as far as the chain goes. */
    method UpdateTip(pindexNew: CBlockIndex)
      requires Sound() && pindexNew in mapBlockIndex && pindexNew.nChainTx != 0
      modifies chainActive
      ensures Sound() && chainActive.Tip() == pindexNew
    {
      hide InProgress, CountsOf, Rooted, IsChain;
      assert Skips(pindexNew);
      hide IsIndex, Skips;
      chainActive.SetTip(pindexNew);
    }

    // ---- linking ----

    method TakeWaiting(pindex: CBlockIndex, queue: seq<CBlockIndex>) returns (more: seq<CBlockIndex>)
      requires Distinct(queue) && Members(queue) !! Waiting(mapBlocksUnlinked, pindex)
      modifies this`mapBlocksUnlinked
      ensures mapBlocksUnlinked == OthersWaiting(old(mapBlocksUnlinked), pindex)
      ensures Distinct(more) && Members(more) == Members(queue) + Waiting(old(mapBlocksUnlinked), pindex)
      ensures |mapBlocksUnlinked| + |more| == |old(mapBlocksUnlinked)| + |queue|
    {
      more := queue;
      var range := set p | p in mapBlocksUnlinked && p.0 == pindex;
      while range != {}
        invariant range == set p | p in mapBlocksUnlinked && p.0 == pindex
        invariant mapBlocksUnlinked <= old(mapBlocksUnlinked)
        invariant forall p :: p in old(mapBlocksUnlinked) - mapBlocksUnlinked ==> p.0 == pindex
        invariant Distinct(more) && |mapBlocksUnlinked| + |more| == |old(mapBlocksUnlinked)| + |queue|
        invariant forall b :: b in more <==> b in queue || (pindex, b) in old(mapBlocksUnlinked) - mapBlocksUnlinked
        decreases range
      {
        var it :| it in range;
        assert it == (pindex, it.1) && it.1 in Waiting(old(mapBlocksUnlinked), pindex);
        more := more + [it.1];
        range := range - {it};
        mapBlocksUnlinked := mapBlocksUnlinked - {it};
      }
      forall b
        ensures b in Waiting(old(mapBlocksUnlinked), pindex) <==> (pindex, b) in old(mapBlocksUnlinked)
      {
        if (pindex, b) in old(mapBlocksUnlinked) { assert (pindex, b).0 == pindex && (pindex, b).1 == b; }
      }
      assert forall p :: p in mapBlocksUnlinked && p.0 == pindex ==> p in range;
    }

    /** Gives a block whose parent is linked its place in the branch, and in the order of arrival. */
    method SetCounts(pindex: CBlockIndex)
      requires IsIndex(mapBlockIndex) && pindex in mapBlockIndex
      modifies pindex`nChainTx, pindex`nSequenceId, this`nBlockSequenceId
      ensures CountsOf(mapBlockIndex) == WithLink(old(CountsOf(mapBlockIndex)), pindex, old(nBlockSequenceId))
      ensures nBlockSequenceId == old(nBlockSequenceId) + 1
    {
      hide Skips, Rooted, CountsOf, WithLink;
      ghost var c := CountsOf(mapBlockIndex);
      pindex.nChainTx := (if pindex.pprev != null then pindex.pprev.nChainTx else 0) + pindex.nTx;
      pindex.nSequenceId := nBlockSequenceId;
      nBlockSequenceId := nBlockSequenceId + 1;
      IsWithLink(mapBlockIndex, c, CountsOf(mapBlockIndex), pindex, old(nBlockSequenceId));
    }

    method AddCandidate(pindex: CBlockIndex)
      requires pindex in mapBlockIndex && (chainActive.Tip() != null ==> chainActive.Tip() in mapBlockIndex)
      modifies this`setBlockIndexCandidates
      ensures setBlockIndexCandidates
              == WithCandidate(old(setBlockIndexCandidates), CountsOf(mapBlockIndex), chainActive.Tip(), pindex)
    {
      hide MayBeTip;
      MayBeTipIsNotWorse(mapBlockIndex, chainActive.Tip(), pindex);
      if chainActive.Tip() == null || !Worse(pindex, chainActive.Tip()) {
        setBlockIndexCandidates := setBlockIndexCandidates + {pindex};
      }
    }

    /** Links a queued block; the blocks that waited for it are queued in turn. */
    method LinkOne(pindex: CBlockIndex, queue: seq<CBlockIndex>) returns (more: seq<CBlockIndex>)
      requires IsIndex(mapBlockIndex) && pindex in mapBlockIndex
      requires chainActive.Tip() != null ==> chainActive.Tip() in mapBlockIndex
      requires Distinct(queue) && Members(queue) !! Waiting(mapBlocksUnlinked, pindex)
      modifies pindex`nChainTx, pindex`nSequenceId, this`setBlockIndexCandidates, this`mapBlocksUnlinked,
               this`nBlockSequenceId
      ensures CountsOf(mapBlockIndex) == WithLink(old(CountsOf(mapBlockIndex)), pindex, old(nBlockSequenceId))
      ensures mapBlocksUnlinked == OthersWaiting(old(mapBlocksUnlinked), pindex)
      ensures Distinct(more) && Members(more) == Members(queue) + Waiting(old(mapBlocksUnlinked), pindex)
      ensures setBlockIndexCandidates
              == WithCandidate(old(setBlockIndexCandidates), CountsOf(mapBlockIndex), chainActive.Tip(), pindex)
      ensures nBlockSequenceId == old(nBlockSequenceId) + 1
      ensures |mapBlocksUnlinked| + |more| == |old(mapBlocksUnlinked)| + |queue|
    {
      hide Skips, Rooted, Distinct, CountsOf, MayBeTip, WithLink;
      SetCounts(pindex);
      AddCandidate(pindex);
      more := TakeWaiting(pindex, queue);
    }

    /**
     * The data of a block has arrived: it is linked if its branch below is complete, and so is
     * every block above that waited only for it; otherwise it waits for its parent. AcceptBlock has
     * turned blocks with a failed parent away before.
     */
    method ReceivedBlockTransactions(pindexNew: CBlockIndex, nTx: nat)
      requires Sound() && pindexNew in mapBlockIndex && !pindexNew.fHaveData && nTx > 0
      requires pindexNew.pprev != null ==> !pindexNew.pprev.IsFailed()
      modifies mapBlockIndex`fHaveData, mapBlockIndex`nTx, mapBlockIndex`nChainTx, mapBlockIndex`nSequenceId
      modifies this`setBlockIndexCandidates, this`mapBlocksUnlinked, this`nBlockSequenceId
      ensures Sound()
      ensures var c0, c := old(CountsOf(mapBlockIndex)), CountsOf(mapBlockIndex);
              && c.own == c0.own[pindexNew := nTx] && c.data == c0.data + {pindexNew}
              && LinkedFrom(c0, c, old(setBlockIndexCandidates), setBlockIndexCandidates, chainActive.Tip(),
                            old(nBlockSequenceId), nBlockSequenceId)
    {
      hide SoundAt, CountsOf, LinkingIn, LinkedFrom, IsChain, InProgress;
      ghost var all, tip, c0 := mapBlockIndex, chainActive.Tip(), CountsOf(mapBlockIndex);
      ghost var unlinked0, cand0, n0 := mapBlocksUnlinked, setBlockIndexCandidates, nBlockSequenceId;
      SoundFacts(all, c0, unlinked0, cand0, tip, pindexNew);
      SetData(pindexNew, nTx);
      if pindexNew.pprev == null || pindexNew.pprev.nChainTx != 0 {
        ReceiveLinks(all, c0, unlinked0, cand0, tip, pindexNew, nTx, n0);
        LinkAll(pindexNew);
        LinkingDone(all, c0, unlinked0, cand0, tip, pindexNew, nTx, n0, CountsOf(all), mapBlocksUnlinked,
                    setBlockIndexCandidates, nBlockSequenceId);
      } else if !pindexNew.pprev.IsFailed() {
        ReceiveWaits(all, c0, unlinked0, cand0, tip, pindexNew, nTx, n0);
        mapBlocksUnlinked := mapBlocksUnlinked + {(pindexNew.pprev, pindexNew)};
      }
    }

    method SetData(pindexNew: CBlockIndex, nTx: nat)
      requires pindexNew in mapBlockIndex
      modifies pindexNew`fHaveData, pindexNew`nTx, pindexNew`nChainTx
      ensures CountsOf(mapBlockIndex) == WithData(old(CountsOf(mapBlockIndex)), pindexNew, nTx)
    {
      hide CountsOf;
      pindexNew.nTx := nTx;
      pindexNew.nChainTx := 0;
      pindexNew.fHaveData := true;
      SameCounts(mapBlockIndex, CountsOf(mapBlockIndex), WithData(old(CountsOf(mapBlockIndex)), pindexNew, nTx));
    }

    /** The worklist at work, see LinkingIn. */
    ghost predicate Linking(c0: Counts, cand0: Blocks, n0: nat, queued: Blocks)
      reads this, chainActive, mapBlockIndex
    {
      && chainActive.Valid() && IsIndex(mapBlockIndex)
      && LinkingIn(mapBlockIndex, CountsOf(mapBlockIndex), mapBlocksUnlinked, setBlockIndexCandidates,
                   chainActive.Tip(), nBlockSequenceId, c0, cand0, n0, queued)
    }

    /** One turn of the worklist. */
    method LinkFirst(queue: seq<CBlockIndex>, ghost c0: Counts, ghost cand0: Blocks, ghost n0: nat)
      returns (more: seq<CBlockIndex>)
      requires queue != [] && Distinct(queue) && Linking(c0, cand0, n0, Members(queue))
      modifies mapBlockIndex`nChainTx, mapBlockIndex`nSequenceId
      modifies this`setBlockIndexCandidates, this`mapBlocksUnlinked, this`nBlockSequenceId
      ensures Distinct(more) && Linking(c0, cand0, n0, Members(more))
      ensures |mapBlocksUnlinked| + |more| < |old(mapBlocksUnlinked)| + |queue|
    {
      hide Skips, Rooted, IsChain, Distinct, CountsOf, Members, LinkingIn, WithLink;
      var pindex := queue[0];
      QueueSplits(queue);
      LinkingStep(mapBlockIndex, CountsOf(mapBlockIndex), mapBlocksUnlinked, setBlockIndexCandidates, chainActive.Tip(),
                  nBlockSequenceId, c0, cand0, n0, Members(queue), pindex);
      more := LinkOne(pindex, queue[1..]);
    }

    /** The worklist of ReceivedBlockTransactions. */
    method LinkAll(pindexNew: CBlockIndex)
      requires Linking(CountsOf(mapBlockIndex), setBlockIndexCandidates, nBlockSequenceId, {pindexNew})
      modifies mapBlockIndex`nChainTx, mapBlockIndex`nSequenceId
      modifies this`setBlockIndexCandidates, this`mapBlocksUnlinked, this`nBlockSequenceId
      ensures Linking(old(CountsOf(mapBlockIndex)), old(setBlockIndexCandidates), old(nBlockSequenceId), {})
    {
      hide Linking, Distinct, CountsOf;
      ghost var c0, n0 := CountsOf(mapBlockIndex), nBlockSequenceId;
      var queue := [pindexNew];
      QueueStarts(pindexNew);
      while queue != []
        invariant Distinct(queue) && Linking(c0, old(setBlockIndexCandidates), n0, Members(queue))
        decreases |mapBlocksUnlinked| + |queue|
      {
        queue := LinkFirst(queue, c0, old(setBlockIndexCandidates), n0);
      }
      assert Members(queue) == {};
    }

    // ---- blocks and headers arriving ----

    method Lookup(hash: nat) returns (r: CBlockIndex?)
      ensures r == null <==> !Known(Snapshot(), hash)
      ensures r != null ==> r in mapBlockIndex && r.hash == hash
    {
      var found := set b | b in mapBlockIndex && b.hash == hash;
      assert forall b :: b in mapBlockIndex && b.hash == hash ==> b in found;
      if found == {} {
        r := null;
      } else {
        var b :| b in found;
        r := b;
      }
    }

    /** A new entry above pprev. */
    method AddEntry(hash: nat, pprev: CBlockIndex?, nBlockWork: nat, address: nat) returns (b: CBlockIndex)
      requires Sound() && (pprev != null ==> pprev in mapBlockIndex) && !Known(Snapshot(), hash)
      requires forall x :: x in mapBlockIndex ==> x.address != address
      modifies this`mapBlockIndex
      ensures Sound() && fresh(b) && b.hash == hash && b.pprev == pprev
      ensures mapBlockIndex == old(mapBlockIndex) + {b} && !b.IsFailed() && !b.fHaveData
    {
      hide Rooted, InProgress, CountsOf, IsChain;
      ghost var all, c := mapBlockIndex, CountsOf(mapBlockIndex);
      assert pprev != null ==> Skips(pprev);
      hide SoundAt, Skips;
      b := AddToBlockIndex(hash, pprev, nBlockWork, address);
      mapBlockIndex := mapBlockIndex + {b};
      EntryKeeps(all, c, CountsOf(mapBlockIndex), mapBlocksUnlinked, setBlockIndexCandidates, chainActive.Tip(), b);
    }

    /** The entry of a known header, or a new one above a known sound parent. */
    method AcceptBlockHeader(a: Arrival) returns (ok: bool, pindex: CBlockIndex?)
      requires Sound() && forall x :: x in mapBlockIndex ==> x.address != a.address
      requires forall x :: x in mapBlockIndex && x.hash == a.hash ==> HasParentOf(x, a)
      modifies this`mapBlockIndex
      ensures Sound() && (ok <==> HeaderAccepted(old(Snapshot()), a))
      ensures ok ==> pindex != null && pindex.hash == a.hash && Snapshot() == AfterHeader(old(Snapshot()), a, pindex)
      ensures ok ==> mapBlockIndex == old(mapBlockIndex) + {pindex} && !pindex.IsFailed()
      ensures ok ==> HasParentOf(pindex, a) && (pindex in old(mapBlockIndex) || fresh(pindex))
      ensures !ok ==> Snapshot() == old(Snapshot())
    {
      hide Sound, CountsOf;
      SoundHere();
      pindex := Lookup(a.hash);
      if pindex != null {
        ok := !pindex.IsFailed();
        return;
      }
      if !a.fHeader {
        return false, pindex;
      }
      var pindexPrev := null;
      if !a.fGenesis {
        pindexPrev := Lookup(a.hashPrev);
        if pindexPrev == null || pindexPrev.IsFailed() {
          return false, pindex;
        }
      }
      if !a.fContext {
        return false, pindex;
      }
      pindex := AddHeader(a, pindexPrev);
      ok := true;
    }

    /** The entry of a header that was not known. */
    method AddHeader(a: Arrival, pprev: CBlockIndex?) returns (b: CBlockIndex)
      requires Sound() && !Known(Snapshot(), a.hash) && (pprev != null ==> pprev in mapBlockIndex)
      requires pprev == null <==> a.fGenesis
      requires pprev != null ==> pprev.hash == a.hashPrev
      requires forall x :: x in mapBlockIndex ==> x.address != a.address
      modifies this`mapBlockIndex
      ensures Sound() && fresh(b) && b.hash == a.hash && HasParentOf(b, a) && !b.IsFailed()
      ensures mapBlockIndex == old(mapBlockIndex) + {b} && Snapshot() == AfterHeader(old(Snapshot()), a, b)
    {
      hide Sound, CountsOf;
      b := AddEntry(a.hash, pprev, a.nBlockWork, a.address);
      assert Snapshot().failed == old(Snapshot()).failed;
      assert Snapshot().dataless == old(Snapshot()).dataless + {b};
    }

    /** AcceptBlock once the entry is there: the checks of the block itself, and its data. */
    method AcceptData(pindex: CBlockIndex, a: Arrival) returns (ok: bool)
      requires Sound() && pindex in mapBlockIndex && !pindex.IsFailed()
      requires pindex.pprev != null ==> !pindex.pprev.IsFailed()
      requires a.checks.Passed? ==> a.nTx > 0
      modifies mapBlockIndex`fHaveData, mapBlockIndex`nTx, mapBlockIndex`nChainTx, mapBlockIndex`nSequenceId,
               pindex`fFailedValid
      modifies this`setBlockIndexCandidates, this`mapBlocksUnlinked, this`nBlockSequenceId
      ensures Sound() && (ok <==> old(pindex.fHaveData) || (a.checks.Passed? && a.fStake)) && (ok ==> pindex.fHaveData)
      ensures Snapshot() == if old(pindex.fHaveData) then old(Snapshot()) else AfterData(old(Snapshot()), a, pindex)
      ensures old(pindex.fHaveData) || !ok ==>
                && CountsOf(mapBlockIndex) == old(CountsOf(mapBlockIndex)) && nBlockSequenceId == old(nBlockSequenceId)
                && setBlockIndexCandidates == old(setBlockIndexCandidates)
                && mapBlocksUnlinked == old(mapBlocksUnlinked)
      ensures !old(pindex.fHaveData) && ok ==>
                var c0, c := old(CountsOf(mapBlockIndex)), CountsOf(mapBlockIndex);
                && c.own == c0.own[pindex := a.nTx] && c.data == c0.data + {pindex}
                && LinkedFrom(c0, c, old(setBlockIndexCandidates), setBlockIndexCandidates, chainActive.Tip(),
                              old(nBlockSequenceId), nBlockSequenceId)
    {
      hide Sound, CountsOf, LinkedFrom;
      if pindex.fHaveData {
        return true;
      }
      if !a.checks.Passed? {
        if a.checks.Invalid? {
          MarkInvalid(pindex);
        }
        return false;
      }
      if !a.fStake {
        return false;
      }
      ReceivedBlockTransactions(pindex, a.nTx);
      ok := true;
    }

    /** The first checks of AcceptBlock. */
    method AcceptParent(a: Arrival) returns (ok: bool)
      requires Sound()
      ensures ok <==> ParentAccepted(Snapshot(), a)
    {
      SoundHere();
      hide Sound;
      ok := true;
      if !a.fGenesis {
        var pindexPrev := Lookup(a.hashPrev);
        ok := pindexPrev != null && !pindexPrev.IsFailed() && a.fWork;
      }
    }

    /** A block arrives, in whatever order. */
    method AcceptBlock(a: Arrival) returns (ok: bool, pindex: CBlockIndex?)
      requires Sound() && (a.checks.Passed? ==> a.nTx > 0)
      requires forall x :: x in mapBlockIndex ==> x.address != a.address
      requires forall x :: x in mapBlockIndex && x.hash == a.hash ==> HasParentOf(x, a)
      modifies this`mapBlockIndex, this`setBlockIndexCandidates, this`mapBlocksUnlinked, this`nBlockSequenceId
      modifies mapBlockIndex`fHaveData, mapBlockIndex`nTx, mapBlockIndex`nChainTx, mapBlockIndex`nSequenceId,
               mapBlockIndex`fFailedValid
      ensures Sound() && (ok <==> Accepted(old(Snapshot()), a))
      ensures ok ==> pindex != null && pindex in mapBlockIndex && pindex.hash == a.hash && pindex.fHaveData
      ensures Snapshot() == if pindex == null then old(Snapshot()) else AfterBlock(old(Snapshot()), a, pindex)
      ensures pindex != null <==> ParentAccepted(old(Snapshot()), a) && HeaderAccepted(old(Snapshot()), a)
    {
      hide Sound, CountsOf, Snapshot, AfterHeader, AfterData, ParentAccepted, HeaderAccepted, HasData, Known;
      ghost var ix := Snapshot();
      pindex := null;
      ok := AcceptParent(a);
      if !ok {
        return;
      }
      var p;
      ok, p := AcceptBlockHeader(a);
      if !ok {
        return;
      }
      pindex := p;
      EntryFacts(ix, pindex, a);
      ok := AcceptData(pindex, a);
    }

    /** What AcceptBlock knows of the entry once AcceptBlockHeader has accepted the header. */
    lemma EntryFacts(ix: Index, pindex: CBlockIndex, a: Arrival)
      requires Sound() && pindex in mapBlockIndex && pindex.hash == a.hash && !pindex.IsFailed()
      requires ParentAccepted(ix, a) && Snapshot() == AfterHeader(ix, a, pindex) && HasParentOf(pindex, a)
      ensures pindex.pprev != null ==> !pindex.pprev.IsFailed()
      ensures pindex.fHaveData <==> HasData(ix, a.hash)
    {
      SoundHere();
      hide Sound;
      SoundParent(Snapshot(), pindex, a);
      Listed(mapBlockIndex, pindex);
      if pindex.pprev != null { Listed(mapBlockIndex, pindex.pprev); }
    }

    /** In a sound index nChainTx tells the complete branches, and counts their transactions; the others wait. */
    lemma SoundIsComplete(b: CBlockIndex)
      requires Sound() && b in mapBlockIndex
      ensures IsIndex(mapBlockIndex)
      ensures b.nChainTx == if Complete(mapBlockIndex, b) then SumTx(mapBlockIndex, b) else 0
      ensures b.nChainTx != 0 <==> Complete(mapBlockIndex, b)
      ensures b.pprev != null ==> ((b.pprev, b) in mapBlocksUnlinked <==> b.fHaveData && !Complete(mapBlockIndex, b))
    {
      hide InProgress, CountsOf, IsChain;
      LinkedIsComplete(mapBlockIndex, mapBlocksUnlinked, b);
    }

    lemma SoundHere()
      requires Sound()
      ensures IsIndex(mapBlockIndex) && HashesDiffer(mapBlockIndex)
    {
      hide IsIndex, IsChain;
    }

    method MarkInvalid(pindex: CBlockIndex)
      requires Sound() && pindex in mapBlockIndex
      modifies pindex`fFailedValid
      ensures Sound() && pindex.fFailedValid && CountsOf(mapBlockIndex) == old(CountsOf(mapBlockIndex))
    {
      hide SoundAt, CountsOf, IsChain;
      ghost var c := CountsOf(mapBlockIndex);
      pindex.fFailedValid := true;
      SameCounts(mapBlockIndex, CountsOf(mapBlockIndex), c);
    }
  }

  /** The choice while a branch is being removed from the top down. */
  ghost function Removing(s: Choice, up: Blocks, fFailedChain: bool): Choice {
    if fFailedChain then Choice(s.cand - up, s.failed + up, s.unlinked, s.best)
    else Choice(s.cand - up, s.failed, s.unlinked + Links(up), s.best)
  }

  ghost function WithoutOne(s: Choice, x: CBlockIndex, fFailedChain: bool): Choice
    requires x.pprev != null
  {
    if fFailedChain then Choice(s.cand - {x}, s.failed + {x}, s.unlinked, s.best)
    else Choice(s.cand - {x}, s.failed, s.unlinked + {(x.pprev, x)}, s.best)
  }

  lemma RemovingMore(s: Choice, up: Blocks, x: CBlockIndex, fFailedChain: bool)
    requires x.pprev != null
    ensures Removing(s, up + {x}, fFailedChain) == WithoutOne(Removing(s, up, fFailedChain), x, fFailedChain)
  {
    LinksGrow(up, x);
    hide Links;
  }

  /** Above the stopping block the walk goes on to a parent in the index. */
  lemma ParentToo(all: Blocks, b: CBlockIndex, x: CBlockIndex, stop: CBlockIndex)
    requires IsIndex(all) && x in all && Rooted(b) && IsAncestor(x, b) && IsAncestor(stop, b)
    requires stop.nHeight <= x.nHeight && x != stop
    ensures stop.nHeight < x.nHeight && x.pprev != null && x.pprev in all
    ensures x.pprev.nHeight == x.nHeight - 1 && IsAncestor(x.pprev, b) && At(b, x.nHeight) == x
  {
    ParentIsAncestor(b, x);
  }

  lemma SoundFacts(all: Blocks, c: Counts, unlinked: Pairs, cand: Blocks, tip: CBlockIndex?, x: CBlockIndex)
    requires SoundAt(all, c, unlinked, cand, tip) && x in all
    ensures IsIndex(all) && Covers(c, all) && cand <= all && (x.pprev != null ==> x.pprev in all && x.pprev != x)
    ensures tip != null ==> tip in all
  {
    hide InProgress;
    assert Skips(x);
    hide Skips;
  }

  /** Only one entry has the parent's hash. */
  lemma SoundParent(ix: Index, b: CBlockIndex, a: Arrival)
    requires IsIndex(ix.all) && HashesDiffer(ix.all) && b in ix.all && HasParentOf(b, a)
    requires a.fGenesis || KnownSound(ix, a.hashPrev)
    ensures b.pprev != null ==> b.pprev in ix.all && b.pprev !in ix.failed
  {
    hide Skips;
  }

  lemma BranchStarts(b: CBlockIndex)
    requires Rooted(b)
    ensures Branch(b, b.nHeight) == {} && Links({}) == {} && IsAncestor(b, b)
  {
  }
}
