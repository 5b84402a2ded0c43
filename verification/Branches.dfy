/** Candidate branches above the active chain: which are usable, and what removing an unusable one leaves. */
module Branches {
  import opened BlockTree
  import opened ActiveChain

  type Blocks = set<CBlockIndex>

  /** Entries of the block index as (parent, child) pairs. */
  type Pairs = set<(CBlockIndex, CBlockIndex)>

  /** All entries of the block index: closed under parents, work never falls, no two at the same address. */
  ghost predicate IsIndex(all: Blocks) {
    && (forall b :: b in all ==> Skips(b) && (b.pprev != null ==> b.pprev in all && b.pprev.nChainWork <= b.nChainWork))
    && (forall a, b :: a in all && b in all && a.address == b.address ==> a == b)
  }

  lemma {:induction false} AncestorIndexed(all: Blocks, b: CBlockIndex, h: int)
    requires IsIndex(all) && b in all && 0 <= h <= b.nHeight
    ensures At(b, h) in all && At(b, h).nChainWork <= b.nChainWork
    decreases b.nHeight
  {
    if h < b.nHeight { AncestorIndexed(all, b.pprev, h); }
  }

  /** CBlockIndexWorkComparator: less work, received later, or at the higher address. */
  predicate Worse(a: CBlockIndex, b: CBlockIndex)
    reads a, b
  {
    if a.nChainWork > b.nChainWork then false
    else if a.nChainWork < b.nChainWork then true
    else if a.nSequenceId < b.nSequenceId then false
    else if a.nSequenceId > b.nSequenceId then true
    else a.address > b.address
  }

  /** The comparator is a strict total order on the index. */
  lemma WorseIsTotal(all: Blocks, a: CBlockIndex, b: CBlockIndex, c: CBlockIndex)
    requires IsIndex(all) && a in all && b in all && c in all
    ensures !Worse(a, a) && (a == b || Worse(a, b) || Worse(b, a)) && !(Worse(a, b) && Worse(b, a))
    ensures Worse(a, b) && Worse(b, c) ==> Worse(a, c)
  {
    hide Skips;
    assert a != b ==> a.address != b.address;
  }

  /** What the last of a set in this order has: the most work, then the lowest number, then the lowest address. */
  lemma GreatestHasMostWork(candidates: Blocks, r: CBlockIndex)
    requires r in candidates && forall c :: c in candidates && c != r ==> Worse(c, r)
    ensures forall c :: c in candidates ==>
              && c.nChainWork <= r.nChainWork
              && (c.nChainWork == r.nChainWork ==> r.nSequenceId <= c.nSequenceId)
              && (c.nChainWork == r.nChainWork && c.nSequenceId == r.nSequenceId ==> r.address <= c.address)
  {
  }

  /** *candidates.rbegin() */
  method Greatest(all: Blocks, candidates: Blocks) returns (r: CBlockIndex)
    requires IsIndex(all) && candidates <= all && candidates != {}
    ensures r in candidates && forall c :: c in candidates && c != r ==> Worse(c, r)
  {
    hide Skips;
    r :| r in candidates;
    var rest := candidates - {r};
    while rest != {}
      invariant rest <= candidates && r in candidates && r !in rest
      invariant forall c :: c in candidates - rest && c != r ==> Worse(c, r)
      decreases |rest|
    {
      var c :| c in rest;
      WorseIsTotal(all, r, c, r);
      if Worse(r, c) {
        forall d | d in candidates - rest && d != r
          ensures Worse(d, c)
        {
          WorseIsTotal(all, d, r, c);
        }
        r := c;
      }
      rest := rest - {c};
    }
  }

  // ---- branches that cannot be used ----

  /** Off the chain, and failed or without data. */
  ghost predicate Stops(failed: Blocks, dataless: Blocks, v: seq<CBlockIndex?>, x: CBlockIndex) {
    !Holds(v, x) && (x in failed || x in dataless)
  }

  /** Some block of the branch from the chain up to b stops it. */
  ghost predicate Unusable(failed: Blocks, dataless: Blocks, v: seq<CBlockIndex?>, b: CBlockIndex) {
    Rooted(b) && exists h :: 0 <= h <= b.nHeight && Stops(failed, dataless, v, At(b, h))
  }

  /** b lies strictly above an off-chain member of `blocks`. */
  ghost predicate Above(blocks: Blocks, v: seq<CBlockIndex?>, b: CBlockIndex) {
    Rooted(b) && exists h :: 0 <= h < b.nHeight && At(b, h) in blocks && !Holds(v, At(b, h))
  }

  lemma AboveIsUnusable(failed: Blocks, dataless: Blocks, v: seq<CBlockIndex?>, b: CBlockIndex)
    requires Above(failed, v, b) || Above(dataless, v, b)
    ensures Unusable(failed, dataless, v, b)
  {
    var h :| 0 <= h < b.nHeight && (At(b, h) in failed || At(b, h) in dataless) && !Holds(v, At(b, h));
    assert Stops(failed, dataless, v, At(b, h));
  }

  lemma AboveMore(blocks: Blocks, v: seq<CBlockIndex?>, b: CBlockIndex, h: int)
    requires Rooted(b) && 0 <= h <= b.nHeight && Above(blocks, v, At(b, h))
    ensures Above(blocks, v, b)
  {
    var x := At(b, h);
    var k :| 0 <= k < x.nHeight && At(x, k) in blocks && !Holds(v, At(x, k));
    AtAt(b, h, k);
  }

  /** Marking descendants of failed blocks as failed makes no further branch unusable. */
  lemma MarkingChangesNothing(failed: Blocks, more: Blocks, dataless: Blocks, v: seq<CBlockIndex?>, b: CBlockIndex)
    requires failed <= more && forall x :: x in more - failed ==> Above(failed, v, x)
    ensures Unusable(more, dataless, v, b) <==> Unusable(failed, dataless, v, b)
  {
    if Unusable(failed, dataless, v, b) {
      var h :| 0 <= h <= b.nHeight && Stops(failed, dataless, v, At(b, h));
      assert Stops(more, dataless, v, At(b, h));
    }
    if Unusable(more, dataless, v, b) {
      var h :| 0 <= h <= b.nHeight && Stops(more, dataless, v, At(b, h));
      if Stops(failed, dataless, v, At(b, h)) {
      } else {
        AboveMore(failed, v, b, h);
        AboveIsUnusable(failed, dataless, v, b);
      }
    }
  }

  ghost function Failed(all: Blocks): (r: Blocks)
    reads all`fFailedValid, all`fFailedChild
  {
    set b | b in all && b.IsFailed()
  }

  ghost function Dataless(all: Blocks): (r: Blocks)
    reads all`fHaveData
  {
    set b | b in all && !b.fHaveData
  }

  // ---- walking down a branch ----

  lemma Listed(all: Blocks, b: CBlockIndex)
    requires b in all
    ensures b in Failed(all) <==> b.IsFailed()
    ensures b in Dataless(all) <==> !b.fHaveData
  {
  }

  lemma StopsHere(all: Blocks, v: seq<CBlockIndex?>, x: CBlockIndex)
    requires x in all && !Holds(v, x)
    ensures Stops(Failed(all), Dataless(all), v, x) <==> x.fFailedValid || x.fFailedChild || !x.fHaveData
    ensures x in Failed(all) <==> x.fFailedValid || x.fFailedChild
    ensures x in Dataless(all) <==> !x.fHaveData
  {
  }

  ghost predicate ClearAbove(failed: Blocks, dataless: Blocks, v: seq<CBlockIndex?>, b: CBlockIndex, h: int)
    requires Rooted(b)
  {
    h >= -1 && forall k :: h < k <= b.nHeight ==> !Stops(failed, dataless, v, At(b, k))
  }

  lemma ClearAtStart(failed: Blocks, dataless: Blocks, v: seq<CBlockIndex?>, b: CBlockIndex)
    requires Rooted(b)
    ensures ClearAbove(failed, dataless, v, b, b.nHeight)
  {
  }

  lemma ClearOneMore(failed: Blocks, dataless: Blocks, v: seq<CBlockIndex?>, b: CBlockIndex, h: int)
    requires Rooted(b) && 0 <= h <= b.nHeight && ClearAbove(failed, dataless, v, b, h)
    requires !Stops(failed, dataless, v, At(b, h))
    ensures ClearAbove(failed, dataless, v, b, h - 1)
  {
  }

  lemma ClearIsUsable(failed: Blocks, dataless: Blocks, v: seq<CBlockIndex?>, b: CBlockIndex)
    requires Rooted(b) && ClearAbove(failed, dataless, v, b, -1)
    ensures !Unusable(failed, dataless, v, b)
  {
  }

  lemma StopIsUnusable(failed: Blocks, dataless: Blocks, v: seq<CBlockIndex?>, b: CBlockIndex, h: int)
    requires Rooted(b) && 0 <= h <= b.nHeight && Stops(failed, dataless, v, At(b, h))
    ensures Unusable(failed, dataless, v, b)
  {
  }

  /** Nothing on the chain stops a branch. */
  lemma ClearOnChain(failed: Blocks, dataless: Blocks, v: seq<CBlockIndex?>, b: CBlockIndex, h: int)
    requires IsChain(v) && Rooted(b) && 0 <= h <= b.nHeight && Holds(v, At(b, h))
    requires ClearAbove(failed, dataless, v, b, h)
    ensures ClearAbove(failed, dataless, v, b, -1)
  {
    hide Path;
    forall k | 0 <= k <= h
      ensures Holds(v, At(b, k))
    {
      HoldsBelow(v, At(b, h), k);
      AtAt(b, h, k);
    }
  }

  /** The blocks of the branch to b above height lo. */
  ghost function Branch(b: CBlockIndex, lo: int): (r: Blocks)
    requires Rooted(b) && -1 <= lo <= b.nHeight
  {
    set k | lo < k <= b.nHeight :: At(b, k)
  }

  lemma BranchGrows(b: CBlockIndex, lo: int)
    requires Rooted(b) && 0 <= lo <= b.nHeight
    ensures Branch(b, lo - 1) == Branch(b, lo) + {At(b, lo)} && Branch(b, b.nHeight) == {}
  {
    forall x | x in Branch(b, lo - 1)
      ensures x in Branch(b, lo) + {At(b, lo)}
    {
      var k :| lo - 1 < k <= b.nHeight && x == At(b, k);
    }
    forall x | x in Branch(b, lo)
      ensures x in Branch(b, lo - 1)
    {
      var k :| lo < k <= b.nHeight && x == At(b, k);
    }
  }

  lemma ParentIsAncestor(b: CBlockIndex, x: CBlockIndex)
    requires Rooted(b) && IsAncestor(x, b) && x.nHeight > 0
    ensures x.pprev != null && x.pprev.nHeight == x.nHeight - 1 && Rooted(x.pprev) && IsAncestor(x.pprev, b)
  {
    AtAt(b, x.nHeight, x.nHeight - 1);
  }

  ghost function Links(blocks: Blocks): (r: Pairs) {
    set x | x in blocks && x.pprev != null :: (x.pprev, x)
  }

  lemma LinksGrow(blocks: Blocks, x: CBlockIndex)
    requires x.pprev != null
    ensures Links(blocks + {x}) == Links(blocks) + {(x.pprev, x)}
  {
    forall p | p in Links(blocks + {x})
      ensures p in Links(blocks) + {(x.pprev, x)}
    {
      var y :| y in blocks + {x} && y.pprev != null && p == (y.pprev, y);
    }
    forall p | p in Links(blocks) + {(x.pprev, x)}
      ensures p in Links(blocks + {x})
    {
      if p != (x.pprev, x) {
        var y :| y in blocks && y.pprev != null && p == (y.pprev, y);
        assert y in blocks + {x};
      }
    }
  }

  // ---- removing unusable branches ----

  /** What FindMostWorkChain works on. */
  datatype Choice = Choice(cand: Blocks, failed: Blocks, unlinked: Pairs, best: CBlockIndex?)

  /** Removal of the branch from a stopping block up to b. */
  ghost function AfterRemoval(s: Choice, b: CBlockIndex, stop: CBlockIndex): Choice
    requires Rooted(b) && IsAncestor(stop, b)
  {
    var up := Branch(b, stop.nHeight);
    if stop in s.failed then
      Choice(s.cand - up - {stop}, s.failed + up, s.unlinked,
             if s.best == null || b.nChainWork > s.best.nChainWork then b else s.best)
    else
      Choice(s.cand - up - {stop}, s.failed, s.unlinked + Links(up), s.best)
  }

  /** From a failed off-chain block at height h on, the whole branch up to x is marked failed. */
  ghost predicate MarkedFrom(failed0: Blocks, failed: Blocks, v: seq<CBlockIndex?>, x: CBlockIndex, h: int)
    requires Rooted(x) && 0 <= h <= x.nHeight
  {
    At(x, h) in failed0 && !Holds(v, At(x, h)) && forall k :: h < k <= x.nHeight ==> At(x, k) in failed
  }

  ghost predicate MarkedAbove(failed0: Blocks, failed: Blocks, v: seq<CBlockIndex?>, x: CBlockIndex) {
    Rooted(x) && exists h :: 0 <= h < x.nHeight && MarkedFrom(failed0, failed, v, x, h)
  }

  /** From an off-chain block without data at height h on, the whole branch up to b waits. */
  ghost predicate WaitsFrom(dataless: Blocks, unlinked: Pairs, v: seq<CBlockIndex?>, b: CBlockIndex, h: int)
    requires Rooted(b) && 0 <= h <= b.nHeight
  {
    && At(b, h) in dataless && !Holds(v, At(b, h))
    && forall k {:trigger At(b, k)} :: h < k <= b.nHeight ==> (At(b, k - 1), At(b, k)) in unlinked
  }

  ghost predicate Waits(dataless: Blocks, unlinked: Pairs, v: seq<CBlockIndex?>, b: CBlockIndex) {
    Rooted(b) && exists h :: 0 <= h <= b.nHeight && WaitsFrom(dataless, unlinked, v, b, h)
  }

  /** Only unusable candidates are dropped; each has failed now, or waits with its branch for missing data. */
  ghost predicate Dropped(s0: Choice, s: Choice, dataless: Blocks, v: seq<CBlockIndex?>) {
    s.cand <= s0.cand &&
    forall b :: b in s0.cand - s.cand ==>
      Unusable(s0.failed, dataless, v, b) && (b in s.failed || Waits(dataless, s.unlinked, v, b))
  }

  /** Only blocks above a failed one are marked, and then the branch between is. */
  ghost predicate Marked(s0: Choice, s: Choice, v: seq<CBlockIndex?>) {
    s0.failed <= s.failed && forall x :: x in s.failed - s0.failed ==> MarkedAbove(s0.failed, s.failed, v, x)
  }

  /** Only blocks above one without data are put back among the unlinked. */
  ghost predicate Relinked(s0: Choice, s: Choice, dataless: Blocks, v: seq<CBlockIndex?>) {
    s0.unlinked <= s.unlinked &&
    forall p :: p in s.unlinked - s0.unlinked ==> p.0 == p.1.pprev && Above(dataless, v, p.1)
  }

  /** pindexBestInvalid is a failed candidate with at least the work of every block found failed. */
  ghost predicate BestInvalid(s0: Choice, s: Choice) {
    && (s.best == s0.best || (s.best != null && s.best in s0.cand - s.cand && s.best in s.failed))
    && (s0.best != null ==> s.best != null && s.best.nChainWork >= s0.best.nChainWork)
    && forall x :: x in s.failed && (x !in s0.failed || x in s0.cand - s.cand) ==>
                     s.best != null && x.nChainWork <= s.best.nChainWork
  }

  ghost predicate Removed(s0: Choice, s: Choice, dataless: Blocks, v: seq<CBlockIndex?>) {
    Dropped(s0, s, dataless, v) && Marked(s0, s, v) && Relinked(s0, s, dataless, v) && BestInvalid(s0, s)
  }

  lemma NothingYet(s: Choice, dataless: Blocks, v: seq<CBlockIndex?>)
    ensures Removed(s, s, dataless, v)
  {
  }

  lemma MarkedIsAbove(s0: Choice, s: Choice, v: seq<CBlockIndex?>)
    requires Marked(s0, s, v)
    ensures forall x :: x in s.failed - s0.failed ==> Above(s0.failed, v, x)
  {
    forall x | x in s.failed - s0.failed
      ensures Above(s0.failed, v, x)
    {
      var h :| 0 <= h < x.nHeight && MarkedFrom(s0.failed, s.failed, v, x, h);
    }
  }

  /** A branch is as usable as it was before the marking. */
  lemma UsableAsBefore(s0: Choice, s: Choice, dataless: Blocks, v: seq<CBlockIndex?>, b: CBlockIndex)
    requires Marked(s0, s, v)
    ensures Unusable(s.failed, dataless, v, b) <==> Unusable(s0.failed, dataless, v, b)
  {
    MarkedIsAbove(s0, s, v);
    MarkingChangesNothing(s0.failed, s.failed, dataless, v, b);
  }

  /** The walk stopped at the topmost block that stops the branch. */
  ghost predicate StopsAt(s: Choice, dataless: Blocks, v: seq<CBlockIndex?>, b: CBlockIndex, stop: CBlockIndex) {
    && Rooted(b) && IsAncestor(stop, b) && Stops(s.failed, dataless, v, stop)
    && ClearAbove(s.failed, dataless, v, b, stop.nHeight)
  }

  /** A block of the removed branch, seen from itself. */
  lemma OnBranch(b: CBlockIndex, stop: CBlockIndex, x: CBlockIndex)
    requires Rooted(b) && IsAncestor(stop, b) && x in Branch(b, stop.nHeight) + {stop}
    ensures Rooted(x) && stop.nHeight <= x.nHeight <= b.nHeight && x == At(b, x.nHeight)
    ensures At(x, stop.nHeight) == stop && (x == stop <==> x.nHeight == stop.nHeight)
    ensures forall k :: stop.nHeight < k <= x.nHeight ==> At(x, k) in Branch(b, stop.nHeight)
  {
    if x != stop {
      var k :| stop.nHeight < k <= b.nHeight && x == At(b, k);
    }
    AtAt(b, x.nHeight, stop.nHeight);
    forall k | stop.nHeight < k <= x.nHeight
      ensures At(x, k) in Branch(b, stop.nHeight)
    {
      AtAt(b, x.nHeight, k);
    }
  }

  lemma DroppedMore(s0: Choice, s: Choice, dataless: Blocks, v: seq<CBlockIndex?>, b: CBlockIndex, stop: CBlockIndex)
    requires Dropped(s0, s, dataless, v) && Marked(s0, s, v) && StopsAt(s, dataless, v, b, stop)
    ensures Dropped(s0, AfterRemoval(s, b, stop), dataless, v)
  {
    hide Marked, ClearAbove, Rooted, Above;
    var t := AfterRemoval(s, b, stop);
    forall x | x in s0.cand - t.cand
      ensures Unusable(s0.failed, dataless, v, x) && (x in t.failed || Waits(dataless, t.unlinked, v, x))
    {
      if x in s0.cand - s.cand {
        WaitsMore(dataless, s.unlinked, t.unlinked, v, x);
      } else {
        OnBranch(b, stop, x);
        StopIsUnusable(s.failed, dataless, v, x, stop.nHeight);
        UsableAsBefore(s0, s, dataless, v, x);
        if stop !in s.failed {
          BranchWaits(dataless, s.unlinked, v, b, stop, x);
        }
      }
    }
  }

  lemma WaitsMore(dataless: Blocks, u: Pairs, u': Pairs, v: seq<CBlockIndex?>, x: CBlockIndex)
    requires u <= u'
    ensures Waits(dataless, u, v, x) ==> Waits(dataless, u', v, x)
  {
    if Waits(dataless, u, v, x) {
      var h :| 0 <= h <= x.nHeight && WaitsFrom(dataless, u, v, x, h);
      assert WaitsFrom(dataless, u', v, x, h);
    }
  }

  lemma BranchWaits(dataless: Blocks, u: Pairs, v: seq<CBlockIndex?>, b: CBlockIndex, stop: CBlockIndex, x: CBlockIndex)
    requires Rooted(b) && IsAncestor(stop, b) && x in Branch(b, stop.nHeight) + {stop}
    requires stop in dataless && !Holds(v, stop)
    ensures Waits(dataless, u + Links(Branch(b, stop.nHeight)), v, x)
  {
    OnBranch(b, stop, x);
    var up := Branch(b, stop.nHeight);
    forall k | stop.nHeight < k <= x.nHeight
      ensures (At(x, k - 1), At(x, k)) in Links(up)
    {
      AtAt(x, k, k - 1);
      var y := At(x, k);
      assert y in up && y.pprev == At(x, k - 1);
    }
    assert WaitsFrom(dataless, u + Links(up), v, x, stop.nHeight);
  }

  lemma MarkedMore(s0: Choice, s: Choice, dataless: Blocks, v: seq<CBlockIndex?>, b: CBlockIndex, stop: CBlockIndex)
    requires Marked(s0, s, v) && StopsAt(s, dataless, v, b, stop)
    ensures Marked(s0, AfterRemoval(s, b, stop), v)
  {
    hide ClearAbove, Rooted;
    var t := AfterRemoval(s, b, stop);
    forall x | x in t.failed - s0.failed
      ensures MarkedAbove(s0.failed, t.failed, v, x)
    {
      if x in s.failed {
        assert x in s.failed - s0.failed && MarkedAbove(s0.failed, s.failed, v, x);
        var h :| 0 <= h < x.nHeight && MarkedFrom(s0.failed, s.failed, v, x, h);
        assert MarkedFrom(s0.failed, t.failed, v, x, h);
      } else {
        OnBranch(b, stop, x);
        if stop in s0.failed {
          assert MarkedFrom(s0.failed, t.failed, v, x, stop.nHeight);
        } else {
          assert stop in s.failed - s0.failed && MarkedAbove(s0.failed, s.failed, v, stop);
          var h :| 0 <= h < stop.nHeight && MarkedFrom(s0.failed, s.failed, v, stop, h);
          MarkedOnTop(s0.failed, s.failed, t.failed, v, x, stop, h);
        }
      }
    }
  }

  lemma MarkedOnTop(failed0: Blocks, failed: Blocks, more: Blocks, v: seq<CBlockIndex?>, x: CBlockIndex,
                    stop: CBlockIndex, h: int)
    requires Rooted(x) && IsAncestor(stop, x) && Rooted(stop) && 0 <= h < stop.nHeight
    requires MarkedFrom(failed0, failed, v, stop, h) && failed <= more
    requires forall k :: stop.nHeight < k <= x.nHeight ==> At(x, k) in more
    ensures MarkedFrom(failed0, more, v, x, h)
  {
    forall k | h <= k <= stop.nHeight
      ensures At(x, k) == At(stop, k)
    {
      AtAt(x, stop.nHeight, k);
    }
  }

  lemma RelinkedMore(s0: Choice, s: Choice, dataless: Blocks, v: seq<CBlockIndex?>, b: CBlockIndex, stop: CBlockIndex)
    requires Relinked(s0, s, dataless, v) && StopsAt(s, dataless, v, b, stop)
    ensures Relinked(s0, AfterRemoval(s, b, stop), dataless, v)
  {
    hide ClearAbove, Rooted;
    var t := AfterRemoval(s, b, stop);
    forall p | p in t.unlinked - s0.unlinked
      ensures p.0 == p.1.pprev && Above(dataless, v, p.1)
    {
      if p !in s.unlinked {
        var x :| x in Branch(b, stop.nHeight) && x.pprev != null && p == (x.pprev, x);
        OnBranch(b, stop, x);
      }
    }
  }

  lemma BestMore(all: Blocks, s0: Choice, s: Choice, dataless: Blocks, v: seq<CBlockIndex?>, b: CBlockIndex,
                 stop: CBlockIndex)
    requires IsIndex(all) && IsChain(v) && b in s.cand && b in all
    requires BestInvalid(s0, s) && s.cand <= s0.cand && s0.failed <= s.failed && StopsAt(s, dataless, v, b, stop)
    ensures BestInvalid(s0, AfterRemoval(s, b, stop))
  {
    hide IsChain, Rooted, Stops;
    var t := AfterRemoval(s, b, stop);
    AncestorIndexed(all, b, stop.nHeight);
    assert b in Branch(b, stop.nHeight) + {stop} by { assert b == At(b, b.nHeight); }
    forall x | x in t.failed && (x !in s0.failed || x in s0.cand - t.cand)
      ensures t.best != null && x.nChainWork <= t.best.nChainWork
    {
      if x !in s.failed || (x in s0.failed && x in s.cand) {
        OnBranch(b, stop, x);
        AncestorIndexed(all, b, x.nHeight);
        if x in s.failed {
          OnlyStopFailed(s, dataless, v, b, stop, x);
        }
      }
    }
  }

  /** Of the removed branch only the stopping block can have failed before. */
  lemma OnlyStopFailed(s: Choice, dataless: Blocks, v: seq<CBlockIndex?>, b: CBlockIndex, stop: CBlockIndex,
                       x: CBlockIndex)
    requires IsChain(v) && StopsAt(s, dataless, v, b, stop) && x in Branch(b, stop.nHeight) + {stop} && x in s.failed
    ensures x == stop
  {
    hide IsChain, Rooted;
    OnBranch(b, stop, x);
    if x != stop {
      assert !Stops(s.failed, dataless, v, At(b, x.nHeight));
      HoldsBelow(v, x, stop.nHeight);
    }
  }

  /** Removing one more unusable branch, that of a candidate. */
  lemma RemovalStep(all: Blocks, s0: Choice, s: Choice, dataless: Blocks, v: seq<CBlockIndex?>, b: CBlockIndex,
                    stop: CBlockIndex)
    requires IsIndex(all) && IsChain(v) && b in s.cand && b in all
    requires Removed(s0, s, dataless, v) && StopsAt(s, dataless, v, b, stop)
    ensures Removed(s0, AfterRemoval(s, b, stop), dataless, v)
    ensures AfterRemoval(s, b, stop).cand <= s.cand - {b}
  {
    hide Rooted, Unusable, Waits, MarkedAbove, Above, IsIndex, IsChain, ClearAbove, Stops;
    assert Dropped(s0, s, dataless, v) && Marked(s0, s, v) && Relinked(s0, s, dataless, v) && BestInvalid(s0, s);
    DroppedMore(s0, s, dataless, v, b, stop);
    MarkedMore(s0, s, dataless, v, b, stop);
    RelinkedMore(s0, s, dataless, v, b, stop);
    BestMore(all, s0, s, dataless, v, b, stop);
    BranchHasTop(b, stop);
  }

  lemma BranchHasTop(b: CBlockIndex, stop: CBlockIndex)
    requires Rooted(b) && IsAncestor(stop, b)
    ensures b in Branch(b, stop.nHeight) + {stop}
  {
    assert b == At(b, b.nHeight);
  }
}
