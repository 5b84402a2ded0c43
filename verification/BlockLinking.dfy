/** Linking: which blocks have all their data down to the genesis block, and which wait for it. */
module BlockLinking {
  import opened BlockTree
  import opened Branches

  /** By block: nChainTx, nTx and nSequenceId; and which blocks have data. */
  datatype Counts = Counts(chain: map<CBlockIndex, nat>, own: map<CBlockIndex, nat>, ids: map<CBlockIndex, nat>,
                           data: Blocks)

  ghost function CountsOf(all: Blocks): (c: Counts)
    reads all
    ensures Covers(c, all) && c.data <= all
    ensures forall b :: b in all ==> c.chain[b] == b.nChainTx && c.own[b] == b.nTx && c.ids[b] == b.nSequenceId
    ensures forall b :: b in all ==> (b in c.data <==> b.fHaveData)
  {
    Counts(map b | b in all :: b.nChainTx, map b | b in all :: b.nTx, map b | b in all :: b.nSequenceId,
           set b | b in all && b.fHaveData)
  }

  lemma SameMap(a: map<CBlockIndex, nat>, b: map<CBlockIndex, nat>)
    requires a.Keys == b.Keys && forall x :: x in a ==> a[x] == b[x]
    ensures a == b
  {
    assert a == b;
  }

  lemma SameCounts(all: Blocks, a: Counts, b: Counts)
    requires Covers(a, all) && Covers(b, all) && a.data <= all && b.data <= all
    requires forall x :: x in all ==> a.chain[x] == b.chain[x] && a.own[x] == b.own[x] && a.ids[x] == b.ids[x]
    requires forall x :: x in all ==> (x in a.data <==> x in b.data)
    ensures a == b
  {
    SameMap(a.chain, b.chain);
    SameMap(a.own, b.own);
    SameMap(a.ids, b.ids);
    assert a.data == b.data;
  }

  ghost predicate Covers(c: Counts, all: Blocks) {
    c.chain.Keys == all && c.own.Keys == all && c.ids.Keys == all
  }

  ghost predicate Parented(c: Counts, b: CBlockIndex)
    requires b.pprev != null ==> b.pprev in c.chain
  {
    b.pprev == null || c.chain[b.pprev] != 0
  }

  /** What holds of one block while some are queued for linking. */
  ghost predicate BlockLinked(c: Counts, b: CBlockIndex, unlinked: Pairs, queued: bool)
    requires b in c.chain && b in c.own && (b.pprev != null ==> b.pprev in c.chain)
  {
    && (b in c.data ==> c.own[b] > 0)
    && (c.chain[b] != 0 ==>
          b in c.data && !queued && Parented(c, b)
          && c.chain[b] == (if b.pprev == null then 0 else c.chain[b.pprev]) + c.own[b])
    && (queued ==> b in c.data && c.chain[b] == 0 && Parented(c, b))
    && (b in c.data && c.chain[b] == 0 && !queued ==> !Parented(c, b) && (b.pprev, b) in unlinked)
    && (b.pprev != null && (b.pprev, b) in unlinked ==> b in c.data && c.chain[b] == 0 && !queued && !Parented(c, b))
  }

  ghost predicate InProgress(all: Blocks, c: Counts, unlinked: Pairs, queued: Blocks)
    requires IsIndex(all) && Covers(c, all)
  {
    && queued <= all
    && (forall b :: b in all ==> BlockLinked(c, b, unlinked, b in queued))
    && (forall p :: p in unlinked ==> p.1 in all && p.0 == p.1.pprev)
  }

  ghost function Waiting(unlinked: Pairs, pindex: CBlockIndex): Blocks {
    set p | p in unlinked && p.0 == pindex :: p.1
  }

  ghost function OthersWaiting(unlinked: Pairs, pindex: CBlockIndex): Pairs {
    set p | p in unlinked && p.0 != pindex
  }

  ghost function Members(queue: seq<CBlockIndex>): Blocks {
    set b | b in queue
  }

  ghost predicate Distinct(queue: seq<CBlockIndex>) {
    forall i, j :: 0 <= i < j < |queue| ==> queue[i] != queue[j]
  }

  lemma WaitingNotQueued(all: Blocks, c: Counts, unlinked: Pairs, queued: Blocks, pindex: CBlockIndex)
    requires IsIndex(all) && Covers(c, all) && InProgress(all, c, unlinked, queued)
    ensures Waiting(unlinked, pindex) !! queued
  {
    forall b | b in Waiting(unlinked, pindex)
      ensures b !in queued
    {
      var p :| p in unlinked && p.0 == pindex && p.1 == b;
      assert BlockLinked(c, b, unlinked, b in queued);
    }
  }

  lemma QueuedIsReady(all: Blocks, c: Counts, unlinked: Pairs, queued: Blocks, pindex: CBlockIndex)
    requires IsIndex(all) && Covers(c, all) && InProgress(all, c, unlinked, queued) && pindex in queued
    ensures pindex in all && c.chain[pindex] == 0 && c.own[pindex] > 0
  {
    assert BlockLinked(c, pindex, unlinked, true);
  }

  lemma NoDataNotLinked(all: Blocks, c: Counts, unlinked: Pairs, b: CBlockIndex)
    requires IsIndex(all) && Covers(c, all) && InProgress(all, c, unlinked, {}) && b in all && b !in c.data
    ensures c.chain[b] == 0
  {
    assert BlockLinked(c, b, unlinked, false);
  }

  ghost function WithLink(c: Counts, pindex: CBlockIndex, nSequenceId: nat): Counts
    requires pindex in c.own && (pindex.pprev != null ==> pindex.pprev in c.chain)
  {
    c.(chain := c.chain[pindex := (if pindex.pprev != null then c.chain[pindex.pprev] else 0) + c.own[pindex]],
       ids := c.ids[pindex := nSequenceId])
  }

  lemma IsWithLink(all: Blocks, c: Counts, c': Counts, pindex: CBlockIndex, nSequenceId: nat)
    requires Covers(c, all) && Covers(c', all) && c.data <= all && c'.data <= all && pindex in all
    requires pindex.pprev != null ==> pindex.pprev in all
    requires forall x :: x in all ==> c'.own[x] == c.own[x] && (x in c'.data <==> x in c.data)
    requires forall x :: x in all && x != pindex ==> c'.chain[x] == c.chain[x] && c'.ids[x] == c.ids[x]
    requires c'.chain[pindex] == (if pindex.pprev != null then c.chain[pindex.pprev] else 0) + c.own[pindex]
    requires c'.ids[pindex] == nSequenceId
    ensures c' == WithLink(c, pindex, nSequenceId)
  {
    SameMap(c'.own, c.own);
    SameMap(c'.ids, c.ids[pindex := nSequenceId]);
    SameMap(c'.chain, c.chain[pindex := c'.chain[pindex]]);
    assert c'.data == c.data;
  }

  /** Linking one queued block and queueing those that waited for it. */
  lemma LinkKeeps(all: Blocks, c: Counts, unlinked: Pairs, queued: Blocks, pindex: CBlockIndex, nSequenceId: nat)
    requires IsIndex(all) && Covers(c, all) && InProgress(all, c, unlinked, queued) && pindex in queued && pindex in all
    ensures Covers(WithLink(c, pindex, nSequenceId), all)
    ensures InProgress(all, WithLink(c, pindex, nSequenceId), OthersWaiting(unlinked, pindex),
                       queued - {pindex} + Waiting(unlinked, pindex))
  {
    WaitingNotQueued(all, c, unlinked, queued, pindex);
    QueuedIsReady(all, c, unlinked, queued, pindex);
    var queued' := queued - {pindex} + Waiting(unlinked, pindex);
    forall b | b in all
      ensures BlockLinked(WithLink(c, pindex, nSequenceId), b, OthersWaiting(unlinked, pindex), b in queued')
    {
      assert Skips(b) && BlockLinked(c, b, unlinked, b in queued);
      hide Skips, Rooted;
      WaitingFor(unlinked, pindex, b);
    }
  }

  lemma WaitingFor(unlinked: Pairs, pindex: CBlockIndex, b: CBlockIndex)
    ensures b in Waiting(unlinked, pindex) <==> (pindex, b) in unlinked
  {
    if (pindex, b) in unlinked { assert (pindex, b).0 == pindex && (pindex, b).1 == b; }
  }

  /** A header without data changes nothing. */
  lemma HeaderKeeps(all: Blocks, c: Counts, c': Counts, unlinked: Pairs, b: CBlockIndex)
    requires IsIndex(all) && Covers(c, all) && InProgress(all, c, unlinked, {})
    requires b !in all && IsIndex(all + {b}) && Covers(c', all + {b})
    requires forall x :: x in all ==>
               c'.chain[x] == c.chain[x] && c'.own[x] == c.own[x] && (x in c'.data <==> x in c.data)
    requires c'.chain[b] == 0 && b !in c'.data
    ensures InProgress(all + {b}, c', unlinked, {})
  {
    hide Skips;
    forall x | x in all
      ensures BlockLinked(c', x, unlinked, false)
    {
      assert BlockLinked(c, x, unlinked, false);
    }
  }

  ghost function WithData(c: Counts, x: CBlockIndex, nTx: nat): Counts {
    Counts(c.chain[x := 0], c.own[x := nTx], c.ids, c.data + {x})
  }

  /** Data arriving for one block, which is queued if its parent is linked and waits otherwise. */
  lemma ReceiveKeeps(all: Blocks, c: Counts, unlinked: Pairs, x: CBlockIndex, nTx: nat)
    requires IsIndex(all) && Covers(c, all) && InProgress(all, c, unlinked, {}) && x in all && x !in c.data && nTx > 0
    ensures Covers(WithData(c, x, nTx), all)
    ensures if Parented(c, x) then InProgress(all, WithData(c, x, nTx), unlinked, {x})
            else InProgress(all, WithData(c, x, nTx), unlinked + {(x.pprev, x)}, {})
  {
    NoDataNotLinked(all, c, unlinked, x);
    var c' := WithData(c, x, nTx);
    forall b | b in all
      ensures if Parented(c, x) then BlockLinked(c', b, unlinked, b in {x})
              else BlockLinked(c', b, unlinked + {(x.pprev, x)}, false)
    {
      assert Skips(b) && BlockLinked(c, b, unlinked, false);
      hide Skips, Rooted;
    }
  }

  lemma QueueStarts(b: CBlockIndex)
    ensures Members([b]) == {b} && Distinct([b])
  {
  }

  lemma QueueSplits(queue: seq<CBlockIndex>)
    requires queue != [] && Distinct(queue)
    ensures Members(queue[1..]) == Members(queue) - {queue[0]} && queue[0] in Members(queue) && Distinct(queue[1..])
  {
  }

  /** Blocks once linked keep their count and their place in the order of arrival. */
  ghost predicate LinkedMore(c0: Counts, c: Counts) {
    && c.chain.Keys == c0.chain.Keys == c.ids.Keys == c0.ids.Keys
    && forall b :: b in c0.chain && c0.chain[b] != 0 ==> c.chain[b] == c0.chain[b] && c.ids[b] == c0.ids[b]
  }

  /** The comparator on recorded sequence numbers. */
  ghost predicate MayBeTip(c: Counts, tip: CBlockIndex?, b: CBlockIndex)
    requires b in c.ids && (tip != null ==> tip in c.ids)
  {
    tip == null || !(
      if b.nChainWork != tip.nChainWork then b.nChainWork < tip.nChainWork
      else if c.ids[b] != c.ids[tip] then c.ids[b] > c.ids[tip]
      else b.address > tip.address)
  }

  lemma MayBeTipIsNotWorse(all: Blocks, tip: CBlockIndex?, b: CBlockIndex)
    requires b in all && (tip != null ==> tip in all)
    ensures MayBeTip(CountsOf(all), tip, b) <==> tip == null || !Worse(b, tip)
  {
  }

  ghost function NewlyLinked(c0: Counts, c: Counts): Blocks {
    set b | b in c.chain && b in c0.chain && c0.chain[b] == 0 && c.chain[b] != 0
  }

  /** The newly linked blocks that are not worse than the tip. */
  ghost function NewCandidates(c0: Counts, c: Counts, tip: CBlockIndex?): Blocks
    requires LinkedMore(c0, c) && (tip != null ==> tip in c.ids)
  {
    set b | b in NewlyLinked(c0, c) && MayBeTip(c, tip, b)
  }

  /** Sequence numbers from n0 up to n went to the newly linked blocks, each its own, parents first. */
  ghost predicate Numbered(c0: Counts, c: Counts, n0: nat, n: nat)
    requires c.chain.Keys == c.ids.Keys
  {
    && n0 <= n
    && (forall b :: b in NewlyLinked(c0, c) ==> n0 <= c.ids[b] < n)
    && (forall a, b :: a in NewlyLinked(c0, c) && b in NewlyLinked(c0, c) && a != b ==> c.ids[a] != c.ids[b])
    && (forall b :: b in NewlyLinked(c0, c) && b.pprev != null && b.pprev in NewlyLinked(c0, c) ==>
        c.ids[b.pprev] < c.ids[b])
  }

  lemma NewlyLinkedGrows(all: Blocks, c0: Counts, c: Counts, pindex: CBlockIndex, nSequenceId: nat)
    requires Covers(c0, all) && Covers(c, all) && pindex in all && (pindex.pprev != null ==> pindex.pprev in all)
    requires c0.chain[pindex] == 0 && c.own[pindex] > 0
    ensures NewlyLinked(c0, WithLink(c, pindex, nSequenceId)) == NewlyLinked(c0, c) + {pindex}
  {
  }

  /** The next number goes to a block that no linked block has for its parent. */
  lemma NumberedMore(c0: Counts, c: Counts, c': Counts, pindex: CBlockIndex, n0: nat, n: nat)
    requires c.chain.Keys == c.ids.Keys == c'.chain.Keys == c'.ids.Keys && pindex in c.ids
    requires Numbered(c0, c, n0, n) && c'.ids == c.ids[pindex := n] && pindex !in NewlyLinked(c0, c)
    requires NewlyLinked(c0, c') == NewlyLinked(c0, c) + {pindex}
    requires forall b :: b in NewlyLinked(c0, c) ==> b.pprev != pindex
    requires pindex.pprev != pindex
    ensures Numbered(c0, c', n0, n + 1)
  {
    hide NewlyLinked;
  }

  lemma NumberedStep(all: Blocks, c0: Counts, c: Counts, unlinked: Pairs, queued: Blocks, pindex: CBlockIndex, n0: nat,
                     n: nat)
    requires IsIndex(all) && Covers(c0, all) && Covers(c, all) && InProgress(all, c, unlinked, queued)
    requires pindex in queued
    requires Numbered(c0, c, n0, n) && c0.chain[pindex] == 0 && pindex in all
    requires pindex.pprev != null ==> pindex.pprev in c.chain
    ensures Covers(WithLink(c, pindex, n), all) && Numbered(c0, WithLink(c, pindex, n), n0, n + 1)
  {
    hide Numbered;
    QueuedIsReady(all, c, unlinked, queued, pindex);
    assert Skips(pindex) && pindex.pprev != pindex;
    hide Skips;
    forall b | b in NewlyLinked(c0, c)
      ensures b.pprev != pindex
    {
      assert BlockLinked(c, b, unlinked, b in queued);
    }
    LinkCovers(all, c, pindex, n);
    NewlyLinkedGrows(all, c0, c, pindex, n);
    hide NewlyLinked;
    NumberedMore(c0, c, WithLink(c, pindex, n), pindex, n0, n);
  }

  lemma LinkCovers(all: Blocks, c: Counts, pindex: CBlockIndex, nSequenceId: nat)
    requires Covers(c, all) && pindex in all && (pindex.pprev != null ==> pindex.pprev in all)
    ensures Covers(WithLink(c, pindex, nSequenceId), all)
    ensures c.chain.Keys == c.ids.Keys == all && pindex in c.own
  {
  }

  lemma LinkedOneMore(all: Blocks, c0: Counts, c: Counts, tip: CBlockIndex?, pindex: CBlockIndex, nSequenceId: nat)
    requires Covers(c0, all) && Covers(c, all) && LinkedMore(c0, c) && pindex in all
    requires pindex.pprev != null ==> pindex.pprev in all
    requires tip != null ==> tip in all && c.chain[tip] != 0
    requires c.chain[pindex] == 0 && c.own[pindex] > 0
    ensures c0.chain[pindex] == 0 && (tip != null ==> tip in WithLink(c, pindex, nSequenceId).chain)
    ensures var c' := WithLink(c, pindex, nSequenceId);
            LinkedMore(c0, c') && c'.own == c.own && c'.data == c.data && (tip != null ==> c'.chain[tip] != 0)
  {
  }

  lemma CandidatesGrow(c0: Counts, c: Counts, c': Counts, tip: CBlockIndex?, pindex: CBlockIndex, nSequenceId: nat)
    requires LinkedMore(c0, c) && LinkedMore(c0, c') && pindex in c.ids && c'.ids == c.ids[pindex := nSequenceId]
    requires tip != null ==> tip in c.ids && tip in c'.ids && tip != pindex
    requires NewlyLinked(c0, c') == NewlyLinked(c0, c) + {pindex} && pindex !in NewlyLinked(c0, c)
    ensures NewCandidates(c0, c', tip)
            == NewCandidates(c0, c, tip) + (if MayBeTip(c', tip, pindex) then {pindex} else {})
  {
    hide NewlyLinked;
    forall b | b in c.ids && b != pindex
      ensures MayBeTip(c', tip, b) == MayBeTip(c, tip, b)
    {
    }
    hide MayBeTip;
  }

  ghost function WithCandidate(cand: Blocks, c: Counts, tip: CBlockIndex?, b: CBlockIndex): Blocks
    requires b in c.ids && (tip != null ==> tip in c.ids)
  {
    if MayBeTip(c, tip, b) then cand + {b} else cand
  }

  /** The worklist at work: `queued` are about to be linked; c0, cand0 and n0 are what it started from. */
  ghost predicate LinkingIn(all: Blocks, c: Counts, unlinked: Pairs, cand: Blocks, tip: CBlockIndex?, n: nat,
                            c0: Counts, cand0: Blocks, n0: nat, queued: Blocks)
    requires IsIndex(all)
  {
    && Covers(c, all) && Covers(c0, all) && LinkedMore(c0, c) && c.own == c0.own && c.data == c0.data
    && InProgress(all, c, unlinked, queued) && cand <= all && Numbered(c0, c, n0, n)
    && (tip != null ==> tip in all && c.chain[tip] != 0)
    && cand == cand0 + NewCandidates(c0, c, tip)
  }

  lemma LinkingStep(all: Blocks, c: Counts, unlinked: Pairs, cand: Blocks, tip: CBlockIndex?, n: nat,
                    c0: Counts, cand0: Blocks, n0: nat, queued: Blocks, pindex: CBlockIndex)
    requires IsIndex(all) && LinkingIn(all, c, unlinked, cand, tip, n, c0, cand0, n0, queued) && pindex in queued
    ensures pindex in all && Waiting(unlinked, pindex) !! queued && (tip != null ==> tip in all && c.chain[tip] != 0)
    ensures var c' := WithLink(c, pindex, n);
            && pindex in c'.ids && (tip != null ==> tip in c'.ids)
            && LinkingIn(all, c', OthersWaiting(unlinked, pindex), WithCandidate(cand, c', tip, pindex), tip, n + 1, c0,
                         cand0, n0, queued - {pindex} + Waiting(unlinked, pindex))
  {
    hide Skips, InProgress, NewCandidates, MayBeTip, LinkedMore, Numbered, Waiting, OthersWaiting;
    WaitingNotQueued(all, c, unlinked, queued, pindex);
    QueuedIsReady(all, c, unlinked, queued, pindex);
    LinkKeeps(all, c, unlinked, queued, pindex, n);
    LinkedOneMore(all, c0, c, tip, pindex, n);
    NewlyLinkedGrows(all, c0, c, pindex, n);
    LinkCovers(all, c, pindex, n);
    CandidatesGrow(c0, c, WithLink(c, pindex, n), tip, pindex, n);
    NumberedStep(all, c0, c, unlinked, queued, pindex, n0, n);
  }

  // ---- what being linked means ----

  /** The block and all of its ancestors have their data. */
  ghost predicate Complete(all: Blocks, b: CBlockIndex)
    reads all
    requires IsIndex(all) && b in all
    decreases b.nHeight
  {
    b.fHaveData && (b.pprev == null || Complete(all, b.pprev))
  }

  ghost function SumTx(all: Blocks, b: CBlockIndex): nat
    reads all
    requires IsIndex(all) && b in all
    decreases b.nHeight
  {
    b.nTx + if b.pprev == null then 0 else SumTx(all, b.pprev)
  }

  /**
   * Once no block is queued: nChainTx is the number of transactions up to a block exactly when all
   * data up to it is there, and zero otherwise; and the blocks that wait are exactly those with
   * data whose branch is not complete.
   */
  lemma {:induction false} LinkedIsComplete(all: Blocks, unlinked: Pairs, b: CBlockIndex)
    requires IsIndex(all) && InProgress(all, CountsOf(all), unlinked, {}) && b in all
    ensures b.nChainTx != 0 <==> Complete(all, b)
    ensures b.nChainTx == if Complete(all, b) then SumTx(all, b) else 0
    ensures b.pprev != null ==> ((b.pprev, b) in unlinked <==> b.fHaveData && !Complete(all, b))
    decreases b.nHeight
  {
    assert BlockLinked(CountsOf(all), b, unlinked, false);
    if b.pprev != null {
      LinkedIsComplete(all, unlinked, b.pprev);
    }
  }

  lemma {:induction false} LinkedBelow(all: Blocks, c: Counts, unlinked: Pairs, b: CBlockIndex, h: int)
    requires IsIndex(all) && Covers(c, all) && InProgress(all, c, unlinked, {}) && b in all && c.chain[b] != 0
    requires 0 <= h <= b.nHeight
    ensures At(b, h) in all && c.chain[At(b, h)] != 0
    decreases b.nHeight
  {
    assert BlockLinked(c, b, unlinked, false);
    if h < b.nHeight {
      LinkedBelow(all, c, unlinked, b.pprev, h);
    }
  }
  // ---- a block index between operations ----

  ghost predicate HashesDiffer(all: Blocks) {
    forall a, b :: a in all && b in all && a.hash == b.hash ==> a == b
  }

  /** No block is queued; the tip and all candidates are linked. */
  ghost predicate SoundAt(all: Blocks, c: Counts, unlinked: Pairs, cand: Blocks, tip: CBlockIndex?) {
    && IsIndex(all) && HashesDiffer(all) && Covers(c, all) && c.data <= all && cand <= all
    && InProgress(all, c, unlinked, {})
    && (tip != null ==> tip in all && c.chain[tip] != 0)
    && forall b :: b in cand ==> c.chain[b] != 0
  }

  /** Data for a block whose parent is not linked: it waits. */
  lemma ReceiveWaits(all: Blocks, c: Counts, unlinked: Pairs, cand: Blocks, tip: CBlockIndex?, x: CBlockIndex, nTx: nat,
                     n: nat)
    requires SoundAt(all, c, unlinked, cand, tip) && x in all && x !in c.data && nTx > 0
    requires x.pprev != null && c.chain[x.pprev] == 0
    ensures SoundAt(all, WithData(c, x, nTx), unlinked + {(x.pprev, x)}, cand, tip)
    ensures LinkedFrom(c, WithData(c, x, nTx), cand, cand, tip, n, n)
  {
    hide Skips, InProgress;
    NoDataNotLinked(all, c, unlinked, x);
    ReceiveKeeps(all, c, unlinked, x, nTx);
    assert c.chain[x := 0] == c.chain;
    SameLinks(c, WithData(c, x, nTx), tip, n);
  }

  /** Data for a block whose parent is linked: it is the first to be linked. */
  lemma ReceiveLinks(all: Blocks, c: Counts, unlinked: Pairs, cand: Blocks, tip: CBlockIndex?, x: CBlockIndex, nTx: nat,
                     n: nat)
    requires SoundAt(all, c, unlinked, cand, tip) && x in all && x !in c.data && nTx > 0
    requires x.pprev != null ==> c.chain[x.pprev] != 0
    ensures LinkingIn(all, WithData(c, x, nTx), unlinked, cand, tip, n, WithData(c, x, nTx), cand, n, {x})
  {
    hide Skips, InProgress;
    NoDataNotLinked(all, c, unlinked, x);
    ReceiveKeeps(all, c, unlinked, x, nTx);
    assert c.chain[x := 0] == c.chain;
    SameLinks(c, WithData(c, x, nTx), tip, n);
    assert cand + NewCandidates(WithData(c, x, nTx), WithData(c, x, nTx), tip) == cand;
  }

  /** What is newly linked, who became a candidate, and in what order. */
  ghost predicate LinkedFrom(c0: Counts, c: Counts, cand0: Blocks, cand: Blocks, tip: CBlockIndex?, n0: nat, n: nat)
    requires tip != null ==> tip in c.ids
  {
    LinkedMore(c0, c) && cand == cand0 + NewCandidates(c0, c, tip) && Numbered(c0, c, n0, n)
  }

  /** The worklist is empty: the index is sound again. */
  lemma LinkingDone(all: Blocks, c0: Counts, unlinked0: Pairs, cand0: Blocks, tip: CBlockIndex?, x: CBlockIndex,
                    nTx: nat, n0: nat, c: Counts, unlinked: Pairs, cand: Blocks, n: nat)
    requires SoundAt(all, c0, unlinked0, cand0, tip) && x in all && x !in c0.data
    requires LinkingIn(all, c, unlinked, cand, tip, n, WithData(c0, x, nTx), cand0, n0, {}) && c.data <= all
    ensures SoundAt(all, c, unlinked, cand, tip) && LinkedFrom(c0, c, cand0, cand, tip, n0, n)
    ensures c.own == c0.own[x := nTx] && c.data == c0.data + {x}
  {
    hide Skips, InProgress, MayBeTip, Numbered;
    NoDataNotLinked(all, c0, unlinked0, x);
    var c1 := WithData(c0, x, nTx);
    assert c0.chain[x := 0] == c0.chain;
    SameStart(c0, c1, c, tip, n0, n);
    forall b | b in cand
      ensures c.chain[b] != 0
    {
      if b in cand0 { assert c1.chain[b] != 0; }
    }
  }

  /** As far as being linked goes, data alone changes nothing. */
  lemma SameLinks(c0: Counts, c: Counts, tip: CBlockIndex?, n: nat)
    requires c.chain == c0.chain && c.ids == c0.ids && c.chain.Keys == c.ids.Keys && (tip != null ==> tip in c.ids)
    ensures LinkedMore(c0, c) && NewCandidates(c0, c, tip) == {} && Numbered(c0, c, n, n)
    ensures LinkedMore(c, c) && NewCandidates(c, c, tip) == {} && Numbered(c, c, n, n)
  {
  }

  lemma SameStart(c0: Counts, c1: Counts, c: Counts, tip: CBlockIndex?, n0: nat, n: nat)
    requires c1.chain == c0.chain && c1.ids == c0.ids && LinkedMore(c1, c) && (tip != null ==> tip in c.ids)
    ensures LinkedMore(c0, c) && NewCandidates(c0, c, tip) == NewCandidates(c1, c, tip)
    ensures Numbered(c0, c, n0, n) == Numbered(c1, c, n0, n)
  {
    assert NewlyLinked(c0, c) == NewlyLinked(c1, c);
  }

  lemma FewerCandidates(all: Blocks, c: Counts, unlinked: Pairs, cand: Blocks, fewer: Blocks, tip: CBlockIndex?)
    requires SoundAt(all, c, unlinked, cand, tip) && fewer <= cand
    ensures SoundAt(all, c, unlinked, fewer, tip)
  {
    hide IsIndex, InProgress;
  }

  /** A new header above a block of the index. */
  lemma EntryKeeps(all: Blocks, c: Counts, c': Counts, unlinked: Pairs, cand: Blocks, tip: CBlockIndex?, b: CBlockIndex)
    requires SoundAt(all, c, unlinked, cand, tip) && b !in all && Skips(b)
    requires b.pprev != null ==> b.pprev in all && b.pprev.nChainWork <= b.nChainWork
    requires forall x :: x in all ==> x.address != b.address && x.hash != b.hash
    requires Covers(c', all + {b}) && c'.data <= all + {b}
    requires forall x :: x in all ==>
               c'.chain[x] == c.chain[x] && c'.own[x] == c.own[x] && (x in c'.data <==> x in c.data)
    requires c'.chain[b] == 0 && b !in c'.data
    ensures SoundAt(all + {b}, c', unlinked, cand, tip)
  {
    hide Skips;
    HeaderKeeps(all, c, c', unlinked, b);
    hide InProgress;
  }

  lemma LinkedHasData(all: Blocks, c: Counts, unlinked: Pairs, b: CBlockIndex, h: int)
    requires IsIndex(all) && Covers(c, all) && InProgress(all, c, unlinked, {}) && b in all && c.chain[b] != 0
    requires 0 <= h <= b.nHeight
    ensures At(b, h) in all && At(b, h) in c.data
  {
    LinkedBelow(all, c, unlinked, b, h);
    assert BlockLinked(c, At(b, h), unlinked, false);
  }
}
