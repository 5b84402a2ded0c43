/** The loops that write the address manager out and read it back. */
module AddrDisk {
  import opened AddrTables
  import opened AddrOps
  import opened AddrPeers
  import opened AddrMan

  // ---- Serialize ----

  lemma RecordsGrow(info: Entries, ids: seq<int>, id: int)
    requires forall k :: 0 <= k < |ids| ==> ids[k] in info
    requires id in info
    ensures Records(info, ids + [id]) == Records(info, ids) + [ToRecord(info[id])]
  {
  }

  /** The count written ahead of the records is exactly right: the assertions on nIds never fail. */
  lemma RoomForRecord(s: Tables, h: Hashing, id: int)
    requires Consistent(s, h) && id in s.info
    ensures s.info[id].nRefCount != 0 ==> |Below(RefIds(s.info), id)| < s.nNew
    ensures s.info[id].fInTried ==> |Below(TriedIds(s.info), id)| < s.nTried
  {
    RefsAreNew(s, h);
    if s.info[id].nRefCount != 0 { BelowAt(RefIds(s.info), s.nIdCount, id); }
    if s.info[id].fInTried { BelowAt(TriedIds(s.info), s.nIdCount, id); }
  }

  /** The entries that some bucket lists, and the number each goes by on disk. */
  method WriteNews(m: CAddrMan) returns (news: seq<Record>, mapUnkIds: map<int, int>)
    requires m.Valid()
    ensures (RefsBelow(m.mapInfo, m.nIdCount); news == Records(m.mapInfo, Below(RefIds(m.mapInfo), m.nIdCount)))
    ensures forall id :: id in m.mapInfo ==> id in mapUnkIds && mapUnkIds[id] == UnkId(m.mapInfo, id)
  {
    hide RandomOk, AddrOk, CountsOk, TriedOk, NewsOk, RefsOk, Listing;
    RefsBelow(m.mapInfo, m.nIdCount);
    var nIds := 0;
    news, mapUnkIds := [], map[];
    for id := 0 to m.nIdCount
      invariant nIds == |news| && forall k :: 0 <= k < |Below(RefIds(m.mapInfo), id)| ==>
                  Below(RefIds(m.mapInfo), id)[k] in m.mapInfo
      invariant news == Records(m.mapInfo, Below(RefIds(m.mapInfo), id))
      invariant forall i :: 0 <= i < id && i in m.mapInfo ==> i in mapUnkIds && mapUnkIds[i] == UnkId(m.mapInfo, i)
    {
      if id in m.mapInfo {
        mapUnkIds := mapUnkIds[id := nIds];
        var info := m.mapInfo[id];
        if info.nRefCount != 0 {
          RoomForRecord(m.Abs(), m.h, id);
          assert nIds != m.nNew;
          RecordsGrow(m.mapInfo, Below(RefIds(m.mapInfo), id), id);
          news := news + [ToRecord(info)];
          nIds := nIds + 1;
        }
      }
      RefsBelow(m.mapInfo, id + 1);
    }
  }

  method WriteTrieds(m: CAddrMan) returns (trieds: seq<Record>)
    requires m.Valid()
    ensures (RefsBelow(m.mapInfo, m.nIdCount); trieds == Records(m.mapInfo, Below(TriedIds(m.mapInfo), m.nIdCount)))
  {
    hide RandomOk, AddrOk, CountsOk, TriedOk, NewsOk, RefsOk, Listing;
    RefsBelow(m.mapInfo, m.nIdCount);
    var nIds := 0;
    trieds := [];
    for id := 0 to m.nIdCount
      invariant nIds == |trieds| && forall k :: 0 <= k < |Below(TriedIds(m.mapInfo), id)| ==>
                  Below(TriedIds(m.mapInfo), id)[k] in m.mapInfo
      invariant trieds == Records(m.mapInfo, Below(TriedIds(m.mapInfo), id))
    {
      if id in m.mapInfo && m.mapInfo[id].fInTried {
        RoomForRecord(m.Abs(), m.h, id);
        assert nIds != m.nTried;
        RecordsGrow(m.mapInfo, Below(TriedIds(m.mapInfo), id), id);
        trieds := trieds + [ToRecord(m.mapInfo[id])];
        nIds := nIds + 1;
      }
      RefsBelow(m.mapInfo, id + 1);
    }
  }

  lemma ListedIsKnown(s: Tables, h: Hashing, slot: Slot)
    requires Consistent(s, h) && slot in s.news
    ensures s.news[slot] in s.info
  {
  }

  method WriteBucket(m: CAddrMan, bucket: nat, mapUnkIds: map<int, int>) returns (indexes: seq<int>)
    requires m.Valid() && bucket < NEW_BUCKET_COUNT
    requires forall id :: id in m.mapInfo ==> id in mapUnkIds && mapUnkIds[id] == UnkId(m.mapInfo, id)
    ensures indexes == Indexes(m.Abs(), bucket, BUCKET_SIZE)
  {
    hide Core, UnkId, Listing;
    indexes := [];
    for i := 0 to BUCKET_SIZE
      invariant indexes == Indexes(m.Abs(), bucket, i)
    {
      if m.vvNew[bucket, i] != EMPTY {
        assert Slot(bucket, i) in m.Abs().news;
        ListedIsKnown(m.Abs(), m.h, Slot(bucket, i));
        indexes := indexes + [mapUnkIds[m.vvNew[bucket, i]]];
      } else {
        assert Slot(bucket, i) !in m.Abs().news;
      }
    }
  }

  method Serialize(m: CAddrMan) returns (p: Peers)
    requires m.Valid()
    ensures p == Save(m.Abs()) && |p.news| == m.nNew && |p.trieds| == m.nTried
  {
    var news, mapUnkIds := WriteNews(m);
    var trieds := WriteTrieds(m);
    RefsBelow(m.mapInfo, m.nIdCount);
    RefsAreNew(m.Abs(), m.h);
    hide Core, UnkId, Indexes, Records, Below, Listing;
    var buckets := [];
    for bucket := 0 to NEW_BUCKET_COUNT
      invariant |buckets| == bucket
      invariant forall b :: 0 <= b < bucket ==> buckets[b] == Indexes(m.Abs(), b, BUCKET_SIZE)
    {
      var indexes := WriteBucket(m, bucket, mapUnkIds);
      buckets := buckets + [indexes];
    }
    p := Peers(VERSION, KEY_SIZE, m.nKey, news, trieds, buckets);
  }

  // ---- Unserialize ----

  /** Ids 0..n-1 are in use, and the random vector and the entries point at each other. */
  ghost predicate Numbered(t: Tables, n: int) {
    RandomOk(t.info, t.random) && forall k :: k in t.info <==> 0 <= k < n
  }

  method ReadEntry(m: CAddrMan, n: nat, r: Record)
    requires Numbered(m.Abs(), n)
    modifies m
    ensures m.Abs() == Entered(old(m.Abs()), n, r) && Numbered(m.Abs(), n + 1)
  {
    hide Listing;
    var info := FromRecord(r);
    m.mapInfo := m.mapInfo[n := info];
    m.mapAddr := m.mapAddr[info.Net() := n];
    m.mapInfo := m.mapInfo[n := info.(nRandomPos := |m.vRandom|)];
    m.vRandom := m.vRandom + [n];
  }

  lemma ReferenceKeepsNumbers(t: Tables, id: int, slot: Slot, n: int)
    requires Numbered(t, n) && id in t.info
    ensures Numbered(Reference(t, id, slot), n)
  {
  }

  method ReadNew(m: CAddrMan, n: nat, r: Record, usable: bool)
    requires m.Shaped() && Numbered(m.Abs(), n)
    modifies m, m.vvNew
    ensures m.Abs() == LoadNew(old(m.Abs()), m.h, n, r, usable) && Numbered(m.Abs(), n + 1)
  {
    hide Listing, Numbered, Reference;
    ReadEntry(m, n, r);
    assert n in m.mapInfo;
    if !usable {
      var slot := m.HomeSlotOf(n);
      if m.vvNew[slot.bucket, slot.pos] == EMPTY {
        assert slot !in m.Abs().news;
        ReferenceKeepsNumbers(m.Abs(), n, slot, n + 1);
        m.DoReference(n, slot);
      } else {
        assert slot in m.Abs().news;
      }
    }
  }

  method EnterTried(m: CAddrMan, info: Info, slot: Slot)
    requires m.Shaped() && m.nIdCount >= 0 && Numbered(m.Abs(), m.nIdCount)
    requires 0 <= slot.bucket < TRIED_BUCKET_COUNT && 0 <= slot.pos < BUCKET_SIZE
    modifies m, m.vvTried
    ensures var t, id := old(m.Abs()), old(m.nIdCount);
            var e := info.(nRandomPos := |t.random|, fInTried := true);
            m.Abs() == t.(nIdCount := id + 1, info := t.info[id := e], addr := t.addr[e.Net() := id],
                          random := t.random + [id], tried := t.tried[slot := id])
    ensures Numbered(m.Abs(), m.nIdCount)
  {
    hide Listing;
    var e := info.(nRandomPos := |m.vRandom|, fInTried := true);
    m.vRandom := m.vRandom + [m.nIdCount];
    m.mapInfo := m.mapInfo[m.nIdCount := e];
    m.mapAddr := m.mapAddr[e.Net() := m.nIdCount];
    SetSlot(m.vvTried, slot, m.nIdCount);
    m.nIdCount := m.nIdCount + 1;
  }

  /** Returns whether the entry was lost to another in the same slot. */
  method ReadTried(m: CAddrMan, r: Record) returns (lost: bool)
    requires m.Shaped() && m.nIdCount >= 0 && Numbered(m.Abs(), m.nIdCount)
    modifies m, m.vvTried
    ensures Numbered(m.Abs(), m.nIdCount)
    ensures LoadTried(old(m.Abs()), m.h, r) == m.Abs().(nTried := m.nTried - (if lost then 1 else 0))
    ensures m.nIdCount == old(m.nIdCount) + (if lost then 0 else 1)
  {
    hide Listing, Numbered;
    var info := FromRecord(r);
    var nKBucket := m.h.TriedBucket(m.nKey, r.address.svc);
    var slot := Slot(nKBucket, m.h.BucketPosition(m.nKey, false, nKBucket, r.address.svc));
    lost := m.vvTried[slot.bucket, slot.pos] != EMPTY;
    assert slot in m.Abs().tried <==> lost;
    if !lost {
      EnterTried(m, info, slot);
    }
  }

  method ReadIndex(m: CAddrMan, bucket: nat, nIndex: int, nNew: nat, usable: bool)
    requires m.Shaped() && (usable ==> bucket < NEW_BUCKET_COUNT) && nNew <= m.nIdCount && Numbered(m.Abs(), m.nIdCount)
    modifies m, m.vvNew
    ensures m.Abs() == Place(old(m.Abs()), m.h, bucket, nIndex, nNew, usable)
    ensures m.nIdCount == old(m.nIdCount) && Numbered(m.Abs(), m.nIdCount)
  {
    hide Listing;
    if 0 <= nIndex < nNew {
      var info := m.mapInfo[nIndex];
      var nUBucketPos := m.h.BucketPosition(m.nKey, true, bucket, info.address.svc);
      if usable && m.vvNew[bucket, nUBucketPos] == EMPTY && info.nRefCount < NEW_BUCKETS_PER_ADDRESS {
        ReferenceKeepsNumbers(m.Abs(), nIndex, Slot(bucket, nUBucketPos), m.nIdCount);
        m.DoReference(nIndex, Slot(bucket, nUBucketPos));
      }
    }
  }

  method ReadBucket(m: CAddrMan, bucket: nat, indexes: seq<int>, nNew: nat, usable: bool)
    requires m.Shaped() && (usable ==> bucket < NEW_BUCKET_COUNT) && nNew <= m.nIdCount && Numbered(m.Abs(), m.nIdCount)
    modifies m, m.vvNew
    ensures m.Abs() == PlaceBucket(old(m.Abs()), m.h, bucket, indexes, |indexes|, nNew, usable)
    ensures m.nIdCount == old(m.nIdCount) && Numbered(m.Abs(), m.nIdCount)
  {
    hide Listing, Numbered, Place;
    for n := 0 to |indexes|
      invariant m.Abs() == PlaceBucket(old(m.Abs()), m.h, bucket, indexes, n, nNew, usable)
      invariant m.nIdCount == old(m.nIdCount) && Numbered(m.Abs(), m.nIdCount)
    {
      ReadIndex(m, bucket, indexes[n], nNew, usable);
    }
  }

  lemma LastRemoved(info: Entries, random: seq<int>, id: int)
    requires RandomOk(info, random) && id in info && info[id].nRandomPos == |random| - 1
    ensures RandomOk(info - {id}, random[..|random| - 1])
  {
  }

  /** The random vector alone is enough to delete an entry that no table lists. */
  lemma PruneStep(t: Tables, id: int)
    requires RandomOk(t.info, t.random) && Unreferenced(t, id)
    ensures CanDelete(t, id) && RandomOk(Delete(t, id).info, Delete(t, id).random)
  {
    SwapKeepsRandom(t, t.info[id].nRandomPos, |t.random| - 1);
    assert t.random[t.info[id].nRandomPos] == id;
    var s := SwapRandom(t, t.info[id].nRandomPos, |t.random| - 1);
    assert s.info[id].nRandomPos == |s.random| - 1;
    hide RandomOk;
    LastRemoved(s.info, s.random, id);
  }

  method ReadNews(m: CAddrMan, p: Peers)
    requires m.Shaped() && Numbered(m.Abs(), 0)
    modifies m, m.vvNew
    ensures m.Abs() == LoadNews(old(m.Abs()), m.h, p.news, Usable(p), |p.news|) && Numbered(m.Abs(), |p.news|)
  {
    hide Listing, Numbered, LoadNew, Usable;
    for n := 0 to |p.news|
      invariant m.Abs() == LoadNews(old(m.Abs()), m.h, p.news, Usable(p), n) && Numbered(m.Abs(), n)
    {
      ReadNew(m, n, p.news[n], Usable(p));
    }
  }

  lemma LessTried(t: Tables, h: Hashing, r: Record, d: int)
    ensures LoadTried(t.(nTried := d), h, r) == LoadTried(t, h, r).(nTried := LoadTried(t, h, r).nTried - t.nTried + d)
  {
  }

  method ReadTrieds(m: CAddrMan, p: Peers)
    requires m.Shaped() && m.nIdCount >= 0 && Numbered(m.Abs(), m.nIdCount)
    modifies m, m.vvTried
    ensures m.Abs() == LoadTrieds(old(m.Abs()), m.h, p.trieds, |p.trieds|)
    ensures m.nIdCount >= old(m.nIdCount) && Numbered(m.Abs(), m.nIdCount)
  {
    hide Listing, LoadTried, RandomOk;
    var nLost := 0;
    for n := 0 to |p.trieds|
      invariant LoadTrieds(old(m.Abs()), m.h, p.trieds, n) == m.Abs().(nTried := m.nTried - nLost)
      invariant m.nIdCount >= old(m.nIdCount) && Numbered(m.Abs(), m.nIdCount)
    {
      LessTried(m.Abs(), m.h, p.trieds[n], m.nTried - nLost);
      var lost := ReadTried(m, p.trieds[n]);
      nLost := nLost + if lost then 1 else 0;
    }
    m.nTried := m.nTried - nLost;
  }

  method ReadBuckets(m: CAddrMan, p: Peers)
    requires m.Shaped() && |p.news| <= m.nIdCount && Numbered(m.Abs(), m.nIdCount)
    modifies m, m.vvNew
    ensures m.Abs() == PlaceAll(old(m.Abs()), m.h, p.buckets, |p.buckets|, |p.news|, Usable(p))
    ensures m.nIdCount == old(m.nIdCount) && Numbered(m.Abs(), m.nIdCount)
  {
    hide Listing, Numbered, PlaceBucket;
    for bucket := 0 to |p.buckets|
      invariant m.Abs() == PlaceAll(old(m.Abs()), m.h, p.buckets, bucket, |p.news|, Usable(p))
      invariant m.nIdCount == old(m.nIdCount) && Numbered(m.Abs(), m.nIdCount)
    {
      ReadBucket(m, bucket, p.buckets[bucket], |p.news|, Usable(p));
    }
  }

  method PruneNews(m: CAddrMan)
    requires m.nIdCount >= 0 && RandomOk(m.mapInfo, m.vRandom)
    modifies m
    ensures m.Abs() == Prune(old(m.Abs()), old(m.nIdCount))
  {
    hide Listing, RandomOk, Delete, CanDelete;
    ghost var count := m.nIdCount;
    for id := 0 to m.nIdCount
      invariant m.nIdCount == count && RandomOk(m.mapInfo, m.vRandom)
      invariant m.Abs() == Prune(old(m.Abs()), id)
    {
      if id in m.mapInfo && !m.mapInfo[id].fInTried && m.mapInfo[id].nRefCount == 0 {
        PruneStep(m.Abs(), id);
        DeleteKeepsCount(m.Abs(), id);
        m.DoDelete(id);
      }
    }
  }

  lemma DeleteKeepsCount(t: Tables, id: int)
    requires CanDelete(t, id)
    ensures Delete(t, id).nIdCount == t.nIdCount
  {
  }

  /**
   * Unserialize. Clear resets everything but the maps, so they have to be empty. `hash` is the
   * key drawn by Clear, which stays when the stored key has the wrong size.
   */
  method Unserialize(m: CAddrMan, p: Peers, hash: nat) returns (ok: bool)
    requires m.Shaped() && m.mapInfo == map[] && m.mapAddr == map[]
    modifies m, m.vvNew, m.vvTried
    ensures ok <==> Load(p, m.h).Loaded?
    ensures m.Abs() == if ok then Load(p, m.h).t else Fresh(hash)
  {
    hide Listing, LoadNews, LoadTrieds, PlaceAll, Prune, Usable;
    m.vRandom, m.nKey := [], hash;
    ClearBuckets(m.vvNew);
    ClearBuckets(m.vvTried);
    m.nIdCount, m.nTried, m.nNew := 0, 0, 0;
    assert m.Abs() == Fresh(hash);
    if p.nKeySize != KEY_SIZE {
      return false;
    }
    m.nKey, m.nNew, m.nTried := p.nKey, |p.news|, |p.trieds|;
    ReadNews(m, p);
    m.nIdCount := m.nNew;
    NewsAreCounted(Fresh(p.nKey).(nNew := |p.news|, nTried := |p.trieds|), m.h, p.news, Usable(p), |p.news|);
    ReadTrieds(m, p);
    ReadBuckets(m, p);
    assert m.Abs() == Placed(p, m.h);
    PruneNews(m);
    ok := true;
  }

  lemma {:induction false} NewsAreCounted(t: Tables, h: Hashing, news: seq<Record>, usable: bool, n: nat)
    requires n <= |news|
    ensures LoadNews(t, h, news, usable, n).nNew == t.nNew
  {
    if n > 0 { NewsAreCounted(t, h, news, usable, n - 1); }
  }

  /** Writing out a valid manager and reading it into a fresh one. */
  method SaveAndLoad(m: CAddrMan, m': CAddrMan, hash: nat) returns (ok: bool)
    requires m.Valid() && m'.Shaped() && m'.mapInfo == map[] && m'.mapAddr == map[] && m'.h == m.h
    requires {m, m.vvNew, m.vvTried} !! {m', m'.vvNew, m'.vvTried}
    modifies m', m'.vvNew, m'.vvTried
    ensures ok && m'.Valid() && SameUpToIds(m.Abs(), m'.Abs())
  {
    hide Core, SameUpToIds, Listing;
    SaveLoadRoundTrip(m.Abs(), m.h);
    var p := Serialize(m);
    ok := Unserialize(m', p, hash);
  }
}
