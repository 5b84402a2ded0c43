/** CAddrMan itself: the maps, the vector and the two bucket arrays, updated in place. */
module AddrMan {
  import opened Common
  import opened AddrTables
  import opened AddrOps

  const EMPTY := -1

  /** What a bucket array lists. */
  ghost function Listing(a: array2<int>): (t: Table)
    reads a
    ensures forall slot :: slot in t <==>
              0 <= slot.bucket < a.Length0 && 0 <= slot.pos < a.Length1 && a[slot.bucket, slot.pos] != EMPTY
    ensures forall slot :: slot in t ==> t[slot] == a[slot.bucket, slot.pos]
  {
    var slots := set b, i | 0 <= b < a.Length0 && 0 <= i < a.Length1 :: Slot(b, i);
    map slot | slot in slots && a[slot.bucket, slot.pos] != EMPTY :: a[slot.bucket, slot.pos]
  }

  method SetSlot(a: array2<int>, slot: Slot, v: int)
    requires 0 <= slot.bucket < a.Length0 && 0 <= slot.pos < a.Length1
    modifies a
    ensures Listing(a) == if v == EMPTY then old(Listing(a)) - {slot} else old(Listing(a))[slot := v]
  {
    ghost var t := Listing(a);
    a[slot.bucket, slot.pos] := v;
    forall l | l != slot
      ensures l in Listing(a) <==> l in t
    {
      assert l.bucket != slot.bucket || l.pos != slot.pos;
    }
  }

  method ClearBuckets(a: array2<int>)
    modifies a
    ensures Listing(a) == map[]
  {
    for bucket := 0 to a.Length0
      invariant forall b, i :: 0 <= b < bucket && 0 <= i < a.Length1 ==> a[b, i] == EMPTY
    {
      for entry := 0 to a.Length1
        invariant forall b, i :: 0 <= b < bucket && 0 <= i < a.Length1 ==> a[b, i] == EMPTY
        invariant forall i :: 0 <= i < entry ==> a[bucket, i] == EMPTY
      {
        a[bucket, entry] := EMPTY;
      }
    }
  }

  class CAddrMan {
    const h: Hashing
    var nKey: nat
    var nIdCount: int
    var mapInfo: map<int, Info>
    var mapAddr: map<NetAddr, int>
    var vRandom: seq<int>
    var nTried: int
    const vvTried: array2<int>
    var nNew: int
    const vvNew: array2<int>

    ghost predicate Shaped() {
      && vvTried != vvNew
      && vvTried.Length0 == TRIED_BUCKET_COUNT && vvTried.Length1 == BUCKET_SIZE
      && vvNew.Length0 == NEW_BUCKET_COUNT && vvNew.Length1 == BUCKET_SIZE
    }

    ghost function Abs(): Tables
      reads this, vvTried, vvNew
    {
      Tables(nKey, nIdCount, mapInfo, mapAddr, vRandom, nTried, Listing(vvTried), nNew, Listing(vvNew))
    }

    /** The arrays have their sizes, and the tables are consistent. */
    ghost predicate Valid()
      reads this, vvTried, vvNew
    {
      Shaped() && Consistent(Abs(), h)
    }

    /** A fresh manager with a random key. */
    constructor (h: Hashing, key: nat)
      ensures Valid() && fresh(vvTried) && fresh(vvNew) && Abs() == Fresh(key) && this.h == h
    {
      this.h := h;
      mapInfo, mapAddr := map[], map[];
      vRandom, nKey := [], key;
      nIdCount, nTried, nNew := 0, 0, 0;
      vvTried := new int[TRIED_BUCKET_COUNT, BUCKET_SIZE];
      vvNew := new int[NEW_BUCKET_COUNT, BUCKET_SIZE];
      new;
      ClearBuckets(vvNew);
      ClearBuckets(vvTried);
      FreshIsConsistent(key, h);
    }

    method DoSwapRandom(nRndPos1: int, nRndPos2: int)
      requires CanSwap(Abs(), nRndPos1, nRndPos2)
      modifies this
      ensures Abs() == SwapRandom(old(Abs()), nRndPos1, nRndPos2)
    {
      if nRndPos1 == nRndPos2 {
        return;
      }
      var nId1, nId2 := vRandom[nRndPos1], vRandom[nRndPos2];
      mapInfo := mapInfo[nId1 := mapInfo[nId1].(nRandomPos := nRndPos2)];
      mapInfo := mapInfo[nId2 := mapInfo[nId2].(nRandomPos := nRndPos1)];
      vRandom := vRandom[nRndPos1 := nId2];
      vRandom := vRandom[nRndPos2 := nId1];
    }

    method DoDelete(nId: int)
      requires CanDelete(Abs(), nId)
      modifies this
      ensures Abs() == Delete(old(Abs()), nId)
    {
      var net := mapInfo[nId].Net();
      DoSwapRandom(mapInfo[nId].nRandomPos, |vRandom| - 1);
      vRandom := vRandom[..|vRandom| - 1];
      mapAddr := mapAddr - {net};
      mapInfo := mapInfo - {nId};
      nNew := nNew - 1;
    }

    method DoClearNew(slot: Slot)
      requires Shaped() && CanClearNew(Abs(), slot)
      requires 0 <= slot.bucket < NEW_BUCKET_COUNT && 0 <= slot.pos < BUCKET_SIZE
      modifies this, vvNew
      ensures Abs() == ClearNew(old(Abs()), slot)
    {
      if vvNew[slot.bucket, slot.pos] != EMPTY {
        var nIdDelete := vvNew[slot.bucket, slot.pos];
        assert mapInfo[nIdDelete].nRefCount > 0;
        ghost var s := Abs();
        mapInfo := mapInfo[nIdDelete := mapInfo[nIdDelete].(nRefCount := mapInfo[nIdDelete].nRefCount - 1)];
        SetSlot(vvNew, slot, EMPTY);
        assert Abs() == Unreference(s, slot);
        if mapInfo[nIdDelete].nRefCount == 0 {
          DoDelete(nIdDelete);
        }
      }
    }

    method DoUnlistOne(nId: int, slot: Slot)
      requires Shaped() && nId in mapInfo && nId != EMPTY
      requires 0 <= slot.bucket < NEW_BUCKET_COUNT && 0 <= slot.pos < BUCKET_SIZE
      modifies this, vvNew
      ensures Abs() == UnlistOne(old(Abs()), nId, slot)
    {
      if vvNew[slot.bucket, slot.pos] == nId {
        SetSlot(vvNew, slot, EMPTY);
        mapInfo := mapInfo[nId := mapInfo[nId].(nRefCount := mapInfo[nId].nRefCount - 1)];
      }
    }

    /** The loop of MakeTried over all new buckets. */
    method DoTakeOut(nId: int)
      requires Shaped() && nId in mapInfo && nId != EMPTY
      modifies this, vvNew
      ensures Abs() == TakeOut(old(Abs()), h, nId)
    {
      hide Listing;
      ghost var s := Abs();
      for bucket := 0 to NEW_BUCKET_COUNT
        invariant nId in mapInfo && Abs() == Unlist(s, h, nId, bucket)
      {
        UnlistFrame(s, h, nId, bucket);
        UnlistNext(s, h, nId, bucket);
        DoUnlistOne(nId, h.NewSlot(nKey, mapInfo[nId].address.svc, bucket));
      }
      nNew := nNew - 1;
    }

    method DoDemote(slot: Slot)
      requires Shaped() && slot in Abs().tried && Abs().tried[slot] in mapInfo
      modifies this, vvTried
      ensures Abs() == Demote(old(Abs()), slot)
    {
      var nIdEvict := vvTried[slot.bucket, slot.pos];
      mapInfo := mapInfo[nIdEvict := mapInfo[nIdEvict].(fInTried := false)];
      SetSlot(vvTried, slot, EMPTY);
      nTried := nTried - 1;
    }

    method DoRelist(nId: int, slot: Slot)
      requires Shaped() && nId in mapInfo && nId != EMPTY
      requires 0 <= slot.bucket < NEW_BUCKET_COUNT && 0 <= slot.pos < BUCKET_SIZE
      modifies this, vvNew
      ensures var s := old(Abs());
              Abs() == s.(info := s.info[nId := s.info[nId].(nRefCount := 1)], news := s.news[slot := nId],
                          nNew := s.nNew + 1)
    {
      mapInfo := mapInfo[nId := mapInfo[nId].(nRefCount := 1)];
      SetSlot(vvNew, slot, nId);
      nNew := nNew + 1;
    }

    method DoPromote(nId: int, slot: Slot)
      requires Shaped() && nId in mapInfo && nId != EMPTY
      requires 0 <= slot.bucket < TRIED_BUCKET_COUNT && 0 <= slot.pos < BUCKET_SIZE
      modifies this, vvTried
      ensures Abs() == Promote(old(Abs()), nId, slot)
    {
      SetSlot(vvTried, slot, nId);
      nTried := nTried + 1;
      mapInfo := mapInfo[nId := mapInfo[nId].(fInTried := true)];
    }

    /** Moves the entry of a tried slot back to the new table, deleting whatever is there. */
    method DoEvict(slot: Slot)
      requires Shaped() && CanEvict(Abs(), h, slot) && Abs().tried[slot] != EMPTY
      modifies this, vvNew, vvTried
      ensures Abs() == Evict(old(Abs()), h, slot)
    {
      hide ClearNew, CanClearNew, Listing;
      var nIdEvict := vvTried[slot.bucket, slot.pos];
      var home := HomeSlotOf(nIdEvict);
      DoDemote(slot);
      DoClearNew(home);
      assert vvNew[home.bucket, home.pos] == EMPTY by { assert home !in Abs().news; }
      DoRelist(nIdEvict, home);
    }

    method HomeSlotOf(nId: int) returns (slot: Slot)
      requires nId in mapInfo
      ensures slot == HomeSlot(Abs(), h, nId)
    {
      var info := mapInfo[nId];
      slot := h.NewSlot(nKey, info.address.svc, h.NewBucket(nKey, info.address.svc, info.source));
    }

    method DoMakeTried(nId: int)
      requires Shaped() && CanMakeTried(Abs(), h, nId) && nId != EMPTY && EMPTY !in Abs().tried.Values
      modifies this, vvNew, vvTried
      ensures Abs() == MakeTried(old(Abs()), h, nId)
    {
      hide Unlist, TakeOut, Evict, CanEvict, Promote, Listing;
      DoTakeOut(nId);
      assert mapInfo[nId].nRefCount == 0;
      var slot := h.TriedSlot(nKey, mapInfo[nId].address.svc);
      if vvTried[slot.bucket, slot.pos] != EMPTY {
        assert slot in Abs().tried;
        DoEvict(slot);
      }
      assert vvTried[slot.bucket, slot.pos] == EMPTY by { assert slot !in Abs().tried; }
      DoPromote(nId, slot);
    }

    method FindId(net: NetAddr) returns (r: Found)
      ensures r == Find(Abs(), net)
    {
      if net !in mapAddr {
        return Missing;
      }
      var nId := mapAddr[net];
      r := if nId in mapInfo then Found(nId) else Missing;
    }

    method FindExact(svc: Service) returns (r: Found)
      ensures r == FindService(Abs(), svc)
    {
      r := FindId(svc.net);
      if r.Found? && mapInfo[r.id].address.svc != svc {
        r := Missing;
      }
    }

    /** Looks for a bucket listing the entry, from a random one on and round the table. */
    method FindBucket(nId: int, nRnd: int) returns (nUBucket: int)
      requires Shaped() && nId in mapInfo && nId != EMPTY && 0 <= nRnd < NEW_BUCKET_COUNT
      ensures nUBucket == -1 <==> !Listed(Abs(), h, nId)
    {
      for n := 0 to NEW_BUCKET_COUNT
        invariant forall m :: 0 <= m < n ==> !ListedIn(Abs(), h, nId, Wrapped(m, nRnd))
      {
        var nB := Wrapped(n, nRnd);
        var nBpos := h.BucketPosition(nKey, true, nB, mapInfo[nId].address.svc);
        if vvNew[nB, nBpos] == nId {
          assert ListedIn(Abs(), h, nId, nB);
          return nB;
        }
      }
      WrapCovers(Abs(), h, nId, nRnd);
      nUBucket := -1;
    }

    method Good_(svc: Service, nTime: int, nRnd: int)
      requires Valid() && nTime > 0 && 0 <= nRnd < NEW_BUCKET_COUNT
      modifies this, vvNew, vvTried
      ensures Valid()
      ensures old(GoodAsserts(Abs(), h, svc, nTime)) && Abs() == old(Good(Abs(), h, svc, nTime))
    {
      hide Core, MakeTried, CanMakeTried, Listed;
      GoodKeeps(Abs(), h, svc, nTime);
      NoEmptyIds(Abs(), h);
      var r := FindExact(svc);
      if r.Missing? {
        return;
      }
      var nId := r.id;
      ghost var s := Abs();
      mapInfo := mapInfo[nId := mapInfo[nId].(nLastSuccess := nTime, nLastTry := nTime, nAttempts := 0)];
      assert Abs() == Edit(s, nId, MarkGood(s.info[nId], nTime));
      if mapInfo[nId].fInTried {
        return;
      }
      var nUBucket := FindBucket(nId, nRnd);
      if nUBucket == -1 {
        return;
      }
      DoMakeTried(nId);
    }

    method DoCreate(address: Address, source: NetAddr) returns (nId: int)
      modifies this
      ensures nId == old(nIdCount) && Abs() == Create(old(Abs()), address, source)
    {
      nId := nIdCount;
      nIdCount := nIdCount + 1;
      mapInfo := mapInfo[nId := FreshInfo(address, source)];
      mapAddr := mapAddr[address.svc.net := nId];
      mapInfo := mapInfo[nId := mapInfo[nId].(nRandomPos := |vRandom|)];
      vRandom := vRandom + [nId];
    }

    method DoCreateNew(address: Address, source: NetAddr, nTimePenalty: int) returns (nId: int)
      modifies this
      ensures nId == old(nIdCount) && Abs() == CreateNew(old(Abs()), address, source, nTimePenalty)
    {
      nId := DoCreate(address, source);
      var a := mapInfo[nId].address;
      mapInfo := mapInfo[nId := mapInfo[nId].(address := a.(nTime := Max(0, a.nTime - nTimePenalty)))];
      nNew := nNew + 1;
    }

    /** The last part of Add_: enters the announced address into its bucket if there is room or reason. */
    method DoList(nId: int, slot: Slot, nNow: int)
      requires Shaped() && ListAsserts(Abs(), h, nId, slot, nNow) && nId != EMPTY && EMPTY !in Abs().news.Values
      requires 0 <= slot.bucket < NEW_BUCKET_COUNT && 0 <= slot.pos < BUCKET_SIZE
      modifies this, vvNew
      ensures Abs() == List(old(Abs()), h, nId, slot, nNow)
    {
      hide ClearNew, CanClearNew, Delete, CanDelete, Listing;
      if vvNew[slot.bucket, slot.pos] != nId {
        var fInsert := vvNew[slot.bucket, slot.pos] == EMPTY;
        if !fInsert {
          assert slot in Abs().news;
          var existing := mapInfo[vvNew[slot.bucket, slot.pos]];
          if existing.IsTerrible(nNow) || (existing.nRefCount > 1 && mapInfo[nId].nRefCount == 0) {
            fInsert := true;
          }
        }
        if fInsert {
          DoClearNew(slot);
          DoReference(nId, slot);
        } else if mapInfo[nId].nRefCount == 0 {
          DoDelete(nId);
        }
      } else {
        assert slot in Abs().news;
      }
    }

    method DoReference(nId: int, slot: Slot)
      requires Shaped() && nId in mapInfo && nId != EMPTY
      requires 0 <= slot.bucket < NEW_BUCKET_COUNT && 0 <= slot.pos < BUCKET_SIZE
      modifies this, vvNew
      ensures Abs() == Reference(old(Abs()), nId, slot)
    {
      mapInfo := mapInfo[nId := mapInfo[nId].(nRefCount := mapInfo[nId].nRefCount + 1)];
      SetSlot(vvNew, slot, nId);
    }

    /** Takes the time and services of an announcement over into a known entry. */
    method DoRefresh(nId: int, address: Address, nTimePenalty: int, nNow: int)
      requires nId in mapInfo
      modifies this
      ensures old(nId in mapInfo)
      ensures Abs() == Edit(old(Abs()), nId, Refresh(old(mapInfo[nId]), address, nTimePenalty, nNow))
    {
      hide Listing;
      var fCurrentlyOnline := nNow - address.nTime < 24 * 60 * 60;
      var nUpdateInterval := if fCurrentlyOnline then 60 * 60 else 24 * 60 * 60;
      var pinfo := mapInfo[nId];
      if address.nTime != 0
         && (pinfo.address.nTime == 0 || pinfo.address.nTime < address.nTime - nUpdateInterval - nTimePenalty) {
        pinfo := pinfo.(address := pinfo.address.(nTime := Max(0, address.nTime - nTimePenalty)));
      }
      var nServices := pinfo.address.nServices + address.nServices;
      mapInfo := mapInfo[nId := pinfo.(address := pinfo.address.(nServices := nServices))];
    }

    /** Everything Add_ does before it looks for a bucket. */
    method DoAnnounce(address: Address, source: NetAddr, nTimePenalty: int, nNow: int, lucky: bool)
      returns (fList: bool, nId: int, fNew: bool)
      modifies this
      ensures Announce(old(Abs()), address, source, nTimePenalty, nNow, lucky)
              == Announced(Abs(), if fList then Found(nId) else Missing, fNew)
    {
      hide CreateNew, Refresh, Listing;
      var r := FindId(address.svc.net);
      if r.Missing? {
        nId := DoCreateNew(address, source, nTimePenalty);
        return true, nId, true;
      }
      nId, fNew := r.id, false;
      DoRefresh(nId, address, nTimePenalty, nNow);
      var pinfo := mapInfo[nId];
      if address.nTime == 0 || (pinfo.address.nTime != 0 && address.nTime <= pinfo.address.nTime) {
        return false, nId, false;
      }
      if pinfo.fInTried {
        return false, nId, false;
      }
      if pinfo.nRefCount == NEW_BUCKETS_PER_ADDRESS {
        return false, nId, false;
      }
      if pinfo.nRefCount > 0 && !lucky {
        return false, nId, false;
      }
      fList := true;
    }

    /** `lucky`: GetRandInt(2^nRefCount) comes out 0. */
    method Add_(address: Address, fRoutable: bool, source: NetAddr, nTimePenalty: int, nNow: int, lucky: bool)
      returns (fNew: bool)
      requires Valid()
      modifies this, vvNew
      ensures Valid()
      ensures old(AddAsserts(Abs(), h, address, fRoutable, source, nTimePenalty, nNow, lucky))
      ensures (Abs(), fNew) == old(Add(Abs(), h, address, fRoutable, source, nTimePenalty, nNow, lucky))
      ensures fNew <==> fRoutable && old(address.svc.net !in mapAddr)
    {
      hide Core, List, ListAsserts, Listing;
      ghost var s := Abs();
      AddKeeps(s, h, address, fRoutable, source, nTimePenalty, nNow, lucky);
      if !fRoutable {
        return false;
      }
      AnnouncedIds(s, h, address, source, nTimePenalty, nNow, lucky);
      var fList, nId;
      fList, nId, fNew := DoAnnounce(address, source, nTimePenalty, nNow, lucky);
      if !fList {
        return;
      }
      var svc := mapInfo[nId].address.svc;
      var slot := h.NewSlot(nKey, svc, h.NewBucket(nKey, svc, source));
      DoList(nId, slot, nNow);
    }

    method Attempt_(svc: Service, nTime: int)
      requires Valid() && nTime >= 0
      modifies this
      ensures Valid() && Abs() == old(Attempt(Abs(), svc, nTime))
    {
      hide Core, Listing;
      AttemptKeeps(Abs(), h, svc, nTime);
      var r := FindExact(svc);
      if r.Missing? {
        return;
      }
      mapInfo := mapInfo[r.id := mapInfo[r.id].(nLastTry := nTime, nAttempts := mapInfo[r.id].nAttempts + 1)];
    }

    method Connected_(svc: Service, nTime: int)
      requires Valid()
      modifies this
      ensures Valid() && Abs() == old(Connected(Abs(), svc, nTime))
    {
      hide Core, Listing;
      ConnectedKeeps(Abs(), h, svc, nTime);
      var r := FindExact(svc);
      if r.Missing? {
        return;
      }
      var info := mapInfo[r.id];
      var nUpdateInterval := 20 * 60;
      if nTime - info.address.nTime > nUpdateInterval {
        mapInfo := mapInfo[r.id := info.(address := info.address.(nTime := nTime))];
      }
    }

    /** One turn of GetAddr_: draws an entry for place n and takes its address if it is not terrible. */
    method DoDraw(n: nat, vAddr: seq<Address>, nNow: int, GetRandInt: int -> int) returns (r: seq<Address>)
      requires Valid() && n < |vRandom| && Draws(GetRandInt) && Gathered(Abs(), n, vAddr, nNow)
      modifies this
      ensures Valid() && |vRandom| == old(|vRandom|) && vAddr <= r && |r| <= |vAddr| + 1
      ensures old(CanSwap(Abs(), n, Drawn(Abs(), n, GetRandInt)))
      ensures Abs() == old(SwapRandom(Abs(), n, Drawn(Abs(), n, GetRandInt)))
      ensures Gathered(Abs(), n + 1, r, nNow)
    {
      hide Core, Listing, Gathered;
      SwapDrawn(Abs(), h, n, GetRandInt);
      GatheredSwaps(Abs(), n, Drawn(Abs(), n, GetRandInt), vAddr, nNow);
      var nRndPos := GetRandInt(|vRandom| - n) + n;
      DoSwapRandom(n, nRndPos);
      GatheredGrows(Abs(), h, n, vAddr, nNow);
      var ai := mapInfo[vRandom[n]];
      r := vAddr;
      if !ai.IsTerrible(nNow) {
        r := r + [ai.address];
      }
    }

    /**
     * Gathers distinct known addresses that are not terrible, in random order: all of them, or
     * as many as the limit allows.
     */
    method GetAddr_(nNow: int, GetRandInt: int -> int) returns (vAddr: seq<Address>, ghost n: nat)
      requires Valid() && Draws(GetRandInt)
      modifies this
      ensures Valid() && n <= old(|vRandom|) && Abs() == old(Shuffle(Abs(), n, GetRandInt))
      ensures |vAddr| <= AddrLimit(old(|vRandom|))
      ensures forall j, k :: 0 <= j < k < |vAddr| ==> vAddr[j].svc.net != vAddr[k].svc.net
      ensures forall j :: 0 <= j < |vAddr| ==> KnownGood(Abs(), vAddr[j], nNow)
      ensures |vAddr| < AddrLimit(old(|vRandom|)) ==>
                forall id :: id in mapInfo && !mapInfo[id].IsTerrible(nNow) ==> mapInfo[id].address in vAddr
    {
      hide Core, SwapRandom, CanSwap, Listing, Gathered, Drawn, Draws;
      var nNodes := GETADDR_MAX_PCT * |vRandom| / 100;
      if nNodes > GETADDR_MAX {
        nNodes := GETADDR_MAX;
      }
      vAddr, n := [], 0;
      NoneGathered(Abs(), nNow);
      for m := 0 to |vRandom|
        invariant n == m <= |vRandom| == old(|vRandom|)
        invariant Abs() == old(Shuffle(Abs(), n, GetRandInt)) && Valid()
        invariant Gathered(Abs(), n, vAddr, nNow) && |vAddr| <= nNodes
      {
        if |vAddr| >= nNodes {
          break;
        }
        vAddr := DoDraw(m, vAddr, nNow, GetRandInt);
        n := n + 1;
      }
      GatheredIsKnown(Abs(), h, n, vAddr, nNow);
    }
  }

  lemma NoneGathered(s: Tables, nNow: int)
    ensures Gathered(s, 0, [], nNow)
  {
  }

  lemma AnnouncedIds(s: Tables, h: Hashing, address: Address, source: NetAddr, nTimePenalty: int, nNow: int,
                     lucky: bool)
    requires Consistent(s, h)
    ensures var a := Announce(s, address, source, nTimePenalty, nNow, lucky);
            (a.listing.Found? ==> a.listing.id != EMPTY) && EMPTY !in a.s.news.Values
  {
  }

  /** (n + nRnd) % ADDRMAN_NEW_BUCKET_COUNT */
  function Wrapped(n: nat, nRnd: nat): (b: nat)
    ensures b < NEW_BUCKET_COUNT
  {
    (n + nRnd) % NEW_BUCKET_COUNT
  }

  /** Starting anywhere and wrapping round, the search visits every bucket. */
  lemma WrapCovers(s: Tables, h: Hashing, id: int, nRnd: nat)
    requires id in s.info && nRnd < NEW_BUCKET_COUNT
    requires forall m :: 0 <= m < NEW_BUCKET_COUNT ==> !ListedIn(s, h, id, Wrapped(m, nRnd))
    ensures !Listed(s, h, id)
  {
    hide ListedIn;
    forall b | 0 <= b < NEW_BUCKET_COUNT
      ensures !ListedIn(s, h, id, b)
    {
      var m := if b >= nRnd then b - nRnd else b + NEW_BUCKET_COUNT - nRnd;
      assert Wrapped(m, nRnd) == b;
    }
  }

  lemma UnlistNext(s: Tables, h: Hashing, id: int, n: nat)
    requires id in s.info
    ensures Unlist(s, h, id, n + 1) == UnlistOne(Unlist(s, h, id, n), id, h.NewSlot(s.nKey, s.info[id].address.svc, n))
  {
  }

  /** -1 marks an empty slot and is nobody's id. */
  lemma NoEmptyIds(s: Tables, h: Hashing)
    requires Consistent(s, h)
    ensures EMPTY !in s.info && EMPTY !in s.tried.Values
  {
  }
}
