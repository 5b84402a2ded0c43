/** The operations of the address manager on its tables, and runs of them. */
module AddrOps {
  import opened Common
  import opened AddrTables

  // ---- Find ----

  datatype Found = Missing | Found(id: int)

  function Find(s: Tables, net: NetAddr): (r: Found)
    ensures r.Found? ==> r.id in s.info
  {
    if net in s.addr && s.addr[net] in s.info then Found(s.addr[net]) else Missing
  }

  /** Find succeeds only on the entry of exactly this service. */
  function FindService(s: Tables, svc: Service): (r: Found)
    ensures r.Found? ==> r.id in s.info && s.info[r.id].address.svc == svc
  {
    match Find(s, svc.net)
    case Missing => Missing
    case Found(id) => if s.info[id].address.svc == svc then Found(id) else Missing
  }

  function Edit(s: Tables, id: int, e: Info): Tables {
    s.(info := s.info[id := e])
  }

  // ---- MakeTried ----

  /** The entry taken out of every new bucket, and out of the count of new entries. */
  function TakeOut(s: Tables, h: Hashing, id: int): (r: Tables)
    requires id in s.info
    ensures id in r.info
  {
    var r := Unlist(s, h, id, NEW_BUCKET_COUNT);
    r.(nNew := r.nNew - 1)
  }

  /** The assertions of MakeTried. */
  predicate CanMakeTried(s: Tables, h: Hashing, id: int) {
    && id in s.info
    && var s1 := TakeOut(s, h, id);
       var slot := h.TriedSlot(s1.nKey, s1.info[id].address.svc);
       && s1.info[id].nRefCount == 0
       && (slot in s1.tried ==>
             && CanEvict(s1, h, slot)
             && slot !in Evict(s1, h, slot).tried && id in Evict(s1, h, slot).info)
  }

  function MakeTried(s: Tables, h: Hashing, id: int): Tables
    requires CanMakeTried(s, h, id)
  {
    var s1 := TakeOut(s, h, id);
    var slot := h.TriedSlot(s1.nKey, s1.info[id].address.svc);
    Promote(if slot in s1.tried then Evict(s1, h, slot) else s1, id, slot)
  }

  lemma TakeOutKeeps(s: Tables, h: Hashing, id: int)
    requires Consistent(s, h) && id in s.info
    ensures var r := TakeOut(s, h, id);
            && Core(r, h, {id}, 1) && r.tried == s.tried && r.nKey == s.nKey
            && r.info[id] == s.info[id].(nRefCount := 0)
  {
    UnlistKeeps(s, h, id, {}, 0);
    UnlistFrame(s, h, id, NEW_BUCKET_COUNT);
    hide Unlist, RandomOk, AddrOk, TriedOk, NewsOk, RefsOk, TimesOk;
    assert {} + {id} == {id};
  }

  lemma MakeTriedKeeps(s: Tables, h: Hashing, id: int)
    requires Consistent(s, h) && id in s.info && !s.info[id].fInTried && s.info[id].nLastSuccess > 0
    ensures CanMakeTried(s, h, id) && Consistent(MakeTried(s, h, id), h)
    ensures var r, slot := MakeTried(s, h, id), h.TriedSlot(s.nKey, s.info[id].address.svc);
            id in r.info && r.info[id].fInTried && slot in r.tried && r.tried[slot] == id
  {
    TakeOutKeeps(s, h, id);
    var s1 := TakeOut(s, h, id);
    var slot := h.TriedSlot(s.nKey, s.info[id].address.svc);
    hide TakeOut, Evict, CanEvict, RandomOk, AddrOk, CountsOk, NewsOk, RefsOk, TimesOk;
    if slot in s1.tried {
      assert s1.tried[slot] != id;
      EvictKeeps(s1, h, slot, {id}, 1);
      PromoteKeeps(Evict(s1, h, slot), h, id, slot, {id}, 1);
    } else {
      PromoteKeeps(s1, h, id, slot, {id}, 1);
    }
    assert {id} - {id} == {};
  }

  // ---- Good_ ----

  /** The search for a bucket that lists the entry. */
  predicate Listed(s: Tables, h: Hashing, id: int)
    requires id in s.info
  {
    exists b :: 0 <= b < NEW_BUCKET_COUNT && ListedIn(s, h, id, b)
  }

  predicate ListedIn(s: Tables, h: Hashing, id: int, bucket: nat)
    requires id in s.info
  {
    var slot := h.NewSlot(s.nKey, s.info[id].address.svc, bucket);
    slot in s.news && s.news[slot] == id
  }

  function MarkGood(e: Info, nTime: int): Info {
    e.(nLastSuccess := nTime, nLastTry := nTime, nAttempts := 0)
  }

  ghost predicate GoodAsserts(s: Tables, h: Hashing, svc: Service, nTime: int) {
    match FindService(s, svc)
    case Missing => true
    case Found(id) =>
      var s1 := Edit(s, id, MarkGood(s.info[id], nTime));
      !s.info[id].fInTried && Listed(s1, h, id) ==> CanMakeTried(s1, h, id)
  }

  ghost function Good(s: Tables, h: Hashing, svc: Service, nTime: int): Tables
    requires GoodAsserts(s, h, svc, nTime)
  {
    match FindService(s, svc)
    case Missing => s
    case Found(id) =>
      var s1 := Edit(s, id, MarkGood(s.info[id], nTime));
      if s.info[id].fInTried || !Listed(s1, h, id) then s1 else MakeTried(s1, h, id)
  }

  /** An entry that is not tried is always listed somewhere: the bail-out of Good_ is never taken. */
  lemma UntriedIsListed(s: Tables, h: Hashing, id: int)
    requires Consistent(s, h) && id in s.info && !s.info[id].fInTried
    ensures Listed(s, h, id)
  {
    assert RefOk(s.info[id], id, s.news, {});
    NoSlots(s.news, id);
    var slot :| slot in s.news && s.news[slot] == id;
    assert slot == h.NewSlot(s.nKey, s.info[id].address.svc, slot.bucket);
    assert ListedIn(s, h, id, slot.bucket);
  }

  lemma GoodKeeps(s: Tables, h: Hashing, svc: Service, nTime: int)
    requires Consistent(s, h) && nTime > 0
    ensures GoodAsserts(s, h, svc, nTime) && Consistent(Good(s, h, svc, nTime), h)
    ensures FindService(s, svc).Found? ==>
              var id := FindService(s, svc).id;
              id in Good(s, h, svc, nTime).info && Good(s, h, svc, nTime).info[id].fInTried
  {
    match FindService(s, svc)
    case Missing =>
    case Found(id) =>
      EditKeeps(s, h, id, MarkGood(s.info[id], nTime), {}, 0);
      var s1 := Edit(s, id, MarkGood(s.info[id], nTime));
      hide Core, MakeTried, CanMakeTried, Listed;
      if !s.info[id].fInTried {
        UntriedIsListed(s1, h, id);
        MakeTriedKeeps(s1, h, id);
      }
  }

  // ---- Attempt_ and Connected_ ----

  function Attempt(s: Tables, svc: Service, nTime: int): Tables {
    match FindService(s, svc)
    case Missing => s
    case Found(id) => Edit(s, id, s.info[id].(nLastTry := nTime, nAttempts := s.info[id].nAttempts + 1))
  }

  function Connected(s: Tables, svc: Service, nTime: int): Tables {
    match FindService(s, svc)
    case Missing => s
    case Found(id) =>
      var e := s.info[id];
      if nTime - e.address.nTime > 20 * 60 then Edit(s, id, e.(address := e.address.(nTime := nTime))) else s
  }

  lemma AttemptKeeps(s: Tables, h: Hashing, svc: Service, nTime: int)
    requires Consistent(s, h) && nTime >= 0
    ensures Consistent(Attempt(s, svc, nTime), h)
  {
    hide RandomOk, AddrOk, CountsOk, TriedOk, NewsOk, RefsOk;
    match FindService(s, svc)
    case Missing =>
    case Found(id) =>
      assert TimeOk(s.info[id]);
      EditKeeps(s, h, id, s.info[id].(nLastTry := nTime, nAttempts := s.info[id].nAttempts + 1), {}, 0);
  }

  lemma ConnectedKeeps(s: Tables, h: Hashing, svc: Service, nTime: int)
    requires Consistent(s, h)
    ensures Consistent(Connected(s, svc, nTime), h)
  {
    hide RandomOk, AddrOk, CountsOk, TriedOk, NewsOk, RefsOk;
    match FindService(s, svc)
    case Missing =>
    case Found(id) =>
      assert TimeOk(s.info[id]);
      EditKeeps(s, h, id, s.info[id].(address := s.info[id].address.(nTime := nTime)), {}, 0);
  }

  // ---- Add_ ----

  /** The time and services an announcement adds to a known entry. */
  function Refresh(e: Info, address: Address, nTimePenalty: int, nNow: int): Info {
    var nUpdateInterval := if nNow - address.nTime < 24 * 60 * 60 then 60 * 60 else 24 * 60 * 60;
    var nTime := if address.nTime != 0 &&
                    (e.address.nTime == 0 || e.address.nTime < address.nTime - nUpdateInterval - nTimePenalty)
                 then Max(0, address.nTime - nTimePenalty) else e.address.nTime;
    e.(address := e.address.(nTime := nTime, nServices := e.address.nServices + address.nServices))
  }

  /** A known entry gets no further reference. `lucky`: GetRandInt(2^nRefCount) came out 0. */
  predicate Settled(e: Info, address: Address, lucky: bool) {
    || address.nTime == 0 || (e.address.nTime != 0 && address.nTime <= e.address.nTime)
    || e.fInTried
    || e.nRefCount == NEW_BUCKETS_PER_ADDRESS
    || (e.nRefCount > 0 && !lucky)
  }

  /** The new-table slot an announcement from `source` chooses. */
  function AddSlot(s: Tables, h: Hashing, id: int, source: NetAddr): Slot
    requires id in s.info
  {
    var svc := s.info[id].address.svc;
    h.NewSlot(s.nKey, svc, h.NewBucket(s.nKey, svc, source))
  }

  predicate Overwrites(s: Tables, id: int, slot: Slot, nNow: int)
    requires id in s.info && slot in s.news && s.news[slot] in s.info
  {
    var existing := s.info[s.news[slot]];
    existing.IsTerrible(nNow) || (existing.nRefCount > 1 && s.info[id].nRefCount == 0)
  }

  ghost predicate ListAsserts(s: Tables, h: Hashing, id: int, slot: Slot, nNow: int) {
    && id in s.info
    && (slot in s.news ==> s.news[slot] in s.info)
    && ((slot in s.news && s.news[slot] == id) ||
        if slot !in s.news || Overwrites(s, id, slot, nNow)
        then CanClearNew(s, slot) && id in ClearNew(s, slot).info
        else s.info[id].nRefCount == 0 ==> CanDelete(s, id))
  }

  ghost function List(s: Tables, h: Hashing, id: int, slot: Slot, nNow: int): Tables
    requires ListAsserts(s, h, id, slot, nNow)
  {
    if slot in s.news && s.news[slot] == id then s
    else if slot !in s.news || Overwrites(s, id, slot, nNow) then Reference(ClearNew(s, slot), id, slot)
    else if s.info[id].nRefCount == 0 then Delete(s, id) else s
  }

  lemma ListKeeps(s: Tables, h: Hashing, id: int, source: NetAddr, nNow: int, loose: set<int>)
    requires Core(s, h, loose, 0) && id in s.info && !s.info[id].fInTried
    requires s.info[id].nRefCount < NEW_BUCKETS_PER_ADDRESS && loose == (if s.info[id].nRefCount == 0 then {id} else {})
    ensures ListAsserts(s, h, id, AddSlot(s, h, id, source), nNow)
    ensures Consistent(List(s, h, id, AddSlot(s, h, id, source), nNow), h)
  {
    var slot := AddSlot(s, h, id, source);
    hide RandomOk, AddrOk, CountsOk, TriedOk, NewsOk, RefsOk, TimesOk, ClearNew, CanClearNew, Delete, CanDelete,
         Reference;
    if slot in s.news { UnreferenceKeeps(s, h, slot, loose, 0); }
    if slot in s.news && s.news[slot] == id {
      assert loose == {};
    } else if slot !in s.news || Overwrites(s, id, slot, nNow) {
      ClearNewKeeps(s, h, slot, loose, 0);
      ClearNewSpares(s, slot, id);
      ReferenceKeeps(ClearNew(s, slot), h, id, slot, loose, 0);
      assert loose - {id} == {};
    } else if s.info[id].nRefCount == 0 {
      DeleteKeeps(s, h, id, loose, 0);
      assert loose - {id} == {};
    }
  }

  function CreateNew(s: Tables, address: Address, source: NetAddr, nTimePenalty: int): Tables {
    var c := Create(s, address, source);
    var e := c.info[s.nIdCount];
    var e' := e.(address := e.address.(nTime := Max(0, e.address.nTime - nTimePenalty)));
    Edit(c, s.nIdCount, e').(nNew := c.nNew + 1)
  }

  lemma CreateKeeps(s: Tables, h: Hashing, address: Address, source: NetAddr, nTimePenalty: int)
    requires Consistent(s, h) && address.svc.net !in s.addr
    ensures Core(CreateNew(s, address, source, nTimePenalty), h, {s.nIdCount}, 0)
  {
    var id, r := s.nIdCount, CreateNew(s, address, source, nTimePenalty);
    assert id !in s.info;
    assert r.info == s.info[id := r.info[id]];
    assert RandomOk(r.info, r.random) && AddrOk(r.info, r.addr) && TimesOk(r.info, r.nIdCount);
    hide RandomOk, AddrOk, TimesOk;
    CreateCounts(s.info, id, r.info[id]);
    assert CountsOk(r.info, r.nTried, r.nNew, 0);
    CreateTables(s, h, id, r.info[id]);
    hide CountsOk, TriedOk, NewsOk, RefsOk;
  }

  lemma CreateCounts(info: Entries, id: int, e: Info)
    requires id !in info && !e.fInTried
    ensures |TriedIds(info[id := e])| == |TriedIds(info)| && |NewIds(info[id := e])| == |NewIds(info)| + 1
  {
    assert TriedIds(info[id := e]) == TriedIds(info) && NewIds(info[id := e]) == NewIds(info) + {id};
  }

  lemma CreateTables(s: Tables, h: Hashing, id: int, e: Info)
    requires TriedOk(s.info, s.tried, s.nKey, h) && NewsOk(s.info, s.news, s.nKey, h) && RefsOk(s.info, s.news, {})
    requires id !in s.info && !e.fInTried && e.nRefCount == 0
    ensures TriedOk(s.info[id := e], s.tried, s.nKey, h) && NewsOk(s.info[id := e], s.news, s.nKey, h)
    ensures RefsOk(s.info[id := e], s.news, {id})
  {
    NoSlots(s.news, id);
  }

  /** The entry Add_ tries to list, or none. */
  datatype Announced = Announced(s: Tables, listing: Found, fNew: bool)

  function Announce(s: Tables, address: Address, source: NetAddr, nTimePenalty: int, nNow: int,
                    lucky: bool): (r: Announced)
    ensures r.listing.Found? ==> r.listing.id in r.s.info
  {
    match Find(s, address.svc.net)
    case Found(id) =>
      var e := Refresh(s.info[id], address, nTimePenalty, nNow);
      Announced(Edit(s, id, e), if Settled(e, address, lucky) then Missing else Found(id), false)
    case Missing => Announced(CreateNew(s, address, source, nTimePenalty), Found(s.nIdCount), true)
  }

  ghost predicate AddAsserts(s: Tables, h: Hashing, address: Address, fRoutable: bool, source: NetAddr,
                             nTimePenalty: int, nNow: int, lucky: bool)
  {
    fRoutable ==>
      var a := Announce(s, address, source, nTimePenalty, nNow, lucky);
      a.listing.Found? ==> ListAsserts(a.s, h, a.listing.id, AddSlot(a.s, h, a.listing.id, source), nNow)
  }

  ghost function Add(s: Tables, h: Hashing, address: Address, fRoutable: bool, source: NetAddr,
                     nTimePenalty: int, nNow: int, lucky: bool): (Tables, bool)
    requires AddAsserts(s, h, address, fRoutable, source, nTimePenalty, nNow, lucky)
  {
    if !fRoutable then (s, false) else
    var a := Announce(s, address, source, nTimePenalty, nNow, lucky);
    if a.listing.Missing? then (a.s, a.fNew)
    else (List(a.s, h, a.listing.id, AddSlot(a.s, h, a.listing.id, source), nNow), a.fNew)
  }

  lemma AddKeeps(s: Tables, h: Hashing, address: Address, fRoutable: bool, source: NetAddr,
                 nTimePenalty: int, nNow: int, lucky: bool)
    requires Consistent(s, h)
    ensures AddAsserts(s, h, address, fRoutable, source, nTimePenalty, nNow, lucky)
    ensures Consistent(Add(s, h, address, fRoutable, source, nTimePenalty, nNow, lucky).0, h)
    ensures Add(s, h, address, fRoutable, source, nTimePenalty, nNow, lucky).1 <==>
              fRoutable && address.svc.net !in s.addr
  {
    assert address.svc.net in s.addr <==> Find(s, address.svc.net).Found?;
    match Find(s, address.svc.net)
    case Found(id) =>
      var e := Refresh(s.info[id], address, nTimePenalty, nNow);
      EditKeeps(s, h, id, e, {}, 0);
      assert RefOk(s.info[id], id, s.news, {});
      hide Core, List, ListAsserts, SlotsOf;
      if fRoutable && !Settled(e, address, lucky) { ListKeeps(Edit(s, id, e), h, id, source, nNow, {}); }
    case Missing =>
      CreateKeeps(s, h, address, source, nTimePenalty);
      hide Core, List, ListAsserts;
      ListKeeps(CreateNew(s, address, source, nTimePenalty), h, s.nIdCount, source, nNow, {s.nIdCount});
  }

  // ---- GetAddr_ ----

  const GETADDR_MAX_PCT := 23
  const GETADDR_MAX := 2500

  /** GetRandInt(k) draws from 0..k-1. */
  ghost predicate Draws(GetRandInt: int -> int) {
    forall k :: k > 0 ==> 0 <= GetRandInt(k) < k
  }

  /** The position GetAddr_ swaps into place n. */
  function Drawn(s: Tables, n: nat, GetRandInt: int -> int): int {
    GetRandInt(|s.random| - n) + n
  }

  /** The random vector after GetAddr_ has fixed its first n places, one swap at a time. */
  ghost function Shuffle(s: Tables, n: nat, GetRandInt: int -> int): (r: Tables)
    ensures |r.random| == |s.random|
  {
    if n == 0 then s else
    var s1 := Shuffle(s, n - 1, GetRandInt);
    if CanSwap(s1, n - 1, Drawn(s1, n - 1, GetRandInt)) then SwapRandom(s1, n - 1, Drawn(s1, n - 1, GetRandInt)) else s1
  }

  lemma SwapDrawn(s: Tables, h: Hashing, n: nat, GetRandInt: int -> int)
    requires Consistent(s, h) && n < |s.random| && Draws(GetRandInt)
    ensures CanSwap(s, n, Drawn(s, n, GetRandInt)) && Consistent(SwapRandom(s, n, Drawn(s, n, GetRandInt)), h)
  {
    SwapKeeps(s, h, n, Drawn(s, n, GetRandInt), {}, 0);
  }

  lemma {:induction false} ShuffleKeeps(s: Tables, h: Hashing, n: nat, GetRandInt: int -> int)
    requires Consistent(s, h) && n <= |s.random| && Draws(GetRandInt)
    ensures Consistent(Shuffle(s, n, GetRandInt), h)
  {
    hide RandomOk, AddrOk, CountsOk, TriedOk, NewsOk, RefsOk, TimesOk, SwapRandom, CanSwap, Draws, Drawn;
    if n > 0 {
      ShuffleKeeps(s, h, n - 1, GetRandInt);
      SwapDrawn(Shuffle(s, n - 1, GetRandInt), h, n - 1, GetRandInt);
    }
  }

  /** `news` holds the address of each of the first `n` entries of the vector that is not terrible, once each. */
  ghost predicate Gathered(s: Tables, n: nat, news: seq<Address>, nNow: int) {
    && n <= |s.random| && (forall p :: 0 <= p < n ==> s.random[p] in s.info)
    && (forall p :: 0 <= p < n && !s.info[s.random[p]].IsTerrible(nNow) ==> s.info[s.random[p]].address in news)
    && (forall j :: 0 <= j < |news| ==> AtPosition(s, n, news[j], nNow))
    && (forall j, k :: 0 <= j < k < |news| ==> news[j].svc.net != news[k].svc.net)
  }

  ghost predicate Known(s: Tables, id: int, a: Address, nNow: int) {
    id in s.info && !s.info[id].IsTerrible(nNow) && s.info[id].address == a
  }

  /** The address of an entry that is not terrible. */
  ghost predicate KnownGood(s: Tables, a: Address, nNow: int) {
    exists id :: Known(s, id, a, nNow)
  }

  ghost predicate AtPosition(s: Tables, n: nat, a: Address, nNow: int) {
    exists p :: 0 <= p < n && p < |s.random| && Known(s, s.random[p], a, nNow)
  }

  lemma GatheredSwaps(s: Tables, n: nat, q: nat, news: seq<Address>, nNow: int)
    requires Gathered(s, n, news, nNow) && n <= q && CanSwap(s, n, q)
    ensures Gathered(SwapRandom(s, n, q), n, news, nNow)
  {
    var r := SwapRandom(s, n, q);
    assert forall p :: 0 <= p < n ==> r.random[p] == s.random[p];
    forall j | 0 <= j < |news|
      ensures AtPosition(r, n, news[j], nNow)
    {
      assert AtPosition(s, n, news[j], nNow);
      var p :| 0 <= p < n && p < |s.random| && Known(s, s.random[p], news[j], nNow);
      assert Known(r, r.random[p], news[j], nNow);
    }
  }

  /** One more entry: taken when it is not terrible, and then its address is not there yet. */
  lemma GatheredGrows(s: Tables, h: Hashing, n: nat, news: seq<Address>, nNow: int)
    requires Consistent(s, h) && Gathered(s, n, news, nNow) && n < |s.random|
    ensures s.random[n] in s.info
    ensures var e := s.info[s.random[n]];
            Gathered(s, n + 1, if e.IsTerrible(nNow) then news else news + [e.address], nNow)
  {
    hide CountsOk, TriedOk, NewsOk, RefsOk, TimesOk;
    var e := s.info[s.random[n]];
    var news' := if e.IsTerrible(nNow) then news else news + [e.address];
    forall j | 0 <= j < |news'|
      ensures AtPosition(s, n + 1, news'[j], nNow)
      ensures j < |news| ==> news[j].svc.net != e.Net()
    {
      if j < |news| {
        assert AtPosition(s, n, news[j], nNow);
        var p :| 0 <= p < n && p < |s.random| && Known(s, s.random[p], news[j], nNow);
        assert s.info[s.random[p]].nRandomPos == p && s.info[s.random[n]].nRandomPos == n;
      } else {
        assert Known(s, s.random[n], news'[j], nNow);
      }
    }
  }

  /** In terms of the tables alone: what a gathering of some places holds, and of all places. */
  lemma GatheredIsKnown(s: Tables, h: Hashing, n: nat, news: seq<Address>, nNow: int)
    requires Consistent(s, h) && Gathered(s, n, news, nNow)
    ensures forall j :: 0 <= j < |news| ==> KnownGood(s, news[j], nNow)
    ensures n == |s.random| ==> forall id :: id in s.info && !s.info[id].IsTerrible(nNow) ==> s.info[id].address in news
    ensures forall j, k :: 0 <= j < k < |news| ==> news[j].svc.net != news[k].svc.net
  {
    hide CountsOk, TriedOk, NewsOk, RefsOk, TimesOk;
    forall j | 0 <= j < |news|
      ensures KnownGood(s, news[j], nNow)
    {
      assert AtPosition(s, n, news[j], nNow);
    }
    assert forall id :: id in s.info ==> s.random[s.info[id].nRandomPos] == id;
  }

  function AddrLimit(nEntries: nat): nat {
    var nNodes := GETADDR_MAX_PCT * nEntries / 100;
    if nNodes > GETADDR_MAX then GETADDR_MAX else nNodes
  }

  // ---- whole runs ----

  datatype Op =
    | OpAdd(address: Address, fRoutable: bool, source: NetAddr, nTimePenalty: int, nNow: int, lucky: bool)
    | OpGood(svc: Service, nGood: int)
    | OpAttempt(svc: Service, nTry: int)
    | OpConnected(svc: Service, nTime: int)
    | OpGetAddr(n: nat, GetRandInt: int -> int)

  /** Timestamps are those of a clock, random numbers are below their bound. */
  ghost predicate Sensible(op: Op) {
    match op
    case OpGood(_, nTime) => nTime > 0
    case OpAttempt(_, nTime) => nTime >= 0
    case OpGetAddr(_, rnd) => Draws(rnd)
    case _ => true
  }

  /** None of the assertions inside the operation fails. */
  ghost predicate Asserts(s: Tables, h: Hashing, op: Op) {
    match op
    case OpAdd(address, fRoutable, source, nTimePenalty, nNow, lucky) =>
      AddAsserts(s, h, address, fRoutable, source, nTimePenalty, nNow, lucky)
    case OpGood(svc, nTime) => GoodAsserts(s, h, svc, nTime)
    case _ => true
  }

  ghost function Step(s: Tables, h: Hashing, op: Op): Tables
    requires Asserts(s, h, op)
  {
    match op
    case OpAdd(address, fRoutable, source, nTimePenalty, nNow, lucky) =>
      Add(s, h, address, fRoutable, source, nTimePenalty, nNow, lucky).0
    case OpGood(svc, nTime) => Good(s, h, svc, nTime)
    case OpAttempt(svc, nTime) => Attempt(s, svc, nTime)
    case OpConnected(svc, nTime) => Connected(s, svc, nTime)
    case OpGetAddr(n, rnd) => Shuffle(s, if n <= |s.random| then n else |s.random|, rnd)
  }

  function Fresh(key: nat): Tables {
    Tables(key, 0, map[], map[], [], 0, map[], 0, map[])
  }

  /** The tables after a run; Failed when an assertion of the source failed on the way. */
  datatype Outcome = Failed | Reached(s: Tables)

  ghost function Run(s: Tables, h: Hashing, ops: seq<Op>): Outcome
    decreases |ops|
  {
    if ops == [] then Reached(s)
    else if !Asserts(s, h, ops[0]) then Failed
    else Run(Step(s, h, ops[0]), h, ops[1..])
  }

  lemma StepKeeps(s: Tables, h: Hashing, op: Op)
    requires Consistent(s, h) && Sensible(op)
    ensures Asserts(s, h, op) && Consistent(Step(s, h, op), h)
  {
    hide Consistent, Add, Good, Attempt, Connected, Shuffle, AddAsserts, GoodAsserts, Draws;
    match op
    case OpAdd(address, fRoutable, source, nTimePenalty, nNow, lucky) =>
      AddKeeps(s, h, address, fRoutable, source, nTimePenalty, nNow, lucky);
    case OpGood(svc, nTime) => GoodKeeps(s, h, svc, nTime);
    case OpAttempt(svc, nTime) => AttemptKeeps(s, h, svc, nTime);
    case OpConnected(svc, nTime) => ConnectedKeeps(s, h, svc, nTime);
    case OpGetAddr(n, rnd) => ShuffleKeeps(s, h, if n <= |s.random| then n else |s.random|, rnd);
  }

  lemma FreshIsConsistent(key: nat, h: Hashing)
    ensures Consistent(Fresh(key), h)
  {
  }

  /** From a fresh manager, any sequence of operations passes every assertion and keeps the manager consistent. */
  lemma {:induction false} RunKeeps(s: Tables, h: Hashing, ops: seq<Op>)
    requires Consistent(s, h) && forall i :: 0 <= i < |ops| ==> Sensible(ops[i])
    ensures Run(s, h, ops).Reached? && Consistent(Run(s, h, ops).s, h)
    decreases |ops|
  {
    hide Consistent, Asserts, Sensible;
    if ops != [] {
      StepKeeps(s, h, ops[0]);
      RunKeeps(Step(s, h, ops[0]), h, ops[1..]);
    }
  }
}
