/** The address manager's tables as values: entries, indexes and buckets, and what each step does to them. */
module AddrTables {

  const TRIED_BUCKET_COUNT := 256
  const NEW_BUCKET_COUNT := 1024
  const BUCKET_SIZE := 64
  const TRIED_BUCKETS_PER_GROUP := 8
  const NEW_BUCKETS_PER_SOURCE_GROUP := 64
  const NEW_BUCKETS_PER_ADDRESS := 8
  const HORIZON_DAYS := 30
  const RETRIES := 3
  const MAX_FAILURES := 10
  const MIN_FAIL_DAYS := 7

  type NetAddr = nat
  datatype Service = Service(net: NetAddr, port: nat)
  /** The service bits are a set of bit numbers. */
  datatype Address = Address(svc: Service, nServices: set<nat>, nTime: int)

  datatype Info = Info(address: Address, source: NetAddr, nLastTry: int, nLastSuccess: int, nAttempts: int,
                       nRefCount: int, fInTried: bool, nRandomPos: int)
  {
    function Net(): NetAddr { address.svc.net }

    predicate IsTerrible(nNow: int) {
      if nLastTry != 0 && nLastTry >= nNow - 60 then false
      else if address.nTime > nNow + 10 * 60 then true
      else if address.nTime == 0 || nNow - address.nTime > HORIZON_DAYS * 24 * 60 * 60 then true
      else if nLastSuccess == 0 && nAttempts >= RETRIES then true
      else nNow - nLastSuccess > MIN_FAIL_DAYS * 24 * 60 * 60 && nAttempts >= MAX_FAILURES
    }
  }

  function FreshInfo(address: Address, source: NetAddr): Info {
    Info(address, source, 0, 0, 0, 0, false, -1)
  }

  datatype Slot = Slot(bucket: int, pos: int)

  /** The keyed hash and the grouping of addresses, both arbitrary. */
  datatype Hashing = Hashing(Hash: seq<nat> -> nat, Group: NetAddr -> nat) {
    function TriedBucket(key: nat, a: Service): (b: int)
      ensures 0 <= b < TRIED_BUCKET_COUNT
    {
      var hash1 := Hash([key, a.net, a.port]);
      var hash2 := Hash([key, Group(a.net), hash1 % TRIED_BUCKETS_PER_GROUP]);
      hash2 % TRIED_BUCKET_COUNT
    }

    function NewBucket(key: nat, a: Service, src: NetAddr): (b: int)
      ensures 0 <= b < NEW_BUCKET_COUNT
    {
      var hash1 := Hash([key, Group(a.net), Group(src)]);
      var hash2 := Hash([key, Group(src), hash1 % NEW_BUCKETS_PER_SOURCE_GROUP]);
      hash2 % NEW_BUCKET_COUNT
    }

    function BucketPosition(key: nat, fNew: bool, bucket: nat, a: Service): (p: int)
      ensures 0 <= p < BUCKET_SIZE
    {
      var hash1 := Hash([key, if fNew then 78 else 75, bucket, a.net, a.port]);
      hash1 % BUCKET_SIZE
    }

    function TriedSlot(key: nat, a: Service): Slot {
      var b := TriedBucket(key, a);
      Slot(b, BucketPosition(key, false, b, a))
    }

    /** The one place an address can have in a given new bucket. */
    function NewSlot(key: nat, a: Service, bucket: nat): Slot {
      Slot(bucket, BucketPosition(key, true, bucket, a))
    }
  }

  type Table = map<Slot, int>

  datatype Tables = Tables(nKey: nat, nIdCount: int, info: map<int, Info>, addr: map<NetAddr, int>,
                           random: seq<int>, nTried: int, tried: Table, nNew: int, news: Table)

  ghost function SlotsOf(t: Table, id: int): set<Slot> {
    set s | s in t && t[s] == id
  }

  ghost function TriedIds(info: map<int, Info>): set<int> {
    set id | id in info && info[id].fInTried
  }

  ghost function NewIds(info: map<int, Info>): set<int> {
    set id | id in info && !info[id].fInTried
  }

  // ---- the invariant, with room for an operation in progress; AddrCheck shows that Check_ accepts it ----

  type Entries = map<int, Info>

  ghost predicate RandomOk(info: Entries, random: seq<int>) {
    && (forall id :: id in info ==> 0 <= info[id].nRandomPos < |random| && random[info[id].nRandomPos] == id)
    && (forall p :: 0 <= p < |random| ==> random[p] in info && info[random[p]].nRandomPos == p)
  }

  ghost predicate AddrOk(info: Entries, addr: map<NetAddr, int>) {
    && (forall id :: id in info ==> info[id].Net() in addr && addr[info[id].Net()] == id)
    && (forall a :: a in addr ==> addr[a] in info && info[addr[a]].Net() == a)
  }

  /** `ahead`: how far nNew runs behind the number of entries outside the tried table. */
  ghost predicate CountsOk(info: Entries, nTried: int, nNew: int, ahead: int) {
    nTried == |TriedIds(info)| && nNew + ahead == |NewIds(info)|
  }

  ghost predicate TriedOk(info: Entries, tried: Table, key: nat, h: Hashing) {
    && (forall slot :: slot in tried ==>
          tried[slot] in info && info[tried[slot]].fInTried && slot == h.TriedSlot(key, info[tried[slot]].address.svc))
    && (forall id :: id in info && info[id].fInTried ==>
          var slot := h.TriedSlot(key, info[id].address.svc); slot in tried && tried[slot] == id)
  }

  ghost predicate NewsOk(info: Entries, news: Table, key: nat, h: Hashing) {
    forall slot :: slot in news ==>
      && news[slot] in info && !info[news[slot]].fInTried
      && 0 <= slot.bucket < NEW_BUCKET_COUNT
      && slot == h.NewSlot(key, info[news[slot]].address.svc, slot.bucket)
  }

  /** Reference counts are exact; only the ids in `loose` may have none although they are not tried. */
  ghost predicate RefOk(e: Info, id: int, news: Table, loose: set<int>) {
    && e.nRefCount == |SlotsOf(news, id)| <= NEW_BUCKETS_PER_ADDRESS
    && (e.nRefCount == 0 ==> e.fInTried || id in loose)
  }

  ghost predicate RefsOk(info: Entries, news: Table, loose: set<int>) {
    forall id :: id in info ==> RefOk(info[id], id, news, loose)
  }

  ghost predicate TimeOk(e: Info) {
    e.nLastTry >= 0 && e.nLastSuccess >= 0 && (e.fInTried ==> e.nLastSuccess > 0)
  }

  ghost predicate TimesOk(info: Entries, nIdCount: int) {
    nIdCount >= 0 && forall id :: id in info ==> TimeOk(info[id]) && 0 <= id < nIdCount
  }

  ghost predicate Core(s: Tables, h: Hashing, loose: set<int>, ahead: int) {
    && RandomOk(s.info, s.random) && AddrOk(s.info, s.addr) && CountsOk(s.info, s.nTried, s.nNew, ahead)
    && TriedOk(s.info, s.tried, s.nKey, h) && NewsOk(s.info, s.news, s.nKey, h)
    && RefsOk(s.info, s.news, loose) && TimesOk(s.info, s.nIdCount)
  }

  ghost predicate Consistent(s: Tables, h: Hashing) {
    Core(s, h, {}, 0)
  }

  // ---- the steps ----

  function Create(s: Tables, address: Address, source: NetAddr): Tables {
    var id := s.nIdCount;
    s.(nIdCount := id + 1,
       info := s.info[id := FreshInfo(address, source).(nRandomPos := |s.random|)],
       addr := s.addr[address.svc.net := id],
       random := s.random + [id])
  }

  /** What SwapRandom asserts of its arguments. */
  predicate CanSwap(s: Tables, p: int, q: int) {
    p == q || (0 <= p < |s.random| && 0 <= q < |s.random| && s.random[p] in s.info && s.random[q] in s.info)
  }

  function SwapRandom(s: Tables, p: int, q: int): Tables
    requires CanSwap(s, p, q)
  {
    if p == q then s else
    var id1, id2 := s.random[p], s.random[q];
    var info1 := s.info[id1 := s.info[id1].(nRandomPos := q)];
    s.(info := info1[id2 := info1[id2].(nRandomPos := p)], random := s.random[p := id2][q := id1])
  }

  /** What Delete asserts of its argument. */
  predicate CanDelete(s: Tables, id: int) {
    && id in s.info && !s.info[id].fInTried && s.info[id].nRefCount == 0
    && |s.random| > 0 && CanSwap(s, s.info[id].nRandomPos, |s.random| - 1)
  }

  function Delete(s: Tables, id: int): Tables
    requires CanDelete(s, id)
  {
    var s1 := SwapRandom(s, s.info[id].nRandomPos, |s.random| - 1);
    s1.(random := s1.random[..|s1.random| - 1], addr := s1.addr - {s.info[id].Net()}, info := s1.info - {id},
        nNew := s1.nNew - 1)
  }

  predicate CanClearNew(s: Tables, slot: Slot) {
    slot in s.news ==>
      var id := s.news[slot];
      id in s.info && s.info[id].nRefCount > 0
      && (s.info[id].nRefCount == 1 ==> CanDelete(Unreference(s, slot), id))
  }

  /** Takes one reference away from whatever is in the slot. */
  function Unreference(s: Tables, slot: Slot): Tables
    requires slot in s.news && s.news[slot] in s.info
  {
    var id := s.news[slot];
    s.(info := s.info[id := s.info[id].(nRefCount := s.info[id].nRefCount - 1)], news := s.news - {slot})
  }

  function ClearNew(s: Tables, slot: Slot): Tables
    requires CanClearNew(s, slot)
  {
    if slot !in s.news then s else
    var s1 := Unreference(s, slot);
    if s1.info[s.news[slot]].nRefCount == 0 then Delete(s1, s.news[slot]) else s1
  }

  /** Puts id into an empty slot. */
  function Reference(s: Tables, id: int, slot: Slot): Tables
    requires id in s.info
  {
    s.(info := s.info[id := s.info[id].(nRefCount := s.info[id].nRefCount + 1)], news := s.news[slot := id])
  }

  function UnlistOne(s: Tables, id: int, slot: Slot): Tables
    requires id in s.info
  {
    if slot in s.news && s.news[slot] == id then Unreference(s, slot) else s
  }

  /** The first loop of MakeTried, after `n` buckets. */
  function Unlist(s: Tables, h: Hashing, id: int, n: nat): (r: Tables)
    requires id in s.info
    ensures id in r.info && r.info[id].address == s.info[id].address
  {
    if n == 0 then s else
    var s1 := Unlist(s, h, id, n - 1);
    var slot := h.NewSlot(s.nKey, s.info[id].address.svc, n - 1);
    UnlistOne(s1, id, slot)
  }

  // ---- small facts about counting ----

  lemma SlotsWithout(t: Table, slot: Slot, id: int)
    requires slot in t
    ensures |SlotsOf(t - {slot}, id)| == |SlotsOf(t, id)| - (if t[slot] == id then 1 else 0)
  {
    assert SlotsOf(t - {slot}, id) == SlotsOf(t, id) - {slot};
  }

  lemma SlotsWith(t: Table, slot: Slot, v: int, id: int)
    requires slot !in t
    ensures |SlotsOf(t[slot := v], id)| == |SlotsOf(t, id)| + (if v == id then 1 else 0)
  {
    assert SlotsOf(t[slot := v], id) == if v == id then SlotsOf(t, id) + {slot} else SlotsOf(t, id);
  }

  lemma NoSlots(t: Table, id: int)
    ensures |SlotsOf(t, id)| == 0 <==> forall slot :: slot in t ==> t[slot] != id
  {
    if slot :| slot in t && t[slot] == id {
      assert slot in SlotsOf(t, id);
    } else {
      assert SlotsOf(t, id) == {};
    }
  }

  // ---- changing one entry ----

  lemma EditKeepsIndex(info: Entries, id: int, e: Info, addr: map<NetAddr, int>, nTried: int, nNew: int, ahead: int)
    requires id in info && e.address.svc == info[id].address.svc && e.fInTried == info[id].fInTried
    ensures AddrOk(info, addr) ==> AddrOk(info[id := e], addr)
    ensures CountsOk(info, nTried, nNew, ahead) ==> CountsOk(info[id := e], nTried, nNew, ahead)
  {
    assert TriedIds(info[id := e]) == TriedIds(info) && NewIds(info[id := e]) == NewIds(info);
  }

  lemma EditKeepsTables(info: Entries, id: int, e: Info, tried: Table, news: Table, key: nat, h: Hashing)
    requires id in info && e.address.svc == info[id].address.svc && e.fInTried == info[id].fInTried
    ensures TriedOk(info, tried, key, h) ==> TriedOk(info[id := e], tried, key, h)
    ensures NewsOk(info, news, key, h) ==> NewsOk(info[id := e], news, key, h)
  {
  }

  /** An edit that touches neither the service, the references, the position nor the tried flag. */
  lemma EditKeeps(s: Tables, h: Hashing, id: int, e: Info, loose: set<int>, ahead: int)
    requires Core(s, h, loose, ahead) && id in s.info && TimeOk(e)
    requires e.address.svc == s.info[id].address.svc && e.fInTried == s.info[id].fInTried
    requires e.nRefCount == s.info[id].nRefCount && e.nRandomPos == s.info[id].nRandomPos
    ensures Core(s.(info := s.info[id := e]), h, loose, ahead)
  {
    EditKeepsIndex(s.info, id, e, s.addr, s.nTried, s.nNew, ahead);
    EditKeepsTables(s.info, id, e, s.tried, s.news, s.nKey, h);
    hide AddrOk, CountsOk, TriedOk, NewsOk, SlotsOf;
    assert RefsOk(s.info[id := e], s.news, loose);
    assert RandomOk(s.info[id := e], s.random);
    assert TimesOk(s.info[id := e], s.nIdCount);
  }

  // ---- SwapRandom and Delete ----

  lemma SwapKeepsRandom(s: Tables, p: int, q: int)
    requires RandomOk(s.info, s.random) && 0 <= p < |s.random| && 0 <= q < |s.random|
    ensures CanSwap(s, p, q) && RandomOk(SwapRandom(s, p, q).info, SwapRandom(s, p, q).random)
  {
  }

  /** Moving an entry in the random vector matters only to RandomOk. */
  lemma MoveKeeps(s: Tables, h: Hashing, id: int, p: int, loose: set<int>, ahead: int)
    requires id in s.info
    ensures var info' := s.info[id := s.info[id].(nRandomPos := p)];
            && (AddrOk(s.info, s.addr) ==> AddrOk(info', s.addr))
            && (CountsOk(s.info, s.nTried, s.nNew, ahead) ==> CountsOk(info', s.nTried, s.nNew, ahead))
            && (TriedOk(s.info, s.tried, s.nKey, h) ==> TriedOk(info', s.tried, s.nKey, h))
            && (NewsOk(s.info, s.news, s.nKey, h) ==> NewsOk(info', s.news, s.nKey, h))
            && (RefsOk(s.info, s.news, loose) ==> RefsOk(info', s.news, loose))
            && (TimesOk(s.info, s.nIdCount) ==> TimesOk(info', s.nIdCount))
  {
    var e := s.info[id].(nRandomPos := p);
    EditKeepsIndex(s.info, id, e, s.addr, s.nTried, s.nNew, ahead);
    EditKeepsTables(s.info, id, e, s.tried, s.news, s.nKey, h);
    hide AddrOk, CountsOk, TriedOk, NewsOk, SlotsOf;
  }

  lemma SwapKeeps(s: Tables, h: Hashing, p: int, q: int, loose: set<int>, ahead: int)
    requires Core(s, h, loose, ahead)
    requires 0 <= p < |s.random| && 0 <= q < |s.random|
    ensures CanSwap(s, p, q) && Core(SwapRandom(s, p, q), h, loose, ahead)
  {
    SwapKeepsRandom(s, p, q);
    if p != q {
      MoveKeeps(s, h, s.random[p], q, loose, ahead);
      var s1 := s.(info := s.info[s.random[p] := s.info[s.random[p]].(nRandomPos := q)]);
      MoveKeeps(s1, h, s.random[q], p, loose, ahead);
      hide AddrOk, CountsOk, TriedOk, NewsOk, RefsOk, TimesOk, RandomOk;
    }
  }

  lemma SwapSpares(s: Tables, p: int, q: int, id: int)
    requires CanSwap(s, p, q) && id in s.info
    ensures SwapRandom(s, p, q).info.Keys == s.info.Keys
    ensures SwapRandom(s, p, q).info[id].(nRandomPos := s.info[id].nRandomPos) == s.info[id]
  {
  }

  /** Removing an entry that sits last in the random vector and in no table. */
  lemma RemoveKeeps(s: Tables, h: Hashing, id: int, loose: set<int>, ahead: int)
    requires Core(s, h, loose, ahead) && id in s.info && !s.info[id].fInTried && s.info[id].nRefCount == 0
    requires s.info[id].nRandomPos == |s.random| - 1
    ensures Core(s.(random := s.random[..|s.random| - 1], addr := s.addr - {s.info[id].Net()},
                    info := s.info - {id}, nNew := s.nNew - 1), h, loose - {id}, ahead)
  {
    var info' := s.info - {id};
    RemoveKeepsTables(s, h, id, loose);
    assert CountsOk(info', s.nTried, s.nNew - 1, ahead) by {
      assert TriedIds(info') == TriedIds(s.info) && NewIds(info') == NewIds(s.info) - {id};
    }
    hide TriedOk, NewsOk, RefsOk, CountsOk, SlotsOf;
    assert RandomOk(info', s.random[..|s.random| - 1]);
    assert AddrOk(info', s.addr - {s.info[id].Net()});
  }

  lemma RemoveKeepsTables(s: Tables, h: Hashing, id: int, loose: set<int>)
    requires TriedOk(s.info, s.tried, s.nKey, h) && NewsOk(s.info, s.news, s.nKey, h) && RefsOk(s.info, s.news, loose)
    requires id in s.info && !s.info[id].fInTried && s.info[id].nRefCount == 0
    ensures TriedOk(s.info - {id}, s.tried, s.nKey, h) && NewsOk(s.info - {id}, s.news, s.nKey, h)
    ensures RefsOk(s.info - {id}, s.news, loose - {id})
  {
    assert RefOk(s.info[id], id, s.news, loose);
    NoSlots(s.news, id);
  }

  /** The entry to be deleted can be moved to the end of the random vector. */
  lemma SwapToEnd(s: Tables, h: Hashing, id: int, loose: set<int>, ahead: int)
    requires Core(s, h, loose, ahead) && id in s.info && !s.info[id].fInTried && s.info[id].nRefCount == 0
    ensures CanDelete(s, id)
    ensures var s1 := SwapRandom(s, s.info[id].nRandomPos, |s.random| - 1);
            && Core(s1, h, loose, ahead) && |s1.random| == |s.random| && s1.addr == s.addr
            && s1.news == s.news && s1.tried == s.tried && s1.info.Keys == s.info.Keys
            && s1.info[id] == s.info[id].(nRandomPos := |s.random| - 1)
  {
    hide AddrOk, CountsOk, TriedOk, NewsOk, RefsOk, TimesOk;
    SwapKeeps(s, h, s.info[id].nRandomPos, |s.random| - 1, loose, ahead);
    SwapSpares(s, s.info[id].nRandomPos, |s.random| - 1, id);
  }

  lemma DeleteSpares(s: Tables, id: int, other: int)
    requires CanDelete(s, id) && other in s.info && other != id
    ensures other in Delete(s, id).info
    ensures Delete(s, id).info[other].(nRandomPos := s.info[other].nRandomPos) == s.info[other]
  {
    hide SwapRandom;
    SwapSpares(s, s.info[id].nRandomPos, |s.random| - 1, other);
  }

  lemma DeleteKeeps(s: Tables, h: Hashing, id: int, loose: set<int>, ahead: int)
    requires Core(s, h, loose, ahead) && id in s.info && !s.info[id].fInTried && s.info[id].nRefCount == 0
    ensures CanDelete(s, id) && Core(Delete(s, id), h, loose - {id}, ahead)
    ensures Delete(s, id).news == s.news && Delete(s, id).tried == s.tried
  {
    hide Core, SwapRandom;
    SwapToEnd(s, h, id, loose, ahead);
    RemoveKeeps(SwapRandom(s, s.info[id].nRandomPos, |s.random| - 1), h, id, loose, ahead);
  }

  // ---- references ----

  lemma NewsWithout(info: Entries, news: Table, slot: Slot, key: nat, h: Hashing)
    requires NewsOk(info, news, key, h) && slot in news
    ensures NewsOk(info, news - {slot}, key, h)
    ensures news[slot] in info && !info[news[slot]].fInTried
  {
  }

  lemma NewsWith(info: Entries, news: Table, slot: Slot, id: int, key: nat, h: Hashing)
    requires NewsOk(info, news, key, h) && id in info && !info[id].fInTried
    requires 0 <= slot.bucket < NEW_BUCKET_COUNT && slot == h.NewSlot(key, info[id].address.svc, slot.bucket)
    ensures NewsOk(info, news[slot := id], key, h)
  {
  }

  /** Taking a reference away from the entry in a slot; it may be left with none. */
  lemma UnreferenceKeeps(s: Tables, h: Hashing, slot: Slot, loose: set<int>, ahead: int)
    requires Core(s, h, loose, ahead) && slot in s.news
    ensures s.news[slot] in s.info && s.info[s.news[slot]].nRefCount > 0 && !s.info[s.news[slot]].fInTried
    ensures Core(Unreference(s, slot), h, loose + {s.news[slot]}, ahead)
    ensures s.info[s.news[slot]].nRefCount > 1 ==> Core(Unreference(s, slot), h, loose, ahead)
  {
    var id := s.news[slot];
    var e := s.info[id].(nRefCount := s.info[id].nRefCount - 1);
    NewsWithout(s.info, s.news, slot, s.nKey, h);
    hide AddrOk, CountsOk, TriedOk, RefsOk, NewsOk;
    EditKeepsIndex(s.info, id, e, s.addr, s.nTried, s.nNew, ahead);
    EditKeepsTables(s.info, id, e, s.tried, s.news - {slot}, s.nKey, h);
    UnreferenceCounts(s.info, s.news, slot, loose);
  }

  lemma UnreferenceCounts(info: Entries, news: Table, slot: Slot, loose: set<int>)
    requires RefsOk(info, news, loose) && slot in news && news[slot] in info
    ensures var id := news[slot];
            var info' := info[id := info[id].(nRefCount := info[id].nRefCount - 1)];
            && info[id].nRefCount > 0
            && RefsOk(info', news - {slot}, loose + {id})
            && (info[id].nRefCount > 1 ==> RefsOk(info', news - {slot}, loose))
  {
    var id := news[slot];
    NoSlots(news, id);
    assert RefOk(info[id], id, news, loose);
    forall i | i in info
      ensures |SlotsOf(news - {slot}, i)| == |SlotsOf(news, i)| - (if i == id then 1 else 0)
      ensures RefOk(info[i], i, news, loose)
    {
      SlotsWithout(news, slot, i);
    }
  }

  /** Listing an entry in the empty slot it hashes to. */
  lemma ReferenceKeeps(s: Tables, h: Hashing, id: int, slot: Slot, loose: set<int>, ahead: int)
    requires Core(s, h, loose, ahead) && id in s.info && !s.info[id].fInTried
    requires s.info[id].nRefCount < NEW_BUCKETS_PER_ADDRESS
    requires slot !in s.news && 0 <= slot.bucket < NEW_BUCKET_COUNT
    requires slot == h.NewSlot(s.nKey, s.info[id].address.svc, slot.bucket)
    ensures Core(Reference(s, id, slot), h, loose - {id}, ahead)
  {
    var e := s.info[id].(nRefCount := s.info[id].nRefCount + 1);
    NewsWith(s.info, s.news, slot, id, s.nKey, h);
    hide AddrOk, CountsOk, TriedOk, RefsOk, NewsOk;
    EditKeepsIndex(s.info, id, e, s.addr, s.nTried, s.nNew, ahead);
    EditKeepsTables(s.info, id, e, s.tried, s.news[slot := id], s.nKey, h);
    ReferenceCounts(s.info, s.news, id, slot, loose);
  }

  lemma ReferenceCounts(info: Entries, news: Table, id: int, slot: Slot, loose: set<int>)
    requires RefsOk(info, news, loose) && id in info && slot !in news && info[id].nRefCount < NEW_BUCKETS_PER_ADDRESS
    ensures RefsOk(info[id := info[id].(nRefCount := info[id].nRefCount + 1)], news[slot := id], loose - {id})
  {
    assert RefOk(info[id], id, news, loose);
    forall i | i in info
      ensures |SlotsOf(news[slot := id], i)| == |SlotsOf(news, i)| + (if i == id then 1 else 0)
      ensures RefOk(info[i], i, news, loose)
    {
      SlotsWith(news, slot, id, i);
    }
  }

  /** ClearNew empties the slot; the entry that was there goes when this was its last reference. */
  lemma ClearNewKeeps(s: Tables, h: Hashing, slot: Slot, loose: set<int>, ahead: int)
    requires Core(s, h, loose, ahead)
    requires slot in s.news ==> s.news[slot] !in loose
    ensures CanClearNew(s, slot) && Core(ClearNew(s, slot), h, loose, ahead)
    ensures ClearNew(s, slot).news == s.news - {slot} && ClearNew(s, slot).tried == s.tried
  {
    hide Core, SwapRandom;
    if slot in s.news {
      var id := s.news[slot];
      UnreferenceKeeps(s, h, slot, loose, ahead);
      if s.info[id].nRefCount == 1 {
        DeleteKeeps(Unreference(s, slot), h, id, loose + {id}, ahead);
        assert loose + {id} - {id} == loose;
      }
    }
  }

  /** Entries other than the cleared one stay, up to their position in the random vector. */
  lemma ClearNewSpares(s: Tables, slot: Slot, id: int)
    requires CanClearNew(s, slot) && id in s.info && (slot in s.news ==> s.news[slot] != id)
    ensures id in ClearNew(s, slot).info
    ensures ClearNew(s, slot).info[id].(nRandomPos := s.info[id].nRandomPos) == s.info[id]
    ensures ClearNew(s, slot).nKey == s.nKey && ClearNew(s, slot).nIdCount == s.nIdCount
  {
    if slot in s.news && s.info[s.news[slot]].nRefCount == 1 {
      DeleteSpares(Unreference(s, slot), s.news[slot], id);
    }
  }

  // ---- leaving the new table ----

  lemma {:induction false} UnlistCore(s: Tables, h: Hashing, id: int, n: nat, loose: set<int>, ahead: int)
    requires Core(s, h, loose, ahead) && id in s.info
    ensures Core(Unlist(s, h, id, n), h, loose + {id}, ahead)
  {
    if n == 0 {
      LoosenKeeps(s, h, loose, {id}, ahead);
    } else {
      hide Core, SlotsOf;
      UnlistCore(s, h, id, n - 1, loose, ahead);
      var s1 := Unlist(s, h, id, n - 1);
      var slot := h.NewSlot(s.nKey, s.info[id].address.svc, n - 1);
      if slot in s1.news && s1.news[slot] == id {
        UnreferenceKeeps(s1, h, slot, loose + {id}, ahead);
        assert loose + {id} + {id} == loose + {id};
      }
    }
  }

  lemma {:induction false} UnlistFrame(s: Tables, h: Hashing, id: int, n: nat)
    requires id in s.info
    ensures var r := Unlist(s, h, id, n);
            && r == s.(info := r.info, news := r.news) && r.info.Keys == s.info.Keys
            && r.info[id] == s.info[id].(nRefCount := r.info[id].nRefCount)
            && (forall i :: i in s.info && i != id ==> r.info[i] == s.info[i])
            && (forall slot :: slot in r.news ==> slot in s.news && r.news[slot] == s.news[slot])
  {
    if n > 0 {
      UnlistFrame(s, h, id, n - 1);
    }
  }

  lemma UnlistStep(s: Tables, h: Hashing, id: int, n: nat, slot: Slot)
    requires id in s.info && n > 0
    requires slot in Unlist(s, h, id, n).news && Unlist(s, h, id, n).news[slot] == id
    ensures slot in Unlist(s, h, id, n - 1).news && Unlist(s, h, id, n - 1).news[slot] == id
    ensures slot != h.NewSlot(s.nKey, s.info[id].address.svc, n - 1)
  {
  }

  /** After n buckets the entry is listed in none of them. */
  lemma {:induction false} UnlistGone(s: Tables, h: Hashing, id: int, n: nat, slot: Slot)
    requires id in s.info && NewsOk(s.info, s.news, s.nKey, h)
    requires slot in Unlist(s, h, id, n).news && Unlist(s, h, id, n).news[slot] == id
    ensures slot.bucket >= n
  {
    hide Unlist;
    UnlistFrame(s, h, id, n);
    assert slot in s.news && slot == h.NewSlot(s.nKey, s.info[id].address.svc, slot.bucket);
    if n > 0 {
      hide NewsOk;
      UnlistStep(s, h, id, n, slot);
      UnlistGone(s, h, id, n - 1, slot);
    }
  }

  /** After all buckets the entry has no references left. */
  lemma UnlistKeeps(s: Tables, h: Hashing, id: int, loose: set<int>, ahead: int)
    requires Core(s, h, loose, ahead) && id in s.info
    ensures var r := Unlist(s, h, id, NEW_BUCKET_COUNT);
            Core(r, h, loose + {id}, ahead) && r.info[id].nRefCount == 0
  {
    UnlistCore(s, h, id, NEW_BUCKET_COUNT, loose, ahead);
    var r := Unlist(s, h, id, NEW_BUCKET_COUNT);
    hide Unlist, RandomOk, AddrOk, CountsOk, TriedOk, TimesOk;
    forall slot | slot in r.news
      ensures r.news[slot] != id
    {
      if r.news[slot] == id { UnlistGone(s, h, id, NEW_BUCKET_COUNT, slot); }
    }
    assert RefOk(r.info[id], id, r.news, loose + {id});
    NoSlots(r.news, id);
  }

  lemma LoosenKeeps(s: Tables, h: Hashing, loose: set<int>, more: set<int>, ahead: int)
    requires Core(s, h, loose, ahead)
    ensures Core(s, h, loose + more, ahead)
  {
  }

  // ---- the tried table ----

  function Demote(s: Tables, slot: Slot): Tables
    requires slot in s.tried && s.tried[slot] in s.info
  {
    var id := s.tried[slot];
    s.(info := s.info[id := s.info[id].(fInTried := false)], tried := s.tried - {slot}, nTried := s.nTried - 1)
  }

  function Promote(s: Tables, id: int, slot: Slot): Tables
    requires id in s.info
  {
    s.(info := s.info[id := s.info[id].(fInTried := true)], tried := s.tried[slot := id], nTried := s.nTried + 1)
  }

  lemma FlagCounts(info: Entries, id: int, fInTried: bool)
    requires id in info && info[id].fInTried != fInTried
    ensures var info' := info[id := info[id].(fInTried := fInTried)];
            && |TriedIds(info')| == |TriedIds(info)| + (if fInTried then 1 else -1)
            && |NewIds(info')| == |NewIds(info)| + (if fInTried then -1 else 1)
  {
    var info' := info[id := info[id].(fInTried := fInTried)];
    if fInTried {
      assert TriedIds(info') == TriedIds(info) + {id} && NewIds(info') == NewIds(info) - {id};
    } else {
      assert TriedIds(info') == TriedIds(info) - {id} && NewIds(info') == NewIds(info) + {id};
    }
  }

  /** Flipping the tried flag matters only to the counts and the two tables. */
  lemma FlagKeeps(s: Tables, id: int, fInTried: bool, loose: set<int>)
    requires RandomOk(s.info, s.random) && AddrOk(s.info, s.addr) && RefsOk(s.info, s.news, loose)
    requires TimesOk(s.info, s.nIdCount)
    requires id in s.info && (fInTried ==> s.info[id].nLastSuccess > 0)
    ensures var info' := s.info[id := s.info[id].(fInTried := fInTried)];
            && RandomOk(info', s.random) && AddrOk(info', s.addr) && TimesOk(info', s.nIdCount)
            && RefsOk(info', s.news, loose + {id})
            && (fInTried ==> RefsOk(info', s.news, loose - {id}))
  {
    var info' := s.info[id := s.info[id].(fInTried := fInTried)];
    assert RefOk(s.info[id], id, s.news, loose);
    hide SlotsOf;
    forall i | i in s.info
      ensures RefOk(info'[i], i, s.news, loose + {id})
      ensures fInTried ==> RefOk(info'[i], i, s.news, loose - {id})
    {
      assert RefOk(s.info[i], i, s.news, loose);
    }
  }

  lemma DemoteTables(s: Tables, h: Hashing, slot: Slot)
    requires TriedOk(s.info, s.tried, s.nKey, h) && NewsOk(s.info, s.news, s.nKey, h) && slot in s.tried
    ensures var r := Demote(s, slot);
            TriedOk(r.info, r.tried, r.nKey, h) && NewsOk(r.info, r.news, r.nKey, h)
  {
  }

  lemma DemoteKeeps(s: Tables, h: Hashing, slot: Slot, loose: set<int>, ahead: int)
    requires Core(s, h, loose, ahead) && slot in s.tried
    ensures s.tried[slot] in s.info && s.info[s.tried[slot]].fInTried && s.info[s.tried[slot]].nRefCount == 0
    ensures Core(Demote(s, slot), h, loose + {s.tried[slot]}, ahead + 1)
  {
    DemoteTables(s, h, slot);
    var id := s.tried[slot];
    assert id in s.info && s.info[id].fInTried;
    TriedHasNoSlots(s, h, id);
    assert RefOk(s.info[id], id, s.news, loose);
    hide RandomOk, AddrOk, RefsOk, TimesOk, SlotsOf, TriedOk, NewsOk, TriedIds, NewIds;
    FlagCounts(s.info, id, false);
    FlagKeeps(s, id, false, loose);
  }

  lemma TriedHasNoSlots(s: Tables, h: Hashing, id: int)
    requires NewsOk(s.info, s.news, s.nKey, h) && id in s.info && s.info[id].fInTried
    ensures |SlotsOf(s.news, id)| == 0
  {
    NoSlots(s.news, id);
  }

  lemma PromoteTables(s: Tables, h: Hashing, id: int, slot: Slot)
    requires TriedOk(s.info, s.tried, s.nKey, h) && NewsOk(s.info, s.news, s.nKey, h)
    requires id in s.info && !s.info[id].fInTried && forall l :: l in s.news ==> s.news[l] != id
    requires slot == h.TriedSlot(s.nKey, s.info[id].address.svc) && slot !in s.tried
    ensures var r := Promote(s, id, slot);
            TriedOk(r.info, r.tried, r.nKey, h) && NewsOk(r.info, r.news, r.nKey, h)
  {
  }

  lemma PromoteKeeps(s: Tables, h: Hashing, id: int, slot: Slot, loose: set<int>, ahead: int)
    requires Core(s, h, loose, ahead) && id in s.info && !s.info[id].fInTried
    requires s.info[id].nRefCount == 0 && s.info[id].nLastSuccess > 0
    requires slot == h.TriedSlot(s.nKey, s.info[id].address.svc) && slot !in s.tried
    ensures Core(Promote(s, id, slot), h, loose - {id}, ahead - 1)
  {
    hide RandomOk, AddrOk, TimesOk, TriedOk, NewsOk, TriedIds, NewIds;
    assert RefOk(s.info[id], id, s.news, loose);
    NoSlots(s.news, id);
    PromoteTables(s, h, id, slot);
    FlagCounts(s.info, id, true);
    FlagKeeps(s, id, true, loose);
  }

  /** Where an entry evicted from the tried table goes: a new bucket chosen by its own source. */
  function HomeSlot(s: Tables, h: Hashing, id: int): Slot
    requires id in s.info
  {
    var e := s.info[id];
    h.NewSlot(s.nKey, e.address.svc, h.NewBucket(s.nKey, e.address.svc, e.source))
  }

  predicate CanEvict(s: Tables, h: Hashing, slot: Slot) {
    && slot in s.tried && s.tried[slot] in s.info
    && var d, home := Demote(s, slot), HomeSlot(s, h, s.tried[slot]);
       CanClearNew(d, home) && home !in ClearNew(d, home).news && s.tried[slot] in ClearNew(d, home).info
  }

  /** Moves the entry in a tried slot back to the new table. */
  function Evict(s: Tables, h: Hashing, slot: Slot): Tables
    requires CanEvict(s, h, slot)
  {
    var idOld, home := s.tried[slot], HomeSlot(s, h, s.tried[slot]);
    var c := ClearNew(Demote(s, slot), home);
    c.(info := c.info[idOld := c.info[idOld].(nRefCount := 1)], news := c.news[home := idOld], nNew := c.nNew + 1)
  }

  /** Clearing the home of a demoted entry spares every entry without references. */
  lemma ClearHome(d: Tables, h: Hashing, home: Slot, loose: set<int>, ahead: int)
    requires Core(d, h, loose, ahead)
    requires forall id :: id in loose && id in d.info ==> d.info[id].nRefCount == 0
    ensures CanClearNew(d, home) && Core(ClearNew(d, home), h, loose, ahead)
    ensures home !in ClearNew(d, home).news && ClearNew(d, home).tried == d.tried && ClearNew(d, home).nKey == d.nKey
    ensures forall id :: id in loose && id in d.info ==>
              id in ClearNew(d, home).info &&
              ClearNew(d, home).info[id].(nRandomPos := d.info[id].nRandomPos) == d.info[id]
  {
    hide Core, ClearNew, CanClearNew;
    if home in d.news { UnreferenceKeeps(d, h, home, loose, ahead); }
    ClearNewKeeps(d, h, home, loose, ahead);
    forall id | id in loose && id in d.info
      ensures id in ClearNew(d, home).info
      ensures ClearNew(d, home).info[id].(nRandomPos := d.info[id].nRandomPos) == d.info[id]
    {
      ClearNewSpares(d, home, id);
    }
    ClearNewKey(d, home);
  }

  lemma ClearNewKey(s: Tables, slot: Slot)
    requires CanClearNew(s, slot)
    ensures ClearNew(s, slot).nKey == s.nKey
  {
  }

  lemma EvictKeeps(s: Tables, h: Hashing, slot: Slot, loose: set<int>, ahead: int)
    requires Core(s, h, loose, ahead) && slot in s.tried && s.tried[slot] !in loose
    requires forall id :: id in loose && id in s.info ==> s.info[id].nRefCount == 0
    ensures CanEvict(s, h, slot) && Core(Evict(s, h, slot), h, loose, ahead)
    ensures Evict(s, h, slot).tried == s.tried - {slot} && Evict(s, h, slot).nKey == s.nKey
    ensures forall id :: id in loose && id in s.info ==>
              id in Evict(s, h, slot).info
              && Evict(s, h, slot).info[id].(nRandomPos := s.info[id].nRandomPos) == s.info[id]
  {
    hide Core, ClearNew, CanClearNew;
    DemoteKeeps(s, h, slot, loose, ahead);
    var idOld, home := s.tried[slot], HomeSlot(s, h, s.tried[slot]);
    ClearHome(Demote(s, slot), h, home, loose + {idOld}, ahead + 1);
    EvictLists(ClearNew(Demote(s, slot), home), h, idOld, home, loose, ahead);
  }

  lemma EvictLists(c: Tables, h: Hashing, idOld: int, home: Slot, loose: set<int>, ahead: int)
    requires Core(c, h, loose + {idOld}, ahead + 1) && idOld in c.info && idOld !in loose
    requires !c.info[idOld].fInTried && c.info[idOld].nRefCount == 0
    requires home !in c.news && home == HomeSlot(c, h, idOld)
    ensures Core(c.(info := c.info[idOld := c.info[idOld].(nRefCount := 1)], news := c.news[home := idOld],
                    nNew := c.nNew + 1),
                 h, loose, ahead)
  {
    ReferenceKeeps(c, h, idOld, home, loose + {idOld}, ahead + 1);
    assert loose + {idOld} - {idOld} == loose;
    hide RandomOk, AddrOk, TriedOk, NewsOk, RefsOk, TimesOk;
  }
}
