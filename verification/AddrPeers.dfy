/** What the address manager writes to disk, and what it makes of it again. */
module AddrPeers {
  import opened Common
  import opened AddrTables

  /** The stored part of an entry: its last attempt is kept in memory only. */
  datatype Record = Record(address: Address, source: NetAddr, nLastSuccess: int, nAttempts: int)

  function ToRecord(e: Info): Record {
    Record(e.address, e.source, e.nLastSuccess, e.nAttempts)
  }

  function FromRecord(r: Record): Info {
    FreshInfo(r.address, r.source).(nLastSuccess := r.nLastSuccess, nAttempts := r.nAttempts)
  }

  /** The counts in front of the three lists are their lengths. */
  datatype Peers = Peers(nVersion: nat, nKeySize: nat, nKey: nat, news: seq<Record>, trieds: seq<Record>,
                         buckets: seq<seq<int>>)

  const VERSION := 1
  const KEY_SIZE := 32

  // ---- ids in ascending order ----

  ghost function Below(p: set<int>, n: int): seq<int>
    decreases n
  {
    if n <= 0 then [] else Below(p, n - 1) + (if n - 1 in p then [n - 1] else [])
  }

  lemma {:induction false} BelowAt(p: set<int>, n: int, id: int)
    requires id in p && 0 <= id < n
    ensures |Below(p, id)| < |Below(p, n)| && Below(p, n)[|Below(p, id)|] == id
  {
    if id < n - 1 { BelowAt(p, n - 1, id); }
  }

  lemma {:induction false} BelowHas(p: set<int>, n: int, k: nat)
    requires k < |Below(p, n)|
    ensures var id := Below(p, n)[k]; id in p && 0 <= id < n && |Below(p, id)| == k
    decreases n
  {
    if k < |Below(p, n - 1)| { BelowHas(p, n - 1, k); }
  }

  lemma {:induction false} BelowAll(p: set<int>, n: nat)
    requires forall id :: id in p ==> 0 <= id < n
    ensures |Below(p, n)| == |p|
  {
    if n == 0 {
      assert forall id :: id in p ==> false;
      assert p == {};
    } else {
      var q := p - {n - 1};
      BelowSame(p, q, n - 1);
      BelowAll(q, n - 1);
    }
  }

  lemma {:induction false} BelowSame(p: set<int>, q: set<int>, n: int)
    requires forall id :: 0 <= id < n ==> (id in p <==> id in q)
    ensures Below(p, n) == Below(q, n)
    decreases n
  {
    if n > 0 { BelowSame(p, q, n - 1); }
  }

  // ---- Serialize ----

  ghost function RefIds(info: Entries): set<int> {
    set id | id in info && info[id].nRefCount != 0
  }

  ghost function Records(info: Entries, ids: seq<int>): (r: seq<Record>)
    requires forall k :: 0 <= k < |ids| ==> ids[k] in info
    ensures |r| == |ids|
  {
    seq(|ids|, k requires 0 <= k < |ids| => ToRecord(info[ids[k]]))
  }

  /** The number a listed entry goes by on disk. */
  ghost function UnkId(info: Entries, id: int): nat {
    |Below(RefIds(info), id)|
  }

  /** The disk numbers in one new bucket, from the first n positions. */
  ghost function Indexes(s: Tables, bucket: int, n: nat): seq<int> {
    if n == 0 then [] else
    var slot := Slot(bucket, n - 1);
    Indexes(s, bucket, n - 1)
    + (if slot in s.news then [UnkId(s.info, s.news[slot])] else [])
  }

  ghost function Save(s: Tables): Peers {
    var refs, tried := Below(RefIds(s.info), s.nIdCount), Below(TriedIds(s.info), s.nIdCount);
    RefsBelow(s.info, s.nIdCount);
    Peers(VERSION, KEY_SIZE, s.nKey, Records(s.info, refs), Records(s.info, tried),
          seq(NEW_BUCKET_COUNT, bucket => Indexes(s, bucket, BUCKET_SIZE)))
  }

  lemma RefsBelow(info: Entries, n: int)
    ensures forall k :: 0 <= k < |Below(RefIds(info), n)| ==> Below(RefIds(info), n)[k] in info
    ensures forall k :: 0 <= k < |Below(TriedIds(info), n)| ==> Below(TriedIds(info), n)[k] in info
  {
    forall k | 0 <= k < |Below(RefIds(info), n)|
      ensures Below(RefIds(info), n)[k] in info
    {
      BelowHas(RefIds(info), n, k);
    }
    forall k | 0 <= k < |Below(TriedIds(info), n)|
      ensures Below(TriedIds(info), n)[k] in info
    {
      BelowHas(TriedIds(info), n, k);
    }
  }

  // ---- Unserialize ----

  /** The new table on disk can be used: the format and the number of buckets are ours. */
  predicate Usable(p: Peers) {
    p.nVersion == VERSION && |p.buckets| == NEW_BUCKET_COUNT
  }

  /** Entered under number n, at the end of the random vector. */
  function Entered(t: Tables, n: int, r: Record): Tables {
    var e := FromRecord(r).(nRandomPos := |t.random|);
    t.(info := t.info[n := e], addr := t.addr[e.Net() := n], random := t.random + [n])
  }

  /** When the stored buckets are of no use, an entry is listed where its own source puts it, if that slot is free. */
  function LoadNew(t: Tables, h: Hashing, n: int, r: Record, usable: bool): Tables {
    var t1 := Entered(t, n, r);
    if usable || HomeSlot(t1, h, n) in t1.news then t1 else Reference(t1, n, HomeSlot(t1, h, n))
  }

  function LoadNews(t: Tables, h: Hashing, news: seq<Record>, usable: bool, n: nat): Tables
    requires n <= |news|
  {
    if n == 0 then t else LoadNew(LoadNews(t, h, news, usable, n - 1), h, n - 1, news[n - 1], usable)
  }

  /** A tried entry is lost when its slot is taken. */
  function LoadTried(t: Tables, h: Hashing, r: Record): Tables {
    var slot := h.TriedSlot(t.nKey, r.address.svc);
    if slot in t.tried then t.(nTried := t.nTried - 1) else
    var id := t.nIdCount;
    var e := FromRecord(r).(nRandomPos := |t.random|, fInTried := true);
    t.(nIdCount := id + 1, info := t.info[id := e], addr := t.addr[e.Net() := id],
       random := t.random + [id], tried := t.tried[slot := id])
  }

  function LoadTrieds(t: Tables, h: Hashing, trieds: seq<Record>, n: nat): Tables
    requires n <= |trieds|
  {
    if n == 0 then t else LoadTried(LoadTrieds(t, h, trieds, n - 1), h, trieds[n - 1])
  }

  function Place(t: Tables, h: Hashing, bucket: nat, index: int, nNew: int, usable: bool): Tables {
    if !(0 <= index < nNew && index in t.info) then t else
    var slot := h.NewSlot(t.nKey, t.info[index].address.svc, bucket);
    if usable && slot !in t.news && t.info[index].nRefCount < NEW_BUCKETS_PER_ADDRESS
    then Reference(t, index, slot) else t
  }

  function PlaceBucket(t: Tables, h: Hashing, bucket: nat, indexes: seq<int>, n: nat, nNew: int, usable: bool): Tables
    requires n <= |indexes|
  {
    if n == 0 then t else
    Place(PlaceBucket(t, h, bucket, indexes, n - 1, nNew, usable), h, bucket, indexes[n - 1], nNew, usable)
  }

  function PlaceAll(t: Tables, h: Hashing, buckets: seq<seq<int>>, n: nat, nNew: int, usable: bool): Tables
    requires n <= |buckets|
  {
    if n == 0 then t else
    PlaceBucket(PlaceAll(t, h, buckets, n - 1, nNew, usable), h, n - 1, buckets[n - 1], |buckets[n - 1]|, nNew, usable)
  }

  predicate Unreferenced(t: Tables, id: int) {
    id in t.info && !t.info[id].fInTried && t.info[id].nRefCount == 0
  }

  /** The entries that got no slot are deleted. */
  function Prune(t: Tables, n: nat): Tables {
    if n == 0 then t else
    var t1 := Prune(t, n - 1);
    if Unreferenced(t1, n - 1) && CanDelete(t1, n - 1) then Delete(t1, n - 1) else t1
  }

  function Placed(p: Peers, h: Hashing): Tables {
    var nNew, nTried := |p.news|, |p.trieds|;
    var start := Tables(p.nKey, 0, map[], map[], [], nTried, map[], nNew, map[]);
    var t1 := LoadNews(start, h, p.news, Usable(p), nNew).(nIdCount := nNew);
    PlaceAll(LoadTrieds(t1, h, p.trieds, nTried), h, p.buckets, |p.buckets|, nNew, Usable(p))
  }

  /** Unserialize into a fresh manager; nothing is loaded when the key has the wrong size. */
  function Load(p: Peers, h: Hashing): LoadResult {
    if p.nKeySize != KEY_SIZE then BadKeySize else
    var t := Placed(p, h);
    Loaded(if t.nIdCount >= 0 then Prune(t, t.nIdCount) else t)
  }

  datatype LoadResult = BadKeySize | Loaded(t: Tables)

  // ---- files whose new table is of no use ----

  function HomeOf(key: nat, h: Hashing, r: Record): Slot {
    h.NewSlot(key, r.address.svc, h.NewBucket(key, r.address.svc, r.source))
  }

  ghost predicate FirstAtHome(key: nat, h: Hashing, news: seq<Record>, k: nat)
    requires k < |news|
  {
    forall j :: 0 <= j < k ==> HomeOf(key, h, news[j]) != HomeOf(key, h, news[k])
  }

  /** The first n entries of such a file: each slot has the first of those whose own source puts them there. */
  ghost predicate ListedAtHome(t: Tables, key: nat, h: Hashing, news: seq<Record>, n: nat)
    requires n <= |news|
  {
    && t.nKey == key && |t.random| == n && (forall k :: k in t.info <==> 0 <= k < n)
    && (forall k :: 0 <= k < n ==>
          var nRefs := if FirstAtHome(key, h, news, k) then 1 else 0;
          t.info[k] == FromRecord(news[k]).(nRandomPos := k, nRefCount := nRefs))
    && (forall k :: 0 <= k < n ==> HomeOf(key, h, news[k]) in t.news)
    && (forall slot :: slot in t.news ==>
          && 0 <= t.news[slot] < n && HomeOf(key, h, news[t.news[slot]]) == slot
          && FirstAtHome(key, h, news, t.news[slot]))
  }

  lemma {:induction false} UnusableLists(t0: Tables, h: Hashing, news: seq<Record>, n: nat)
    requires n <= |news| && t0.info == map[] && t0.news == map[] && t0.random == []
    ensures ListedAtHome(LoadNews(t0, h, news, false, n), t0.nKey, h, news, n)
  {
    hide HomeOf, LoadNew, ListedAtHome, FromRecord;
    if n == 0 {
      EmptyIsListed(t0, h, news);
    } else {
      UnusableLists(t0, h, news, n - 1);
      var t := LoadNews(t0, h, news, false, n - 1);
      LoadNewIs(t, h, n - 1, news[n - 1]);
      KeyIs(t, t0.nKey, h, news, n - 1);
      ListedNext(t, LoadNew(t, h, n - 1, news[n - 1], false), t0.nKey, h, news, n - 1);
    }
  }

  lemma EmptyIsListed(t: Tables, h: Hashing, news: seq<Record>)
    requires t.info == map[] && t.news == map[] && t.random == []
    ensures ListedAtHome(t, t.nKey, h, news, 0)
  {
  }

  lemma KeyIs(t: Tables, key: nat, h: Hashing, news: seq<Record>, n: nat)
    requires n <= |news| && ListedAtHome(t, key, h, news, n)
    ensures t.nKey == key && |t.random| == n
  {
  }

  lemma ListedNext(t: Tables, t': Tables, key: nat, h: Hashing, news: seq<Record>, n: nat)
    requires n < |news| && ListedAtHome(t, key, h, news, n) && t'.nKey == key && t'.random == t.random + [n]
    requires var home, e := HomeOf(key, h, news[n]), FromRecord(news[n]).(nRandomPos := n);
             && t'.info == t.info[n := if home in t.news then e else e.(nRefCount := 1)]
             && t'.news == if home in t.news then t.news else t.news[home := n]
    ensures ListedAtHome(t', key, h, news, n + 1)
  {
    hide HomeOf, FirstAtHome;
    assert FromRecord(news[n]).nRefCount == 0;
    hide FromRecord;
    if HomeOf(key, h, news[n]) in t.news { NotFirst(t, key, h, news, n); } else { IsFirst(t, key, h, news, n); }
  }

  lemma LoadNewIs(t: Tables, h: Hashing, n: int, r: Record)
    ensures var t', home := LoadNew(t, h, n, r, false), HomeOf(t.nKey, h, r);
            var e := FromRecord(r).(nRandomPos := |t.random|);
            && t'.nKey == t.nKey && t'.random == t.random + [n]
            && t'.info == t.info[n := if home in t.news then e else e.(nRefCount := 1)]
            && t'.news == if home in t.news then t.news else t.news[home := n]
  {
  }

  lemma NotFirst(t: Tables, key: nat, h: Hashing, news: seq<Record>, n: nat)
    requires n < |news| && ListedAtHome(t, key, h, news, n) && HomeOf(key, h, news[n]) in t.news
    ensures !FirstAtHome(key, h, news, n)
  {
    assert HomeOf(key, h, news[t.news[HomeOf(key, h, news[n])]]) == HomeOf(key, h, news[n]);
  }

  lemma IsFirst(t: Tables, key: nat, h: Hashing, news: seq<Record>, n: nat)
    requires n < |news| && ListedAtHome(t, key, h, news, n) && HomeOf(key, h, news[n]) !in t.news
    ensures FirstAtHome(key, h, news, n)
  {
  }

  /** The stored buckets of such a file change nothing. */
  lemma {:induction false} UnusablePlaces(t: Tables, h: Hashing, buckets: seq<seq<int>>, n: nat, nNew: int)
    requires n <= |buckets|
    ensures PlaceAll(t, h, buckets, n, nNew, false) == t
  {
    if n > 0 {
      UnusablePlaces(t, h, buckets, n - 1, nNew);
      UnusableBucket(t, h, n - 1, buckets[n - 1], |buckets[n - 1]|, nNew);
    }
  }

  lemma {:induction false} UnusableBucket(t: Tables, h: Hashing, bucket: nat, indexes: seq<int>, n: nat, nNew: int)
    requires n <= |indexes|
    ensures PlaceBucket(t, h, bucket, indexes, n, nNew, false) == t
  {
    if n > 0 { UnusableBucket(t, h, bucket, indexes, n - 1, nNew); }
  }

  // ---- the renumbering ----

  /** The place of an entry on disk: listed entries first, then the tried ones. */
  ghost function Rank(s: Tables, id: int): nat {
    if id in s.info && s.info[id].fInTried
    then |Below(RefIds(s.info), s.nIdCount)| + |Below(TriedIds(s.info), id)|
    else UnkId(s.info, id)
  }

  ghost function Order(s: Tables): seq<int> {
    Below(RefIds(s.info), s.nIdCount) + Below(TriedIds(s.info), s.nIdCount)
  }

  lemma RefsAreNew(s: Tables, h: Hashing)
    requires Consistent(s, h)
    ensures RefIds(s.info) == NewIds(s.info)
    ensures |Below(RefIds(s.info), s.nIdCount)| == s.nNew && |Below(TriedIds(s.info), s.nIdCount)| == s.nTried
    ensures s.nNew >= 0 && s.nTried >= 0
  {
    forall id | id in s.info
      ensures s.info[id].nRefCount != 0 <==> !s.info[id].fInTried
    {
      assert RefOk(s.info[id], id, s.news, {});
      if s.info[id].fInTried { TriedHasNoSlots(s, h, id); }
    }
    assert RefIds(s.info) == NewIds(s.info);
    BelowAll(RefIds(s.info), s.nIdCount);
    BelowAll(TriedIds(s.info), s.nIdCount);
  }

  /** Rank and Order are inverse: the renumbering is a bijection between the ids and 0..n-1. */
  lemma RankThenOrder(s: Tables, h: Hashing, id: int)
    requires Consistent(s, h) && id in s.info
    ensures id >= 0 && Rank(s, id) < |Order(s)| && Order(s)[Rank(s, id)] == id
    ensures s.info[id].fInTried <==> Rank(s, id) >= s.nNew
  {
    RefsAreNew(s, h);
    if s.info[id].fInTried {
      BelowAt(TriedIds(s.info), s.nIdCount, id);
    } else {
      BelowAt(RefIds(s.info), s.nIdCount, id);
    }
  }

  lemma OrderThenRank(s: Tables, h: Hashing, k: nat)
    requires Consistent(s, h) && k < |Order(s)|
    ensures Order(s)[k] in s.info && Order(s)[k] >= 0 && Rank(s, Order(s)[k]) == k
    ensures s.info[Order(s)[k]].fInTried <==> k >= s.nNew
  {
    RefsAreNew(s, h);
    if k < s.nNew {
      BelowHas(RefIds(s.info), s.nIdCount, k);
    } else {
      BelowHas(TriedIds(s.info), s.nIdCount, k - s.nNew);
    }
  }

  // ---- what each stage of loading has built ----

  /** The entry that disk number k becomes while the new table is `news`. */
  ghost function Copied(e: Info, k: int, news: Table): Info {
    FromRecord(ToRecord(e)).(nRandomPos := k, fInTried := e.fInTried, nRefCount := |SlotsOf(news, k)|)
  }

  ghost function Renamed(s: Tables, t: Table): Table {
    map slot | slot in t :: Rank(s, t[slot])
  }

  ghost function InfoUpTo(s: Tables, n: nat, news: Table): Entries {
    map k | 0 <= k < n && k < |Order(s)| && Order(s)[k] in s.info :: Copied(s.info[Order(s)[k]], k, news)
  }

  ghost function AddrUpTo(s: Tables, n: nat): map<NetAddr, int> {
    map a | a in s.addr && Rank(s, s.addr[a]) < n :: Rank(s, s.addr[a])
  }

  ghost function TriedUpTo(s: Tables, n: nat): Table {
    map slot | slot in s.tried && Rank(s, s.tried[slot]) < n :: Rank(s, s.tried[slot])
  }

  /** The first n entries in disk order, with the new table as far as it has been rebuilt. */
  ghost function Rebuilt(s: Tables, n: nat, nIdCount: int, news: Table): Tables {
    Tables(s.nKey, nIdCount, InfoUpTo(s, n, news), AddrUpTo(s, n), seq(n, k => k), s.nTried, TriedUpTo(s, n),
           s.nNew, news)
  }

  lemma OrderKnown(s: Tables, h: Hashing)
    requires Consistent(s, h)
    ensures forall k :: 0 <= k < |Order(s)| ==> Order(s)[k] in s.info
    ensures |Order(s)| == s.nNew + s.nTried
  {
    RefsAreNew(s, h);
    RefsBelow(s.info, s.nIdCount);
  }

  lemma NoneListed(k: int)
    ensures |SlotsOf(map[], k)| == 0
  {
    NoSlots(map[], k);
  }

  lemma AddrRanks(s: Tables, h: Hashing, a: NetAddr)
    requires Consistent(s, h) && a in s.addr
    ensures s.addr[a] in s.info && s.addr[a] >= 0 && s.info[s.addr[a]].Net() == a
    ensures Rank(s, s.addr[a]) < |Order(s)| && Order(s)[Rank(s, s.addr[a])] == s.addr[a]
  {
    RankThenOrder(s, h, s.addr[a]);
  }

  lemma TriedRanks(s: Tables, h: Hashing, slot: Slot)
    requires Consistent(s, h) && slot in s.tried
    ensures s.tried[slot] in s.info && s.tried[slot] >= 0
    ensures slot == h.TriedSlot(s.nKey, s.info[s.tried[slot]].address.svc)
    ensures s.nNew <= Rank(s, s.tried[slot]) < |Order(s)| && Order(s)[Rank(s, s.tried[slot])] == s.tried[slot]
  {
    RankThenOrder(s, h, s.tried[slot]);
  }

  lemma NewsRanks(s: Tables, h: Hashing, slot: Slot)
    requires Consistent(s, h) && slot in s.news
    ensures s.news[slot] in s.info && s.news[slot] >= 0 && !s.info[s.news[slot]].fInTried
    ensures slot == h.NewSlot(s.nKey, s.info[s.news[slot]].address.svc, slot.bucket)
    ensures 0 <= slot.bucket < NEW_BUCKET_COUNT
    ensures Rank(s, s.news[slot]) == UnkId(s.info, s.news[slot]) < s.nNew
    ensures Rank(s, s.news[slot]) < |Order(s)| && Order(s)[Rank(s, s.news[slot])] == s.news[slot]
  {
    RankThenOrder(s, h, s.news[slot]);
  }

  /** The address map, one entry further. */
  lemma AddrGrows(s: Tables, h: Hashing, n: nat)
    requires Consistent(s, h) && n < |Order(s)| && Order(s)[n] in s.info
    ensures AddrUpTo(s, n + 1) == AddrUpTo(s, n)[s.info[Order(s)[n]].Net() := n]
  {
    hide RandomOk, CountsOk, TriedOk, NewsOk, RefsOk, TimesOk, Rank, Order;
    OrderThenRank(s, h, n);
    var net := s.info[Order(s)[n]].Net();
    assert net in s.addr && s.addr[net] == Order(s)[n];
    forall a | a in s.addr
      ensures Rank(s, s.addr[a]) == n <==> a == net
    {
      AddrRanks(s, h, a);
    }
  }

  lemma InfoGrows(s: Tables, n: nat, news: Table)
    requires n < |Order(s)| && Order(s)[n] in s.info
    ensures InfoUpTo(s, n + 1, news) == InfoUpTo(s, n, news)[n := Copied(s.info[Order(s)[n]], n, news)]
  {
    hide Order, Copied;
  }

  lemma OrderIsTried(s: Tables, h: Hashing, n: nat)
    requires Consistent(s, h) && s.nNew <= n < |Order(s)|
    ensures Order(s)[n] in s.info
    ensures var slot := h.TriedSlot(s.nKey, s.info[Order(s)[n]].address.svc);
            slot in s.tried && s.tried[slot] == Order(s)[n]
  {
    OrderThenRank(s, h, n);
  }

  /** While only listed entries are loaded the tried table stays empty; after that each finds its own slot free. */
  lemma TriedGrows(s: Tables, h: Hashing, n: nat)
    requires Consistent(s, h) && n < |Order(s)| && Order(s)[n] in s.info
    ensures var slot := h.TriedSlot(s.nKey, s.info[Order(s)[n]].address.svc);
            if n < s.nNew then TriedUpTo(s, n + 1) == TriedUpTo(s, n)
            else slot !in TriedUpTo(s, n) && TriedUpTo(s, n + 1) == TriedUpTo(s, n)[slot := n]
  {
    hide Core, Rank, Order;
    OrderThenRank(s, h, n);
    var slot := h.TriedSlot(s.nKey, s.info[Order(s)[n]].address.svc);
    if n >= s.nNew { OrderIsTried(s, h, n); }
    forall l | l in s.tried
      ensures Rank(s, s.tried[l]) == n ==> n >= s.nNew && l == slot
    {
      TriedRanks(s, h, l);
    }
  }

  // ---- the stages of loading what was saved ----

  lemma SavedRecord(s: Tables, h: Hashing, n: nat)
    requires Consistent(s, h) && n < |Order(s)|
    ensures |Save(s).news| == s.nNew && |Save(s).trieds| == s.nTried && |Order(s)| == s.nNew + s.nTried
    ensures Order(s)[n] in s.info && (s.info[Order(s)[n]].fInTried <==> n >= s.nNew)
    ensures ToRecord(s.info[Order(s)[n]]) == if n < s.nNew then Save(s).news[n] else Save(s).trieds[n - s.nNew]
  {
    RefsAreNew(s, h);
    OrderThenRank(s, h, n);
  }

  lemma LoadNewStep(s: Tables, h: Hashing, n: nat)
    requires Consistent(s, h) && n < s.nNew && n < |Order(s)| && Order(s)[n] in s.info && !s.info[Order(s)[n]].fInTried
    ensures LoadNew(Rebuilt(s, n, 0, map[]), h, n, ToRecord(s.info[Order(s)[n]]), true) == Rebuilt(s, n + 1, 0, map[])
  {
    hide Consistent, Order, InfoUpTo, AddrUpTo, TriedUpTo, SlotsOf;
    InfoGrows(s, n, map[]);
    AddrGrows(s, h, n);
    TriedGrows(s, h, n);
    NoneListed(n);
  }

  lemma LoadTriedStep(s: Tables, h: Hashing, n: nat)
    requires Consistent(s, h) && s.nNew <= n < |Order(s)| && Order(s)[n] in s.info && s.info[Order(s)[n]].fInTried
    ensures LoadTried(Rebuilt(s, n, n, map[]), h, ToRecord(s.info[Order(s)[n]])) == Rebuilt(s, n + 1, n + 1, map[])
  {
    hide Consistent, Order, InfoUpTo, AddrUpTo, TriedUpTo, SlotsOf;
    InfoGrows(s, n, map[]);
    AddrGrows(s, h, n);
    TriedGrows(s, h, n);
    NoneListed(n);
  }

  lemma {:induction false} LoadNewsStage(s: Tables, h: Hashing, n: nat)
    requires Consistent(s, h) && n <= s.nNew == |Save(s).news| && s.nNew <= |Order(s)|
    ensures LoadNews(Rebuilt(s, 0, 0, map[]), h, Save(s).news, true, n) == Rebuilt(s, n, 0, map[])
  {
    hide Consistent, Save, Order, Rebuilt, LoadNew, ToRecord;
    if n > 0 {
      SavedRecord(s, h, n - 1);
      LoadNewsStage(s, h, n - 1);
      LoadNewStep(s, h, n - 1);
    }
  }

  lemma {:induction false} LoadTriedsStage(s: Tables, h: Hashing, n: nat)
    requires Consistent(s, h) && n <= s.nTried == |Save(s).trieds| && s.nNew >= 0 && |Order(s)| == s.nNew + s.nTried
    ensures LoadTrieds(Rebuilt(s, s.nNew, s.nNew, map[]), h, Save(s).trieds, n)
            == Rebuilt(s, s.nNew + n, s.nNew + n, map[])
  {
    hide Consistent, Save, Order, Rebuilt, LoadTried, ToRecord;
    if n > 0 {
      SavedRecord(s, h, s.nNew + n - 1);
      LoadTriedsStage(s, h, n - 1);
      LoadTriedStep(s, h, s.nNew + n - 1);
    }
  }

  // ---- putting the listed entries back into their slots ----

  /** The new table before position n of a bucket. */
  ghost function NewsBefore(s: Tables, bucket: nat, n: nat): Table {
    map slot | slot in s.news && (slot.bucket < bucket || (slot.bucket == bucket && slot.pos < n)) ::
      Rank(s, s.news[slot])
  }

  /** Renaming keeps the slots of each entry. */
  lemma RenamedSlots(s: Tables, h: Hashing, k: nat)
    requires Consistent(s, h) && k < |Order(s)|
    ensures SlotsOf(Renamed(s, s.news), k) == SlotsOf(s.news, Order(s)[k])
  {
    hide Core, Order, Rank;
    OrderThenRank(s, h, k);
    forall slot | slot in s.news
      ensures Rank(s, s.news[slot]) == k <==> s.news[slot] == Order(s)[k]
    {
      NewsRanks(s, h, slot);
    }
  }

  /** The slot about to be filled has room under the limit on references. */
  lemma RoomLeft(s: Tables, h: Hashing, bucket: nat, n: nat)
    requires Consistent(s, h) && Slot(bucket, n) in s.news
    ensures var k := Rank(s, s.news[Slot(bucket, n)]); |SlotsOf(NewsBefore(s, bucket, n), k)| < NEW_BUCKETS_PER_ADDRESS
  {
    var slot := Slot(bucket, n);
    var k := Rank(s, s.news[slot]);
    NewsRanks(s, h, slot);
    RenamedSlots(s, h, k);
    hide Rank, Order;
    assert RefOk(s.info[s.news[slot]], s.news[slot], s.news, {});
    var before, all := SlotsOf(NewsBefore(s, bucket, n), k), SlotsOf(Renamed(s, s.news), k);
    assert before <= all - {slot};
    SubsetSize(before, all - {slot});
  }

  lemma Relisted(s: Tables, n: nat, k: nat, slot: Slot, t: Table)
    requires slot !in t && k in InfoUpTo(s, n, t)
    ensures InfoUpTo(s, n, t)[k := InfoUpTo(s, n, t)[k].(nRefCount := InfoUpTo(s, n, t)[k].nRefCount + 1)]
            == InfoUpTo(s, n, t[slot := k])
  {
    hide Order;
    forall i | i in InfoUpTo(s, n, t)
      ensures |SlotsOf(t[slot := k], i)| == |SlotsOf(t, i)| + (if k == i then 1 else 0)
    {
      SlotsWith(t, slot, k, i);
    }
  }

  lemma PlaceStep(s: Tables, h: Hashing, bucket: nat, n: nat)
    requires Consistent(s, h) && Slot(bucket, n) in s.news
    ensures var N := |Order(s)|;
            Place(Rebuilt(s, N, N, NewsBefore(s, bucket, n)), h, bucket, Rank(s, s.news[Slot(bucket, n)]), s.nNew, true)
            == Rebuilt(s, N, N, NewsBefore(s, bucket, n + 1))
  {
    hide Core, Rank, Order, SlotsOf;
    var slot := Slot(bucket, n);
    var k, t := Rank(s, s.news[slot]), NewsBefore(s, bucket, n);
    NewsRanks(s, h, slot);
    RoomLeft(s, h, bucket, n);
    Relisted(s, |Order(s)|, k, slot, t);
    assert NewsBefore(s, bucket, n + 1) == t[slot := k];
  }

  lemma {:induction false} PlacePrefix(t: Tables, h: Hashing, bucket: nat, xs: seq<int>, x: int, n: nat, nNew: int,
                                       usable: bool)
    requires n <= |xs|
    ensures PlaceBucket(t, h, bucket, xs + [x], n, nNew, usable) == PlaceBucket(t, h, bucket, xs, n, nNew, usable)
  {
    if n > 0 {
      PlacePrefix(t, h, bucket, xs, x, n - 1, nNew, usable);
    }
  }

  lemma {:induction false} PlaceBucketStage(s: Tables, h: Hashing, bucket: nat, n: nat)
    requires Consistent(s, h)
    ensures var N, xs := |Order(s)|, Indexes(s, bucket, n);
            PlaceBucket(Rebuilt(s, N, N, NewsBefore(s, bucket, 0)), h, bucket, xs, |xs|, s.nNew, true)
            == Rebuilt(s, N, N, NewsBefore(s, bucket, n))
  {
    hide Consistent, Rebuilt, Order, Place, Rank;
    if n > 0 {
      PlaceBucketStage(s, h, bucket, n - 1);
      var slot, xs := Slot(bucket, n - 1), Indexes(s, bucket, n - 1);
      if slot in s.news {
        NewsRanks(s, h, slot);
        PlacePrefix(Rebuilt(s, |Order(s)|, |Order(s)|, NewsBefore(s, bucket, 0)), h, bucket, xs, Rank(s, s.news[slot]),
                    |xs|, s.nNew, true);
        PlaceStep(s, h, bucket, n - 1);
      } else {
        assert Indexes(s, bucket, n) == xs;
        assert NewsBefore(s, bucket, n) == NewsBefore(s, bucket, n - 1);
      }
    }
  }

  lemma BucketDone(s: Tables, h: Hashing, bucket: nat)
    requires Consistent(s, h)
    ensures NewsBefore(s, bucket, BUCKET_SIZE) == NewsBefore(s, bucket + 1, 0)
    ensures NewsBefore(s, NEW_BUCKET_COUNT, 0) == Renamed(s, s.news) && NewsBefore(s, 0, 0) == map[]
  {
    hide Core, Rank, Order;
    forall slot | slot in s.news
      ensures 0 <= slot.bucket < NEW_BUCKET_COUNT && 0 <= slot.pos < BUCKET_SIZE
    {
      NewsRanks(s, h, slot);
    }
  }

  lemma {:induction false} PlaceAllStage(s: Tables, h: Hashing, n: nat)
    requires Consistent(s, h) && n <= NEW_BUCKET_COUNT
    ensures var N := |Order(s)|;
            PlaceAll(Rebuilt(s, N, N, NewsBefore(s, 0, 0)), h, Save(s).buckets, n, s.nNew, true)
            == Rebuilt(s, N, N, NewsBefore(s, n, 0))
  {
    hide Consistent, Rebuilt, Order, PlaceBucket, Rank, Indexes, NewsBefore;
    if n > 0 {
      PlaceAllStage(s, h, n - 1);
      PlaceBucketStage(s, h, n - 1, BUCKET_SIZE);
      BucketDone(s, h, n - 1);
    }
  }

  lemma {:induction false} NothingToPrune(t: Tables, n: nat)
    requires forall id :: 0 <= id < n ==> !Unreferenced(t, id)
    ensures Prune(t, n) == t
  {
    if n > 0 {
      NothingToPrune(t, n - 1);
    }
  }

  /** What loading makes of the tables: every entry under its disk number, in the same slots. */
  ghost function Renumbered(s: Tables): Tables {
    Rebuilt(s, |Order(s)|, |Order(s)|, Renamed(s, s.news))
  }

  /** A saved address manager loads completely: no entry is lost and only the ids change. */
  lemma LoadsWhatWasSaved(s: Tables, h: Hashing)
    requires Consistent(s, h)
    ensures Load(Save(s), h) == Loaded(Renumbered(s))
  {
    var N := |Order(s)|;
    RefsAreNew(s, h);
    OrderKnown(s, h);
    StartIsRebuilt(s);
    hide Consistent, Order, Rebuilt, LoadNews, LoadTrieds, PlaceAll, Renamed, Prune;
    LoadNewsStage(s, h, s.nNew);
    NumberedIsRebuilt(s, s.nNew);
    LoadTriedsStage(s, h, s.nTried);
    PlaceAllStage(s, h, NEW_BUCKET_COUNT);
    BucketDone(s, h, 0);
    assert Placed(Save(s), h) == Renumbered(s);
    forall id | 0 <= id < N
      ensures !Unreferenced(Renumbered(s), id)
    {
      RenumberedEntry(s, h, id);
    }
    RebuiltCount(s, N, Renamed(s, s.news));
    NothingToPrune(Renumbered(s), N);
  }

  lemma StartIsRebuilt(s: Tables)
    ensures Rebuilt(s, 0, 0, map[]) == Tables(s.nKey, 0, map[], map[], [], s.nTried, map[], s.nNew, map[])
  {
  }

  lemma NumberedIsRebuilt(s: Tables, n: nat)
    ensures Rebuilt(s, n, 0, map[]).(nIdCount := n) == Rebuilt(s, n, n, map[])
  {
  }

  lemma RebuiltCount(s: Tables, n: nat, t: Table)
    ensures Rebuilt(s, n, n, t).nIdCount == n
  {
  }

  /** Each loaded entry is the saved one but for its place in the vector and its last attempt. */
  lemma RenumberedEntry(s: Tables, h: Hashing, k: nat)
    requires Consistent(s, h) && k < |Order(s)|
    ensures Order(s)[k] in s.info && k in Renumbered(s).info && !Unreferenced(Renumbered(s), k)
    ensures Renumbered(s).info[k] == s.info[Order(s)[k]].(nLastTry := 0, nRandomPos := k)
    ensures RefOk(s.info[Order(s)[k]], Order(s)[k], s.news, {})
  {
    OrderThenRank(s, h, k);
    RenamedSlots(s, h, k);
    hide SlotsOf, Order, Renamed, Rank;
    assert RefOk(s.info[Order(s)[k]], Order(s)[k], s.news, {});
  }

  // ---- the loaded manager is consistent ----

  /** The entries in disk order, numbered from 0. */
  ghost predicate Moved(s: Tables, info: Entries) {
    && (forall k :: k in info <==> 0 <= k < |Order(s)|)
    && (forall k :: 0 <= k < |Order(s)| ==>
          Order(s)[k] in s.info && info[k] == s.info[Order(s)[k]].(nLastTry := 0, nRandomPos := k))
  }

  ghost function RenamedAddr(s: Tables): map<NetAddr, int> {
    map a | a in s.addr :: Rank(s, s.addr[a])
  }

  lemma RenumberedIsMoved(s: Tables, h: Hashing)
    requires Consistent(s, h)
    ensures Moved(s, Renumbered(s).info)
  {
    OrderKnown(s, h);
    hide Consistent, Order, Copied;
    forall k | 0 <= k < |Order(s)|
      ensures Renumbered(s).info[k] == s.info[Order(s)[k]].(nLastTry := 0, nRandomPos := k)
    {
      RenumberedEntry(s, h, k);
    }
  }

  lemma RenumberedTables(s: Tables, h: Hashing)
    requires Consistent(s, h)
    ensures Renumbered(s).addr == RenamedAddr(s) && Renumbered(s).tried == Renamed(s, s.tried)
  {
    hide Consistent, Order, Rank, InfoUpTo;
    forall a | a in s.addr
      ensures Rank(s, s.addr[a]) < |Order(s)|
    {
      AddrRanks(s, h, a);
    }
    forall slot | slot in s.tried
      ensures Rank(s, s.tried[slot]) < |Order(s)|
    {
      TriedRanks(s, h, slot);
    }
  }

  lemma MovedAddr(s: Tables, h: Hashing, info: Entries)
    requires Consistent(s, h) && Moved(s, info)
    ensures AddrOk(info, RenamedAddr(s))
  {
    hide Consistent, Order, Rank;
    forall a | a in s.addr
      ensures Rank(s, s.addr[a]) < |Order(s)| && info[Rank(s, s.addr[a])].Net() == a
    {
      AddrRanks(s, h, a);
    }
    forall k | 0 <= k < |Order(s)|
      ensures var net := info[k].Net(); net in s.addr && Rank(s, s.addr[net]) == k
    {
      EntryAddr(s, h, k);
    }
  }

  lemma EntryAddr(s: Tables, h: Hashing, k: nat)
    requires Consistent(s, h) && k < |Order(s)| && Order(s)[k] in s.info
    ensures var net := s.info[Order(s)[k]].Net(); net in s.addr && Rank(s, s.addr[net]) == k
  {
    OrderThenRank(s, h, k);
  }

  ghost function Range(lo: int, hi: int): (r: set<int>)
    ensures forall k :: k in r <==> lo <= k < hi
    ensures lo <= hi ==> |r| == hi - lo
    decreases hi - lo
  {
    if lo >= hi then {} else Range(lo, hi - 1) + {hi - 1}
  }

  lemma EntrySizes(s: Tables, h: Hashing)
    requires Consistent(s, h)
    ensures s.nNew >= 0 && s.nTried >= 0 && |Order(s)| == s.nNew + s.nTried == |s.info|
  {
    RefsAreNew(s, h);
    OrderKnown(s, h);
    hide RandomOk, AddrOk, TriedOk, NewsOk, RefsOk, TimesOk, Order, Below;
    assert s.info.Keys == TriedIds(s.info) + NewIds(s.info) && TriedIds(s.info) !! NewIds(s.info);
  }

  lemma NumberedCounts(info: Entries, nNew: nat, nTried: nat)
    requires forall k :: k in info <==> 0 <= k < nNew + nTried
    requires forall k :: 0 <= k < nNew + nTried ==> (info[k].fInTried <==> k >= nNew)
    ensures |TriedIds(info)| == nTried && |NewIds(info)| == nNew && |info| == nNew + nTried
  {
    assert TriedIds(info) == Range(nNew, nNew + nTried);
    assert NewIds(info) == Range(0, nNew);
    assert info.Keys == Range(0, nNew + nTried);
  }

  lemma MovedCounts(s: Tables, h: Hashing, info: Entries)
    requires Consistent(s, h) && Moved(s, info)
    ensures CountsOk(info, s.nTried, s.nNew, 0) && |info| == |s.info|
  {
    hide Consistent, Order, Rank, TriedIds, NewIds;
    EntrySizes(s, h);
    forall k | 0 <= k < |Order(s)|
      ensures info[k].fInTried <==> k >= s.nNew
    {
      OrderThenRank(s, h, k);
    }
    NumberedCounts(info, s.nNew, s.nTried);
  }

  lemma MovedTried(s: Tables, h: Hashing, info: Entries)
    requires Consistent(s, h) && Moved(s, info)
    ensures TriedOk(info, Renamed(s, s.tried), s.nKey, h)
  {
    hide Consistent, Order, Rank;
    forall slot | slot in s.tried
      ensures var k := Rank(s, s.tried[slot]);
              k < |Order(s)| && slot == h.TriedSlot(s.nKey, info[k].address.svc) && info[k].fInTried
    {
      TriedRanks(s, h, slot);
      RankThenOrder(s, h, s.tried[slot]);
    }
    forall k | 0 <= k < |Order(s)| && info[k].fInTried
      ensures var slot := h.TriedSlot(s.nKey, info[k].address.svc); slot in s.tried && Rank(s, s.tried[slot]) == k
    {
      OrderThenRank(s, h, k);
      OrderIsTried(s, h, k);
    }
  }

  lemma MovedNews(s: Tables, h: Hashing, info: Entries)
    requires Consistent(s, h) && Moved(s, info)
    ensures NewsOk(info, Renamed(s, s.news), s.nKey, h)
  {
    hide Consistent, Order, Rank;
    forall slot | slot in s.news
      ensures var k := Rank(s, s.news[slot]);
              && k < |Order(s)| && !info[k].fInTried && 0 <= slot.bucket < NEW_BUCKET_COUNT
              && slot == h.NewSlot(s.nKey, info[k].address.svc, slot.bucket)
    {
      NewsRanks(s, h, slot);
    }
  }

  lemma MovedRefs(s: Tables, h: Hashing, info: Entries)
    requires Consistent(s, h) && Moved(s, info)
    ensures RefsOk(info, Renamed(s, s.news), {}) && TimesOk(info, |Order(s)|)
  {
    hide Consistent, Order, Rank, SlotsOf;
    forall k | 0 <= k < |Order(s)|
      ensures RefOk(info[k], k, Renamed(s, s.news), {}) && TimeOk(info[k])
    {
      RenamedSlots(s, h, k);
      EntryChecks(s, h, Order(s)[k]);
    }
  }

  lemma EntryChecks(s: Tables, h: Hashing, id: int)
    requires Consistent(s, h) && id in s.info
    ensures TimeOk(s.info[id]) && RefOk(s.info[id], id, s.news, {})
  {
  }

  lemma RenumberedIsConsistent(s: Tables, h: Hashing)
    requires Consistent(s, h)
    ensures Consistent(Renumbered(s), h)
  {
    hide AddrOk, CountsOk, TriedOk, NewsOk, RefsOk, TimesOk, Order, InfoUpTo, AddrUpTo, TriedUpTo, Renamed;
    var info := Renumbered(s).info;
    RenumberedIsMoved(s, h);
    RenumberedTables(s, h);
    MovedAddr(s, h, info);
    MovedCounts(s, h, info);
    MovedTried(s, h, info);
    MovedNews(s, h, info);
    MovedRefs(s, h, info);
  }

  /** Ids become 0, 1, 2, ...; nothing else changes but the attempt times, which are not stored. */
  ghost predicate SameUpToIds(s: Tables, t: Tables) {
    && t.nKey == s.nKey && t.nNew == s.nNew && t.nTried == s.nTried && |t.info| == |s.info|
    && (forall id :: id in s.info ==> EntryMoved(s, t, id))
    && (forall i, j :: i in s.info && j in s.info && Rank(s, i) == Rank(s, j) ==> i == j)
    && t.news == Renamed(s, s.news) && t.tried == Renamed(s, s.tried) && t.addr == RenamedAddr(s)
  }

  ghost predicate EntryMoved(s: Tables, t: Tables, id: int) {
    && id in s.info && Rank(s, id) in t.info
    && t.info[Rank(s, id)] == s.info[id].(nLastTry := 0, nRandomPos := Rank(s, id))
  }

  lemma RenumberedIsSame(s: Tables, h: Hashing)
    requires Consistent(s, h)
    ensures SameUpToIds(s, Renumbered(s))
  {
    hide Consistent, Order, Rank, InfoUpTo, AddrUpTo, TriedUpTo, Renamed, RenamedAddr;
    RenumberedIsMoved(s, h);
    RenumberedTables(s, h);
    MovedCounts(s, h, Renumbered(s).info);
    forall id | id in s.info
      ensures Rank(s, id) < |Order(s)| && Order(s)[Rank(s, id)] == id && EntryMoved(s, Renumbered(s), id)
    {
      RankThenOrder(s, h, id);
    }
  }

  /** Saving and loading again: a consistent manager with the same addresses in the same slots, none lost. */
  lemma SaveLoadRoundTrip(s: Tables, h: Hashing)
    requires Consistent(s, h)
    ensures var r := Load(Save(s), h);
            r.Loaded? && Consistent(r.t, h) && SameUpToIds(s, r.t)
  {
    hide Consistent, SameUpToIds, Load, Save;
    LoadsWhatWasSaved(s, h);
    RenumberedIsSame(s, h);
    RenumberedIsConsistent(s, h);
  }
}
