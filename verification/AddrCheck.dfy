/** CAddrMan::Check_, the self-test of the address manager, and what it accepts. */
module AddrCheck {
  import opened Common
  import opened AddrTables
  import opened AddrOps
  import opened AddrMan

  /** Reading a map with operator[]: a missing entry reads as zero. */
  function Get(addr: map<NetAddr, int>, net: NetAddr): int {
    if net in addr then addr[net] else 0
  }

  predicate EntryPasses(e: Info, id: int, addr: map<NetAddr, int>, random: seq<int>) {
    && (if e.fInTried then e.nLastSuccess != 0 && e.nRefCount == 0 else 1 <= e.nRefCount <= NEW_BUCKETS_PER_ADDRESS)
    && Get(addr, e.Net()) == id && 0 <= e.nRandomPos < |random| && random[e.nRandomPos] == id
    && e.nLastTry >= 0 && e.nLastSuccess >= 0
  }

  ghost predicate EntriesPass(s: Tables) {
    forall id :: id in s.info ==> EntryPasses(s.info[id], id, s.addr, s.random)
  }

  predicate TriedPasses(info: Entries, key: nat, h: Hashing, slot: Slot, id: int) {
    id in info && info[id].fInTried && slot == h.TriedSlot(key, info[id].address.svc)
  }

  predicate NewPasses(info: Entries, key: nat, h: Hashing, slot: Slot, id: int)
    requires slot.bucket >= 0
  {
    id in info && !info[id].fInTried && slot == h.NewSlot(key, info[id].address.svc, slot.bucket)
  }

  ghost predicate TriedTablePasses(s: Tables, h: Hashing) {
    && (forall slot :: slot in s.tried ==> TriedPasses(s.info, s.nKey, h, slot, s.tried[slot]))
    && TriedIds(s.info) <= s.tried.Values
  }

  /** Every slot is where its entry belongs, and each entry has as many slots as it counts. */
  ghost predicate NewTablePasses(s: Tables, h: Hashing) {
    && (forall slot :: slot in s.news ==> slot.bucket >= 0 && NewPasses(s.info, s.nKey, h, slot, s.news[slot]))
    && (forall id :: id in NewIds(s.info) ==> |SlotsOf(s.news, id)| == s.info[id].nRefCount)
  }

  /** All that Check_ tests but the key. */
  ghost predicate Passes(s: Tables, h: Hashing) {
    && |s.random| == s.nTried + s.nNew && EntriesPass(s)
    && |TriedIds(s.info)| == s.nTried && |NewIds(s.info)| == s.nNew
    && TriedTablePasses(s, h) && NewTablePasses(s, h)
  }

  ghost function RefCounts(info: Entries): map<int, int> {
    map id | id in NewIds(info) :: info[id].nRefCount
  }

  /** Reading mapAddr may add an entry, but only for an address that should have had one. */
  ghost predicate ReadOnly(info: Entries, addr0: map<NetAddr, int>, addr: map<NetAddr, int>) {
    && (forall net :: Get(addr, net) == Get(addr0, net))
    && ((forall id :: id in info ==> info[id].Net() in addr0) ==> addr == addr0)
  }

  method CheckEntry(m: CAddrMan, n: int) returns (code: int)
    requires n in m.mapInfo
    modifies m`mapAddr
    ensures code <= 0 && code != -7 && code != -16
    ensures code == 0 <==> EntryPasses(m.mapInfo[n], n, old(m.mapAddr), m.vRandom)
    ensures ReadOnly(m.mapInfo, old(m.mapAddr), m.mapAddr)
  {
    var info := m.mapInfo[n];
    if info.fInTried {
      if info.nLastSuccess == 0 { return -1; }
      if info.nRefCount != 0 { return -2; }
    } else {
      if info.nRefCount < 0 || info.nRefCount > NEW_BUCKETS_PER_ADDRESS { return -3; }
      if info.nRefCount == 0 { return -4; }
    }
    if info.Net() !in m.mapAddr {
      m.mapAddr := m.mapAddr[info.Net() := 0];
    }
    if m.mapAddr[info.Net()] != n { return -5; }
    if info.nRandomPos < 0 || info.nRandomPos >= |m.vRandom| || m.vRandom[info.nRandomPos] != n { return -14; }
    if info.nLastTry < 0 { return -6; }
    if info.nLastSuccess < 0 { return -8; }
    code := 0;
  }

  /** What the first loop has found when the entries in `todo` are still to be looked at. */
  ghost predicate EntriesSoFar(s: Tables, todo: set<int>, setTried: set<int>, mapNew: map<int, int>) {
    && todo <= s.info.Keys && setTried == TriedIds(s.info) - todo && mapNew == RefCounts(s.info) - todo
    && forall id :: id in s.info && id !in todo ==> EntryPasses(s.info[id], id, s.addr, s.random)
  }

  lemma OneMoreEntry(s: Tables, todo: set<int>, setTried: set<int>, mapNew: map<int, int>, n: int)
    requires EntriesSoFar(s, todo, setTried, mapNew) && n in todo && EntryPasses(s.info[n], n, s.addr, s.random)
    ensures EntriesSoFar(s, todo - {n}, if s.info[n].fInTried then setTried + {n} else setTried,
                         if s.info[n].fInTried then mapNew else mapNew[n := s.info[n].nRefCount])
  {
    hide EntryPasses;
  }

  /** The first loop, over the entries in any order. */
  method CheckEntries(m: CAddrMan) returns (code: int, setTried: set<int>, mapNew: map<int, int>)
    modifies m`mapAddr
    ensures code <= 0 && code != -7 && code != -16 && (code == 0 <==> EntriesPass(old(m.Abs())))
    ensures code == 0 ==> setTried == TriedIds(m.mapInfo) && mapNew == RefCounts(m.mapInfo)
    ensures ReadOnly(m.mapInfo, old(m.mapAddr), m.mapAddr)
  {
    hide EntryPasses, Listing, RefCounts, TriedIds;
    ghost var s := m.Abs();
    setTried, mapNew := {}, map[];
    var todo := set id | id in m.mapInfo;
    NoEntries(s);
    while todo != {}
      invariant ReadOnly(m.mapInfo, s.addr, m.mapAddr)
      invariant EntriesSoFar(s, todo, setTried, mapNew)
      decreases todo
    {
      var n := Some(todo);
      var info := m.mapInfo[n];
      SameReading(s.info[n], n, s.addr, m.mapAddr, s.random);
      code := CheckEntry(m, n);
      if code != 0 { return; }
      OneMoreEntry(s, todo, setTried, mapNew, n);
      if info.fInTried {
        setTried := setTried + {n};
      } else {
        mapNew := mapNew[n := info.nRefCount];
      }
      todo := todo - {n};
    }
    code := 0;
  }

  method Some<T>(xs: set<T>) returns (x: T)
    requires xs != {}
    ensures x in xs
  {
    x :| x in xs;
  }

  lemma NoEntries(s: Tables)
    ensures EntriesSoFar(s, set id | id in s.info, {}, map[])
  {
    var ids := set id | id in s.info;
    assert TriedIds(s.info) - ids == {};
    assert forall id :: id in RefCounts(s.info) ==> id in ids;
    assert (RefCounts(s.info) - ids).Keys == {};
  }

  lemma SameReading(e: Info, id: int, addr0: map<NetAddr, int>, addr: map<NetAddr, int>, random: seq<int>)
    requires forall net :: Get(addr, net) == Get(addr0, net)
    ensures EntryPasses(e, id, addr, random) == EntryPasses(e, id, addr0, random)
  {
  }

  // ---- the loops over the buckets ----

  /** The slots that a loop over buckets and positions has passed. */
  ghost predicate Before(slot: Slot, n: int, i: int) {
    slot.bucket < n || (slot.bucket == n && slot.pos < i)
  }

  ghost function Passed(t: Table, n: int, i: int): Table {
    map slot | slot in t && Before(slot, n, i) :: t[slot]
  }

  lemma NextSlot(t: Table, n: int, i: int)
    ensures var slot := Slot(n, i);
            && slot !in Passed(t, n, i)
            && Passed(t, n, i + 1) == if slot in t then Passed(t, n, i)[slot := t[slot]] else Passed(t, n, i)
  {
  }

  /** Slots of a table lie inside its buckets. */
  ghost predicate Inside(t: Table, buckets: int) {
    forall slot :: slot in t ==> 0 <= slot.bucket < buckets && 0 <= slot.pos < BUCKET_SIZE
  }

  lemma NextBucket(t: Table, n: int, buckets: int)
    requires Inside(t, buckets)
    ensures Passed(t, n, BUCKET_SIZE) == Passed(t, n + 1, 0)
    ensures Passed(t, 0, 0) == map[] && Passed(t, buckets, 0) == t
  {
  }

  /** What the second loop has left of setTried, when the slots in `t` have passed. */
  ghost predicate TriedSoFar(s: Tables, h: Hashing, left: set<int>, t: Table) {
    && (forall slot :: slot in t ==> TriedPasses(s.info, s.nKey, h, slot, t[slot]))
    && left == TriedIds(s.info) - t.Values
  }

  lemma NextTried(s: Tables, h: Hashing, left: set<int>, t: Table, slot: Slot, id: int)
    requires TriedSoFar(s, h, left, t) && slot !in t
    ensures id in left && TriedPasses(s.info, s.nKey, h, slot, id) ==> TriedSoFar(s, h, left - {id}, t[slot := id])
    ensures id !in left ==> !TriedPasses(s.info, s.nKey, h, slot, id)
  {
    var t' := t[slot := id];
    forall v | v in t.Values + {id}
      ensures v in t'.Values
    {
      if v in t.Values {
        var other :| other in t && t[other] == v;
        assert t'[other] == v;
      } else {
        assert t'[slot] == v;
      }
    }
    assert t'.Values == t.Values + {id};
  }

  /** The second loop. */
  method CheckTriedTable(m: CAddrMan, setTried: set<int>) returns (code: int, left: set<int>)
    requires m.Shaped() && setTried == TriedIds(m.mapInfo)
    ensures code in {0, -11, -17, -18}
    ensures code == 0 && left == {} <==> TriedTablePasses(m.Abs(), m.h)
  {
    hide TriedIds, Passed, TriedSoFar, Listing, TriedTablePasses;
    ghost var s := m.Abs();
    left := setTried;
    TriedStarts(s, m.h);
    for n := 0 to TRIED_BUCKET_COUNT
      invariant TriedSoFar(s, m.h, left, Passed(s.tried, n, 0))
    {
      for i := 0 to BUCKET_SIZE
        invariant TriedSoFar(s, m.h, left, Passed(s.tried, n, i))
      {
        var id := m.vvTried[n, i];
        NextSlot(s.tried, n, i);
        if id != EMPTY {
          var slot := Slot(n, i);
          assert slot in s.tried && s.tried[slot] == id;
          NextTried(s, m.h, left, Passed(s.tried, n, i), slot, id);
          FailsAt(s, m.h, slot);
          if id !in left { return -11, left; }
          LeftIsKnown(s, m.h, left, Passed(s.tried, n, i), id);
          var svc := m.mapInfo[id].address.svc;
          if m.h.TriedBucket(m.nKey, svc) != n { return -17, left; }
          if m.h.BucketPosition(m.nKey, false, n, svc) != i { return -18, left; }
          left := left - {id};
        }
      }
      NextBucket(s.tried, n, TRIED_BUCKET_COUNT);
    }
    TriedEnds(s, m.h, left);
    code := 0;
  }

  lemma TriedStarts(s: Tables, h: Hashing)
    requires Inside(s.tried, TRIED_BUCKET_COUNT)
    ensures TriedSoFar(s, h, TriedIds(s.info), Passed(s.tried, 0, 0))
  {
    NextBucket(s.tried, 0, TRIED_BUCKET_COUNT);
  }

  lemma LeftIsKnown(s: Tables, h: Hashing, left: set<int>, t: Table, id: int)
    requires TriedSoFar(s, h, left, t) && id in left
    ensures id in s.info && s.info[id].fInTried
  {
  }

  lemma FailsAt(s: Tables, h: Hashing, slot: Slot)
    requires slot in s.tried
    ensures !TriedPasses(s.info, s.nKey, h, slot, s.tried[slot]) ==> !TriedTablePasses(s, h)
  {
  }

  lemma TriedEnds(s: Tables, h: Hashing, left: set<int>)
    requires Inside(s.tried, TRIED_BUCKET_COUNT) && TriedSoFar(s, h, left, Passed(s.tried, TRIED_BUCKET_COUNT, 0))
    ensures left == {} <==> TriedTablePasses(s, h)
  {
    hide TriedPasses;
    NextBucket(s.tried, 0, TRIED_BUCKET_COUNT);
    var t := Passed(s.tried, TRIED_BUCKET_COUNT, 0);
    assert t == s.tried && left == TriedIds(s.info) - t.Values;
    if left == {} { NoneLeft(TriedIds(s.info), t.Values); }
    if TriedIds(s.info) <= t.Values { assert left == {}; }
  }

  lemma NoneLeft<T>(xs: set<T>, ys: set<T>)
    requires xs - ys == {}
    ensures xs <= ys
  {
    forall x | x in xs
      ensures x in ys
    {
      assert x !in xs - ys;
    }
  }

  lemma SomeKey<S, T>(m: map<S, T>) returns (x: S)
    requires m != map[]
    ensures x in m
  {
    x :| x in m;
  }

  /** What the third loop has left of mapNew when the slots in `t` have passed: the references still to be met. */
  ghost predicate NewSoFar(s: Tables, h: Hashing, left: map<int, int>, t: Table) {
    && (forall slot :: slot in t ==> slot.bucket >= 0 && NewPasses(s.info, s.nKey, h, slot, t[slot]))
    && (forall id :: id in left ==> id in NewIds(s.info) && left[id] > 0)
    && (forall id :: id in NewIds(s.info) ==>
          |SlotsOf(t, id)| + (if id in left then left[id] else 0) == s.info[id].nRefCount)
  }

  function Decremented(left: map<int, int>, id: int): map<int, int>
    requires id in left
  {
    if left[id] == 1 then left - {id} else left[id := left[id] - 1]
  }

  lemma NextNew(s: Tables, h: Hashing, left: map<int, int>, t: Table, slot: Slot, id: int)
    requires NewSoFar(s, h, left, t) && slot !in t && slot.bucket >= 0 && id in left
    ensures id in s.info && !s.info[id].fInTried
    ensures NewPasses(s.info, s.nKey, h, slot, id) ==> NewSoFar(s, h, Decremented(left, id), t[slot := id])
  {
    hide SlotsOf, NewPasses;
    forall other | other in NewIds(s.info)
      ensures |SlotsOf(t[slot := id], other)| == |SlotsOf(t, other)| + (if id == other then 1 else 0)
    {
      SlotsWith(t, slot, id, other);
    }
  }

  /** A slot more than the entry counts, or one of an entry that is not new. */
  lemma NotCounted(s: Tables, h: Hashing, left: map<int, int>, n: int, i: int, id: int)
    requires NewSoFar(s, h, left, Passed(s.news, n, i)) && Slot(n, i) in s.news && s.news[Slot(n, i)] == id
    requires id !in left
    ensures !NewTablePasses(s, h)
  {
    if id in NewIds(s.info) {
      var some, all := SlotsOf(Passed(s.news, n, i), id), SlotsOf(s.news, id);
      assert Slot(n, i) !in some && Slot(n, i) in all && some + {Slot(n, i)} <= all;
      SubsetSize(some + {Slot(n, i)}, all);
    }
  }

  /** The third loop. */
  method CheckNewTable(m: CAddrMan, mapNew: map<int, int>) returns (code: int, left: map<int, int>)
    requires m.Shaped() && mapNew == RefCounts(m.mapInfo) && forall id :: id in mapNew ==> mapNew[id] > 0
    ensures code in {0, -12, -19}
    ensures code == 0 && left == map[] <==> NewTablePasses(m.Abs(), m.h)
  {
    hide RefCounts, Passed, NewSoFar, Listing, NewTablePasses;
    ghost var s := m.Abs();
    left := mapNew;
    NewStarts(s, m.h);
    for n := 0 to NEW_BUCKET_COUNT
      invariant NewSoFar(s, m.h, left, Passed(s.news, n, 0))
    {
      for i := 0 to BUCKET_SIZE
        invariant NewSoFar(s, m.h, left, Passed(s.news, n, i))
      {
        var id := m.vvNew[n, i];
        NextSlot(s.news, n, i);
        if id != EMPTY {
          var slot := Slot(n, i);
          assert slot in s.news && s.news[slot] == id;
          if id !in left {
            NotCounted(s, m.h, left, n, i, id);
            return -12, left;
          }
          NextNew(s, m.h, left, Passed(s.news, n, i), slot, id);
          if m.h.BucketPosition(m.nKey, true, n, m.mapInfo[id].address.svc) != i {
            FailsInNew(s, m.h, slot);
            return -19, left;
          }
          left := Decremented(left, id);
        }
      }
      NextBucket(s.news, n, NEW_BUCKET_COUNT);
    }
    NewEnds(s, m.h, left);
    code := 0;
  }

  lemma NewStarts(s: Tables, h: Hashing)
    requires Inside(s.news, NEW_BUCKET_COUNT) && forall id :: id in RefCounts(s.info) ==> RefCounts(s.info)[id] > 0
    ensures NewSoFar(s, h, RefCounts(s.info), Passed(s.news, 0, 0))
  {
    NextBucket(s.news, 0, NEW_BUCKET_COUNT);
  }

  lemma FailsInNew(s: Tables, h: Hashing, slot: Slot)
    requires slot in s.news && slot.bucket >= 0 && !NewPasses(s.info, s.nKey, h, slot, s.news[slot])
    ensures !NewTablePasses(s, h)
  {
  }

  lemma NewEnds(s: Tables, h: Hashing, left: map<int, int>)
    requires Inside(s.news, NEW_BUCKET_COUNT) && NewSoFar(s, h, left, Passed(s.news, NEW_BUCKET_COUNT, 0))
    ensures left == map[] <==> NewTablePasses(s, h)
  {
    hide NewPasses, SlotsOf;
    NextBucket(s.news, 0, NEW_BUCKET_COUNT);
    if left != map[] {
      var id := SomeKey(left);
      assert |SlotsOf(s.news, id)| != s.info[id].nRefCount;
    }
  }

  /** Check_: zero exactly when everything passes and the key is not null. */
  method Check_(m: CAddrMan) returns (code: int)
    requires m.Shaped()
    modifies m`mapAddr
    ensures Passes(old(m.Abs()), m.h) ==> code == if m.nKey == 0 then -16 else 0
    ensures !Passes(old(m.Abs()), m.h) ==> code != 0 && code != -16
    ensures code == -7 <==> |m.vRandom| != m.nTried + m.nNew
    ensures ReadOnly(m.mapInfo, old(m.mapAddr), m.mapAddr)
  {
    hide Listing, EntryPasses, TriedTablePasses, NewTablePasses, TriedIds, NewIds, RefCounts;
    ghost var s := m.Abs();
    if |m.vRandom| != m.nTried + m.nNew { return -7; }
    var setTried, mapNew;
    code, setTried, mapNew := CheckEntries(m);
    if code != 0 { return; }
    CountsArePositive(s);
    ForAnyAddr(s, m.h, m.mapAddr);
    if |setTried| != m.nTried { return -9; }
    if |mapNew| != m.nNew { return -10; }
    code, setTried := CheckTriedTable(m, setTried);
    if code != 0 { return; }
    code, mapNew := CheckNewTable(m, mapNew);
    if code != 0 { return; }
    if setTried != {} { return -13; }
    if mapNew != map[] { return -15; }
    if m.nKey == 0 { return -16; }
    code := 0;
  }

  lemma ForAnyAddr(s: Tables, h: Hashing, addr: map<NetAddr, int>)
    ensures TriedTablePasses(s.(addr := addr), h) == TriedTablePasses(s, h)
    ensures NewTablePasses(s.(addr := addr), h) == NewTablePasses(s, h)
  {
  }

  lemma CountsArePositive(s: Tables)
    requires EntriesPass(s)
    ensures |RefCounts(s.info)| == |NewIds(s.info)|
    ensures forall id :: id in RefCounts(s.info) ==> RefCounts(s.info)[id] > 0
  {
    assert RefCounts(s.info).Keys == NewIds(s.info);
  }

  // ---- what the test says of a consistent manager ----

  lemma {:induction false} PlacesAreEntries(info: Entries, random: seq<int>, n: nat)
    requires RandomOk(info, random) && n <= |random|
    ensures |set p | 0 <= p < n :: random[p]| == n
  {
    if n > 0 {
      var before, all := (set p | 0 <= p < n - 1 :: random[p]), (set p | 0 <= p < n :: random[p]);
      PlacesAreEntries(info, random, n - 1);
      assert all == before + {random[n - 1]};
      assert random[n - 1] !in before;
    }
  }

  lemma RandomSize(s: Tables)
    requires RandomOk(s.info, s.random)
    ensures |s.random| == |TriedIds(s.info)| + |NewIds(s.info)|
  {
    PlacesAreEntries(s.info, s.random, |s.random|);
    var ids := set p | 0 <= p < |s.random| :: s.random[p];
    forall id | id in s.info
      ensures id in ids
    {
      assert s.random[s.info[id].nRandomPos] == id;
    }
    assert ids == TriedIds(s.info) + NewIds(s.info);
  }

  /** Check_ accepts every consistent manager. */
  lemma ConsistentPasses(s: Tables, h: Hashing)
    requires Consistent(s, h)
    ensures Passes(s, h)
  {
    RandomSize(s);
    EntriesArePassed(s, h);
    forall id | id in NewIds(s.info)
      ensures |SlotsOf(s.news, id)| == s.info[id].nRefCount
    {
      assert RefOk(s.info[id], id, s.news, {});
    }
    TriedArePlaced(s, h);
  }

  lemma TriedArePlaced(s: Tables, h: Hashing)
    requires TriedOk(s.info, s.tried, s.nKey, h)
    ensures TriedIds(s.info) <= s.tried.Values
  {
    forall id | id in TriedIds(s.info)
      ensures id in s.tried.Values
    {
      var slot := h.TriedSlot(s.nKey, s.info[id].address.svc);
      assert slot in s.tried && s.tried[slot] == id;
    }
  }

  lemma EntriesArePassed(s: Tables, h: Hashing)
    requires Consistent(s, h)
    ensures EntriesPass(s)
  {
    forall id | id in s.info
      ensures EntryPasses(s.info[id], id, s.addr, s.random)
    {
      assert RefOk(s.info[id], id, s.news, {}) && TimeOk(s.info[id]);
      if s.info[id].fInTried { NotListed(s, h, id); }
    }
  }

  lemma NotListed(s: Tables, h: Hashing, id: int)
    requires NewsOk(s.info, s.news, s.nKey, h) && id in s.info && s.info[id].fInTried
    ensures |SlotsOf(s.news, id)| == 0
  {
    NoSlots(s.news, id);
  }

  lemma StepKeepsKey(s: Tables, h: Hashing, op: Op)
    requires Asserts(s, h, op)
    ensures Step(s, h, op).nKey == s.nKey
  {
    match op
    case OpGood(svc, nTime) =>
      var r := FindService(s, svc);
      if r.Found? { UnlistFrame(Edit(s, r.id, MarkGood(s.info[r.id], nTime)), h, r.id, NEW_BUCKET_COUNT); }
    case OpGetAddr(n, rnd) => ShuffleKeepsKey(s, if n <= |s.random| then n else |s.random|, rnd);
    case _ =>
  }

  lemma {:induction false} ShuffleKeepsKey(s: Tables, n: nat, rnd: int -> int)
    ensures Shuffle(s, n, rnd).nKey == s.nKey
  {
    if n > 0 { ShuffleKeepsKey(s, n - 1, rnd); }
  }

  /** After any run from a fresh manager the self-test finds nothing: Check_ returns zero if the key is not null. */
  lemma {:induction false} RunPasses(s: Tables, h: Hashing, ops: seq<Op>)
    requires Consistent(s, h) && forall i :: 0 <= i < |ops| ==> Sensible(ops[i])
    ensures Run(s, h, ops).Reached? && Passes(Run(s, h, ops).s, h) && Run(s, h, ops).s.nKey == s.nKey
    decreases |ops|
  {
    hide Consistent, Asserts, Sensible, Step, Passes;
    if ops == [] {
      ConsistentPasses(s, h);
    } else {
      StepKeeps(s, h, ops[0]);
      StepKeepsKey(s, h, ops[0]);
      RunPasses(Step(s, h, ops[0]), h, ops[1..]);
    }
  }

  /** Check, which each operation calls in a debug build: a valid manager passes and is not changed. */
  method Check(m: CAddrMan) returns (code: int)
    requires m.Valid()
    modifies m`mapAddr
    ensures m.Valid() && m.Abs() == old(m.Abs())
    ensures code == if m.nKey == 0 then -16 else 0
  {
    ConsistentPasses(m.Abs(), m.h);
    code := Check_(m);
  }
}
