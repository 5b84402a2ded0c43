/** What the address manager promises its callers: what an operation does to entries, slots and buckets. */
module AddrLaws {
  import opened Common
  import opened AddrTables
  import opened AddrOps

  ghost predicate KnownNet(s: Tables, net: NetAddr) {
    net in s.addr && s.addr[net] in s.info
  }

  ghost function EntryOf(s: Tables, net: NetAddr): Info
    requires KnownNet(s, net)
  {
    s.info[s.addr[net]]
  }

  /** The entry of exactly this service is known. */
  ghost predicate KnownService(s: Tables, svc: Service) {
    KnownNet(s, svc.net) && EntryOf(s, svc.net).address.svc == svc
  }

  lemma ConsistentKnows(s: Tables, h: Hashing, net: NetAddr)
    requires Consistent(s, h) && net in s.addr
    ensures KnownNet(s, net) && EntryOf(s, net).Net() == net
    ensures var e := EntryOf(s, net); e.nRefCount >= 0 && (e.fInTried || e.nRefCount > 0)
  {
    assert RefOk(s.info[s.addr[net]], s.addr[net], s.news, {});
  }

  // ---- an announcement of a known address ----

  /** The time an announcement leaves at a known entry, and the services. */
  lemma RefreshIs(e: Info, address: Address, nTimePenalty: int, nNow: int)
    ensures var r, told := Refresh(e, address, nTimePenalty, nNow), Max(0, address.nTime - nTimePenalty);
            var late := if nNow < address.nTime + 86400 then 3600 else 86400;
            && r == e.(address := r.address) && r.address.svc == e.address.svc
            && r.address.nServices == e.address.nServices + address.nServices
            && r.address.nTime in {e.address.nTime, told}
            && (r.address.nTime == told <==>
                  || told == e.address.nTime
                  || (address.nTime != 0 &&
                      (e.address.nTime == 0 || e.address.nTime + late + nTimePenalty < address.nTime)))
  {
  }

  /**
   * Add_ for a known address: the services are joined, and the time announced, less the penalty, is
   * taken over exactly when it is one and the entry has none, or one older by more than the penalty
   * and an hour, or a day for an announcement that is a day old itself. At most one reference is
   * added; nothing else of the entry changes but its place in the random vector.
   */
  lemma AddTakesOver(s: Tables, h: Hashing, address: Address, source: NetAddr, nTimePenalty: int, nNow: int,
                     lucky: bool)
    requires Consistent(s, h) && address.svc.net in s.addr
    ensures KnownNet(s, address.svc.net) && AddAsserts(s, h, address, true, source, nTimePenalty, nNow, lucky)
    ensures var s' := Add(s, h, address, true, source, nTimePenalty, nNow, lucky).0;
            && s'.addr.Keys >= {address.svc.net} && KnownNet(s', address.svc.net)
            && s'.addr[address.svc.net] == s.addr[address.svc.net]
            && var e, e' := EntryOf(s, address.svc.net), EntryOf(s', address.svc.net);
               var told := Max(0, address.nTime - nTimePenalty);
               var late := if nNow < address.nTime + 86400 then 3600 else 86400;
               var newer := address.nTime != 0 &&
                            (e.address.nTime == 0 || e.address.nTime + late + nTimePenalty < address.nTime);
               && e'.address == Address(e.address.svc, e.address.nServices + address.nServices,
                                        if newer then told else e.address.nTime)
               && e' == e.(address := e'.address, nRefCount := e'.nRefCount, nRandomPos := e'.nRandomPos)
               && e.nRefCount <= e'.nRefCount <= e.nRefCount + 1
  {
    hide CountsOk, TriedOk, NewsOk, RandomOk, TimesOk, ClearNew, CanClearNew, Delete, CanDelete, SlotsOf, Refresh;
    var id := s.addr[address.svc.net];
    ConsistentKnows(s, h, address.svc.net);
    AddKeeps(s, h, address, true, source, nTimePenalty, nNow, lucky);
    RefreshIs(s.info[id], address, nTimePenalty, nNow);
    var a := Announce(s, address, source, nTimePenalty, nNow, lucky);
    if a.listing.Found? { ListSpares(a.s, h, id, AddSlot(a.s, h, id, source), nNow, address.svc.net); }
  }

  /** The last part of Add_, for an entry that has references already. */
  lemma ListSpares(s: Tables, h: Hashing, id: int, slot: Slot, nNow: int, net: NetAddr)
    requires ListAsserts(s, h, id, slot, nNow) && id in s.info && s.info[id].nRefCount > 0
    requires net in s.addr && s.addr[net] == id && AddrOk(s.info, s.addr)
    ensures var s' := List(s, h, id, slot, nNow);
            && id in s'.info && net in s'.addr && s'.addr[net] == id
            && s'.info[id] == s.info[id].(nRefCount := s'.info[id].nRefCount, nRandomPos := s'.info[id].nRandomPos)
            && s.info[id].nRefCount <= s'.info[id].nRefCount <= s.info[id].nRefCount + 1
  {
    if slot !in s.news || (s.news[slot] != id && Overwrites(s, id, slot, nNow)) {
      ClearNewSpares(s, slot, id);
      ClearNewSparesNet(s, slot, id, net);
    }
  }

  lemma ClearNewSparesNet(s: Tables, slot: Slot, id: int, net: NetAddr)
    requires CanClearNew(s, slot) && id in s.info && (slot in s.news ==> s.news[slot] != id)
    requires net in s.addr && s.addr[net] == id && AddrOk(s.info, s.addr)
    ensures net in ClearNew(s, slot).addr && ClearNew(s, slot).addr[net] == id
  {
  }

  // ---- who is listed ----

  /** The slot an announcement from this source is about. */
  function Target(s: Tables, h: Hashing, svc: Service, source: NetAddr): Slot {
    h.NewSlot(s.nKey, svc, h.NewBucket(s.nKey, svc, source))
  }

  /**
   * Add_ for an address that is not known. It gets the slot if that is free, or if the entry there is
   * terrible or has other slots; the address is then known, with the time announced less the penalty
   * and one reference. Otherwise it stays unknown, and only an id is used up.
   */
  lemma AddLists(s: Tables, h: Hashing, address: Address, source: NetAddr, nTimePenalty: int, nNow: int, lucky: bool)
    requires Consistent(s, h) && address.svc.net !in s.addr
    ensures AddAsserts(s, h, address, true, source, nTimePenalty, nNow, lucky)
    ensures var s' := Add(s, h, address, true, source, nTimePenalty, nNow, lucky).0;
            var slot := Target(s, h, address.svc, source);
            && (slot in s.news ==> s.news[slot] in s.info)
            && if slot !in s.news || s.info[s.news[slot]].IsTerrible(nNow) || s.info[s.news[slot]].nRefCount > 1 then
                 && s'.news == s.news[slot := s.nIdCount]
                 && KnownNet(s', address.svc.net) && s'.addr[address.svc.net] == s.nIdCount
                 && var e := EntryOf(s', address.svc.net);
                    && e.address == address.(nTime := Max(0, address.nTime - nTimePenalty))
                    && e == Info(e.address, source, 0, 0, 0, 1, false, e.nRandomPos)
               else s' == s.(nIdCount := s.nIdCount + 1)
  {
    hide CountsOk, TriedOk, NewsOk, RandomOk, TimesOk, ClearNew, CanClearNew, CanDelete, SlotsOf;
    var id, slot := s.nIdCount, Target(s, h, address.svc, source);
    AddKeeps(s, h, address, true, source, nTimePenalty, nNow, lucky);
    CreateKeeps(s, h, address, source, nTimePenalty);
    var c := CreateNew(s, address, source, nTimePenalty);
    if slot in s.news { NewSlotHolds(s, h, slot); }
    if slot !in s.news || Overwrites(c, id, slot, nNow) {
      ClearNewKeeps(c, h, slot, {id}, 0);
      ClearNewSpares(c, slot, id);
      ClearNewSparesNet(c, slot, id, address.svc.net);
    } else {
      FreshIsRemoved(s, h, address, source, nTimePenalty);
    }
  }

  lemma NewSlotHolds(s: Tables, h: Hashing, slot: Slot)
    requires Consistent(s, h) && slot in s.news
    ensures s.news[slot] in s.info && s.news[slot] != s.nIdCount && s.info[s.news[slot]].nRefCount > 0
  {
  }

  lemma FreshIsRemoved(s: Tables, h: Hashing, address: Address, source: NetAddr, nTimePenalty: int)
    requires Consistent(s, h) && address.svc.net !in s.addr
    ensures var c := CreateNew(s, address, source, nTimePenalty);
            CanDelete(c, s.nIdCount) && Delete(c, s.nIdCount) == s.(nIdCount := s.nIdCount + 1)
  {
    hide CountsOk, TriedOk, NewsOk, RefsOk;
    var id, c := s.nIdCount, CreateNew(s, address, source, nTimePenalty);
    assert id !in s.info;
    assert c.random[..|c.random| - 1] == s.random && c.addr - {address.svc.net} == s.addr && c.info - {id} == s.info;
  }

  /**
   * Add_ for a known address: one slot more exactly when the announcement is newer than the time the
   * entry has after it, the entry is not tried and has fewer than eight slots, the draw is lucky, and
   * the slot is free or holds another, terrible entry.
   */
  lemma AddListsAgain(s: Tables, h: Hashing, address: Address, source: NetAddr, nTimePenalty: int, nNow: int,
                      lucky: bool)
    requires Consistent(s, h) && address.svc.net in s.addr
    ensures KnownNet(s, address.svc.net) && AddAsserts(s, h, address, true, source, nTimePenalty, nNow, lucky)
    ensures var s', id := Add(s, h, address, true, source, nTimePenalty, nNow, lucky).0, s.addr[address.svc.net];
            var e, slot := s.info[id], Target(s, h, s.info[id].address.svc, source);
            && id in s'.info && (slot in s.news ==> s.news[slot] in s.info)
            && var nTime := s'.info[id].address.nTime;
               var asks := address.nTime != 0 && (nTime == 0 || nTime < address.nTime)
                           && !e.fInTried && e.nRefCount < 8 && lucky;
               var free := slot !in s.news || (s.news[slot] != id && s.info[s.news[slot]].IsTerrible(nNow));
               && s'.news == (if asks && free then s.news[slot := id] else s.news)
               && s'.info[id].nRefCount == e.nRefCount + (if asks && free then 1 else 0)
  {
    hide CountsOk, TriedOk, NewsOk, RandomOk, TimesOk, ClearNew, CanClearNew, Delete, CanDelete, SlotsOf;
    var id := s.addr[address.svc.net];
    var e := Refresh(s.info[id], address, nTimePenalty, nNow);
    var slot := Target(s, h, s.info[id].address.svc, source);
    ConsistentKnows(s, h, address.svc.net);
    AddKeeps(s, h, address, true, source, nTimePenalty, nNow, lucky);
    RefreshIs(s.info[id], address, nTimePenalty, nNow);
    KnownIsTimed(s, h, id);
    EditKeeps(s, h, id, e, {}, 0);
    if slot in s.news { NewSlotHolds(s, h, slot); }
    var s1 := Edit(s, id, e);
    if !Settled(e, address, lucky) && (slot !in s.news || (s.news[slot] != id && Overwrites(s1, id, slot, nNow))) {
      ClearNewKeeps(s1, h, slot, {}, 0);
      ClearNewSpares(s1, slot, id);
    }
  }

  lemma KnownIsTimed(s: Tables, h: Hashing, id: int)
    requires Consistent(s, h) && id in s.info
    ensures TimeOk(s.info[id])
  {
  }

  // ---- Good_, Attempt_, Connected_ ----

  /** Good_ for a known service: a clean record as of now, and a place in the tried table. */
  lemma GoodMarks(s: Tables, h: Hashing, svc: Service, nTime: int)
    requires Consistent(s, h) && nTime > 0
    ensures GoodAsserts(s, h, svc, nTime)
    ensures !KnownService(s, svc) ==> Good(s, h, svc, nTime) == s
    ensures KnownService(s, svc) ==>
              var s', id := Good(s, h, svc, nTime), s.addr[svc.net];
              id in s'.info &&
              var e, e' := s.info[id], s'.info[id];
              e' == Info(e.address, e.source, nTime, nTime, 0, 0, true, e'.nRandomPos)
  {
    hide CountsOk, TriedOk, NewsOk, RandomOk, MakeTried, CanMakeTried, Listed, SlotsOf;
    GoodKeeps(s, h, svc, nTime);
    if KnownService(s, svc) {
      var id := s.addr[svc.net];
      var s1 := Edit(s, id, MarkGood(s.info[id], nTime));
      EditKeeps(s, h, id, MarkGood(s.info[id], nTime), {}, 0);
      if s.info[id].fInTried {
        TriedHasNone(s, h, id);
      } else {
        UntriedIsListed(s1, h, id);
        MakeTriedSpares(s1, h, id);
      }
    }
  }

  lemma TriedHasNone(s: Tables, h: Hashing, id: int)
    requires Consistent(s, h) && id in s.info && s.info[id].fInTried
    ensures s.info[id].nRefCount == 0
  {
    assert RefOk(s.info[id], id, s.news, {});
    NoSlots(s.news, id);
  }

  /** Promotion changes only the references, the flag and the place in the random vector of the entry. */
  lemma MakeTriedSpares(s: Tables, h: Hashing, id: int)
    requires Consistent(s, h) && id in s.info && !s.info[id].fInTried && s.info[id].nLastSuccess > 0
    ensures CanMakeTried(s, h, id)
    ensures var r := MakeTried(s, h, id);
            && id in r.info
            && r.info[id] == s.info[id].(nRefCount := 0, fInTried := true, nRandomPos := r.info[id].nRandomPos)
  {
    hide CountsOk, NewsOk, RandomOk, RefsOk, TimesOk, TakeOut, Evict, CanEvict, SlotsOf;
    MakeTriedKeeps(s, h, id);
    TakeOutKeeps(s, h, id);
    var s1 := TakeOut(s, h, id);
    var slot := h.TriedSlot(s1.nKey, s1.info[id].address.svc);
    if slot in s1.tried {
      TriedElsewhere(s1, h, slot, id);
      EvictKeeps(s1, h, slot, {id}, 1);
    }
  }

  lemma TriedElsewhere(s: Tables, h: Hashing, slot: Slot, id: int)
    requires TriedOk(s.info, s.tried, s.nKey, h) && slot in s.tried && id in s.info && !s.info[id].fInTried
    ensures s.tried[slot] != id
  {
  }

  /** The entry has gone back to the new table, to the slot that its own source chooses. */
  ghost predicate WentHome(s: Tables, r: Tables, h: Hashing, id: int) {
    && id in s.info && id in r.info
    && var e := s.info[id];
       var home := Target(s, h, e.address.svc, e.source);
       && home in r.news && r.news[home] == id
       && r.info[id] == e.(fInTried := false, nRefCount := 1, nRandomPos := r.info[id].nRandomPos)
  }

  /** Good_ for an entry that was not tried: it gets the tried slot of its address, and whoever had it goes home. */
  lemma GoodMoves(s: Tables, h: Hashing, svc: Service, nTime: int)
    requires Consistent(s, h) && nTime > 0 && KnownService(s, svc) && !EntryOf(s, svc.net).fInTried
    ensures GoodAsserts(s, h, svc, nTime)
    ensures var s', id, slot := Good(s, h, svc, nTime), s.addr[svc.net], h.TriedSlot(s.nKey, svc);
            s'.tried == s.tried[slot := id] && (slot in s.tried ==> WentHome(s, s', h, s.tried[slot]))
  {
    hide CountsOk, NewsOk, RandomOk, RefsOk, TimesOk, Listed, SlotsOf, MakeTried, CanMakeTried;
    var id := s.addr[svc.net];
    var s1 := Edit(s, id, MarkGood(s.info[id], nTime));
    GoodKeeps(s, h, svc, nTime);
    KnownIsTimed(s, h, id);
    EditKeeps(s, h, id, MarkGood(s.info[id], nTime), {}, 0);
    UntriedIsListed(s1, h, id);
    MakeTriedMoves(s1, h, id);
    var slot := h.TriedSlot(s.nKey, svc);
    if slot in s.tried { TriedElsewhere(s, h, slot, id); }
  }

  lemma MakeTriedMoves(s: Tables, h: Hashing, id: int)
    requires Consistent(s, h) && id in s.info && !s.info[id].fInTried && s.info[id].nLastSuccess > 0
    ensures CanMakeTried(s, h, id)
    ensures var r, slot := MakeTried(s, h, id), h.TriedSlot(s.nKey, s.info[id].address.svc);
            r.tried == s.tried[slot := id] && (slot in s.tried ==> WentHome(s, r, h, s.tried[slot]))
  {
    hide Core, TakeOut, Evict, CanEvict, SlotsOf, WentHome, Hashing.TriedSlot;
    MakeTriedKeeps(s, h, id);
    TakeOutKeeps(s, h, id);
    var s1 := TakeOut(s, h, id);
    var slot := h.TriedSlot(s1.nKey, s1.info[id].address.svc);
    if slot in s1.tried {
      SlotOfOther(s1, h, slot, id);
      EvictKeeps(s1, h, slot, {id}, 1);
      EvictMoves(s1, h, slot, id);
      PromoteSpares(s1, Evict(s1, h, slot), h, id, slot, s.tried[slot]);
      TakeOutSpares(s, h, id, s.tried[slot], MakeTried(s, h, id));
    }
  }

  lemma SlotOfOther(s: Tables, h: Hashing, slot: Slot, id: int)
    requires Core(s, h, {id}, 1) && slot in s.tried && id in s.info && !s.info[id].fInTried
    ensures s.tried[slot] != id
  {
  }

  lemma PromoteSpares(s: Tables, r: Tables, h: Hashing, id: int, slot: Slot, other: int)
    requires WentHome(s, r, h, other) && id in r.info && id != other
    ensures WentHome(s, Promote(r, id, slot), h, other)
  {
  }

  lemma TakeOutSpares(s: Tables, h: Hashing, id: int, other: int, r: Tables)
    requires id in s.info && other != id
    ensures WentHome(TakeOut(s, h, id), r, h, other) ==> WentHome(s, r, h, other)
  {
    hide Unlist;
    UnlistFrame(s, h, id, NEW_BUCKET_COUNT);
  }

  lemma EvictMoves(s: Tables, h: Hashing, slot: Slot, id: int)
    requires Core(s, h, {id}, 1) && slot in s.tried && s.tried[slot] != id && CanEvict(s, h, slot)
    requires id in s.info ==> s.info[id].nRefCount == 0
    ensures WentHome(s, Evict(s, h, slot), h, s.tried[slot])
  {
    hide CountsOk, NewsOk, RandomOk, TimesOk, ClearNew, CanClearNew, SlotsOf;
    var other := s.tried[slot];
    DemoteKeeps(s, h, slot, {id}, 1);
    TriedUnlisted(s, h, other, {id}, 1);
    ClearHome(Demote(s, slot), h, HomeSlot(s, h, other), {id, other}, 2);
  }

  lemma TriedUnlisted(s: Tables, h: Hashing, id: int, loose: set<int>, ahead: int)
    requires Core(s, h, loose, ahead) && id in s.info && s.info[id].fInTried
    ensures s.info[id].nRefCount == 0
  {
    assert RefOk(s.info[id], id, s.news, loose);
    NoSlots(s.news, id);
  }

  /** Attempt_ and Connected_ leave everything alone but the entry of exactly that service. */
  lemma AttemptMarks(s: Tables, svc: Service, nTime: int)
    ensures var s' := Attempt(s, svc, nTime);
            && (!KnownService(s, svc) ==> s' == s)
            && (KnownService(s, svc) ==>
                  && s' == s.(info := s'.info) && s'.info.Keys == s.info.Keys
                  && (forall id :: id in s.info && id != s.addr[svc.net] ==> s'.info[id] == s.info[id])
                  && var e, e' := EntryOf(s, svc.net), s'.info[s.addr[svc.net]];
                     e' == e.(nLastTry := nTime, nAttempts := e.nAttempts + 1))
  {
  }

  /** After Connected_ the time of a known service is at most twenty minutes behind, and it never falls. */
  lemma ConnectedMarks(s: Tables, svc: Service, nTime: int)
    ensures var s' := Connected(s, svc, nTime);
            && (!KnownService(s, svc) ==> s' == s)
            && (KnownService(s, svc) ==>
                  && s' == s.(info := s'.info) && s'.info.Keys == s.info.Keys
                  && (forall id :: id in s.info && id != s.addr[svc.net] ==> s'.info[id] == s.info[id])
                  && var e, e' := EntryOf(s, svc.net), s'.info[s.addr[svc.net]];
                     && e' == e.(address := e.address.(nTime := e'.address.nTime))
                     && nTime - 1200 <= e'.address.nTime && e.address.nTime <= e'.address.nTime
                     && (e.address.nTime >= nTime - 1200 ==> e'.address.nTime == e.address.nTime)
                     && (e.address.nTime < nTime - 1200 ==> e'.address.nTime == nTime))
  {
  }

  // ---- when an entry is terrible, in terms of what was reported of it ----

  /** k attempts at the given times. */
  ghost function Attempted(e: Info, times: seq<int>): Info {
    if times == [] then e else
    Attempted(e, times[..|times| - 1]).(nLastTry := times[|times| - 1],
                                        nAttempts := Attempted(e, times[..|times| - 1]).nAttempts + 1)
  }

  /** Runs of Attempt_ do this to an entry. */
  lemma {:induction false} AttemptsMark(s: Tables, svc: Service, times: seq<int>) returns (s': Tables)
    requires KnownService(s, svc)
    ensures s'.addr == s.addr && KnownService(s', svc) && EntryOf(s', svc.net) == Attempted(EntryOf(s, svc.net), times)
    decreases |times|
  {
    if times == [] {
      s' := s;
    } else {
      s' := AttemptsMark(s, svc, times[..|times| - 1]);
      AttemptMarks(s', svc, times[|times| - 1]);
      s' := Attempt(s', svc, times[|times| - 1]);
    }
  }

  lemma {:induction false} AttemptedIs(e: Info, times: seq<int>)
    ensures var a := Attempted(e, times);
            && a == e.(nLastTry := a.nLastTry, nAttempts := e.nAttempts + |times|)
            && a.nLastTry == if times == [] then e.nLastTry else times[|times| - 1]
    decreases |times|
  {
    if times != [] { AttemptedIs(e, times[..|times| - 1]); }
  }

  /** Seen within thirty days, and not from the future. */
  predicate Recent(nTime: int, nNow: int) {
    nTime != 0 && nNow - 30 * 86400 <= nTime <= nNow + 600
  }

  /**
   * Never reached: terrible a minute after the last attempt exactly when it is not recent, or with the
   * third attempt.
   */
  lemma NeverReached(address: Address, source: NetAddr, nRefCount: int, nRandomPos: int, times: seq<int>, nNow: int)
    requires forall i :: 0 <= i < |times| ==> 0 < times[i] && times[i] + 60 < nNow
    ensures var e := Attempted(Info(address, source, 0, 0, 0, nRefCount, false, nRandomPos), times);
            e.IsTerrible(nNow) <==> !Recent(address.nTime, nNow) || |times| >= 3
  {
    AttemptedIs(Info(address, source, 0, 0, 0, nRefCount, false, nRandomPos), times);
  }

  /**
   * Reached once, at nGood: terrible a minute after the last attempt exactly when it is not recent, or
   * ten attempts have failed since and a week has passed.
   */
  lemma OnceReached(e: Info, nGood: int, times: seq<int>, nNow: int)
    requires nGood > 0 && nGood + 60 < nNow && forall i :: 0 <= i < |times| ==> 0 < times[i] && times[i] + 60 < nNow
    ensures Attempted(MarkGood(e, nGood), times).IsTerrible(nNow) <==>
              !Recent(e.address.nTime, nNow) || (|times| >= 10 && nNow - nGood > 7 * 86400)
  {
    AttemptedIs(MarkGood(e, nGood), times);
  }

  /** Nothing is terrible within a minute of an attempt. */
  lemma JustTried(e: Info, times: seq<int>, nNow: int)
    requires times != [] && times[|times| - 1] != 0 && nNow <= times[|times| - 1] + 60
    ensures !Attempted(e, times).IsTerrible(nNow)
  {
    AttemptedIs(e, times);
  }

  /** GetAddr_ hands out 23 percent, rounded down, and never more than 2,500. */
  lemma AddrLimitIs(n: nat)
    ensures AddrLimit(n) <= 2500 && 100 * AddrLimit(n) <= 23 * n
    ensures AddrLimit(n) == 2500 || 23 * n < 100 * (AddrLimit(n) + 1)
  {
  }

  // ---- an attacker with few address groups reaches few buckets ----

  /** All addresses of one group together have at most eight tried buckets. */
  lemma FewTriedBuckets(h: Hashing, key: nat, group: nat) returns (buckets: set<int>)
    ensures |buckets| <= 8
    ensures forall a: Service :: h.Group(a.net) == group ==> h.TriedBucket(key, a) in buckets
  {
    var f := (i: nat) => h.Hash([key, group, i]) % 256;
    buckets := set i: nat | i < 8 :: f(i);
    SmallImage(f, 8, buckets);
    forall a: Service | h.Group(a.net) == group
      ensures h.TriedBucket(key, a) in buckets
    {
      assert h.TriedBucket(key, a) == f(h.Hash([key, a.net, a.port]) % 8);
    }
  }

  /** Whatever is announced by sources of one group, the announcements have at most 64 new buckets. */
  lemma FewNewBuckets(h: Hashing, key: nat, group: nat) returns (buckets: set<int>)
    ensures |buckets| <= 64
    ensures forall a: Service, src: NetAddr :: h.Group(src) == group ==> h.NewBucket(key, a, src) in buckets
  {
    var f := (i: nat) => h.Hash([key, group, i]) % 1024;
    buckets := set i: nat | i < 64 :: f(i);
    SmallImage(f, 64, buckets);
    forall a: Service, src: NetAddr | h.Group(src) == group
      ensures h.NewBucket(key, a, src) in buckets
    {
      assert h.NewBucket(key, a, src) == f(h.Hash([key, h.Group(a.net), group]) % 64);
    }
  }

  /** The new bucket depends on the groups alone; the source does not matter to tried buckets. */
  lemma NewBucketByGroups(h: Hashing, key: nat, a: Service, b: Service, src: NetAddr, src': NetAddr)
    requires h.Group(a.net) == h.Group(b.net) && h.Group(src) == h.Group(src')
    ensures h.NewBucket(key, a, src) == h.NewBucket(key, b, src')
  {
  }

  lemma {:induction false} SmallImage(f: nat -> int, n: nat, image: set<int>)
    requires image == set i: nat | i < n :: f(i)
    ensures |image| <= n
    decreases n
  {
    if n > 0 {
      var less := set i: nat | i < n - 1 :: f(i);
      SmallImage(f, n - 1, less);
      assert image == less + {f(n - 1)};
    }
  }
}
