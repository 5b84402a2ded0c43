/** What a stack of coin caches over a database computes, and the plain maps it stands for. */
module CoinsView {
  import opened Transactions
  import opened Common
  import opened Coins

  datatype Entry = Entry(coins: Coins, isDirty: bool, isFresh: bool)
  type Layer = map<Hash, Entry>

  /** A view is the database or a cache in front of another view. */
  datatype View =
    | Db(stored: map<Hash, Coins>)
    | Cache(base: View, entries: Layer)

  /** The answer of GetCoins, pruned entries included. */
  function Lookup(v: View, txid: Hash): Option<Coins> {
    match v
    case Db(stored) => if txid in stored then Some(stored[txid]) else None
    case Cache(base, entries) => if txid in entries then Some(entries[txid].coins) else Lookup(base, txid)
  }

  /** What a layer of entries shows in front of `behind`: pruned entries count as absent. */
  ghost function Overlay(behind: map<Hash, Coins>, entries: Layer): map<Hash, Coins> {
    map t | t in behind.Keys + entries.Keys && (t in entries ==> !entries[t].coins.IsPruned())
      :: if t in entries then entries[t].coins else behind[t]
  }

  /** The entries a reader of the view can spend from. */
  ghost function Visible(v: View): map<Hash, Coins> {
    match v
    case Db(stored) => map t | t in stored && !stored[t].IsPruned() :: stored[t]
    case Cache(base, entries) => Overlay(Visible(base), entries)
  }

  /** Reading agrees with the visible map. */
  lemma {:induction false} LookupIsVisible(v: View, txid: Hash)
    ensures txid in Visible(v) <==> Lookup(v, txid).Some? && !Lookup(v, txid).value.IsPruned()
    ensures txid in Visible(v) ==> Visible(v)[txid] == Lookup(v, txid).value
  {
    if v.Cache? && txid !in v.entries {
      LookupIsVisible(v.base, txid);
    }
  }

  /** FRESH: the view behind has no live entry. Not DIRTY: it has exactly this one. */
  ghost predicate EntryAgrees(e: Entry, txid: Hash, behind: map<Hash, Coins>) {
    && (e.isFresh ==> txid !in behind)
    && (!e.isDirty && e.coins.IsPruned() ==> txid !in behind)
    && (!e.isDirty && !e.coins.IsPruned() ==> txid in behind && behind[txid] == e.coins)
  }

  /** An entry that is not FRESH was pulled through the cache behind, which still holds it. */
  ghost predicate Linked(entries: Layer, base: View) {
    base.Cache? ==> forall t :: t in entries && !entries[t].isFresh ==> t in base.entries
  }

  ghost predicate LayerAgrees(entries: Layer, behind: map<Hash, Coins>) {
    forall t :: t in entries ==> EntryAgrees(entries[t], t, behind)
  }

  ghost predicate Valid(v: View) {
    v.Cache? ==> Valid(v.base) && Linked(v.entries, v.base) && LayerAgrees(v.entries, Visible(v.base))
  }

  // ---- the operations ----

  /** FetchCoins: a miss is copied from the view behind, which fetches in turn. */
  function Fetch(v: View, txid: Hash): (r: View)
    ensures r.Db? == v.Db?
  {
    match v
    case Db(_) => v
    case Cache(base, entries) =>
      if txid in entries then v else
        match Lookup(base, txid)
        case None => Cache(Fetch(base, txid), entries)
        case Some(c) => Cache(Fetch(base, txid), entries[txid := Entry(c, false, c.IsPruned())])
  }

  /** ModifyCoins: the entry is created when missing and is DIRTY from then on. */
  function BeginModify(v: View, txid: Hash): (r: View)
    requires v.Cache?
    ensures r.Cache? && txid in r.entries
  {
    if txid in v.entries then
      Cache(v.base, v.entries[txid := v.entries[txid].(isDirty := true)])
    else
      var e := match Lookup(v.base, txid)
               case None => Entry(EmptyCoins, true, true)
               case Some(c) => Entry(c, true, c.IsPruned());
      Cache(Fetch(v.base, txid), v.entries[txid := e])
  }

  /** The modifier's destructor, once the caller has left `coins` in the entry. */
  function EndModify(v: View, txid: Hash, coins: Coins): (r: View)
    requires v.Cache? && txid in v.entries
    ensures r.Cache?
  {
    var e := v.entries[txid].(coins := coins.Cleaned());
    if e.isFresh && e.coins.IsPruned() then Cache(v.base, v.entries - {txid})
    else Cache(v.base, v.entries[txid := e])
  }

  function Modify(v: View, txid: Hash, coins: Coins): (r: View)
    requires v.Cache?
    ensures r.Cache?
  {
    EndModify(BeginModify(v, txid), txid, coins)
  }

  /** What BatchWrite makes of one DIRTY child entry; None: no entry is left. */
  function MergeEntry(ours: Option<Entry>, child: Entry): Option<Entry>
    requires ours.None? && !child.coins.IsPruned() ==> child.isFresh
  {
    match ours
    case None => if child.coins.IsPruned() then None else Some(Entry(child.coins, true, true))
    case Some(e) =>
      if e.isFresh && child.coins.IsPruned() then None
      else Some(Entry(child.coins, true, e.isFresh))
  }

  function EntryOf(entries: Layer, txid: Hash): Option<Entry> {
    if txid in entries then Some(entries[txid]) else None
  }

  /** The assertion inside BatchWrite, for every entry it can fire on. */
  ghost predicate FreshAssertion(entries: Layer, child: Layer) {
    forall t :: t in child && child[t].isDirty && t !in entries && !child[t].coins.IsPruned() ==> child[t].isFresh
  }

  function MergedEntry(entries: Layer, child: Layer, txid: Hash): Option<Entry>
    requires FreshAssertion(entries, child)
  {
    if txid in child && child[txid].isDirty then MergeEntry(EntryOf(entries, txid), child[txid])
    else EntryOf(entries, txid)
  }

  ghost function MergeLayer(entries: Layer, child: Layer): Layer
    requires FreshAssertion(entries, child)
  {
    map t | t in entries.Keys + child.Keys && MergedEntry(entries, child, t).Some?
      :: MergedEntry(entries, child, t).value
  }

  ghost function MergeDb(stored: map<Hash, Coins>, child: Layer): map<Hash, Coins> {
    map t | t in stored.Keys + child.Keys &&
            (if t in child && child[t].isDirty then !child[t].coins.IsPruned() else t in stored)
      :: if t in child && child[t].isDirty then child[t].coins else stored[t]
  }

  ghost function BatchWrite(v: View, child: Layer): (r: View)
    requires v.Cache? ==> FreshAssertion(v.entries, child)
    ensures r.Cache? == v.Cache?
  {
    match v
    case Db(stored) => Db(MergeDb(stored, child))
    case Cache(base, entries) => Cache(base, MergeLayer(entries, child))
  }

  ghost function Flush(v: View): (r: View)
    requires v.Cache?
    requires v.base.Cache? ==> FreshAssertion(v.base.entries, v.entries)
    ensures r.Cache?
  {
    Cache(BatchWrite(v.base, v.entries), map[])
  }

  // ---- each operation against plain maps ----

  /** The same view stack with every cache replaced by the plain map it shows. */
  datatype Plain =
    | PlainDb(m: map<Hash, Coins>)
    | PlainCache(base: Plain, m: map<Hash, Coins>)

  ghost function Abs(v: View): (p: Plain)
    ensures p.m == Visible(v)
    ensures p.PlainCache? == v.Cache?
  {
    match v
    case Db(_) => PlainDb(Visible(v))
    case Cache(base, _) => PlainCache(Abs(base), Visible(v))
  }

  function Put(m: map<Hash, Coins>, txid: Hash, coins: Coins): map<Hash, Coins> {
    if coins.IsPruned() then m - {txid} else m[txid := coins.Cleaned()]
  }

  lemma {:induction false} FetchKeeps(v: View, txid: Hash)
    requires Valid(v)
    ensures Valid(Fetch(v, txid))
    ensures Abs(Fetch(v, txid)) == Abs(v)
    ensures v.Cache? ==> v.entries.Keys <= Fetch(v, txid).entries.Keys
    ensures v.Cache? && Lookup(v, txid).Some? ==> txid in Fetch(v, txid).entries
  {
    if v.Cache? && txid !in v.entries {
      FetchKeeps(v.base, txid);
      LookupIsVisible(v.base, txid);
      var r := Fetch(v, txid);
      assert Visible(r.base) == Abs(r.base).m == Abs(v.base).m == Visible(v.base);
      assert Overlay(Visible(v.base), r.entries) == Overlay(Visible(v.base), v.entries);
    }
  }

  /** Installing an entry that shows what was shown before changes nothing visible. */
  lemma InstallKeeps(behind: map<Hash, Coins>, entries: Layer, txid: Hash, e: Entry)
    requires LayerAgrees(entries, behind) && EntryAgrees(e, txid, behind)
    requires txid in Overlay(behind, entries) <==> !e.coins.IsPruned()
    requires txid in Overlay(behind, entries) ==> Overlay(behind, entries)[txid] == e.coins
    ensures LayerAgrees(entries[txid := e], behind)
    ensures Overlay(behind, entries[txid := e]) == Overlay(behind, entries)
  {
  }

  lemma BeginKeeps(v: View, txid: Hash)
    requires Valid(v) && v.Cache?
    ensures Valid(BeginModify(v, txid))
    ensures Abs(BeginModify(v, txid)) == Abs(v)
    ensures BeginModify(v, txid).entries[txid].isDirty
    ensures var c := BeginModify(v, txid).entries[txid].coins;
            if txid in Visible(v) then c == Visible(v)[txid] else c.IsPruned()
  {
    var r := BeginModify(v, txid);
    if txid !in v.entries {
      FetchKeeps(v.base, txid);
      LookupIsVisible(v.base, txid);
      assert Visible(r.base) == Abs(r.base).m == Abs(v.base).m == Visible(v.base);
    }
    InstallKeeps(Visible(v.base), v.entries, txid, r.entries[txid]);
  }

  /** Replacing the coins of one DIRTY entry writes the visible map. */
  lemma ReplaceWrites(behind: map<Hash, Coins>, entries: Layer, txid: Hash, e: Entry)
    requires LayerAgrees(entries, behind) && EntryAgrees(e, txid, behind)
    requires e.coins.Cleaned() == e.coins
    ensures LayerAgrees(entries[txid := e], behind)
    ensures Overlay(behind, entries[txid := e]) == Put(Overlay(behind, entries), txid, e.coins)
  {
    var left, right := Overlay(behind, entries[txid := e]), Put(Overlay(behind, entries), txid, e.coins);
    forall t
      ensures t in left <==> t in right
      ensures t in left ==> left[t] == right[t]
    {
    }
  }

  /** A FRESH entry that ends up pruned can be dropped. */
  lemma DropWrites(behind: map<Hash, Coins>, entries: Layer, txid: Hash)
    requires LayerAgrees(entries, behind) && txid in entries && entries[txid].isFresh
    ensures LayerAgrees(entries - {txid}, behind)
    ensures Overlay(behind, entries - {txid}) == Overlay(behind, entries) - {txid}
  {
    assert EntryAgrees(entries[txid], txid, behind);
  }

  lemma EndRefines(v: View, txid: Hash, coins: Coins)
    requires Valid(v) && v.Cache? && txid in v.entries && v.entries[txid].isDirty
    ensures Valid(EndModify(v, txid, coins))
    ensures Abs(EndModify(v, txid, coins)) == PlainCache(Abs(v.base), Put(Visible(v), txid, coins))
  {
    CleanedFacts(coins);
    CleanedFacts(coins.Cleaned());
    var e := v.entries[txid].(coins := coins.Cleaned());
    if e.isFresh && e.coins.IsPruned() {
      DropWrites(Visible(v.base), v.entries, txid);
    } else {
      ReplaceWrites(Visible(v.base), v.entries, txid, e);
    }
  }

  lemma ModifyRefines(v: View, txid: Hash, coins: Coins)
    requires Valid(v) && v.Cache?
    ensures Valid(Modify(v, txid, coins))
    ensures Abs(Modify(v, txid, coins)) == PlainCache(Abs(v.base), Put(Visible(v), txid, coins))
  {
    BeginKeeps(v, txid);
    EndRefines(BeginModify(v, txid), txid, coins);
  }

  lemma FreshAssertionHolds(v: View)
    requires Valid(v) && v.Cache? && v.base.Cache?
    ensures FreshAssertion(v.base.entries, v.entries)
  {
  }

  /** One txid of a BatchWrite into a cache that shows `behind` behind it. */
  lemma MergeAgrees(behind: map<Hash, Coins>, ours: Layer, child: Layer)
    requires forall t :: t in child && !child[t].isFresh ==> t in ours
    requires LayerAgrees(ours, behind) && LayerAgrees(child, Overlay(behind, ours))
    ensures LayerAgrees(MergeLayer(ours, child), behind)
    ensures Overlay(behind, MergeLayer(ours, child)) == Overlay(Overlay(behind, ours), child)
  {
    var merged := MergeLayer(ours, child);
    forall t | t in merged
      ensures EntryAgrees(merged[t], t, behind)
    {
    }
    var left, right := Overlay(behind, merged), Overlay(Overlay(behind, ours), child);
    forall t
      ensures t in left <==> t in right
      ensures t in left ==> left[t] == right[t]
    {
      if t in child {
        assert EntryAgrees(child[t], t, Overlay(behind, ours));
      }
    }
  }

  /** BatchWrite shows the parent what the child showed. */
  lemma BatchWriteRefines(v: View)
    requires Valid(v) && v.Cache?
    ensures v.base.Cache? ==> FreshAssertion(v.base.entries, v.entries)
    ensures Valid(BatchWrite(v.base, v.entries))
    ensures Visible(BatchWrite(v.base, v.entries)) == Visible(v)
  {
    if v.base.Cache? {
      FreshAssertionHolds(v);
      MergeAgrees(Visible(v.base.base), v.base.entries, v.entries);
    } else {
      DbAgrees(v.base.stored, v.entries);
    }
  }

  /** A flush writes the child to the parent and leaves the child an empty layer. */
  lemma FlushRefines(v: View)
    requires Valid(v) && v.Cache?
    ensures v.base.Cache? ==> FreshAssertion(v.base.entries, v.entries)
    ensures Valid(Flush(v))
    ensures Visible(Flush(v)) == Visible(Flush(v).base) == Visible(v)
    ensures v.base.Cache? ==> Flush(v).base.base == v.base.base
  {
    BatchWriteRefines(v);
    assert Overlay(Visible(v), map[]) == Visible(v);
  }

  lemma DbAgrees(stored: map<Hash, Coins>, child: Layer)
    requires LayerAgrees(child, Visible(Db(stored)))
    ensures Visible(Db(MergeDb(stored, child))) == Overlay(Visible(Db(stored)), child)
  {
    var left, right := Visible(Db(MergeDb(stored, child))), Overlay(Visible(Db(stored)), child);
    forall t
      ensures t in left <==> t in right
      ensures t in left ==> left[t] == right[t]
    {
      if t in child {
        assert EntryAgrees(child[t], t, Visible(Db(stored)));
      }
    }
  }

  // ---- whole runs ----

  datatype Op =
    | OpFetch(txid: Hash)
    | OpModify(txid: Hash, coins: Coins)
    | OpFlush
    | OpPush
    | OpDrop

  /** Flushing, writing and dropping need a cache on top; the other views never change under a child. */
  ghost predicate Enabled(p: Plain, op: Op) {
    op.OpModify? || op.OpFlush? || op.OpDrop? ==> p.PlainCache?
  }

  ghost function PlainStep(p: Plain, op: Op): Plain
    requires Enabled(p, op)
  {
    match op
    case OpFetch(_) => p
    case OpModify(txid, coins) => PlainCache(p.base, Put(p.m, txid, coins))
    case OpFlush => PlainCache(p.base.(m := p.m), p.m)
    case OpPush => PlainCache(p, p.m)
    case OpDrop => p.base
  }

  ghost predicate PlainRunnable(p: Plain, ops: seq<Op>)
    decreases |ops|
  {
    ops != [] ==> Enabled(p, ops[0]) && PlainRunnable(PlainStep(p, ops[0]), ops[1..])
  }

  ghost function PlainRun(p: Plain, ops: seq<Op>): Plain
    requires PlainRunnable(p, ops)
    decreases |ops|
  {
    if ops == [] then p else PlainRun(PlainStep(p, ops[0]), ops[1..])
  }

  /** One operation on the caches; None when an assertion of the source fails. */
  ghost function Step(v: View, op: Op): Option<View> {
    match op
    case OpFetch(txid) => Some(Fetch(v, txid))
    case OpModify(txid, coins) => if v.Cache? then Some(Modify(v, txid, coins)) else None
    case OpFlush =>
      if v.Cache? && (v.base.Cache? ==> FreshAssertion(v.base.entries, v.entries)) then Some(Flush(v)) else None
    case OpPush => Some(Cache(v, map[]))
    case OpDrop => if v.Cache? then Some(v.base) else None
  }

  ghost function Run(v: View, ops: seq<Op>): Option<View>
    decreases |ops|
  {
    if ops == [] then Some(v) else
      match Step(v, ops[0])
      case None => None
      case Some(w) => Run(w, ops[1..])
  }

  lemma StepRefines(v: View, op: Op)
    requires Valid(v) && Enabled(Abs(v), op)
    ensures Step(v, op).Some? && Valid(Step(v, op).value)
    ensures Abs(Step(v, op).value) == PlainStep(Abs(v), op)
  {
    match op
    case OpFetch(txid) => FetchKeeps(v, txid);
    case OpModify(txid, coins) => ModifyRefines(v, txid, coins);
    case OpFlush => FlushRefines(v);
    case OpPush => assert Visible(Cache(v, map[])) == Visible(v);
    case OpDrop =>
  }

  /** Every run of a stack of caches shows, at every level, what the plain maps show; no assertion fails. */
  lemma {:induction false} RunRefines(v: View, ops: seq<Op>)
    requires Valid(v) && PlainRunnable(Abs(v), ops)
    ensures Run(v, ops).Some? && Valid(Run(v, ops).value)
    ensures Abs(Run(v, ops).value) == PlainRun(Abs(v), ops)
    decreases |ops|
  {
    if ops != [] {
      StepRefines(v, ops[0]);
      RunRefines(Step(v, ops[0]).value, ops[1..]);
    }
  }
}
