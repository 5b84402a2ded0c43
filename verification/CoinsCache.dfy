/** CCoinsViewCache objects chained through their base pointers down to the database. */
module CoinsCache {
  import opened Transactions
  import opened Common
  import opened Coins
  import opened CoinsView

  class CoinsViewDB {
    var stored: map<Hash, Coins>

    constructor ()
      ensures stored == map[]
    {
      stored := map[];
    }

    method GetCoins(txid: Hash) returns (r: Option<Coins>)
      ensures r == Lookup(Db(stored), txid)
    {
      r := if txid in stored then Some(stored[txid]) else None;
    }

    /** DIRTY entries are written through, pruned ones as deletions. */
    method BatchWrite(mapCoins: Layer)
      modifies this
      ensures stored == MergeDb(old(stored), mapCoins)
    {
      var todo := mapCoins.Keys;
      while todo != {}
        invariant todo <= mapCoins.Keys
        invariant forall t :: Lookup(Db(stored), t) ==
                              Lookup(Db(if t in mapCoins && t !in todo then MergeDb(old(stored), mapCoins)
                                        else old(stored)), t)
        decreases todo
      {
        var txid :| txid in todo;
        todo := todo - {txid};
        if mapCoins[txid].isDirty {
          if mapCoins[txid].coins.IsPruned() {
            stored := stored - {txid};
          } else {
            stored := stored[txid := mapCoins[txid].coins];
          }
        }
      }
      forall t
        ensures t in stored <==> t in MergeDb(old(stored), mapCoins)
        ensures t in stored ==> stored[t] == MergeDb(old(stored), mapCoins)[t]
      {
        assert Lookup(Db(stored), t) == Lookup(Db(if t in mapCoins then MergeDb(old(stored), mapCoins)
                                                  else old(stored)), t);
      }
    }
  }

  class CoinsViewCache {
    const db: CoinsViewDB
    const base: CoinsViewCache?
    ghost const Repr: set<object>
    var hasModifier: bool
    var cacheCoins: Layer

    ghost predicate Wired()
      ensures Wired() && base != null ==> base in Repr
      decreases Repr
    {
      && this in Repr && db in Repr
      && (base == null ==> Repr == {this, db})
      && (base != null ==>
            && this !in base.Repr && base.Repr < Repr && Repr == base.Repr + {this}
            && base.db == db && base.Wired())
    }

    ghost function Abs(): (v: View)
      requires Wired()
      reads Repr
      ensures v.Cache? && v.entries == cacheCoins
      decreases Repr
    {
      Cache(if base == null then Db(db.stored) else base.Abs(), cacheCoins)
    }

    /** No modifier is alive on this cache or on one behind it. */
    ghost predicate Idle()
      requires Wired()
      reads Repr
      decreases Repr
    {
      !hasModifier && (base != null ==> base.Idle())
    }

    ghost predicate Valid()
      reads Repr
    {
      Wired() && Idle() && CoinsView.Valid(Abs())
    }

    constructor OnDb(db: CoinsViewDB)
      ensures Valid() && fresh(Repr - {db})
      ensures Abs() == Cache(Db(db.stored), map[])
    {
      this.db, base := db, null;
      hasModifier, cacheCoins := false, map[];
      Repr := {this, db};
    }

    constructor OnCache(base: CoinsViewCache)
      requires base.Valid()
      ensures Valid() && this.base == base && fresh(Repr - base.Repr)
      ensures Abs() == Cache(base.Abs(), map[])
    {
      this.db, this.base := base.db, base;
      hasModifier, cacheCoins := false, map[];
      Repr := base.Repr + {this};
    }

    method FetchCoins(txid: Hash) returns (r: Option<Coins>)
      requires Wired()
      modifies Repr
      ensures Abs() == Fetch(old(Abs()), txid)
      ensures r == Lookup(old(Abs()), txid)
      ensures Idle() == old(Idle()) && hasModifier == old(hasModifier)
      decreases Repr
    {
      if txid in cacheCoins {
        return Some(cacheCoins[txid].coins);
      }
      var tmp := BaseGetCoins(txid);
      if tmp.None? {
        return None;
      }
      cacheCoins := cacheCoins[txid := Entry(tmp.value, false, tmp.value.IsPruned())];
      r := tmp;
    }

    /** base->GetCoins: the database answers directly, a cache fetches. */
    method BaseGetCoins(txid: Hash) returns (r: Option<Coins>)
      requires Wired()
      modifies if base == null then {} else base.Repr
      ensures Abs() == Cache(Fetch(old(Abs().base), txid), cacheCoins)
      ensures r == Lookup(old(Abs().base), txid)
      ensures hasModifier == old(hasModifier) && (base != null ==> base.Idle() == old(base.Idle()))
      decreases Repr, 0
    {
      if base == null {
        r := db.GetCoins(txid);
      } else {
        r := base.FetchCoins(txid);
      }
    }

    /** HaveCoins looks only whether outputs are listed, not whether one is unspent. */
    method HaveCoins(txid: Hash) returns (have: bool)
      requires Valid()
      modifies Repr
      ensures Valid() && Abs() == Fetch(old(Abs()), txid)
      ensures txid in old(Visible(Abs())) ==> have
      ensures (forall c :: Lookup(old(Abs()), txid) == Some(c) ==> c.Cleaned() == c) ==>
                (have <==> txid in old(Visible(Abs())))
    {
      FetchKeeps(Abs(), txid);
      LookupIsVisible(Abs(), txid);
      var c := FetchCoins(txid);
      have := c.Some? && |c.value.vout| != 0;
      if c.Some? {
        CleanedFacts(c.value);
      }
    }

    /** The first half of ModifyCoins: a missing entry is copied from the base or created. */
    method Insert(txid: Hash)
      requires Wired()
      modifies Repr
      ensures hasModifier == old(hasModifier) && (base != null ==> base.Idle() == old(base.Idle()))
      ensures txid in cacheCoins
      ensures Cache(Abs().base, cacheCoins[txid := cacheCoins[txid].(isDirty := true)]) == BeginModify(old(Abs()), txid)
    {
      hide Visible, CoinsView.Valid, CoinsView.Abs, LayerAgrees;
      if txid !in cacheCoins {
        cacheCoins := cacheCoins[txid := Entry(EmptyCoins, false, false)];
        var c := BaseGetCoins(txid);
        if c.None? {
          cacheCoins := cacheCoins[txid := Entry(EmptyCoins, false, true)];
        } else {
          cacheCoins := cacheCoins[txid := Entry(c.value, false, c.value.IsPruned())];
        }
      }
      var e := cacheCoins[txid].(isDirty := true);
      assert cacheCoins[txid := e] == BeginModify(old(Abs()), txid).entries;
    }

    /** Starts a modification and hands out the coins to be modified. */
    method ModifyCoins(txid: Hash) returns (coins: Coins)
      requires Valid()
      modifies Repr
      ensures Wired() && CoinsView.Valid(Abs()) && hasModifier && (base != null ==> base.Idle())
      ensures Abs() == BeginModify(old(Abs()), txid)
      ensures txid in cacheCoins && coins == cacheCoins[txid].coins && cacheCoins[txid].isDirty
      ensures CoinsView.Abs(Abs()) == old(CoinsView.Abs(Abs()))
      ensures if txid in old(Visible(Abs())) then coins == old(Visible(Abs()))[txid] else coins.IsPruned()
    {
      hide Visible, CoinsView.Valid, CoinsView.Abs, LayerAgrees;
      BeginKeeps(Abs(), txid);
      Insert(txid);
      label L:
      cacheCoins := cacheCoins[txid := cacheCoins[txid].(isDirty := true)];
      hasModifier := true;
      coins := cacheCoins[txid].coins;
      assert Abs().base == old@L(Abs().base);
    }

    /** ~CCoinsModifier: cleans the entry up and drops it when it is FRESH and pruned. */
    method Release(txid: Hash, coins: Coins)
      requires Wired() && hasModifier && txid in cacheCoins
      modifies this
      ensures !hasModifier && (base != null ==> base.Idle() == old(base.Idle()))
      ensures Abs() == CoinsView.EndModify(old(Abs()), txid, coins)
    {
      hasModifier := false;
      var cleaned := Cleanup(coins);
      cacheCoins := cacheCoins[txid := cacheCoins[txid].(coins := cleaned)];
      if cacheCoins[txid].isFresh && cacheCoins[txid].coins.IsPruned() {
        cacheCoins := cacheCoins - {txid};
      }
      assert cacheCoins == CoinsView.EndModify(old(Abs()), txid, coins).entries;
    }

    /** The modifier goes out of scope after leaving `coins` in the entry. */
    method EndModify(txid: Hash, coins: Coins)
      requires Wired() && CoinsView.Valid(Abs()) && hasModifier && (base != null ==> base.Idle())
      requires txid in cacheCoins && cacheCoins[txid].isDirty
      modifies this
      ensures Valid() && Abs() == CoinsView.EndModify(old(Abs()), txid, coins)
      ensures CoinsView.Abs(Abs()) ==
              PlainCache(old(CoinsView.Abs(Abs().base)), Put(old(Visible(Abs())), txid, coins))
    {
      EndRefines(Abs(), txid, coins);
      Release(txid, coins);
    }

    /** Takes over the DIRTY entries of a child; its assertion is the requirement FreshAssertion. */
    method BatchWrite(mapCoins: Layer)
      requires Wired() && !hasModifier && FreshAssertion(cacheCoins, mapCoins)
      modifies this`cacheCoins
      ensures Abs() == CoinsView.BatchWrite(old(Abs()), mapCoins) && Idle() == old(Idle())
    {
      var todo := mapCoins.Keys;
      while todo != {}
        invariant todo <= mapCoins.Keys
        invariant forall t :: EntryOf(cacheCoins, t) ==
                              if t in mapCoins && t !in todo then MergedEntry(old(cacheCoins), mapCoins, t)
                              else EntryOf(old(cacheCoins), t)
        decreases todo
      {
        var txid :| txid in todo;
        todo := todo - {txid};
        var theirs := mapCoins[txid];
        assert EntryOf(cacheCoins, txid) == EntryOf(old(cacheCoins), txid);
        if theirs.isDirty {
          if txid !in cacheCoins {
            if !theirs.coins.IsPruned() {
              assert theirs.isFresh;
              cacheCoins := cacheCoins[txid := Entry(theirs.coins, true, true)];
            }
          } else if cacheCoins[txid].isFresh && theirs.coins.IsPruned() {
            cacheCoins := cacheCoins - {txid};
          } else {
            cacheCoins := cacheCoins[txid := cacheCoins[txid].(coins := theirs.coins, isDirty := true)];
          }
        }
      }
      forall t
        ensures t in cacheCoins <==> t in MergeLayer(old(cacheCoins), mapCoins)
        ensures t in cacheCoins ==> cacheCoins[t] == MergeLayer(old(cacheCoins), mapCoins)[t]
      {
        assert EntryOf(cacheCoins, t) == MergedEntry(old(cacheCoins), mapCoins, t);
      }
      assert cacheCoins == MergeLayer(old(cacheCoins), mapCoins);
    }

    /** Pushes the layer down; afterwards this cache and its base show what this cache showed. */
    method Flush()
      requires Valid()
      modifies Repr
      ensures Valid() && Abs() == CoinsView.Flush(old(Abs()))
      ensures Visible(Abs()) == Visible(Abs().base) == old(Visible(Abs()))
      ensures base != null ==> base.Valid()
    {
      FlushRefines(Abs());
      if base == null {
        db.BatchWrite(cacheCoins);
      } else {
        assert base.Idle();
        base.BatchWrite(cacheCoins);
      }
      cacheCoins := map[];
    }
  }
}
