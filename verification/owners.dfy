/**
 * The object that observers and depositables are attached to, with the three objects
 * the framework associates with it on first use: the died-observer context, the
 * deinit-observer context and the depositable dictionary. The owner going away is the
 * explicit method `Die`.
 */
module Owners {
  import opened Options
  import opened Keys
  import opened Observers
  import opened Depositables

  /** The id under which the depositable dictionary asks the died-observer context to release it. */
  const ReleaseObserverId: string := "_depositable_support_removeNotificationCenterObserver"

  /** The client blocks among `obs`, in order. */
  function ClientBlocks(obs: seq<Observer>): (r: seq<nat>)
    ensures |r| <= |obs|
    ensures (forall i :: 0 <= i < |obs| ==> obs[i].Client?) ==> |r| == |obs|
  {
    if obs == [] then []
    else ClientBlocks(obs[..|obs| - 1]) + (if obs[|obs| - 1].Client? then [obs[|obs| - 1].block] else [])
  }

  class Owner<D> {
    /** The associated object under `DiedObserverContextKey`. */
    var died: ObservingContext?
    /** The associated object under `DeinitObserverContextKey`. */
    var deinits: ObservingContext?
    /** The associated object under `_depositable_support_keyIdValueDepositable`. */
    var store: Store?<D>
    /** The client observer blocks run when the owner went away. */
    var ranBlocks: seq<nat>

    /**
     * The two contexts are different objects; only the depositable dictionary's own id can
     * hold its release, and it is registered only once the dictionary exists.
     */
    ghost predicate Valid()
      reads this, died, deinits
    {
      (died != null && deinits != null ==> died != deinits) &&
      (died != null ==> forall k :: k in died.observers && died.observers[k].ReleaseDepositables? ==>
                          k == ReleaseObserverId && store != null) &&
      (deinits != null ==> forall k :: k in deinits.observers ==> deinits.observers[k].Client?)
    }

    /** The observers registered to run when the owner dies. */
    ghost function DiedObservers(): map<string, Observer>
      reads this, died
    {
      if died == null then map[] else died.observers
    }

    /** The observers registered to run when the owner is deinitialised. */
    ghost function DeinitObservers(): map<string, Observer>
      reads this, deinits
    {
      if deinits == null then map[] else deinits.observers
    }

    /** What is deposited on the owner. */
    ghost function Deposits(): map<string, D>
      reads this, store
    {
      if store == null then map[] else store.entries
    }

    constructor()
      ensures Valid() && died == null && deinits == null && store == null && ranBlocks == []
    {
      died, deinits, store, ranBlocks := null, null, null, [];
    }

    // -------------------------------------------------------------------------
    // AnyObject+DiedObserver.swift
    // -------------------------------------------------------------------------

    /** `diedObservingContext(target)`: the context already associated, or a new empty one associated now. */
    method DiedContext() returns (c: ObservingContext)
      requires Valid()
      modifies this
      ensures Valid() && died == c && DiedObservers() == old(DiedObservers())
      ensures old(died) != null ==> c == old(died)
      ensures old(died) == null ==> fresh(c)
      ensures deinits == old(deinits) && store == old(store) && ranBlocks == old(ranBlocks)
    {
      if died == null {
        c := new ObservingContext();
        died := c;
      } else {
        c := died;
      }
    }

    /** `addDiedObserver(target:id:observer:)`: register `block` under `id`, replacing what was there, and return `id`. */
    method AddDiedObserver(id: string, block: nat) returns (r: string)
      requires Valid()
      modifies this, died
      ensures Valid() && r == id && DiedObservers() == old(DiedObservers())[id := Client(block)]
      ensures deinits == old(deinits) && DeinitObservers() == old(DeinitObservers())
      ensures store == old(store) && ranBlocks == old(ranBlocks)
    {
      var c := DiedContext();
      c.AddObserver(id, Client(block));
      r := id;
    }

    /** `addDiedObserver(target:observer:)`: the same under an id made from the clock, read here as `now`. */
    method AddDiedObserverNow(now: string, block: nat) returns (r: string)
      requires Valid()
      modifies this, died
      ensures Valid() && r == now && DiedObservers() == old(DiedObservers())[r := Client(block)]
      ensures deinits == old(deinits) && DeinitObservers() == old(DeinitObservers())
      ensures store == old(store) && ranBlocks == old(ranBlocks)
    {
      r := AddDiedObserver(now, block);
    }

    /** `removeDiedObserver(target:id:)`: forget the block under `id`, if any. */
    method RemoveDiedObserver(id: string)
      requires Valid()
      modifies this, died
      ensures Valid() && DiedObservers() == old(DiedObservers()) - {id}
      ensures deinits == old(deinits) && DeinitObservers() == old(DeinitObservers())
      ensures store == old(store) && ranBlocks == old(ranBlocks)
    {
      var c := DiedContext();
      c.RemoveObserver(id);
    }

    // -------------------------------------------------------------------------
    // AnyObject+DeinitObserver.swift
    // -------------------------------------------------------------------------

    /** `deinitObservingContext(target)` */
    method DeinitContext() returns (c: ObservingContext)
      requires Valid()
      modifies this
      ensures Valid() && deinits == c && DeinitObservers() == old(DeinitObservers())
      ensures old(deinits) != null ==> c == old(deinits)
      ensures old(deinits) == null ==> fresh(c)
      ensures died == old(died) && store == old(store) && ranBlocks == old(ranBlocks)
    {
      if deinits == null {
        c := new ObservingContext();
        deinits := c;
      } else {
        c := deinits;
      }
    }

    /** `addDeinitObserver(target:id:observer:)` */
    method AddDeinitObserver(id: string, block: nat)
      requires Valid()
      modifies this, deinits
      ensures Valid() && DeinitObservers() == old(DeinitObservers())[id := Client(block)]
      ensures died == old(died) && DiedObservers() == old(DiedObservers())
      ensures store == old(store) && ranBlocks == old(ranBlocks)
    {
      var c := DeinitContext();
      c.AddObserver(id, Client(block));
    }

    /** `removeDeinitObserver(target:id:)` */
    method RemoveDeinitObserver(id: string)
      requires Valid()
      modifies this, deinits
      ensures Valid() && DeinitObservers() == old(DeinitObservers()) - {id}
      ensures died == old(died) && DiedObservers() == old(DiedObservers())
      ensures store == old(store) && ranBlocks == old(ranBlocks)
    {
      var c := DeinitContext();
      c.RemoveObserver(id);
    }

    // -------------------------------------------------------------------------
    // AnyObject+Depositable.swift
    // -------------------------------------------------------------------------

    /**
     * `keyIdValueDepositable(target)`: the dictionary already associated, or a new empty one,
     * which on creation asks the died-observer context to release its entries.
     */
    method DepositStore() returns (s: Store<D>)
      requires Valid()
      modifies this, died
      ensures Valid() && store == s
      ensures old(store) != null ==> s == old(store) && s.entries == old(store.entries) && s.log == old(store.log) &&
                                      DiedObservers() == old(DiedObservers())
      ensures old(store) == null ==> fresh(s) && s.entries == map[] && s.log == [] &&
                                      DiedObservers() == old(DiedObservers())[ReleaseObserverId := ReleaseDepositables]
      ensures deinits == old(deinits) && DeinitObservers() == old(DeinitObservers()) && ranBlocks == old(ranBlocks)
    {
      if store == null {
        s := new Store<D>();
        store := s;
        var c := DiedContext();
        c.AddObserver(ReleaseObserverId, ReleaseDepositables);
      } else {
        s := store;
      }
    }

    /** `deposit(to:with:id:)`: store `d` under `id`, or under an id made from the clock (`now`) when there is none. */
    method Deposit(id: Option<string>, now: string, d: D) returns (r: D)
      requires Valid()
      modifies this, died, store
      ensures Valid() && r == d && store != null
      ensures Deposits() == old(Deposits())[(if id.Some? then id.value else now) := d]
      ensures store.log == (if old(store) == null then [] else old(store.log)) + [DidAdd(d)]
      ensures old(store) != null ==> store == old(store) && DiedObservers() == old(DiedObservers())
      ensures old(store) == null ==> fresh(store) && DiedObservers() == old(DiedObservers())[ReleaseObserverId := ReleaseDepositables]
      ensures deinits == old(deinits) && DeinitObservers() == old(DeinitObservers()) && ranBlocks == old(ranBlocks)
    {
      var key := if id.Some? then id.value else now;
      var s := DepositStore();
      r := s.Deposit(key, d);
    }

    /** `deposited(from:id:)`: the entry under `id`, if any; the dictionary is created if it was not there yet. */
    method Deposited(id: string) returns (r: Option<D>)
      requires Valid()
      modifies this, died
      ensures Valid() && Deposits() == old(Deposits()) && store != null
      ensures r.Some? <==> id in old(Deposits())
      ensures r.Some? ==> r.value == old(Deposits())[id]
      ensures store.log == (if old(store) == null then [] else old(store.log))
      ensures old(store) != null ==> store == old(store) && DiedObservers() == old(DiedObservers())
      ensures old(store) == null ==> fresh(store) && DiedObservers() == old(DiedObservers())[ReleaseObserverId := ReleaseDepositables]
      ensures deinits == old(deinits) && DeinitObservers() == old(DeinitObservers()) && ranBlocks == old(ranBlocks)
    {
      var s := DepositStore();
      r := s.Deposited(id);
    }

    /** `removeDeposited(from:id:)` */
    method RemoveDeposited(id: string)
      requires Valid()
      modifies this, died, store
      ensures Valid() && Deposits() == old(Deposits()) - {id} && store != null
      ensures id in old(Deposits()) ==> store.log == old(store.log) + [WillRemove(old(Deposits())[id])]
      ensures id !in old(Deposits()) ==> store.log == (if old(store) == null then [] else old(store.log))
      ensures old(store) != null ==> store == old(store) && DiedObservers() == old(DiedObservers())
      ensures old(store) == null ==> fresh(store) && DiedObservers() == old(DiedObservers())[ReleaseObserverId := ReleaseDepositables]
      ensures deinits == old(deinits) && DeinitObservers() == old(DeinitObservers()) && ranBlocks == old(ranBlocks)
    {
      var s := DepositStore();
      s.RemoveDeposited(id);
    }

    /** The memory-warning notification: only a dictionary that exists is subscribed to it. */
    method MemoryWarning(shouldRemove: D -> bool) returns (removing: seq<string>)
      requires Valid()
      modifies store
      ensures Deposits() == Kept(old(Deposits()), shouldRemove)
      ensures forall k :: k in removing <==> k in old(Deposits()) && shouldRemove(old(Deposits())[k])
      ensures store != null ==> store.log == old(store.log) + WillRemoves(old(Deposits()), removing)
    {
      removing := [];
      if store != null {
        removing := store.HandleMemoryWarning(shouldRemove);
      }
    }

    // -------------------------------------------------------------------------
    // The owner going away
    // -------------------------------------------------------------------------

    /**
     * The owner is released, and with it its associated objects: the died-observer context
     * runs every block still registered, once each (one of them may be the release of the
     * depositable dictionary, which tells every entry once that it is going, in the order
     * `notified`), and then the deinit-observer context runs its blocks.
     */
    method Die() returns (diedOrder: seq<string>, deinitOrder: seq<string>, ghost notified: seq<string>)
      requires Valid()
      modifies this, store
      ensures Distinct(diedOrder) && forall k :: k in diedOrder <==> k in old(DiedObservers())
      ensures Distinct(deinitOrder) && forall k :: k in deinitOrder <==> k in old(DeinitObservers())
      ensures ranBlocks == old(ranBlocks) + ClientBlocks(RanBlocks(old(DiedObservers()), diedOrder))
                                         + ClientBlocks(RanBlocks(old(DeinitObservers()), deinitOrder))
      ensures old(store) != null ==> old(store).entries == old(store.entries)
      ensures old(store) != null && Releases(old(DiedObservers())) ==>
        Distinct(notified) && |notified| == |old(store.entries).Keys| && (forall k :: k in notified <==> k in old(store.entries)) &&
        old(store).log == old(store.log) + WillRemoves(old(store.entries), notified)
      ensures old(store) != null && !Releases(old(DiedObservers())) ==> old(store).log == old(store.log)
      ensures died == null && deinits == null && store == null
    {
      var ran: seq<Observer>;
      diedOrder, ran := [], [];
      if died != null {
        diedOrder, ran := died.Deinit();
      }
      assert ran == RanBlocks(old(DiedObservers()), diedOrder);
      ghost var at := ReleaseIndex(old(DiedObservers()), diedOrder);
      notified := RunDiedObservers(ran, at);
      var deinitRan: seq<Observer>;
      deinitOrder, deinitRan := [], [];
      if deinits != null {
        deinitOrder, deinitRan := deinits.Deinit();
      }
      assert deinitRan == RanBlocks(old(DeinitObservers()), deinitOrder);
      ranBlocks := ranBlocks + ClientBlocks(deinitRan);
      died, deinits, store := null, null, null;
    }

    /**
     * Run the blocks the died-observer context handed out: a client's block is recorded,
     * the dictionary's release tells every entry once that it is going. The release is
     * `ran[at]`, or nowhere when `at == |ran|`.
     */
    method RunDiedObservers(ran: seq<Observer>, ghost at: nat) returns (ghost notified: seq<string>)
      requires at <= |ran| && forall j :: 0 <= j < |ran| && j != at ==> !ran[j].ReleaseDepositables?
      requires at < |ran| ==> ran[at].ReleaseDepositables?
      modifies this, store
      ensures died == old(died) && deinits == old(deinits) && store == old(store)
      ensures ranBlocks == old(ranBlocks) + ClientBlocks(ran)
      ensures store != null ==> store.entries == old(store.entries)
      ensures store != null && at < |ran| ==>
        Distinct(notified) && |notified| == |store.entries.Keys| && (forall k :: k in notified <==> k in store.entries) &&
        store.log == old(store.log) + WillRemoves(store.entries, notified)
      ensures store != null && at == |ran| ==> store.log == old(store.log)
    {
      notified := [];
      var blocks: seq<nat> := [];
      for i := 0 to |ran|
        modifies store
        invariant blocks == ClientBlocks(ran[..i])
        invariant store != null ==> store.entries == old(store.entries)
        invariant store != null && at < i ==>
          Distinct(notified) && |notified| == |store.entries.Keys| && (forall k :: k in notified <==> k in store.entries) &&
          store.log == old(store.log) + WillRemoves(store.entries, notified)
        invariant store != null && i <= at ==> store.log == old(store.log)
      {
        assert ran[..i + 1][..i] == ran[..i];
        assert ClientBlocks(ran[..i + 1]) == ClientBlocks(ran[..i]) + if ran[i].Client? then [ran[i].block] else [];
        if ran[i].ReleaseDepositables? && store != null {
          notified := store.NotifyAll();
        } else if ran[i].Client? {
          blocks := blocks + [ran[i].block];
        }
      }
      assert ran[..|ran|] == ran;
      ranBlocks := ranBlocks + blocks;
    }
  }

  /**
   * An entry deposited on a new owner is told once that it is added and, when the owner goes
   * away, once that it is going: its hooks are exactly `depositableDidAdd` then
   * `depositableWillRemove`.
   */
  method DepositThenDie<D>(id: string, now: string, d: D) returns (log: seq<Hook<D>>)
    ensures log == [DidAdd(d), WillRemove(d)]
  {
    var o, s := NewOwnerWith(id, now, d);
    ghost var entries := s.entries;
    var _, _, notified := o.Die();
    OneEntryTold(entries, id, d, notified, [DidAdd(d)], s.log);
    log := s.log;
  }

  /** A new owner with `d` deposited under `id`: its dictionary `s` holds only `d`, and its release is registered. */
  method NewOwnerWith<D>(id: string, now: string, d: D) returns (o: Owner<D>, s: Store<D>)
    ensures fresh(o) && fresh(s) && o.Valid() && o.store == s && s.entries == map[id := d] && s.log == [DidAdd(d)]
    ensures Releases(o.DiedObservers())
  {
    o := new Owner<D>();
    var _ := o.Deposit(Some(id), now, d);
    s := o.store;
  }

  /** Telling every entry of a dictionary holding only `d` is one `depositableWillRemove` on `d`. */
  lemma OneEntryTold<D>(entries: map<string, D>, id: string, d: D, notified: seq<string>, log0: seq<Hook<D>>, log: seq<Hook<D>>)
    requires entries == map[id := d] && Distinct(notified) && |notified| == |entries.Keys|
    requires (forall k :: k in notified <==> k in entries) && log == log0 + WillRemoves(entries, notified)
    ensures log == log0 + [WillRemove(d)]
  {
    assert notified[0] in notified;
    assert notified == [id];
  }

  /** The depositable dictionary's release is registered in `m`. */
  predicate Releases(m: map<string, Observer>)
  {
    ReleaseObserverId in m && m[ReleaseObserverId].ReleaseDepositables?
  }

  /** The position of the release in `order`, or `|order|`. */
  ghost function ReleaseIndex(m: map<string, Observer>, order: seq<string>): (r: nat)
    requires Distinct(order) && (forall k :: k in order <==> k in m)
    requires forall k :: k in m && m[k].ReleaseDepositables? ==> k == ReleaseObserverId
    ensures r <= |order|
    ensures Releases(m) <==> r < |order|
    ensures r < |order| ==> order[r] == ReleaseObserverId
    ensures forall j :: 0 <= j < |order| && j != r ==> !m[order[j]].ReleaseDepositables?
  {
    if Releases(m) then
      var r :| 0 <= r < |order| && order[r] == ReleaseObserverId; r
    else |order|
  }

  /** The blocks registered under `order` in `m`, in that order. */
  function RanBlocks(m: map<string, Observer>, order: seq<string>): (r: seq<Observer>)
    requires forall k :: k in order ==> k in m
    ensures |r| == |order| && forall i :: 0 <= i < |order| ==> r[i] == m[order[i]]
  {
    if order == [] then [] else RanBlocks(m, order[..|order| - 1]) + [m[order[|order| - 1]]]
  }
}
