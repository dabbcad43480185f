/**
 * The per-owner dictionary of AnyObject+Depositable.swift, from id to Depositable. The
 * entries are values of any type `D`; the hooks the registry calls on them
 * (`depositableDidAdd`, `depositableWillRemove`) are recorded in order in `log`, and the
 * answers of `shouldRemoveDepositable()` are given as a function.
 */
module Depositables {
  import opened Options
  import opened Keys

  /** A call the registry made on one of its entries. */
  datatype Hook<D> = DidAdd(entry: D) | WillRemove(entry: D)

  /** `depositableWillRemove` called on the entries under `keys`, in that order. */
  function WillRemoves<D>(m: map<string, D>, keys: seq<string>): (r: seq<Hook<D>>)
    requires forall k :: k in keys ==> k in m
    ensures |r| == |keys|
  {
    if keys == [] then [] else WillRemoves(m, keys[..|keys| - 1]) + [WillRemove(m[keys[|keys| - 1]])]
  }

  /** The `i`th hook is the one called on the entry under `keys[i]`. */
  lemma {:induction false} WillRemovesAt<D>(m: map<string, D>, keys: seq<string>)
    requires forall k :: k in keys ==> k in m
    ensures forall i :: 0 <= i < |keys| ==> WillRemoves(m, keys)[i] == WillRemove(m[keys[i]])
  {
    if keys != [] {
      WillRemovesAt(m, keys[..|keys| - 1]);
    }
  }

  /** Telling one more entry adds its hook at the end. */
  lemma WillRemovesSnoc<D>(m: map<string, D>, keys: seq<string>, k: string)
    requires (forall k' :: k' in keys ==> k' in m) && k in m
    ensures WillRemoves(m, keys + [k]) == WillRemoves(m, keys) + [WillRemove(m[k])]
  {
    assert (keys + [k])[..|keys|] == keys;
  }

  /** The keys among `keys` whose entries ask to be removed, in the order of `keys`. */
  function Removable<D>(m: map<string, D>, keys: seq<string>, shouldRemove: D -> bool): (r: seq<string>)
    requires forall k :: k in keys ==> k in m
    ensures |r| <= |keys|
  {
    if keys == [] then []
    else
      var rest := Removable(m, keys[..|keys| - 1], shouldRemove);
      var last := keys[|keys| - 1];
      if shouldRemove(m[last]) then rest + [last] else rest
  }

  /** `Removable` holds exactly the keys whose entries ask to be removed, each once when `keys` has it once. */
  lemma {:induction false} RemovableMembers<D>(m: map<string, D>, keys: seq<string>, shouldRemove: D -> bool)
    requires forall k :: k in keys ==> k in m
    ensures forall k :: k in Removable(m, keys, shouldRemove) <==> k in keys && shouldRemove(m[k])
    ensures Distinct(keys) ==> Distinct(Removable(m, keys, shouldRemove))
  {
    if keys != [] {
      var init, last := keys[..|keys| - 1], keys[|keys| - 1];
      assert keys == init + [last];
      RemovableMembers(m, init, shouldRemove);
    }
  }

  /** Telling the entry under `keys[i]` after those under `keys[..i]`. */
  lemma WillRemovesPrefix<D>(m: map<string, D>, keys: seq<string>, i: nat)
    requires (forall k :: k in keys ==> k in m) && i < |keys|
    ensures WillRemoves(m, keys[..i + 1]) == WillRemoves(m, keys[..i]) + [WillRemove(m[keys[i]])]
  {
    assert keys[..i + 1][..i] == keys[..i];
  }

  /**
   * After looking at `keys[..i]`, `removing` holds the keys collected so far and `told`
   * the hooks called so far, after `log0`.
   */
  ghost predicate Collected<D>(m: map<string, D>, keys: seq<string>, i: nat, shouldRemove: D -> bool,
                               removing: seq<string>, told: seq<Hook<D>>, log0: seq<Hook<D>>)
    requires (forall k :: k in keys ==> k in m) && i <= |keys|
  {
    (forall k :: k in removing ==> k in m) &&
    removing == Removable(m, keys[..i], shouldRemove) && told == log0 + WillRemoves(m, removing)
  }

  /** Looking at one more key: collect it and tell its entry when the entry asks to be removed. */
  lemma CollectedStep<D>(m: map<string, D>, keys: seq<string>, i: nat, shouldRemove: D -> bool,
                         removing: seq<string>, told: seq<Hook<D>>, log0: seq<Hook<D>>)
    requires (forall k :: k in keys ==> k in m) && i < |keys|
    requires Collected(m, keys, i, shouldRemove, removing, told, log0)
    ensures shouldRemove(m[keys[i]]) ==>
      Collected(m, keys, i + 1, shouldRemove, removing + [keys[i]], told + [WillRemove(m[keys[i]])], log0)
    ensures !shouldRemove(m[keys[i]]) ==> Collected(m, keys, i + 1, shouldRemove, removing, told, log0)
  {
    assert keys[..i + 1][..i] == keys[..i];
    if shouldRemove(m[keys[i]]) {
      WillRemovesSnoc(m, removing, keys[i]);
    }
  }

  /** The entries a memory warning leaves in place: those that do not ask to be removed. */
  function Kept<D>(m: map<string, D>, shouldRemove: D -> bool): (r: map<string, D>)
    ensures forall k :: k in r <==> k in m && !shouldRemove(m[k])
    ensures forall k :: k in r ==> r[k] == m[k]
  {
    map k | k in m && !shouldRemove(m[k]) :: m[k]
  }

  /** The `NSMutableDictionary` behind `keyIdValueDepositable(target)`. */
  class Store<D> {
    var entries: map<string, D>
    /** The hooks called on entries so far. */
    var log: seq<Hook<D>>

    constructor()
      ensures entries == map[] && log == []
    {
      entries := map[];
      log := [];
    }

    /**
     * `deposit(to:with:id:)` once the id is known: store `d` under `id`, replacing any entry
     * there without telling it, call `d.depositableDidAdd()`, and hand `d` back.
     */
    method Deposit(id: string, d: D) returns (r: D)
      modifies this
      ensures entries == old(entries)[id := d] && log == old(log) + [DidAdd(d)]
      ensures r == d
    {
      entries := entries[id := d];
      log := log + [DidAdd(d)];
      r := d;
    }

    /** `deposited(from:id:)`: the entry under `id`, if any. */
    function Deposited(id: string): (r: Option<D>)
      reads this
      ensures r.Some? <==> id in entries
      ensures r.Some? ==> r.value == entries[id]
    {
      if id in entries then Some(entries[id]) else None
    }

    /** `removeDeposited(from:id:)`: tell the entry under `id` it is going, then drop that key only. */
    method RemoveDeposited(id: string)
      modifies this
      ensures id in old(entries) ==>
        entries == old(entries) - {id} && log == old(log) + [WillRemove(old(entries)[id])]
      ensures id !in old(entries) ==> entries == old(entries) && log == old(log)
    {
      if id in entries {
        log := log + [WillRemove(entries[id])];
        entries := entries - {id};
      }
    }

    /**
     * `notifyAllDepositables`: every entry is told once, in the dictionary's order, that it
     * is going; the dictionary itself is left as it is.
     */
    method NotifyAll() returns (order: seq<string>)
      modifies this
      ensures entries == old(entries)
      ensures Distinct(order) && |order| == |entries.Keys| && forall k :: k in order <==> k in entries
      ensures log == old(log) + WillRemoves(entries, order)
    {
      var m := entries;
      order := EnumerateKeys(m);
      var told := log;
      for i := 0 to |order|
        modifies {}
        invariant told == old(log) + WillRemoves(m, order[..i])
      {
        WillRemovesPrefix(m, order, i);
        told := told + [WillRemove(m[order[i]])];
      }
      assert order[..|order|] == order;
      log := told;
    }

    /**
     * `handleMemoryWarning`: the first loop tells every entry that asks to be removed that it
     * is going and collects its key; the second loop drops the collected keys. `removing`
     * holds them in the order they were told.
     */
    method HandleMemoryWarning(shouldRemove: D -> bool) returns (removing: seq<string>)
      modifies this
      ensures entries == Kept(old(entries), shouldRemove)
      ensures Distinct(removing) && forall k :: k in removing <==> k in old(entries) && shouldRemove(old(entries)[k])
      ensures log == old(log) + WillRemoves(old(entries), removing)
    {
      removing := TellRemovable(shouldRemove);
      DropKeys(removing);
      assert forall k :: k in entries <==> k in Kept(old(entries), shouldRemove);
    }

    /** The first loop of `handleMemoryWarning`: tell each entry that asks to be removed, and collect its key. */
    method TellRemovable(shouldRemove: D -> bool) returns (removing: seq<string>)
      modifies this
      ensures entries == old(entries)
      ensures Distinct(removing) && forall k :: k in removing <==> k in entries && shouldRemove(entries[k])
      ensures log == old(log) + WillRemoves(entries, removing)
    {
      var m := entries;
      var keys := EnumerateKeys(m);
      var told := log;
      removing := [];
      for i := 0 to |keys|
        modifies {}
        invariant Collected(m, keys, i, shouldRemove, removing, told, old(log))
      {
        var k := keys[i];
        CollectedStep(m, keys, i, shouldRemove, removing, told, old(log));
        if shouldRemove(m[k]) {
          told := told + [WillRemove(m[k])];
          removing := removing + [k];
        }
      }
      assert keys[..|keys|] == keys;
      RemovableMembers(m, keys, shouldRemove);
      log := told;
    }

    /** The second loop of `handleMemoryWarning`: `removeObjectForKey` for each collected key. */
    method DropKeys(keys: seq<string>)
      modifies this
      ensures log == old(log)
      ensures forall k :: k in entries <==> k in old(entries) && k !in keys
      ensures forall k :: k in entries ==> entries[k] == old(entries)[k]
    {
      for i := 0 to |keys|
        invariant log == old(log)
        invariant forall k :: k in entries <==> k in old(entries) && k !in keys[..i]
        invariant forall k :: k in entries ==> entries[k] == old(entries)[k]
      {
        assert keys[..i + 1] == keys[..i] + [keys[i]];
        entries := entries - {keys[i]};
      }
      assert keys[..|keys|] == keys;
    }
  }
}
