/**
 * The observing contexts of AnyObject+DiedObserver.swift and AnyObject+DeinitObserver.swift.
 * Both files declare the same private class (a dictionary from id to observer block that
 * runs every block still registered when the context is deinitialised), so it is defined
 * once here and an owner holds one of each.
 */
module Observers {
  import opened Keys

  /** What an observer block does when it runs: a client's block, or the release of the owner's depositables. */
  datatype Observer = Client(block: nat) | ReleaseDepositables

  /** `DiedObservingContext` / `DeinitObservingContext` */
  class ObservingContext {
    /** `keyIdValueObserver` */
    var observers: map<string, Observer>

    constructor()
      ensures observers == map[]
    {
      observers := map[];
    }

    /** `addObserver(id:observer:)`: `updateValue`, so a block under the same id is replaced. */
    method AddObserver(id: string, observer: Observer)
      modifies this
      ensures observers == old(observers)[id := observer]
    {
      observers := observers[id := observer];
    }

    /** `removeObserver(id:)`: `removeValueForKey`, which ignores an unknown id. */
    method RemoveObserver(id: string)
      modifies this
      ensures observers == old(observers) - {id}
      ensures id !in old(observers) ==> observers == old(observers)
    {
      observers := observers - {id};
    }

    /**
     * `deinit`: run every block still registered, once each, in the dictionary's order.
     * `order` is that order and `ran[i]` the block registered under `order[i]`.
     */
    method Deinit() returns (order: seq<string>, ran: seq<Observer>)
      ensures Distinct(order) && forall k :: k in order <==> k in observers
      ensures |ran| == |order| && forall i :: 0 <= i < |order| ==> ran[i] == observers[order[i]]
    {
      order := EnumerateKeys(observers);
      ran := [];
      for i := 0 to |order|
        invariant |ran| == i
        invariant forall j :: 0 <= j < i ==> ran[j] == observers[order[j]]
      {
        ran := ran + [observers[order[i]]];
      }
    }
  }
}
