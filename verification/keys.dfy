/**
 * Keyed dictionaries as the framework uses them: string ids, and the order in which a
 * dictionary hands out its keys when it is enumerated.
 */
module Keys {

  /** No key occurs twice. */
  predicate Distinct(s: seq<string>) {
    forall i, j :: 0 <= i < j < |s| ==> s[i] != s[j]
  }

  /**
   * The keys of a dictionary in some enumeration order: each key exactly once. Which order
   * is left open, as Foundation leaves it.
   */
  method EnumerateKeys<V>(m: map<string, V>) returns (order: seq<string>)
    ensures Distinct(order) && |order| == |m.Keys|
    ensures forall k :: k in order <==> k in m
  {
    order := [];
    var rest := m.Keys;
    while rest != {}
      invariant Distinct(order) && rest <= m.Keys
      invariant forall k :: k in m <==> k in order || k in rest
      invariant forall k :: k in order ==> k !in rest
      invariant |order| + |rest| == |m.Keys|
      decreases |rest|
    {
      var k :| k in rest;
      order := order + [k];
      rest := rest - {k};
    }
  }
}
