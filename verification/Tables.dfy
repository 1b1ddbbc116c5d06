/** Hash tables, as far as their iteration order shows. */
module Tables {
  /** `order` lists the elements of `s`, each once: one iteration of a hash table. */
  ghost predicate IsOrderOf(order: seq<string>, s: set<string>) {
    && (forall x :: x in s <==> x in order)
    && (forall i, j :: 0 <= i < j < |order| ==> order[i] != order[j])
  }

  /** A hash table is iterated in an order that nothing fixes. */
  method Iterate(keys: set<string>) returns (order: seq<string>)
    ensures IsOrderOf(order, keys)
  {
    order := [];
    var rest := keys;
    while rest != {}
      invariant rest <= keys && IsOrderOf(order, keys - rest)
    {
      var key :| key in rest;
      order := order + [key];
      rest := rest - {key};
    }
  }
}
