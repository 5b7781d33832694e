/** Iteration over Go maps and config/runtime/server/default.go. */
module Collections {
  import opened Graphs
  import opened Text
  import opened Sorting

  const DEFAULT_NAME := "default"

  /** The keys of a map, in whatever order the iteration takes. */
  method Enumerate(keys: set<string>) returns (order: seq<string>)
    ensures NoDup(order) && Elems(order) == keys
  {
    order := [];
    var rest := keys;
    while rest != {}
      invariant NoDup(order) && rest !! Elems(order) && rest + Elems(order) == keys
      decreases rest
    {
      var k :| k in rest;
      assert k !in Elems(order);
      assert Elems(order + [k]) == Elems(order) + {k};
      rest := rest - {k};
      order := order + [k];
    }
  }

  lemma LexIsStrictOrder()
    ensures StrictOrder(LexLess)
  {
    forall a
      ensures !LexLess(a, a)
    {
      LexIrreflexive(a);
    }
    forall a, b
      ensures a == b || LexLess(a, b) || LexLess(b, a)
    {
      LexTotal(a, b);
    }
    forall a, b, c | LexLess(a, b) && LexLess(b, c)
      ensures LexLess(a, c)
    {
      LexTransitive(a, b, c);
    }
  }

  /** The keys of a map, sorted as strings. There is only one such list. */
  method SortedKeys(keys: set<string>) returns (order: seq<string>)
    ensures Lists(LexLess, order, keys)
    ensures forall other :: Lists(LexLess, other, keys) ==> order == other
  {
    var some := Enumerate(keys);
    LexIsStrictOrder();
    order := Sort(LexLess, some);
    SortedLists(LexLess, some, order, keys);
    forall other | Lists(LexLess, other, keys)
      ensures order == other
    {
      OneList(LexLess, order, other, keys);
    }
  }

  /** The keys in any order, but with the default item last. */
  method SortDefault(keys: set<string>) returns (trips: seq<string>)
    ensures NoDup(trips) && Elems(trips) == keys
    ensures DEFAULT_NAME in keys ==> trips[|trips| - 1] == DEFAULT_NAME
  {
    trips := Enumerate(keys);
    var idx := -1;
    for i := 0 to |trips|
      invariant idx == -1 && DEFAULT_NAME !in trips[..i]
    {
      if trips[i] == DEFAULT_NAME {
        idx := i;
        break;
      }
    }
    var edx := |trips| - 1;
    if idx < 0 || edx == 0 || idx == edx {
      assert DEFAULT_NAME in keys ==> DEFAULT_NAME in Elems(trips);
      return;
    }
    var was := trips;
    trips := was[idx := was[edx]][edx := was[idx]];
    forall n
      ensures n in trips <==> n in was
    {
      if n in was {
        var k :| 0 <= k < |was| && was[k] == n;
        assert trips[if k == idx then edx else if k == edx then idx else k] == n;
      }
    }
  }
}
