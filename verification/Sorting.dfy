/** Sorting of strings by a strict order. */
module Sorting {
  import opened Graphs

  ghost predicate StrictOrder(less: (string, string) -> bool) {
    && (forall a :: !less(a, a))
    && (forall a, b :: a == b || less(a, b) || less(b, a))
    && (forall a, b, c :: less(a, b) && less(b, c) ==> less(a, c))
  }

  ghost predicate Sorted(less: (string, string) -> bool, s: seq<string>) {
    forall i, j :: 0 <= i < j < |s| ==> s[i] == s[j] || less(s[i], s[j])
  }

  lemma NeverBoth(less: (string, string) -> bool)
    requires StrictOrder(less)
    ensures forall a, b :: !(less(a, b) && less(b, a))
  {
  }

  lemma FirstIsLeast(less: (string, string) -> bool, a: seq<string>, b: seq<string>)
    requires Sorted(less, a) && a != [] && multiset(a) == multiset(b)
    ensures b != [] && (a[0] == b[0] || less(a[0], b[0]))
  {
    assert a[0] in multiset(b);
    assert b[0] in multiset(a);
  }

  lemma SameFirst(less: (string, string) -> bool, a: seq<string>, b: seq<string>)
    requires StrictOrder(less) && Sorted(less, a) && Sorted(less, b) && a != [] && multiset(a) == multiset(b)
    ensures b != [] && a[0] == b[0]
  {
    FirstIsLeast(less, a, b);
    FirstIsLeast(less, b, a);
    NeverBoth(less);
  }

  lemma TailSorted(less: (string, string) -> bool, s: seq<string>)
    requires Sorted(less, s) && s != []
    ensures Sorted(less, s[1..]) && multiset(s[1..]) == multiset(s) - multiset{s[0]}
  {
    assert s == [s[0]] + s[1..];
    assert forall i :: 0 <= i < |s[1..]| ==> s[1..][i] == s[i + 1];
  }

  /** The same strings have one order only. */
  lemma {:induction false} SortedIsUnique(less: (string, string) -> bool, a: seq<string>, b: seq<string>)
    requires StrictOrder(less) && Sorted(less, a) && Sorted(less, b) && multiset(a) == multiset(b)
    ensures a == b
    decreases |a|
  {
    assert b != [] ==> b[0] in multiset(b);
    if a != [] {
      SameFirst(less, a, b);
      TailSorted(less, a);
      TailSorted(less, b);
      SortedIsUnique(less, a[1..], b[1..]);
      assert a == [a[0]] + a[1..] && b == [b[0]] + b[1..];
    }
  }

  /** Where a string belongs among sorted ones. */
  method PlaceOf(less: (string, string) -> bool, sorted: seq<string>, p: string) returns (k: nat)
    requires StrictOrder(less) && Sorted(less, sorted)
    ensures k <= |sorted| && Sorted(less, sorted[..k] + [p] + sorted[k..])
  {
    k := 0;
    while k < |sorted| && less(sorted[k], p)
      invariant k <= |sorted| && forall i :: 0 <= i < k ==> less(sorted[i], p)
    {
      k := k + 1;
    }
    forall i | k <= i < |sorted|
      ensures p == sorted[i] || less(p, sorted[i])
    {
      assert p == sorted[k] || less(p, sorted[k]);
    }
  }

  method Sort(less: (string, string) -> bool, s: seq<string>) returns (sorted: seq<string>)
    requires StrictOrder(less)
    ensures Sorted(less, sorted) && multiset(sorted) == multiset(s)
  {
    sorted := [];
    for i := 0 to |s|
      invariant Sorted(less, sorted) && multiset(sorted) == multiset(s[..i])
    {
      assert s[..i + 1] == s[..i] + [s[i]];
      var k := PlaceOf(less, sorted, s[i]);
      assert sorted == sorted[..k] + sorted[k..];
      sorted := sorted[..k] + [s[i]] + sorted[k..];
    }
    assert s[..|s|] == s;
  }

  // ---------- The elements of a set in order ----------

  ghost predicate Lists(less: (string, string) -> bool, s: seq<string>, elements: set<string>) {
    Sorted(less, s) && NoDup(s) && forall p :: p in s <==> p in elements
  }

  lemma {:induction false} OnceEach(s: seq<string>)
    requires NoDup(s)
    ensures forall p :: multiset(s)[p] == if p in s then 1 else 0
  {
    if s != [] {
      var init, last := s[..|s| - 1], s[|s| - 1];
      assert s == init + [last];
      assert last !in init;
      OnceEach(init);
    }
  }

  lemma SameElements(a: seq<string>, b: seq<string>)
    requires NoDup(a) && multiset(a) == multiset(b)
    ensures NoDup(b) && forall p :: p in a <==> p in b
  {
    OnceEach(a);
    forall p
      ensures p in a <==> p in b
    {
      assert p in multiset(a) <==> p in multiset(b);
    }
    forall i, j | 0 <= i < j < |b|
      ensures b[i] != b[j]
    {
      assert b == b[..j] + [b[j]] + b[j + 1..];
      assert multiset(b)[b[j]] == multiset(b[..j])[b[j]] + 1 + multiset(b[j + 1..])[b[j]];
      assert multiset(a)[b[j]] <= 1;
      assert b[j] !in multiset(b[..j]);
      assert b[..j][i] in multiset(b[..j]);
    }
  }

  lemma SortedLists(less: (string, string) -> bool, s: seq<string>, sorted: seq<string>, elements: set<string>)
    requires NoDup(s) && Elems(s) == elements && Sorted(less, sorted) && multiset(sorted) == multiset(s)
    ensures Lists(less, sorted, elements)
  {
    SameElements(s, sorted);
    assert forall p :: p in s <==> p in Elems(s);
  }

  /** There is only one such list. */
  lemma OneList(less: (string, string) -> bool, a: seq<string>, b: seq<string>, elements: set<string>)
    requires StrictOrder(less) && Lists(less, a, elements) && Lists(less, b, elements)
    ensures a == b
  {
    OnceEach(a);
    OnceEach(b);
    assert multiset(a) == multiset(b);
    SortedIsUnique(less, a, b);
  }
}
