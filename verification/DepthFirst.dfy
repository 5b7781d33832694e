/** The depth-first order of config/sequence/sequence.go as functions on a graph, and what it guarantees. */
module DepthFirst {
  import opened Graphs

  /** The two lists that a traversal appends to. */
  datatype Visit = Visit(resolved: seq<string>, seen: seq<string>)

  /** Marks n, resolves its unseen dependencies, then appends n. */
  function Resolve(g: Graph, n: string, v: Visit): (r: Visit)
    requires Total(g) && n in g && n !in v.seen && Elems(v.seen) <= g.Keys
    ensures Elems(v.seen) <= Elems(r.seen) <= g.Keys
    decreases g.Keys - Elems(v.seen), 0
  {
    var entered := Visit(v.resolved, v.seen + [n]);
    assert Elems(entered.seen) == Elems(v.seen) + {n};
    assert forall d <- Succ(g, n) :: Edge(g, n, d);
    var below := ResolveAll(g, Succ(g, n), entered);
    Visit(below.resolved + [n], below.seen)
  }

  function ResolveAll(g: Graph, deps: seq<string>, v: Visit): (r: Visit)
    requires Total(g) && Elems(v.seen) <= g.Keys
    requires forall d <- deps :: d in g
    ensures Elems(v.seen) <= Elems(r.seen) <= g.Keys
    decreases g.Keys - Elems(v.seen), |deps|
  {
    if deps == [] then v
    else
      var next := if deps[0] !in v.resolved && deps[0] !in v.seen then Resolve(g, deps[0], v) else v;
      ResolveAll(g, deps[1..], next)
  }

  /** The list of one root: everything below it in the order it was resolved. */
  function DependencyList(g: Graph, root: string): seq<string>
    requires Total(g) && root in g
  {
    Resolve(g, root, Visit([], [])).resolved
  }

  function DependencyLists(g: Graph, roots: seq<string>): seq<seq<string>>
    requires Total(g) && forall i :: 0 <= i < |roots| ==> roots[i] in g
  {
    if roots == [] then [] else [DependencyList(g, roots[0])] + DependencyLists(g, roots[1..])
  }

  // ---------- What holds between visits ----------

  /** Resolved names are seen, have all their dependencies seen, and nothing is listed twice. */
  ghost predicate Sound(g: Graph, v: Visit) {
    && NoDup(v.resolved) && NoDup(v.seen)
    && (forall x <- v.resolved :: x in v.seen)
    && (forall x, d :: x in v.resolved && Edge(g, x, d) ==> d in v.seen)
  }

  /** r continues v: both lists grow by the same names, all of them reachable from one of `from`. */
  ghost predicate Continues(g: Graph, from: seq<string>, v: Visit, r: Visit) {
    && v.resolved <= r.resolved && v.seen <= r.seen
    && (forall x <- r.seen :: x in v.seen || x in r.resolved)
    && (forall x <- r.resolved :: x in v.resolved || (x !in v.seen && exists f <- from :: Reaches(g, f, x)))
  }

  lemma {:induction false} ResolveSound(g: Graph, n: string, v: Visit)
    requires Total(g) && n in g && n !in v.seen && Elems(v.seen) <= g.Keys && Sound(g, v)
    ensures Sound(g, Resolve(g, n, v)) && Continues(g, [n], v, Resolve(g, n, v))
    ensures n in Resolve(g, n, v).resolved
    decreases g.Keys - Elems(v.seen), 0
  {
    var entered := Visit(v.resolved, v.seen + [n]);
    assert Elems(entered.seen) == Elems(v.seen) + {n};
    assert forall d <- Succ(g, n) :: Edge(g, n, d);
    ResolveAllSound(g, Succ(g, n), entered);
    var below := ResolveAll(g, Succ(g, n), entered);
    var r := Resolve(g, n, v);
    assert n in entered.seen;
    ReachesSelf(g, n);
    forall x | x in r.resolved
      ensures x in v.resolved || (x !in v.seen && exists f <- [n] :: Reaches(g, f, x))
    {
      if x in below.resolved && x !in v.resolved {
        var d :| d in Succ(g, n) && Reaches(g, d, x);
        ReachesEdge(g, n, d);
        ReachesTrans(g, n, d, x);
        assert n in [n];
      } else if x == n {
        assert n in [n];
      }
    }
  }

  lemma {:induction false} ResolveAllSound(g: Graph, deps: seq<string>, v: Visit)
    requires Total(g) && Elems(v.seen) <= g.Keys && Sound(g, v)
    requires forall d <- deps :: d in g
    ensures Sound(g, ResolveAll(g, deps, v)) && Continues(g, deps, v, ResolveAll(g, deps, v))
    ensures forall d <- deps :: d in ResolveAll(g, deps, v).seen
    decreases g.Keys - Elems(v.seen), |deps| + 1
  {
    if deps != [] {
      var next := ResolveDepSound(g, deps[0], v);
      ResolveAllSound(g, deps[1..], next);
      ContinuesTrans(g, deps[0], deps[1..], v, next, ResolveAll(g, deps, v));
      assert deps == [deps[0]] + deps[1..];
    }
  }

  lemma {:induction false} ResolveDepSound(g: Graph, d: string, v: Visit) returns (next: Visit)
    requires Total(g) && d in g && Elems(v.seen) <= g.Keys && Sound(g, v)
    ensures next == if d !in v.resolved && d !in v.seen then Resolve(g, d, v) else v
    ensures Sound(g, next) && Continues(g, [d], v, next) && d in next.seen
    ensures Elems(v.seen) <= Elems(next.seen) <= g.Keys
    decreases g.Keys - Elems(v.seen), 1
  {
    next := v;
    if d !in v.resolved && d !in v.seen {
      ResolveSound(g, d, v);
      next := Resolve(g, d, v);
    }
  }

  lemma ContinuesTrans(g: Graph, d: string, deps: seq<string>, v: Visit, next: Visit, r: Visit)
    requires Continues(g, [d], v, next) && Continues(g, deps, next, r)
    ensures Continues(g, [d] + deps, v, r)
  {
    forall x | x in r.resolved
      ensures x in v.resolved || (x !in v.seen && exists f <- [d] + deps :: Reaches(g, f, x))
    {
      if x in next.resolved && x !in v.resolved {
        var f :| f in [d] && Reaches(g, f, x);
        assert f in [d] + deps;
      } else if x !in next.resolved {
        var f :| f in deps && Reaches(g, f, x);
        assert f in [d] + deps;
      }
    }
  }

  // ---------- Exactly the reachable names ----------

  /** Every list is duplicate-free and holds exactly the names its root reaches, also on cyclic graphs. */
  lemma DependencyListIsReachable(g: Graph, root: string)
    requires Total(g) && root in g
    ensures NoDup(DependencyList(g, root))
    ensures forall x :: x in DependencyList(g, root) <==> Reaches(g, root, x)
  {
    var v := Visit([], []);
    ResolveSound(g, root, v);
    var r := Resolve(g, root, v);
    forall x
      ensures x in r.resolved <==> Reaches(g, root, x)
    {
      if Reaches(g, root, x) {
        ReachesWithin(g, root, x, Elems(r.resolved));
      }
    }
  }

  // ---------- Dependencies come first ----------

  /** No item that root reaches depends on itself. */
  ghost predicate AcyclicBelow(g: Graph, root: string) {
    forall a, b :: Reaches(g, root, a) && Edge(g, a, b) ==> !Reaches(g, b, a)
  }

  /** Every name still open leads to n, which lies below root. */
  ghost predicate OpenLeadsTo(g: Graph, root: string, v: Visit, n: string) {
    && Reaches(g, root, n)
    && forall h <- v.seen :: h in v.resolved || Reaches(g, h, n)
  }

  lemma {:induction false} ResolveDepsFirst(g: Graph, root: string, n: string, v: Visit)
    requires Total(g) && n in g && n !in v.seen && Elems(v.seen) <= g.Keys && Sound(g, v)
    requires AcyclicBelow(g, root) && OpenLeadsTo(g, root, v, n) && DepsFirst(g, v.resolved)
    ensures DepsFirst(g, Resolve(g, n, v).resolved)
    decreases g.Keys - Elems(v.seen), 0
  {
    var entered := Visit(v.resolved, v.seen + [n]);
    assert Elems(entered.seen) == Elems(v.seen) + {n};
    assert forall d <- Succ(g, n) :: Edge(g, n, d);
    ReachesSelf(g, n);
    assert OpenLeadsTo(g, root, entered, n);
    ResolveAllDepsFirst(g, root, n, Succ(g, n), entered);
    ResolveAllSound(g, Succ(g, n), entered);
    var below := ResolveAll(g, Succ(g, n), entered);
    forall d | Edge(g, n, d)
      ensures d in below.resolved
    {
      if d in entered.seen && d !in below.resolved {
        assert false;
      }
    }
    AppendDepsFirst(g, below.resolved, n);
  }

  lemma {:induction false} ResolveAllDepsFirst(g: Graph, root: string, n: string, deps: seq<string>, v: Visit)
    requires Total(g) && Elems(v.seen) <= g.Keys && Sound(g, v)
    requires forall d <- deps :: d in g && Edge(g, n, d)
    requires AcyclicBelow(g, root) && OpenLeadsTo(g, root, v, n) && DepsFirst(g, v.resolved)
    ensures DepsFirst(g, ResolveAll(g, deps, v).resolved)
    decreases g.Keys - Elems(v.seen), |deps|
  {
    if deps != [] {
      var d := deps[0];
      var next := if d !in v.resolved && d !in v.seen then Resolve(g, d, v) else v;
      if d !in v.resolved && d !in v.seen {
        OpenLeadsToDep(g, root, v, n, d);
        ResolveDepsFirst(g, root, d, v);
        ResolveSound(g, d, v);
      }
      ResolveAllDepsFirst(g, root, n, deps[1..], next);
    }
  }

  lemma OpenLeadsToDep(g: Graph, root: string, v: Visit, n: string, d: string)
    requires OpenLeadsTo(g, root, v, n) && Edge(g, n, d)
    ensures OpenLeadsTo(g, root, v, d)
  {
    ReachesEdge(g, n, d);
    ReachesTrans(g, root, n, d);
    forall h <- v.seen | h !in v.resolved
      ensures Reaches(g, h, d)
    {
      ReachesTrans(g, h, n, d);
    }
  }

  lemma AppendDepsFirst(g: Graph, order: seq<string>, n: string)
    requires DepsFirst(g, order) && forall d :: Edge(g, n, d) ==> d in order
    ensures DepsFirst(g, order + [n])
  {
    forall i, d | 0 <= i < |order + [n]| && Edge(g, (order + [n])[i], d)
      ensures d in (order + [n])[..i]
    {
      if i < |order| {
        assert Edge(g, order[i], d);
        assert (order + [n])[..i] == order[..i];
      } else {
        assert (order + [n])[..i] == order;
      }
    }
  }

  /** The list of a root puts every name after all names it depends on, exactly
      when no cycle is reachable from that root. */
  lemma DependencyListDepsFirst(g: Graph, root: string)
    requires Total(g) && root in g
    ensures DepsFirst(g, DependencyList(g, root)) <==> AcyclicBelow(g, root)
  {
    var order := DependencyList(g, root);
    if AcyclicBelow(g, root) {
      ReachesSelf(g, root);
      ResolveDepsFirst(g, root, root, Visit([], []));
    }
    if DepsFirst(g, order) {
      DependencyListIsReachable(g, root);
      forall a, b | Reaches(g, root, a) && Edge(g, a, b)
        ensures !Reaches(g, b, a)
      {
        if Reaches(g, b, a) {
          PositionsDescend(g, order, b, a);
          ReachesEdge(g, a, b);
          PositionsDescend(g, order, a, b);
        }
      }
    }
  }

  /** In a dependencies-first list, what a name reaches is listed no later than the name. */
  lemma PositionsDescend(g: Graph, order: seq<string>, a: string, b: string)
    requires DepsFirst(g, order) && a in order && Reaches(g, a, b)
    ensures b in order && IndexOf(order, b) <= IndexOf(order, a)
  {
    var k := IndexOf(order, a);
    ReachesWithin(g, a, b, Elems(order[..k + 1]));
    assert b in order[..k + 1];
  }

  lemma {:induction false} ListsAt(g: Graph, roots: seq<string>, k: nat)
    requires Total(g) && (forall i :: 0 <= i < |roots| ==> roots[i] in g) && k < |roots|
    ensures |DependencyLists(g, roots)| == |roots| && DependencyLists(g, roots)[k] == DependencyList(g, roots[k])
  {
    if k > 0 {
      ListsAt(g, roots[1..], k - 1);
    } else if |roots| > 1 {
      ListsAt(g, roots[1..], 0);
    }
  }

  lemma ListsLength(g: Graph, roots: seq<string>)
    requires Total(g) && forall i :: 0 <= i < |roots| ==> roots[i] in g
    ensures |DependencyLists(g, roots)| == |roots|
  {
    if roots != [] {
      ListsAt(g, roots, 0);
    }
  }

  lemma ListsAre(g: Graph, roots: seq<string>, lists: seq<seq<string>>)
    requires Total(g) && (forall i :: 0 <= i < |roots| ==> roots[i] in g) && |lists| == |roots|
    requires forall k :: 0 <= k < |roots| ==> lists[k] == DependencyList(g, roots[k])
    ensures lists == DependencyLists(g, roots)
  {
    ListsLength(g, roots);
    forall k | 0 <= k < |roots|
      ensures lists[k] == DependencyLists(g, roots)[k]
    {
      ListsAt(g, roots, k);
    }
  }
}
