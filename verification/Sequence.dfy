/** config/sequence/sequence.go: linked items, and the order in which they have to be resolved. */
module Sequence {
  import opened Graphs
  import opened Text
  import opened ItemLinks
  import opened DepthFirst

  class Item {
    const name: string
    var deps: seq<Item>
    var parent: Item?

    constructor (name: string)
      ensures this.name == name && deps == [] && parent == null
    {
      this.name := name;
      deps := [];
      parent := null;
    }

    /** Makes ref a dependency of this item, unless that is seen to close a cycle. */
    method Add(ref: Item, ghost reg: Registry, ghost l: Links) returns (ok: bool)
      requires Mirrors(l, reg) && Known(reg, this) && Known(reg, ref)
      requires Linked(l) && Acyclic(ParentGraph(l))
      modifies this`deps, ref`parent
      ensures ok == AddLink(l, name, ref.name).Some?
      ensures ok ==> Mirrors(AddLink(l, name, ref.name).value, reg)
      ensures !ok ==> deps == old(deps) && ref.parent == this
    {
      if TrimSpace(ref.name) == "" {
        return true;
      }
      LinkParent(ref, reg, l);
      var circular := SeesAncestor(ref, reg, l);
      if circular {
        return false;
      }
      AppendDep(ref, reg, l.(parent := l.parent[ref.name := name]));
      return true;
    }

    method LinkParent(ref: Item, ghost reg: Registry, ghost l: Links)
      requires Mirrors(l, reg) && Known(reg, this) && Known(reg, ref)
      modifies ref`parent
      ensures ref.parent == this && Mirrors(l.(parent := l.parent[ref.name := name]), reg)
    {
      ref.parent := this;
      assert MirrorsDeps(l.deps, reg);
      ghost var parents := l.parent[ref.name := name];
      assert parents[ref.name] == name && ref.name in parents;
      assert MirrorsParents(parents, reg);
    }

    method AppendDep(ref: Item, ghost reg: Registry, ghost l: Links)
      requires Mirrors(l, reg) && Known(reg, this) && Known(reg, ref)
      modifies this`deps
      ensures deps == old(deps) + [ref] && Mirrors(l.(deps := l.deps[name := l.deps[name] + [ref.name]]), reg)
    {
      assert l.deps[name] == NamesOf(deps);
      deps := deps + [ref];
      assert NamesOf(deps) == l.deps[name] + [ref.name];
      assert MirrorsParents(l.parent, reg);
    }

    /** The check of Add, after the new parent link is set. */
    method SeesAncestor(ref: Item, ghost reg: Registry, ghost l: Links) returns (found: bool)
      requires Mirrors(l.(parent := l.parent[ref.name := name]), reg)
      requires Known(reg, this) && Known(reg, ref)
      requires Linked(l) && Acyclic(ParentGraph(l))
      ensures found <==> ItemLinks.HasAncestor(l.(parent := l.parent[ref.name := name]), name, ref.name)
    {
      ghost var linked := l.(parent := l.parent[ref.name := name]);
      ghost var rank := ReachRank(ParentGraph(l));
      AcyclicIsRanked(ParentGraph(l));
      forall n | n in reg && n != ref.name && n in linked.parent
        ensures rank[linked.parent[n]] < rank[n]
      {
        assert Edge(ParentGraph(l), n, l.parent[n]);
      }
      assert ref.name in linked.parent;
      found := HasAncestor(ref.name, reg, linked, rank);
    }

    /** The dependencies, latest first. */
    method Deps() returns (r: seq<Item>)
      ensures r == Reverse(deps)
    {
      if |deps| < 2 {
        return deps;
      }
      r := [];
      var i := |deps|;
      while i > 0
        invariant 0 <= i <= |deps|
        invariant r == Reverse(deps)[..|deps| - i]
      {
        r := r + [deps[i - 1]];
        i := i - 1;
      }
    }

    predicate HasParent()
      reads this
    {
      parent != null
    }

    /** Walks up the parents. It ends because the parents descend in rank, except
        that an item called name may point anywhere. */
    method HasAncestor(name: string, ghost reg: Registry, ghost l: Links, ghost rank: map<string, nat>)
      returns (found: bool)
      requires Mirrors(l, reg) && Known(reg, this) && reg.Keys <= rank.Keys
      requires forall n :: n in l.parent && n != name ==> rank[l.parent[n]] < rank[n]
      requires this.name == name ==> parent == this
      ensures found <==> ItemLinks.HasAncestor(l, this.name, name)
      decreases rank[this.name]
    {
      ghost var up := ParentGraph(l);
      if !HasParent() {
        return false;
      }
      assert this.name in l.parent && Edge(up, this.name, parent.name);
      ReachesFirst(up, parent.name, name);
      if parent.name == name {
        return true;
      }
      found := parent.HasAncestor(name, reg, l, rank);
    }
  }

  /** The uniquely named items of one configuration. */
  type Registry = map<string, Item>

  ghost predicate Known(reg: Registry, i: Item) {
    i.name in reg && reg[i.name] == i
  }

  function NamesOf(items: seq<Item>): (r: seq<string>)
    ensures |r| == |items| && forall i :: 0 <= i < |items| ==> r[i] == items[i].name
  {
    seq(|items|, i requires 0 <= i < |items| => items[i].name)
  }

  /** The items are registered by name, with all that they depend on. */
  ghost predicate Registered(reg: Registry)
    reads reg.Values`deps
  {
    && (forall n :: n in reg ==> reg[n].name == n)
    && (forall n, i {:trigger reg[n].deps[i]} :: n in reg && 0 <= i < |reg[n].deps| ==> Known(reg, reg[n].deps[i]))
  }

  ghost predicate MirrorsDeps(deps: map<string, seq<string>>, reg: Registry)
    reads reg.Values`deps
  {
    && Registered(reg) && deps.Keys == reg.Keys
    && (forall n {:trigger deps[n]} {:trigger reg[n].deps} :: n in reg ==> deps[n] == NamesOf(reg[n].deps))
  }

  ghost predicate MirrorsParents(parent: map<string, string>, reg: Registry)
    reads reg.Values`parent
  {
    && parent.Keys <= reg.Keys
    && (forall n {:trigger reg[n].parent} :: n in reg && reg[n].parent != null ==> Known(reg, reg[n].parent))
    && (forall n {:trigger n in parent} {:trigger reg[n].parent} ::
          n in reg ==> (n in parent <==> reg[n].parent != null))
    && (forall n {:trigger parent[n]} :: n in parent ==> reg[n].parent != null && parent[n] == reg[n].parent.name)
  }

  /** l holds the links of the items. */
  ghost predicate Mirrors(l: Links, reg: Registry)
    reads reg.Values
  {
    MirrorsDeps(l.deps, reg) && MirrorsParents(l.parent, reg)
  }

  /** g shows the dependencies of the items, which a traversal only reads. */
  ghost predicate Shows(g: Graph, reg: Registry)
    reads reg.Values`deps
  {
    && Registered(reg) && Total(g) && g.Keys == reg.Keys
    && (forall n {:trigger g[n]} {:trigger reg[n].deps} :: n in reg ==> g[n] == NamesOf(Reverse(reg[n].deps)))
  }

  lemma MirroredShows(l: Links, reg: Registry)
    requires Mirrors(l, reg) && Linked(l)
    ensures Shows(DepGraph(l.deps), reg)
  {
    forall n | n in reg
      ensures Reverse(l.deps[n]) == NamesOf(Reverse(reg[n].deps))
    {
    }
  }

  lemma ShownDeps(g: Graph, reg: Registry, i: Item)
    requires Shows(g, reg) && Known(reg, i)
    ensures Succ(g, i.name) == NamesOf(Reverse(i.deps))
    ensures forall d <- Reverse(i.deps) :: Known(reg, d)
    ensures forall d <- Succ(g, i.name) :: d in g
  {
    assert Known(reg, i) && i.deps == reg[i.name].deps;
    forall d | d in Reverse(i.deps)
      ensures Known(reg, d)
    {
      var k :| 0 <= k < |i.deps| && Reverse(i.deps)[k] == d;
      assert reg[i.name].deps[|i.deps| - 1 - k] == d;
    }
    assert forall d <- Succ(g, i.name) :: Edge(g, i.name, d);
  }

  /** The two growing lists of a traversal. */
  class Trail {
    var resolved: seq<string>
    var seen: seq<string>

    constructor ()
      ensures resolved == [] && seen == []
    {
      resolved, seen := [], [];
    }

    ghost function View(): Visit
      reads this
    {
      Visit(resolved, seen)
    }
  }

  method ContainsString(slice: seq<string>, needle: string) returns (found: bool)
    ensures found <==> needle in slice
  {
    for i := 0 to |slice|
      invariant needle !in slice[..i]
    {
      if slice[i] == needle {
        return true;
      }
    }
    return false;
  }

  method ResolveSequence(item: Item, trail: Trail, ghost reg: Registry, ghost g: Graph)
    requires Shows(g, reg) && Known(reg, item)
    requires item.name !in trail.seen && Elems(trail.seen) <= g.Keys
    modifies trail
    ensures trail.View() == Resolve(g, item.name, old(trail.View()))
    decreases g.Keys - Elems(trail.seen), 0
  {
    ghost var before := trail.View();
    ShownDeps(g, reg, item);
    trail.seen := trail.seen + [item.name];
    assert Elems(trail.seen) == Elems(before.seen) + {item.name};
    var deps := item.Deps();
    assert forall d <- NamesOf(deps) :: Edge(g, item.name, d);
    ResolveEach(deps, trail, reg, g);
    trail.resolved := trail.resolved + [item.name];
  }

  /** The loop of resolveSequence. */
  method ResolveEach(deps: seq<Item>, trail: Trail, ghost reg: Registry, ghost g: Graph)
    requires Shows(g, reg) && Elems(trail.seen) <= g.Keys
    requires (forall d <- deps :: Known(reg, d)) && forall d <- NamesOf(deps) :: d in g
    modifies trail
    ensures trail.View() == ResolveAll(g, NamesOf(deps), old(trail.View()))
    decreases g.Keys - Elems(trail.seen), 1, 1
  {
    ghost var entered, names := trail.View(), NamesOf(deps);
    for i := 0 to |deps|
      invariant Elems(entered.seen) <= Elems(trail.seen) <= g.Keys
      invariant forall d <- names[i..] :: d in g
      invariant ResolveAll(g, names[i..], trail.View()) == ResolveAll(g, names, entered)
    {
      assert names[i..][1..] == names[i + 1..] && names[i..][0] == deps[i].name;
      ResolveDep(deps[i], trail, reg, g);
    }
  }

  /** The body of the loop. */
  method ResolveDep(dep: Item, trail: Trail, ghost reg: Registry, ghost g: Graph)
    requires Shows(g, reg) && Elems(trail.seen) <= g.Keys && Known(reg, dep)
    modifies trail
    ensures dep.name in g
    ensures trail.View() == var v := old(trail.View());
              if dep.name !in v.resolved && dep.name !in v.seen then Resolve(g, dep.name, v) else v
    ensures Elems(old(trail.seen)) <= Elems(trail.seen) <= g.Keys
    decreases g.Keys - Elems(trail.seen), 1, 0
  {
    var resolved := ContainsString(trail.resolved, dep.name);
    if !resolved {
      var seen := ContainsString(trail.seen, dep.name);
      if !seen {
        ResolveSequence(dep, trail, reg, g);
      }
    }
  }

  /** The dependency list of one item, from two empty lists. */
  method ListOf(item: Item, ghost reg: Registry, ghost g: Graph) returns (deps: seq<string>)
    requires Shows(g, reg) && Known(reg, item)
    ensures Listed(g, item.name, deps)
  {
    var trail := new Trail();
    assert Elems(trail.seen) == {};
    ResolveSequence(item, trail, reg, g);
    deps := trail.resolved;
  }

  ghost predicate Listed(g: Graph, n: string, list: seq<string>) {
    Total(g) && n in g && list == DependencyList(g, n)
  }

  /** The loop over the items. */
  method ListEach(items: seq<Item>, ghost reg: Registry, ghost g: Graph) returns (allDeps: seq<seq<string>>)
    requires Shows(g, reg) && forall k :: 0 <= k < |items| ==> Known(reg, items[k])
    ensures |allDeps| == |items|
    ensures forall k {:trigger Listed(g, items[k].name, allDeps[k])} ::
      0 <= k < |items| ==> Listed(g, items[k].name, allDeps[k])
  {
    allDeps := [];
    for i := 0 to |items|
      invariant |allDeps| == i
      invariant forall k {:trigger Listed(g, items[k].name, allDeps[k])} ::
        0 <= k < i ==> Listed(g, items[k].name, allDeps[k])
    {
      var deps := ListOf(items[i], reg, g);
      allDeps := allDeps + [deps];
    }
  }

  /** One dependency list for each item. */
  method Dependencies(items: seq<Item>, ghost reg: Registry, ghost g: Graph) returns (allDeps: seq<seq<string>>)
    requires Shows(g, reg) && forall i <- items :: Known(reg, i)
    requires forall i :: 0 <= i < |items| ==> NamesOf(items)[i] in g
    ensures allDeps == DependencyLists(g, NamesOf(items))
  {
    assert forall k :: 0 <= k < |items| ==> items[k] in items;
    allDeps := ListEach(items, reg, g);
    forall k | 0 <= k < |items|
      ensures allDeps[k] == DependencyList(g, NamesOf(items)[k])
    {
      assert Listed(g, items[k].name, allDeps[k]);
    }
    ListsAre(g, NamesOf(items), allDeps);
  }
}
