/** config/runtime/endpoint.go: markDependencies, which tells each producer what it depends on. It
    walks down the dependencies without remembering where it has been. */
module DependencyMarks {
  import opened Graphs
  import opened Text
  import opened Sequence
  import opened EndpointItems

  /** The names, separated by commas. */
  function Joined(names: seq<string>): string {
    Join(names, ',')
  }

  /** How a walk ends: what it wrote; with a panic, at an item with dependencies but without a
      producer; or because the stack does not allow another nested call. */
  datatype Walk = Marked(dependsOn: map<string, string>) | NoProducer | Overflow

  /** The walk over these items, if the stack allows so many nested calls. */
  function Mark(g: Graph, producers: set<string>, items: seq<string>, dependsOn: map<string, string>, stack: nat): Walk
    decreases stack, |items|
  {
    if stack == 0 then Overflow
    else if items == [] then Marked(dependsOn)
    else
      var n, deps := items[0], Succ(g, items[0]);
      if deps == [] then Mark(g, producers, items[1..], dependsOn, stack)
      else if n !in producers then NoProducer
      else
        var below := Mark(g, producers, deps, dependsOn[n := Joined(deps)], stack - 1);
        if below.Marked? then Mark(g, producers, items[1..], below.dependsOn, stack) else below
  }

  // ---------- What the walk writes ----------

  /** Every item with dependencies has a producer. */
  predicate Producible(g: Graph, producers: set<string>) {
    forall n :: n in g && g[n] != [] ==> n in producers
  }

  /** What each item with dependencies depends on directly. */
  function DependsOn(g: Graph): map<string, string> {
    map n | n in g && g[n] != [] :: Joined(g[n])
  }

  /** The names can be read off again, in order, if there is no comma in them. */
  lemma NamesCanBeRead(g: Graph, n: string)
    requires n in g && g[n] != [] && forall d <- g[n] :: ',' !in d
    ensures n in DependsOn(g) && Split(DependsOn(g)[n], ',') == g[n]
  {
    SplitJoin(g[n], ',');
  }

  ghost predicate Written(g: Graph, dependsOn: map<string, string>) {
    forall n :: n in dependsOn ==> dependsOn[n] == Joined(Succ(g, n))
  }

  lemma CoveredFirst(g: Graph, items: seq<string>, n: string)
    requires items != []
    ensures Covered(g, items, n) <==>
      n == items[0] || Covered(g, Succ(g, items[0]), n) || Covered(g, items[1..], n)
  {
    if Covered(g, items, n) {
      var r :| r in items && Reaches(g, r, n);
      ReachesFirst(g, r, n);
      assert r == items[0] || r in items[1..];
    }
    if n == items[0] {
      ReachesSelf(g, n);
    } else if Covered(g, Succ(g, items[0]), n) {
      var d :| d in Succ(g, items[0]) && Reaches(g, d, n);
      assert Edge(g, items[0], d);
      ReachesFirst(g, items[0], n);
    }
  }

  /** A walk that ends well writes what all items below depend on; all of these have producers. */
  lemma {:induction false} MarkedAll(g: Graph, producers: set<string>, items: seq<string>,
                                     dependsOn: map<string, string>, stack: nat, n: string)
    requires Mark(g, producers, items, dependsOn, stack).Marked? && Written(g, dependsOn)
    ensures var all := Mark(g, producers, items, dependsOn, stack).dependsOn;
            && Written(g, all)
            && (n in all <==> n in dependsOn || (Covered(g, items, n) && Succ(g, n) != []))
            && (Covered(g, items, n) && Succ(g, n) != [] ==> n in producers)
    decreases stack, |items|
  {
    if items != [] {
      var deps := Succ(g, items[0]);
      CoveredFirst(g, items, n);
      if deps == [] {
        MarkedAll(g, producers, items[1..], dependsOn, stack, n);
      } else {
        var more := dependsOn[items[0] := Joined(deps)];
        MarkedAll(g, producers, deps, more, stack - 1, n);
        MarkedAll(g, producers, items[1..], Mark(g, producers, deps, more, stack - 1).dependsOn, stack, n);
      }
    }
  }

  /** A panic means that some item below has dependencies but no producer. */
  lemma {:induction false} PanicAt(g: Graph, producers: set<string>, items: seq<string>,
                                   dependsOn: map<string, string>, stack: nat)
    returns (n: string)
    requires Mark(g, producers, items, dependsOn, stack).NoProducer?
    ensures Covered(g, items, n) && Succ(g, n) != [] && n !in producers
    decreases stack, |items|
  {
    n := items[0];
    var deps := Succ(g, n);
    if deps == [] {
      n := PanicAt(g, producers, items[1..], dependsOn, stack);
    } else if n in producers {
      var more := dependsOn[n := Joined(deps)];
      var below := Mark(g, producers, deps, more, stack - 1);
      if below.Marked? {
        n := PanicAt(g, producers, items[1..], below.dependsOn, stack);
      } else {
        n := PanicAt(g, producers, deps, more, stack - 1);
      }
    }
    CoveredFirst(g, items, n);
  }

  // ---------- When the walk ends ----------

  /** A walk that ends well has followed every path below the items to its end. */
  lemma {:induction false} MarkedIsShort(g: Graph, producers: set<string>, items: seq<string>,
                                         dependsOn: map<string, string>, stack: nat, n: string)
    requires Mark(g, producers, items, dependsOn, stack).Marked? && n in items
    ensures !PathOfLength(g, n, stack + 1)
    decreases stack, |items|
  {
    var deps := Succ(g, items[0]);
    var more := dependsOn[items[0] := Joined(deps)];
    if n == items[0] {
      if PathOfLength(g, n, stack + 1) {
        var d := ShorterPath(g, n, stack);
        MarkedIsShort(g, producers, deps, more, stack - 1, d);
      }
    } else if deps == [] {
      MarkedIsShort(g, producers, items[1..], dependsOn, stack, n);
    } else {
      MarkedIsShort(g, producers, items[1..], Mark(g, producers, deps, more, stack - 1).dependsOn, stack, n);
    }
  }

  lemma ShorterPath(g: Graph, n: string, k: nat) returns (d: string)
    requires k > 0 && PathOfLength(g, n, k + 1)
    ensures Edge(g, n, d) && PathOfLength(g, d, k)
  {
    var p :| IsPath(g, p) && p[0] == n && |p| == k + 1;
    d := p[1];
    assert Edge(g, p[0], p[1]);
    assert IsPath(g, p[1..]);
  }

  /** Nested calls go down in rank. */
  lemma {:induction false} RankedFits(g: Graph, rank: map<string, nat>, producers: set<string>, items: seq<string>,
                                      dependsOn: map<string, string>, stack: nat)
    requires Ranked(g, rank) && stack > 0 && forall n <- items :: n in rank && rank[n] < stack
    ensures !Mark(g, producers, items, dependsOn, stack).Overflow?
    decreases stack, |items|
  {
    if items != [] {
      var deps := Succ(g, items[0]);
      var more := dependsOn[items[0] := Joined(deps)];
      if deps == [] {
        RankedFits(g, rank, producers, items[1..], dependsOn, stack);
      } else {
        forall d | d in deps
          ensures d in rank && rank[d] < stack - 1
        {
          assert Edge(g, items[0], d);
        }
        assert rank[deps[0]] < stack - 1;
        RankedFits(g, rank, producers, deps, more, stack - 1);
        var below := Mark(g, producers, deps, more, stack - 1);
        if below.Marked? {
          RankedFits(g, rank, producers, items[1..], below.dependsOn, stack);
        }
      }
    }
  }

  /** Without a cycle, as many nested calls as there are items are enough. */
  lemma AcyclicFits(g: Graph, producers: set<string>, roots: seq<string>, stack: nat)
    requires Total(g) && Acyclic(g) && Rooted(g, roots) && stack > |g|
    ensures !Mark(g, producers, roots, map[], stack).Overflow?
  {
    AcyclicIsRanked(g);
    forall n | n in g
      ensures ReachRank(g)[n] <= |g|
    {
      var below := set x | x in g && Reaches(g, n, x);
      SubsetSize(below, g.Keys);
    }
    RankedFits(g, ReachRank(g), producers, roots, map[], stack);
  }

  lemma SubsetSize(a: set<string>, b: set<string>)
    requires a <= b
    ensures |a| <= |b|
  {
    assert b == a + (b - a);
  }

  /** A walk from the roots that ends well has seen that there is no cycle. */
  lemma MarkedRoots(g: Graph, producers: set<string>, roots: seq<string>, stack: nat)
    requires Total(g) && Rooted(g, roots) && Mark(g, producers, roots, map[], stack).Marked?
    ensures Acyclic(g) && Producible(g, producers)
    ensures Mark(g, producers, roots, map[], stack).dependsOn == DependsOn(g)
  {
    var all := Mark(g, producers, roots, map[], stack).dependsOn;
    forall n
      ensures n in all <==> n in g && g[n] != []
      ensures n in all ==> all[n] == Joined(g[n]) && n in producers
    {
      assert n in g ==> Covered(g, roots, n);
      MarkedAll(g, producers, roots, map[], stack, n);
    }
    if !Acyclic(g) {
      AcceptedCycleIsEndless(g, roots);
      var r :| r in roots && forall k: nat {:trigger PathOfLength(g, r, k)} :: k > 0 ==> PathOfLength(g, r, k);
      assert PathOfLength(g, r, stack + 1);
      MarkedIsShort(g, producers, roots, map[], stack, r);
    }
  }

  /** A panic means that a producer is missing. */
  lemma PanickedRoots(g: Graph, producers: set<string>, roots: seq<string>, stack: nat)
    requires Mark(g, producers, roots, map[], stack).NoProducer?
    ensures !Producible(g, producers)
  {
    var n := PanicAt(g, producers, roots, map[], stack);
  }

  /** With some stack, the walk ends well exactly if there is no cycle and no producer is missing. */
  lemma MarkedIff(g: Graph, producers: set<string>, roots: seq<string>)
    requires Total(g) && Rooted(g, roots)
    ensures (exists stack :: Mark(g, producers, roots, map[], stack).Marked?)
            <==> Acyclic(g) && Producible(g, producers)
  {
    if stack :| Mark(g, producers, roots, map[], stack).Marked? {
      MarkedRoots(g, producers, roots, stack);
    }
    if Acyclic(g) && Producible(g, producers) {
      AcyclicFits(g, producers, roots, |g| + 1);
      if Mark(g, producers, roots, map[], |g| + 1).NoProducer? {
        PanickedRoots(g, producers, roots, |g| + 1);
      }
    }
  }

  /** If no producer is missing, the walk ends exactly if there is no cycle. With a cycle, every
      stack is too small. */
  lemma EndsIff(g: Graph, producers: set<string>, roots: seq<string>)
    requires Total(g) && Rooted(g, roots) && Producible(g, producers)
    ensures (exists stack :: !Mark(g, producers, roots, map[], stack).Overflow?) <==> Acyclic(g)
  {
    MarkedIff(g, producers, roots);
    forall stack: nat | !Mark(g, producers, roots, map[], stack).Overflow?
      ensures Acyclic(g)
    {
      if Mark(g, producers, roots, map[], stack).NoProducer? {
        PanickedRoots(g, producers, roots, stack);
      } else {
        MarkedRoots(g, producers, roots, stack);
      }
    }
    if Acyclic(g) {
      var stack :| Mark(g, producers, roots, map[], stack).Marked?;
      assert !Mark(g, producers, roots, map[], stack).Overflow?;
    }
  }

  /** A larger stack changes nothing about a walk that ends. */
  lemma {:induction false} MoreStack(g: Graph, producers: set<string>, items: seq<string>,
                                     dependsOn: map<string, string>, stack: nat, more: nat)
    requires !Mark(g, producers, items, dependsOn, stack).Overflow? && stack <= more
    ensures Mark(g, producers, items, dependsOn, more) == Mark(g, producers, items, dependsOn, stack)
    decreases stack, |items|
  {
    if items != [] {
      var deps := Succ(g, items[0]);
      if deps == [] {
        MoreStack(g, producers, items[1..], dependsOn, stack, more);
      } else if items[0] in producers {
        var next := dependsOn[items[0] := Joined(deps)];
        MoreStack(g, producers, deps, next, stack - 1, more - 1);
        var below := Mark(g, producers, deps, next, stack - 1);
        if below.Marked? {
          MoreStack(g, producers, items[1..], below.dependsOn, stack, more);
        }
      }
    }
  }

  // ---------- The walk over the items ----------

  datatype Ending = Returned | Panicked | Overflowed

  class Producers {
    const names: set<string>
    var dependsOn: map<string, string> // as far as it is set

    constructor (names: set<string>)
      ensures this.names == names && dependsOn == map[]
    {
      this.names, dependsOn := names, map[];
    }

    /** Whether w is how the walk has ended. */
    ghost predicate Ends(w: Walk, r: Ending)
      reads this
    {
      match w
      case Marked(all) => r.Returned? && dependsOn == all
      case NoProducer => r.Panicked?
      case Overflow => r.Overflowed?
    }

    method SetDependsOn(name: string, ps: string)
      requires name in names
      modifies this
      ensures dependsOn == old(dependsOn)[name := ps]
    {
      dependsOn := dependsOn[name := ps];
    }

    method MarkDependencies(items: seq<Item>, stack: nat, ghost reg: Registry, ghost g: Graph) returns (r: Ending)
      requires Shows(g, reg) && forall i <- items :: Known(reg, i)
      modifies this
      ensures Ends(Mark(g, names, NamesOf(items), old(dependsOn), stack), r)
      decreases stack, 1
    {
      if stack == 0 {
        return Overflowed;
      }
      ghost var all := NamesOf(items);
      for i := 0 to |items|
        invariant Mark(g, names, all[i..], dependsOn, stack) == Mark(g, names, all, old(dependsOn), stack)
      {
        assert all[i..][0] == items[i].name && all[i..][1..] == all[i + 1..];
        r := MarkItem(items[i], stack, reg, g, all[i..]);
        if !r.Returned? {
          return;
        }
      }
      return Returned;
    }

    /** The body of the loop. */
    method MarkItem(item: Item, stack: nat, ghost reg: Registry, ghost g: Graph, ghost rest: seq<string>)
      returns (r: Ending)
      requires Shows(g, reg) && Known(reg, item) && stack > 0 && rest != [] && rest[0] == item.name
      modifies this
      ensures r.Returned? ==>
        Mark(g, names, rest[1..], dependsOn, stack) == Mark(g, names, rest, old(dependsOn), stack)
      ensures !r.Returned? ==> Ends(Mark(g, names, rest, old(dependsOn), stack), r)
      decreases stack, 0
    {
      ShownDeps(g, reg, item);
      var deps := item.Deps();
      if deps == [] {
        return Returned;
      }
      if item.name !in names {
        return Panicked;
      }
      SetDependsOn(item.name, Joined(NamesOf(deps)));
      r := MarkDependencies(deps, stack - 1, reg, g);
    }
  }
}
