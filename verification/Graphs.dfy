/** Dependency graphs between named items: paths, reachability, cycles, and the
    depth-first order that the sequence package computes over them. */
module Graphs {

  /** Each name maps to its direct dependencies, in the order they are visited. */
  type Graph = map<string, seq<string>>

  function Succ(g: Graph, n: string): seq<string> {
    if n in g then g[n] else []
  }

  ghost predicate Edge(g: Graph, a: string, b: string) {
    b in Succ(g, a)
  }

  /** Every dependency is itself a node. */
  ghost predicate Total(g: Graph) {
    forall a, b :: Edge(g, a, b) ==> b in g
  }

  ghost predicate IsPath(g: Graph, p: seq<string>) {
    |p| > 0 && forall i {:trigger p[i]} :: 0 <= i < |p| - 1 ==> Edge(g, p[i], p[i + 1])
  }

  ghost predicate PathFromTo(g: Graph, p: seq<string>, a: string, b: string) {
    IsPath(g, p) && p[0] == a && p[|p| - 1] == b
  }

  /** b is a, or a direct or indirect dependency of a. */
  ghost predicate Reaches(g: Graph, a: string, b: string) {
    exists p :: PathFromTo(g, p, a, b)
  }

  /** No item depends on itself, directly or indirectly. */
  ghost predicate Acyclic(g: Graph) {
    forall a, b :: Edge(g, a, b) ==> !Reaches(g, b, a)
  }

  ghost predicate NoDup<T>(s: seq<T>) {
    forall i, j :: 0 <= i < j < |s| ==> s[i] != s[j]
  }

  function Elems<T>(s: seq<T>): set<T> {
    set x | x in s
  }

  // ---------- Reachability ----------

  lemma ReachesSelf(g: Graph, a: string)
    ensures Reaches(g, a, a)
  {
    assert PathFromTo(g, [a], a, a);
  }

  lemma ReachesTrans(g: Graph, a: string, b: string, c: string)
    requires Reaches(g, a, b) && Reaches(g, b, c)
    ensures Reaches(g, a, c)
  {
    var p :| PathFromTo(g, p, a, b);
    var q :| PathFromTo(g, q, b, c);
    var r := p + q[1..];
    forall i | 0 <= i < |r| - 1
      ensures Edge(g, r[i], r[i + 1])
    {
      if i < |p| - 1 {
        assert Edge(g, p[i], p[i + 1]);
      } else {
        assert Edge(g, q[i - |p| + 1], q[i - |p| + 2]);
      }
    }
    assert PathFromTo(g, r, a, c);
  }

  lemma ReachesEdge(g: Graph, a: string, b: string)
    requires Edge(g, a, b)
    ensures Reaches(g, a, b)
  {
    assert PathFromTo(g, [a, b], a, b);
  }

  /** Whatever is reachable from a stays inside every set that holds a and is closed under dependencies. */
  lemma ReachesWithin(g: Graph, a: string, b: string, s: set<string>)
    requires Reaches(g, a, b) && a in s
    requires forall x, y :: x in s && Edge(g, x, y) ==> y in s
    ensures b in s
  {
    var p :| PathFromTo(g, p, a, b);
    PathWithin(g, p, s, |p| - 1);
  }

  lemma PathWithin(g: Graph, p: seq<string>, s: set<string>, k: nat)
    requires IsPath(g, p) && k < |p| && p[0] in s
    requires forall x, y :: x in s && Edge(g, x, y) ==> y in s
    ensures p[k] in s
  {
    if k > 0 {
      PathWithin(g, p, s, k - 1);
      assert Edge(g, p[k - 1], p[k]);
    }
  }

  /** What edges keep holds all along a path. */
  lemma {:induction false} PathKeeps(g: Graph, p: seq<string>, k: nat, kept: string -> bool)
    requires IsPath(g, p) && k < |p| && kept(p[0])
    requires forall x, y {:trigger Edge(g, x, y)} :: kept(x) && Edge(g, x, y) ==> kept(y)
    ensures kept(p[k])
  {
    if k > 0 {
      PathKeeps(g, p, k - 1, kept);
      assert Edge(g, p[k - 1], p[k]);
    }
  }

  // ---------- Rankings ----------

  /** Dependencies rank strictly below the items that need them. */
  ghost predicate Ranked(g: Graph, rank: map<string, nat>) {
    forall a, b {:trigger Edge(g, a, b)} :: Edge(g, a, b) ==> a in rank && b in rank && rank[b] < rank[a]
  }

  lemma RankedPath(g: Graph, rank: map<string, nat>, p: seq<string>, k: nat)
    requires Ranked(g, rank) && IsPath(g, p) && k < |p| && p[0] in rank
    ensures p[k] in rank && rank[p[k]] <= rank[p[0]]
  {
    if k > 0 {
      RankedPath(g, rank, p, k - 1);
      assert Edge(g, p[k - 1], p[k]);
    }
  }

  lemma RankedDescends(g: Graph, rank: map<string, nat>, a: string, b: string)
    requires Ranked(g, rank) && Reaches(g, a, b) && a in rank
    ensures b in rank && rank[b] <= rank[a]
  {
    var p :| PathFromTo(g, p, a, b);
    RankedPath(g, rank, p, |p| - 1);
  }

  lemma RankedIsAcyclic(g: Graph, rank: map<string, nat>)
    requires Ranked(g, rank)
    ensures Acyclic(g)
  {
    forall a, b | Edge(g, a, b)
      ensures !Reaches(g, b, a)
    {
      if Reaches(g, b, a) {
        RankedDescends(g, rank, b, a);
      }
    }
  }

  /** In an acyclic graph the number of nodes an item reaches ranks it. */
  ghost function ReachRank(g: Graph): map<string, nat> {
    map n | n in g :: |set x | x in g && Reaches(g, n, x)|
  }

  lemma AcyclicIsRanked(g: Graph)
    requires Total(g) && Acyclic(g)
    ensures Ranked(g, ReachRank(g))
  {
    forall a, b | Edge(g, a, b)
      ensures b in ReachRank(g) && ReachRank(g)[b] < ReachRank(g)[a]
    {
      var below := set x | x in g && Reaches(g, b, x);
      var all := set x | x in g && Reaches(g, a, x);
      ReachesSelf(g, a);
      ReachesEdge(g, a, b);
      forall x | x in below
        ensures x in all
      {
        ReachesTrans(g, a, b, x);
      }
      assert a in all && a !in below;
      ProperSubsetSmaller(below, all);
    }
  }

  lemma ProperSubsetSmaller(a: set<string>, b: set<string>)
    requires a < b
    ensures |a| < |b|
  {
    assert b == a + (b - a);
  }

  /** The first edge of a path, or none. */
  lemma ReachesFirst(g: Graph, a: string, b: string)
    ensures Reaches(g, a, b) <==> a == b || exists d :: Edge(g, a, d) && Reaches(g, d, b)
  {
    if Reaches(g, a, b) && a != b {
      var p :| PathFromTo(g, p, a, b);
      assert Edge(g, p[0], p[1]);
      assert PathFromTo(g, p[1..], p[1], b);
    }
    if a == b {
      ReachesSelf(g, a);
    } else if exists d :: Edge(g, a, d) && Reaches(g, d, b) {
      var d :| Edge(g, a, d) && Reaches(g, d, b);
      ReachesEdge(g, a, d);
      ReachesTrans(g, a, d, b);
    }
  }

  lemma PathBefore(g: Graph, x: string, p: seq<string>)
    requires IsPath(g, p) && Edge(g, x, p[0])
    ensures IsPath(g, [x] + p)
  {
    var q := [x] + p;
    forall i | 0 <= i < |q| - 1
      ensures Edge(g, q[i], q[i + 1])
    {
      assert i > 0 ==> q[i] == p[i - 1] && q[i + 1] == p[i];
    }
  }

  /** Some path from n has this many items. */
  ghost predicate PathOfLength(g: Graph, n: string, length: nat) {
    exists p :: IsPath(g, p) && p[0] == n && |p| == length
  }

  lemma LongerPath(g: Graph, x: string, y: string, k: nat)
    requires Edge(g, x, y) && PathOfLength(g, y, k) && k > 0
    ensures PathOfLength(g, x, k + 1)
  {
    var p :| IsPath(g, p) && p[0] == y && |p| == k;
    PathBefore(g, x, p);
  }

  /** From a, the path goes on along the cycle. */
  lemma StepOn(g: Graph, x: string, a: string, b: string) returns (y: string)
    requires Edge(g, a, b) && Reaches(g, b, a) && Reaches(g, x, a)
    ensures Edge(g, x, y) && Reaches(g, y, a)
  {
    y := b;
    if x != a {
      ReachesFirst(g, x, a);
      y :| Edge(g, x, y) && Reaches(g, y, a);
    }
  }

  /** From whatever reaches a cycle, paths go on for ever. */
  lemma {:induction false} EndlessPath(g: Graph, x: string, a: string, b: string, k: nat)
    requires Edge(g, a, b) && Reaches(g, b, a) && Reaches(g, x, a)
    ensures PathOfLength(g, x, k + 1)
    decreases k
  {
    if k == 0 {
      assert IsPath(g, [x]);
    } else {
      var y := StepOn(g, x, a, b);
      EndlessPath(g, y, a, b, k - 1);
      LongerPath(g, x, y, k);
    }
  }

  /** A path uses only edges that h has too, so h has the path. */
  lemma ReachesMonotone(g: Graph, h: Graph, a: string, b: string)
    requires Reaches(g, a, b)
    requires forall x, y :: Edge(g, x, y) ==> Edge(h, x, y)
    ensures Reaches(h, a, b)
  {
    var p :| PathFromTo(g, p, a, b);
    assert PathFromTo(h, p, a, b);
  }

  /** Every edge of g is an edge of h. */
  ghost predicate Subgraph(g: Graph, h: Graph) {
    forall a, b :: Edge(g, a, b) ==> Edge(h, a, b)
  }

  lemma SubgraphAcyclic(g: Graph, h: Graph)
    requires Subgraph(g, h) && Acyclic(h)
    ensures Acyclic(g)
  {
    forall a, b | Edge(g, a, b)
      ensures !Reaches(g, b, a)
    {
      if Reaches(g, b, a) {
        ReachesMonotone(g, h, b, a);
      }
    }
  }

  /** h has no edges but those of g and one from x to y. */
  ghost predicate OneMoreEdge(g: Graph, h: Graph, x: string, y: string) {
    forall a, b :: Edge(h, a, b) ==> Edge(g, a, b) || (a == x && b == y)
  }

  lemma PathUsesEdge(g: Graph, h: Graph, x: string, y: string, p: seq<string>) returns (k: nat)
    requires OneMoreEdge(g, h, x, y) && IsPath(h, p)
    ensures IsPath(g, p) || (k < |p| - 1 && p[k] == x && p[k + 1] == y)
  {
    k := 0;
    while k < |p| - 1
      invariant k <= |p| - 1
      invariant forall i {:trigger p[i]} :: 0 <= i < k ==> Edge(g, p[i], p[i + 1])
    {
      assert Edge(h, p[k], p[k + 1]);
      if p[k] == x && p[k + 1] == y {
        return;
      }
      k := k + 1;
    }
  }

  lemma SplitPath(g: Graph, p: seq<string>, k: nat)
    requires IsPath(g, p) && k < |p|
    ensures Reaches(g, p[0], p[k]) && Reaches(g, p[k], p[|p| - 1])
  {
    assert PathFromTo(g, p[..k + 1], p[0], p[k]);
    assert PathFromTo(g, p[k..], p[k], p[|p| - 1]);
  }

  /** A new edge from x to y keeps a graph acyclic unless y leads back to x. */
  lemma OneMoreEdgeAcyclic(g: Graph, h: Graph, x: string, y: string)
    requires OneMoreEdge(g, h, x, y) && Acyclic(g) && !Reaches(h, y, x)
    ensures Acyclic(h)
  {
    forall a, b | Edge(h, a, b)
      ensures !Reaches(h, b, a)
    {
      if Reaches(h, b, a) && !(a == x && b == y) {
        var p :| PathFromTo(h, p, b, a);
        var k := PathUsesEdge(g, h, x, y, p);
        if IsPath(g, p) {
          assert PathFromTo(g, p, b, a);
        } else {
          SplitPath(h, p, k);
          SplitPath(h, p, k + 1);
          ReachesEdge(h, a, b);
          ReachesTrans(h, y, a, b);
          ReachesTrans(h, y, b, x);
        }
      }
    }
  }

  /** Every edge of g is a reversed edge of h. */
  ghost predicate Reverses(g: Graph, h: Graph) {
    forall a, b :: Edge(g, a, b) ==> Edge(h, b, a)
  }

  /** Then paths run the other way. */
  lemma ReachesReversed(g: Graph, h: Graph, a: string, b: string)
    requires Reaches(g, a, b)
    requires Reverses(g, h)
    ensures Reaches(h, b, a)
  {
    var p :| PathFromTo(g, p, a, b);
    PathReversed(g, h, p);
  }

  lemma {:induction false} PathReversed(g: Graph, h: Graph, p: seq<string>)
    requires IsPath(g, p)
    requires Reverses(g, h)
    ensures Reaches(h, p[|p| - 1], p[0])
  {
    if |p| == 1 {
      ReachesSelf(h, p[0]);
    } else {
      PathReversed(g, h, p[1..]);
      assert Edge(g, p[0], p[1]);
      ReachesEdge(h, p[1], p[0]);
      ReachesTrans(h, p[|p| - 1], p[1], p[0]);
    }
  }

  /** The order lists every dependency before the items that need it. */
  ghost predicate DepsFirst(g: Graph, order: seq<string>) {
    forall i, d :: 0 <= i < |order| && Edge(g, order[i], d) ==> d in order[..i]
  }

  function IndexOf<T(==)>(order: seq<T>, n: T): (i: nat)
    requires n in order
    ensures i < |order| && order[i] == n && forall j :: 0 <= j < i ==> order[j] != n
  {
    if order[0] == n then 0 else 1 + IndexOf(order[1..], n)
  }

  ghost function OrderRank(order: seq<string>): map<string, nat> {
    map n | n in order :: IndexOf(order, n)
  }

  /** A dependencies-first order of all items with dependencies ranks them by position. */
  lemma DepsFirstIsRanked(g: Graph, order: seq<string>)
    requires DepsFirst(g, order) && forall a, b :: Edge(g, a, b) ==> a in order
    ensures Ranked(g, OrderRank(order))
  {
    forall a, b | Edge(g, a, b)
      ensures b in OrderRank(order) && OrderRank(order)[b] < OrderRank(order)[a]
    {
      var i := IndexOf(order, a);
      assert b in order[..i];
      var k :| 0 <= k < i && order[..i][k] == b;
      assert order[k] == b;
    }
  }
}
