/** config/configload/endpoint_sequence.go and the end of config/runtime/endpoint.go: from the
    references between requests and proxies to the root items of an endpoint. */
module EndpointItems {
  import opened Graphs
  import opened Text
  import opened ItemLinks
  import opened DepthFirst
  import opened Sequence
  import opened Collections
  import opened Sorting
  import opened ItemBuilding

  /** The references of an item without itself and without blank names. */
  function Others(refs: seq<string>, self: string): (r: seq<string>)
    ensures forall n :: n in r <==> n in refs && n != self && !Blank(n)
  {
    if refs == [] then []
    else
      var last := refs[|refs| - 1];
      Others(refs[..|refs| - 1], self) + if last != self && !Blank(last) then [last] else []
  }

  /** a refers to something, and n is a or one of these. */
  predicate Mentions(refs: map<string, seq<string>>, a: string, n: string) {
    a in refs && refs[a] != [] && (n == a || n in refs[a])
  }

  /** All items: those that refer to something, and whatever they refer to. */
  function EndpointNames(refs: map<string, seq<string>>): set<string> {
    (set a | a in refs && refs[a] != []) + (set a, b | a in refs && b in refs[a] :: b)
  }

  lemma EndpointNamesMentioned(refs: map<string, seq<string>>, n: string)
    ensures n in EndpointNames(refs) <==> exists a :: Mentions(refs, a, n)
  {
    if n in EndpointNames(refs) {
      if n in refs && refs[n] != [] {
        assert Mentions(refs, n, n);
      } else {
        var a :| a in refs && n in refs[a];
        assert Mentions(refs, a, n);
      }
    }
  }

  /** Each item depends on what it refers to, latest reference first. */
  function EndpointGraph(refs: map<string, seq<string>>): Graph {
    map n | n in EndpointNames(refs) :: Reverse(if n in refs then Others(refs[n], n) else [])
  }

  lemma EndpointEdge(refs: map<string, seq<string>>, a: string, b: string)
    ensures Edge(EndpointGraph(refs), a, b) <==> a in refs && b in Others(refs[a], a)
  {
    var all := map n | n in EndpointNames(refs) :: if n in refs then Others(refs[n], n) else [];
    assert DepGraph(all) == EndpointGraph(refs);
    EdgeIsDep(all, a, b);
  }

  // ---------- The calls of buildSequences ----------

  function CallFor(self: string, r: string): Op {
    if r == self then Introduce(self) else Op.Add(self, r)
  }

  /** One call for each reference; a reference to the item itself is not added. */
  function Calls(self: string, refs: seq<string>): seq<Op> {
    seq(|refs|, i requires 0 <= i < |refs| => CallFor(self, refs[i]))
  }

  function NameCalls(self: string, refs: seq<string>): seq<Op> {
    if refs == [] then [] else [Introduce(self)] + Calls(self, refs)
  }

  function EndpointCalls(refs: map<string, seq<string>>, order: seq<string>): seq<Op>
    requires forall i :: 0 <= i < |order| ==> order[i] in refs
  {
    if order == [] then []
    else
      var last := order[|order| - 1];
      EndpointCalls(refs, order[..|order| - 1]) + NameCalls(last, refs[last])
  }

  lemma CallsInit(self: string, refs: seq<string>)
    requires refs != []
    ensures Calls(self, refs) == Calls(self, refs[..|refs| - 1]) + [CallFor(self, refs[|refs| - 1])]
  {
  }

  lemma {:induction false} CallsRefer(self: string, refs: seq<string>, n: string)
    ensures RefsOf(Calls(self, refs), n) == if n == self then Others(refs, self) else []
  {
    if refs != [] {
      var init, last := refs[..|refs| - 1], refs[|refs| - 1];
      CallsRefer(self, init, n);
      CallsInit(self, refs);
      OneMoreCall(Calls(self, init), CallFor(self, last), n);
    }
  }

  lemma {:induction false} CallsMention(self: string, refs: seq<string>, n: string)
    ensures n in Names(Calls(self, refs)) <==> refs != [] && (n == self || n in refs)
  {
    if refs != [] {
      var init, last := refs[..|refs| - 1], refs[|refs| - 1];
      CallsMention(self, init, n);
      CallsInit(self, refs);
      OneMoreCall(Calls(self, init), CallFor(self, last), n);
      assert n in refs <==> n in init || n == last;
    }
  }

  lemma NameCallsRefer(self: string, refs: seq<string>, n: string)
    ensures RefsOf(NameCalls(self, refs), n) == if n == self then Others(refs, self) else []
  {
    CallsRefer(self, refs, n);
    ConcatCalls([Introduce(self)], Calls(self, refs), n);
    assert [Introduce(self)][..0] == [];
  }

  lemma NameCallsMention(self: string, refs: seq<string>, n: string)
    ensures n in Names(NameCalls(self, refs)) <==> refs != [] && (n == self || n in refs)
  {
    CallsMention(self, refs, n);
    ConcatCalls([Introduce(self)], Calls(self, refs), n);
    assert [Introduce(self)][..0] == [];
  }

  lemma {:induction false} EndpointCallsAre(refs: map<string, seq<string>>, order: seq<string>, n: string)
    requires NoDup(order) && forall i :: 0 <= i < |order| ==> order[i] in refs
    ensures RefsOf(EndpointCalls(refs, order), n) == if n in order then Others(refs[n], n) else []
  {
    if order != [] {
      var init, last := order[..|order| - 1], order[|order| - 1];
      var first, next := EndpointCalls(refs, init), NameCalls(last, refs[last]);
      assert EndpointCalls(refs, order) == first + next;
      EndpointCallsAre(refs, init, n);
      NameCallsRefer(last, refs[last], n);
      ConcatCalls(first, next, n);
      assert n in order <==> n in init || n == last;
    }
  }

  ghost predicate MentionedBy(refs: map<string, seq<string>>, order: seq<string>, n: string) {
    exists a :: a in order && Mentions(refs, a, n)
  }

  lemma MentionedByOneMore(refs: map<string, seq<string>>, init: seq<string>, last: string, n: string)
    ensures MentionedBy(refs, init + [last], n) <==> MentionedBy(refs, init, n) || Mentions(refs, last, n)
  {
    assert forall a :: a in init + [last] <==> a in init || a == last;
  }

  lemma {:induction false} EndpointCallsName(refs: map<string, seq<string>>, order: seq<string>, n: string)
    requires forall i :: 0 <= i < |order| ==> order[i] in refs
    ensures n in Names(EndpointCalls(refs, order)) <==> MentionedBy(refs, order, n)
  {
    if order != [] {
      var init, last := order[..|order| - 1], order[|order| - 1];
      EndpointCallsName(refs, init, n);
      NameCallsMention(last, refs[last], n);
      ConcatCalls(EndpointCalls(refs, init), NameCalls(last, refs[last]), n);
      assert order == init + [last];
      MentionedByOneMore(refs, init, last, n);
    }
  }

  lemma EndpointCallsNames(refs: map<string, seq<string>>, order: seq<string>, ops: seq<Op>)
    requires (forall n :: n in order <==> n in refs) && forall i :: 0 <= i < |order| ==> order[i] in refs
    requires ops == EndpointCalls(refs, order)
    ensures Names(ops) == EndpointNames(refs)
  {
    forall n
      ensures n in Names(ops) <==> n in EndpointNames(refs)
    {
      EndpointCallsName(refs, order, n);
      EndpointNamesMentioned(refs, n);
    }
  }

  lemma EndpointCallsDeclare(refs: map<string, seq<string>>, order: seq<string>, ops: seq<Op>)
    requires (forall n :: n in order <==> n in refs) && forall i :: 0 <= i < |order| ==> order[i] in refs
    requires NoDup(order) && ops == EndpointCalls(refs, order)
    ensures Declared(ops) == EndpointGraph(refs)
  {
    EndpointCallsNames(refs, order, ops);
    forall n | n in Names(ops)
      ensures Declared(ops)[n] == EndpointGraph(refs)[n]
    {
      EndpointCallsAre(refs, order, n);
    }
  }

  lemma {:induction false} EndpointCallsWithin(refs: map<string, seq<string>>, order: seq<string>, a: string, b: string)
    requires (forall i :: 0 <= i < |order| ==> order[i] in refs) && Op.Add(a, b) in EndpointCalls(refs, order)
    ensures a in refs && b in refs[a] && a != b
  {
    var init, last := order[..|order| - 1], order[|order| - 1];
    if Op.Add(a, b) !in NameCalls(last, refs[last]) {
      EndpointCallsWithin(refs, init, a, b);
    }
  }

  // ---------- Roots ----------

  /** The roots are distinct, nothing depends on them, and together they reach every item. */
  ghost predicate Rooted(g: Graph, roots: seq<string>) {
    && NoDup(roots)
    && (forall r <- roots :: r in g)
    && (forall a, r :: Edge(g, a, r) ==> r !in roots)
    && (forall n {:trigger Covered(g, roots, n)} :: n in g ==> Covered(g, roots, n))
  }

  ghost predicate Covered(g: Graph, roots: seq<string>, n: string) {
    exists r :: r in roots && Reaches(g, r, n)
  }

  /** Climbing the parents of n ends at an item without parent, which reaches n. */
  lemma {:induction false} Climb(l: Links, n: string) returns (r: string)
    requires Linked(l) && Acyclic(ParentGraph(l)) && n in l.deps
    ensures r in l.deps && r !in l.parent && Reaches(DepGraph(l.deps), r, n)
    decreases ReachRank(ParentGraph(l))[n]
  {
    ReachesSelf(DepGraph(l.deps), n);
    r := n;
    if n in l.parent {
      AcyclicIsRanked(ParentGraph(l));
      assert Edge(ParentGraph(l), n, l.parent[n]);
      EdgeIsDep(l.deps, l.parent[n], n);
      ReachesEdge(DepGraph(l.deps), l.parent[n], n);
      r := Climb(l, l.parent[n]);
      ReachesTrans(DepGraph(l.deps), r, l.parent[n], n);
    }
  }

  lemma ParentlessRooted(l: Links, roots: seq<string>)
    requires Linked(l) && Acyclic(ParentGraph(l))
    requires NoDup(roots) && forall n :: n in roots <==> n in l.deps && n !in l.parent
    ensures Rooted(DepGraph(l.deps), roots)
  {
    var g := DepGraph(l.deps);
    forall a, r | Edge(g, a, r)
      ensures r !in roots
    {
      EdgeIsDep(l.deps, a, r);
    }
    forall n | n in g
      ensures Covered(g, roots, n)
    {
      var r := Climb(l, n);
    }
  }

  /** If a cycle was accepted, a walk down the dependencies of some root does not end. */
  lemma AcceptedCycleIsEndless(g: Graph, roots: seq<string>)
    requires Rooted(g, roots) && !Acyclic(g)
    ensures exists r :: r in roots && forall k: nat {:trigger PathOfLength(g, r, k)} :: k > 0 ==> PathOfLength(g, r, k)
  {
    var a, b :| Edge(g, a, b) && Reaches(g, b, a);
    assert Covered(g, roots, a);
    var r :| r in roots && Reaches(g, r, a);
    forall k: nat | k > 0
      ensures PathOfLength(g, r, k)
    {
      EndlessPath(g, r, a, b, k - 1);
    }
  }

  /** No item is referred to by two others. */
  ghost predicate ReferencedOnce(refs: map<string, seq<string>>) {
    forall a, b, n :: a in refs && b in refs && n in Others(refs[a], a) && n in Others(refs[b], b) ==> a == b
  }

  lemma ReferencedOnceAcyclic(l: Links, refs: map<string, seq<string>>)
    requires Linked(l) && Acyclic(ParentGraph(l)) && DepGraph(l.deps) == EndpointGraph(refs) && ReferencedOnce(refs)
    ensures Acyclic(EndpointGraph(refs))
  {
    forall a, b, n | Edge(DepGraph(l.deps), a, n) && Edge(DepGraph(l.deps), b, n)
      ensures a == b
    {
      EndpointEdge(refs, a, n);
      EndpointEdge(refs, b, n);
    }
    OneReferrerAcyclic(l);
  }

  // ---------- Building ----------

  lemma CallsNext(ops: seq<Op>, self: string, refs: seq<string>, j: nat)
    requires j < |refs|
    ensures ops + Calls(self, refs[..j]) + [CallFor(self, refs[j])] == ops + Calls(self, refs[..j + 1])
    ensures ops + Calls(self, refs[..j + 1]) <= ops + Calls(self, refs)
  {
    assert Calls(self, refs[..j + 1]) == Calls(self, refs[..j]) + [CallFor(self, refs[j])];
    assert Calls(self, refs[..j + 1]) == Calls(self, refs)[..j + 1];
  }

  /** One reference; an item is not added to itself. */
  method LinkRef(item: Item, r: string, sequences: Registry, ghost ops: seq<Op>, ghost l: Links)
    returns (ok: bool, more: Registry, ghost links: Links)
    requires Built(ops, l, sequences) && Known(sequences, item)
    modifies sequences.Values
    ensures if ok then Built(ops + [CallFor(item.name, r)], links, more) else Run(ops + [CallFor(item.name, r)]).None?
    ensures Extends(sequences, more) && forall n :: n in more && n !in sequences ==> fresh(more[n])
  {
    if r == item.name {
      var self;
      self, more := Obtain(sequences, r, ops, l);
      ok, links := true, WithItem(l, r);
    } else {
      ok, more, links := Refer(item, r, sequences, ops, l);
    }
  }

  /** The references of one name. */
  method LinkRefs(item: Item, refs: seq<string>, sequences: Registry, ghost ops: seq<Op>, ghost l: Links)
    returns (ok: bool, more: Registry, ghost calls: seq<Op>, ghost links: Links)
    requires Built(ops, l, sequences) && Known(sequences, item)
    modifies sequences.Values
    ensures if ok then calls == ops + Calls(item.name, refs) && Built(calls, links, more)
            else Run(calls).None? && calls <= ops + Calls(item.name, refs)
    ensures Extends(sequences, more) && forall n :: n in more && n !in sequences ==> fresh(more[n])
  {
    ok, more, calls, links := true, sequences, ops, l;
    for j := 0 to |refs|
      invariant ok && calls == ops + Calls(item.name, refs[..j])
      invariant Built(calls, links, more) && Extends(sequences, more)
      invariant forall n :: n in more && n !in sequences ==> fresh(more[n])
    {
      CallsNext(ops, item.name, refs, j);
      ok, more, links := LinkRef(item, refs[j], more, calls, links);
      calls := calls + [CallFor(item.name, refs[j])];
      if !ok {
        return;
      }
    }
    assert refs[..|refs|] == refs;
  }

  /** The body of the outer loop of buildSequences. */
  method LinkItem(name: string, refs: seq<string>, sequences: Registry, ghost ops: seq<Op>, ghost l: Links)
    returns (ok: bool, more: Registry, ghost calls: seq<Op>, ghost links: Links)
    requires Built(ops, l, sequences)
    modifies sequences.Values
    ensures if ok then calls == ops + NameCalls(name, refs) && Built(calls, links, more)
            else Run(calls).None? && calls <= ops + NameCalls(name, refs)
    ensures Extends(sequences, more) && forall n :: n in more && n !in sequences ==> fresh(more[n])
  {
    NameCallsAfter(ops, name, refs);
    if refs == [] {
      ok, more, calls, links := true, sequences, ops, l;
      return;
    }
    ok, more, calls, links := LinkNamed(name, refs, sequences, ops, l);
  }

  lemma NameCallsAfter(ops: seq<Op>, name: string, refs: seq<string>)
    ensures ops + NameCalls(name, refs) == if refs == [] then ops else ops + [Introduce(name)] + Calls(name, refs)
  {
  }

  /** A name that refers to something. */
  method LinkNamed(name: string, refs: seq<string>, sequences: Registry, ghost ops: seq<Op>, ghost l: Links)
    returns (ok: bool, more: Registry, ghost calls: seq<Op>, ghost links: Links)
    requires Built(ops, l, sequences)
    modifies sequences.Values
    ensures if ok then calls == ops + [Introduce(name)] + Calls(name, refs) && Built(calls, links, more)
            else Run(calls).None? && calls <= ops + [Introduce(name)] + Calls(name, refs)
    ensures Extends(sequences, more) && forall n :: n in more && n !in sequences ==> fresh(more[n])
  {
    var item;
    item, more := Obtain(sequences, name, ops, l);
    ok, more, calls, links := LinkRefs(item, refs, more, ops + [Introduce(name)], WithItem(l, name));
  }

  lemma EndpointCallsNext(refs: map<string, seq<string>>, order: seq<string>, k: nat)
    requires (forall i :: 0 <= i < |order| ==> order[i] in refs) && k < |order|
    ensures EndpointCalls(refs, order[..k]) + NameCalls(order[k], refs[order[k]]) == EndpointCalls(refs, order[..k + 1])
  {
    assert order[..k + 1][..k] == order[..k];
  }

  /** What buildSequences leaves behind when it reports no error. */
  ghost predicate Sequenced(l: Links, reg: Registry, refs: map<string, seq<string>>)
    reads reg.Values
  {
    && Mirrors(l, reg) && Linked(l) && Acyclic(ParentGraph(l)) && DepGraph(l.deps) == EndpointGraph(refs)
  }

  lemma ReportedEndpoint(refs: map<string, seq<string>>, order: seq<string>, calls: seq<Op>)
    requires (forall i :: 0 <= i < |order| ==> order[i] in refs) && calls <= EndpointCalls(refs, order)
    requires Run(calls).None?
    ensures !Acyclic(EndpointGraph(refs))
  {
    ReportedIsCycle(calls);
    forall a, b | Edge(Declared(calls), a, b)
      ensures Edge(EndpointGraph(refs), a, b)
    {
      DeclaredEdge(calls, a, b);
      EndpointCallsWithin(refs, order, a, b);
      EndpointEdge(refs, a, b);
    }
    if Acyclic(EndpointGraph(refs)) {
      SubgraphAcyclic(Declared(calls), EndpointGraph(refs));
    }
  }

  /** The calls for these names, in turn, are all accepted. */
  ghost predicate Accepted(refs: map<string, seq<string>>, order: seq<string>) {
    (forall i :: 0 <= i < |order| ==> order[i] in refs) && NeverCircular(EndpointCalls(refs, order))
  }

  /** The names are taken in sorted order. There is only one. */
  ghost predicate Loadable(refs: map<string, seq<string>>) {
    exists order :: Lists(LexLess, order, refs.Keys) && Accepted(refs, order)
  }

  lemma LoadableIff(refs: map<string, seq<string>>, order: seq<string>)
    requires Lists(LexLess, order, refs.Keys)
    ensures Loadable(refs) <==> Accepted(refs, order)
  {
    if Loadable(refs) {
      var other :| Lists(LexLess, other, refs.Keys) && Accepted(refs, other);
      LexIsStrictOrder();
      OneList(LexLess, order, other, refs.Keys);
    }
  }

  lemma NeverCircularMore(ops: seq<Op>, op: Op)
    requires NeverCircular(ops) && Acyclic(UpGraph(LatestParents(ops + [op])))
    ensures NeverCircular(ops + [op])
  {
    forall k | 0 <= k <= |ops| + 1
      ensures Acyclic(UpGraph(LatestParents((ops + [op])[..k])))
    {
      assert k <= |ops| ==> (ops + [op])[..k] == ops[..k];
      assert k == |ops| + 1 ==> (ops + [op])[..k] == ops + [op];
    }
  }

  /** The calls for one reference of a name to another: the other gets a new parent. */
  lemma OneRefNeverCircular(ops: seq<Op>, a: string, b: string, rank: map<string, nat>)
    requires NeverCircular(ops) && a != b && !Blank(b)
    requires var parents := LatestParents(ops)[b := a];
             forall n :: n in parents ==> n in rank && parents[n] in rank && rank[parents[n]] < rank[n]
    ensures LatestParents(ops + NameCalls(a, [b])) == LatestParents(ops)[b := a]
    ensures NeverCircular(ops + NameCalls(a, [b]))
  {
    var one, two := ops + [Introduce(a)], ops + [Introduce(a)] + [Op.Add(a, b)];
    assert ops + NameCalls(a, [b]) == two;
    assert one[..|one| - 1] == ops && two[..|two| - 1] == one && ops[..|ops|] == ops;
    assert LatestParents(one) == LatestParents(ops);
    NeverCircularMore(ops, Introduce(a));
    DescendingParents(LatestParents(ops)[b := a], rank);
    assert LatestParents(two) == LatestParents(ops)[b := a];
    NeverCircularMore(one, Op.Add(a, b));
  }

  /** a and b refer to d, and d refers to a. */
  const CYCLE: map<string, seq<string>> := map["a" := ["d"], "b" := ["d"], "d" := ["a"]]

  lemma CycleParents(none: seq<Op>, first: seq<Op>, second: seq<Op>, third: seq<Op>)
    requires none == [] && first == none + NameCalls("a", ["d"]) && second == first + NameCalls("b", ["d"])
    requires third == second + NameCalls("d", ["a"])
    ensures NeverCircular(third)
  {
    TrimSpaceTrims("a");
    TrimSpaceTrims("d");
    DescendingParents(map[], map[]);
    OneRefNeverCircular(none, "a", "d", map["d" := 1, "a" := 0]);
    OneRefNeverCircular(first, "b", "d", map["d" := 1, "b" := 0]);
    OneRefNeverCircular(second, "d", "a", map["a" := 2, "d" := 1, "b" := 0]);
  }

  lemma ThreeNames(refs: map<string, seq<string>>, x: string, y: string, z: string)
    requires x in refs && y in refs && z in refs
    ensures EndpointCalls(refs, [x, y, z]) == [] + NameCalls(x, refs[x]) + NameCalls(y, refs[y]) + NameCalls(z, refs[z])
  {
    var one, two, three := [x], [x, y], [x, y, z];
    assert three[..2] == two && two[..1] == one && one[..0] == [];
    assert EndpointCalls(refs, one) == [] + NameCalls(x, refs[x]);
    assert EndpointCalls(refs, two) == [] + NameCalls(x, refs[x]) + NameCalls(y, refs[y]);
  }

  lemma CycleCalls()
    ensures NeverCircular(EndpointCalls(CYCLE, ["a", "b", "d"]))
  {
    var first := [] + NameCalls("a", ["d"]);
    var second := first + NameCalls("b", ["d"]);
    CycleParents([], first, second, second + NameCalls("d", ["a"]));
    ThreeNames(CYCLE, "a", "b", "d");
  }

  lemma CycleNames()
    ensures Lists(LexLess, ["a", "b", "d"], CYCLE.Keys)
  {
    var order := ["a", "b", "d"];
    assert LexLess("a", "b") && LexLess("a", "d") && LexLess("b", "d");
    assert forall n :: n in order <==> n == "a" || n == "b" || n == "d";
  }

  lemma CycleRefs()
    ensures "d" in Others(CYCLE["a"], "a") && "a" in Others(CYCLE["d"], "d")
  {
    TrimSpaceTrims("a");
    TrimSpaceTrims("d");
  }

  lemma BackAndForth(g: Graph, a: string, b: string)
    requires Edge(g, a, b) && Edge(g, b, a)
    ensures !Acyclic(g)
  {
    ReachesEdge(g, b, a);
  }

  lemma MutualRefs(refs: map<string, seq<string>>, a: string, b: string)
    requires a in refs && b in refs && b in Others(refs[a], a) && a in Others(refs[b], b)
    ensures !Acyclic(EndpointGraph(refs))
  {
    EndpointEdge(refs, a, b);
    EndpointEdge(refs, b, a);
    BackAndForth(EndpointGraph(refs), a, b);
  }

  /** These references have a cycle, which loading accepts. */
  lemma LoadableCycle()
    ensures Loadable(CYCLE) && !Acyclic(EndpointGraph(CYCLE))
  {
    CycleRefs();
    MutualRefs(CYCLE, "a", "d");
    CycleNames();
    CycleCalls();
    var order: seq<string> := ["a", "b", "d"];
    LoadableIff(CYCLE, order);
  }

  /** A call that is reported ends everything. */
  lemma ReportedIsRejected(refs: map<string, seq<string>>, order: seq<string>, k: nat, calls: seq<Op>)
    requires (forall i :: 0 <= i < |order| ==> order[i] in refs) && k <= |order|
    requires calls <= EndpointCalls(refs, order[..k]) && Run(calls).None?
    ensures Run(EndpointCalls(refs, order)).None?
  {
    CallsGrow(refs, order, k);
    RejectedStays(calls, EndpointCalls(refs, order));
  }

  lemma {:induction false} CallsGrow(refs: map<string, seq<string>>, order: seq<string>, k: nat)
    requires (forall i :: 0 <= i < |order| ==> order[i] in refs) && k <= |order|
    ensures EndpointCalls(refs, order[..k]) <= EndpointCalls(refs, order)
  {
    if k < |order| {
      CallsGrow(refs, order[..|order| - 1], k);
      assert order[..|order| - 1][..k] == order[..k];
    } else {
      assert order[..k] == order;
    }
  }

  /** The next name in the outer loop of buildSequences. */
  method LinkNext(refs: map<string, seq<string>>, names: seq<string>, i: nat, reg: Registry, ghost l: Links)
    returns (ok: bool, more: Registry, ghost links: Links)
    requires (forall k :: 0 <= k < |names| ==> names[k] in refs) && i < |names|
    requires Built(EndpointCalls(refs, names[..i]), l, reg)
    modifies reg.Values
    ensures !ok ==> Run(EndpointCalls(refs, names)).None?
    ensures ok ==> Built(EndpointCalls(refs, names[..i + 1]), links, more)
    ensures forall n :: n in more && n !in reg ==> fresh(more[n])
    ensures Extends(reg, more)
  {
    ghost var calls;
    EndpointCallsNext(refs, names, i);
    ok, more, calls, links := LinkItem(names[i], refs[names[i]], reg, EndpointCalls(refs, names[..i]), l);
    if !ok {
      ReportedIsRejected(refs, names, i + 1, calls);
    }
  }

  /** The outer loop of buildSequences. */
  method LinkEach(refs: map<string, seq<string>>, names: seq<string>)
    returns (ok: bool, reg: Registry, ghost l: Links)
    requires forall i :: 0 <= i < |names| ==> names[i] in refs
    ensures if ok then Built(EndpointCalls(refs, names), l, reg) else Run(EndpointCalls(refs, names)).None?
    ensures forall n :: n in reg ==> fresh(reg[n])
  {
    ok, reg, l := true, map[], NO_LINKS;
    for i := 0 to |names|
      invariant ok && Built(EndpointCalls(refs, names[..i]), l, reg)
      invariant forall n :: n in reg ==> fresh(reg[n])
    {
      ok, reg, l := LinkNext(refs, names, i, reg, l);
      if !ok {
        return;
      }
    }
    assert names[..|names|] == names;
  }

  lemma BuiltIsSequenced(refs: map<string, seq<string>>, names: seq<string>, l: Links, reg: Registry)
    requires (forall n :: n in names <==> n in refs) && NoDup(names)
    requires forall i :: 0 <= i < |names| ==> names[i] in refs
    requires Built(EndpointCalls(refs, names), l, reg)
    ensures Sequenced(l, reg, refs)
  {
    var ops := EndpointCalls(refs, names);
    AcceptedKeeps(ops);
    AcceptedIsDeclared(ops);
    EndpointCallsDeclare(refs, names, ops);
  }

  /** All names in sorted order. */
  method LinkAll(refs: map<string, seq<string>>)
    returns (ok: bool, reg: Registry, ghost l: Links)
    ensures ok <==> Loadable(refs)
    ensures !ok ==> !Acyclic(EndpointGraph(refs))
    ensures ok ==> Sequenced(l, reg, refs)
    ensures forall n :: n in reg ==> fresh(reg[n])
  {
    var names := SortedKeys(refs.Keys);
    assert forall i :: 0 <= i < |names| ==> names[i] in names;
    LoadableIff(refs, names);
    ok, reg, l := LinkEach(refs, names);
    AcceptedIffParentsAcyclic(EndpointCalls(refs, names));
    if ok {
      BuiltIsSequenced(refs, names, l, reg);
    } else {
      ReportedEndpoint(refs, names, EndpointCalls(refs, names));
    }
  }

  lemma SequencedRoots(l: Links, reg: Registry, refs: map<string, seq<string>>, roots: seq<string>)
    requires Sequenced(l, reg, refs)
    requires NoDup(roots) && forall n :: n in roots <==> n in l.deps && n !in l.parent
    ensures Shows(EndpointGraph(refs), reg) && Rooted(EndpointGraph(refs), roots)
    ensures ReferencedOnce(refs) ==> Acyclic(EndpointGraph(refs))
  {
    MirroredShows(l, reg);
    ParentlessRooted(l, roots);
    if ReferencedOnce(refs) {
      ReferencedOnceAcyclic(l, refs);
    }
  }

  /** The root items of the references, or an error. Which cycles are reported follows from the
      sorted order of the names. */
  method BuildSequences(refs: map<string, seq<string>>) returns (ok: bool, roots: seq<Item>, reg: Registry)
    ensures ok <==> Loadable(refs)
    ensures !ok ==> !Acyclic(EndpointGraph(refs)) && roots == []
    ensures ReferencedOnce(refs) ==> (ok <==> Acyclic(EndpointGraph(refs)))
    ensures ok ==> Shows(EndpointGraph(refs), reg) && Rooted(EndpointGraph(refs), NamesOf(roots))
    ensures ok ==> forall r <- roots :: Known(reg, r)
  {
    roots := [];
    ghost var l;
    ok, reg, l := LinkAll(refs);
    if ok {
      var sorted := SortDefault(reg.Keys);
      roots := WithoutParent(sorted, reg, l);
      SequencedRoots(l, reg, refs, NamesOf(roots));
    }
  }

  method WithoutParent(sorted: seq<string>, reg: Registry, ghost l: Links) returns (roots: seq<Item>)
    requires Mirrors(l, reg) && NoDup(sorted) && Elems(sorted) == reg.Keys
    ensures NoDup(NamesOf(roots)) && forall n :: n in NamesOf(roots) <==> n in l.deps && n !in l.parent
    ensures forall r <- roots :: Known(reg, r)
  {
    roots := [];
    for i := 0 to |sorted|
      invariant NoDup(NamesOf(roots)) && forall r <- roots :: Known(reg, r)
      invariant forall n :: n in NamesOf(roots) <==> n in sorted[..i] && n !in l.parent
    {
      var s := reg[sorted[i]];
      assert sorted[i] in Elems(sorted);
      assert sorted[..i + 1] == sorted[..i] + [sorted[i]];
      if !s.HasParent() {
        assert NamesOf(roots + [s]) == NamesOf(roots) + [s.name];
        roots := roots + [s];
      }
    }
    assert sorted[..|sorted|] == sorted;
    assert forall n :: n in sorted <==> n in Elems(sorted);
  }

  // ---------- Producers outside of any sequence ----------

  /** The graph with the items that stand alone. */
  function WithIndependent(g: Graph, added: seq<string>): Graph {
    if added == [] then g else WithIndependent(g, added[..|added| - 1])[added[|added| - 1] := []]
  }

  lemma {:induction false} WithIndependentIs(g: Graph, added: seq<string>)
    requires forall n <- added :: n !in g
    ensures forall n :: n in WithIndependent(g, added) <==> n in g || n in added
    ensures forall a, b :: Edge(WithIndependent(g, added), a, b) <==> Edge(g, a, b)
  {
    if added != [] {
      var init, last := added[..|added| - 1], added[|added| - 1];
      WithIndependentIs(g, init);
      assert added == init + [last];
    }
  }

  lemma IndependentReached(g: Graph, h: Graph, roots: seq<string>, added: seq<string>, n: string)
    requires (forall a, b :: Edge(g, a, b) ==> Edge(h, a, b)) && (n in added || Covered(g, roots, n))
    ensures Covered(h, roots + added, n)
  {
    if n in added {
      ReachesSelf(h, n);
      assert n in roots + added;
    } else {
      var r :| r in roots && Reaches(g, r, n);
      ReachesMonotone(g, h, r, n);
      assert r in roots + added;
    }
  }

  lemma NoDupTogether(a: seq<string>, b: seq<string>)
    requires NoDup(a) && NoDup(b) && forall n <- b :: n !in a
    ensures NoDup(a + b)
  {
    forall i, j | 0 <= i < j < |a + b|
      ensures (a + b)[i] != (a + b)[j]
    {
      assert i < |a| ==> (a + b)[i] in a;
      assert j >= |a| ==> (a + b)[j] in b;
    }
  }

  lemma IndependentRooted(g: Graph, roots: seq<string>, added: seq<string>)
    requires Total(g) && Rooted(g, roots) && NoDup(added) && forall n <- added :: n !in g
    ensures Total(WithIndependent(g, added)) && Rooted(WithIndependent(g, added), roots + added)
  {
    var h, all := WithIndependent(g, added), roots + added;
    WithIndependentIs(g, added);
    NoDupTogether(roots, added);
    assert forall r <- all :: r in roots || r in added;
    forall n | n in h
      ensures Covered(h, all, n)
    {
      assert n in g ==> Covered(g, roots, n);
      IndependentReached(g, h, roots, added, n);
    }
  }

  ghost predicate InSome(lists: seq<seq<string>>, n: string) {
    exists k :: 0 <= k < |lists| && n in lists[k]
  }

  /** Whether a name is in one of the lists. */
  method InSequence(name: string, allDeps: seq<seq<string>>) returns (found: bool)
    ensures found <==> InSome(allDeps, name)
  {
    for k := 0 to |allDeps|
      invariant forall i :: 0 <= i < k ==> name !in allDeps[i]
    {
      var listed := ContainsString(allDeps[k], name);
      if listed {
        return true;
      }
    }
    return false;
  }

  lemma ListHolds(g: Graph, roots: seq<string>, k: nat, n: string)
    requires Total(g) && (forall i :: 0 <= i < |roots| ==> roots[i] in g) && k < |roots|
    ensures |DependencyLists(g, roots)| == |roots|
    ensures n in DependencyLists(g, roots)[k] <==> Reaches(g, roots[k], n)
  {
    ListsAt(g, roots, k);
    DependencyListIsReachable(g, roots[k]);
  }

  /** The lists of the roots together hold exactly the items. */
  lemma RootListsCover(g: Graph, roots: seq<string>, n: string)
    requires Total(g) && Rooted(g, roots) && forall i :: 0 <= i < |roots| ==> roots[i] in g
    ensures InSome(DependencyLists(g, roots), n) <==> n in g
  {
    ListsLength(g, roots);
    if n in g {
      assert Covered(g, roots, n);
      var r :| r in roots && Reaches(g, r, n);
      var k :| 0 <= k < |roots| && roots[k] == r;
      ListHolds(g, roots, k, n);
    }
    if k :| 0 <= k < |DependencyLists(g, roots)| && n in DependencyLists(g, roots)[k] {
      ListHolds(g, roots, k, n);
      ReachesWithin(g, roots[k], n, g.Keys);
    }
  }

  /** Those of the names that are no items. */
  function Independent(g: Graph, names: seq<string>): (r: seq<string>)
    ensures forall n :: n in r <==> n in names && n !in g
  {
    if names == [] then []
    else
      var last := names[|names| - 1];
      assert forall n :: n in names <==> n in names[..|names| - 1] || n == last;
      Independent(g, names[..|names| - 1]) + if last in g then [] else [last]
  }

  lemma {:induction false} IndependentNoDup(g: Graph, names: seq<string>)
    requires NoDup(names)
    ensures NoDup(Independent(g, names))
  {
    if names != [] {
      var init, last := names[..|names| - 1], names[|names| - 1];
      assert last !in init;
      IndependentNoDup(g, init);
    }
  }

  /** Appends an item for every producer that is in no sequence. */
  method AddIndependentProducers(producers: set<string>, sequences: seq<Item>, reg: Registry, ghost g: Graph)
    returns (roots: seq<Item>, more: Registry, ghost added: seq<string>)
    requires Shows(g, reg) && Rooted(g, NamesOf(sequences)) && forall r <- sequences :: Known(reg, r)
    ensures forall r <- roots :: Known(more, r)
    ensures NamesOf(roots) == NamesOf(sequences) + added && NoDup(added)
    ensures forall n :: n in added <==> n in producers && n !in g
    ensures Shows(WithIndependent(g, added), more) && Rooted(WithIndependent(g, added), NamesOf(roots))
  {
    ghost var names := NamesOf(sequences);
    assert forall i :: 0 <= i < |sequences| ==> names[i] in names;
    var allDeps := Dependencies(sequences, reg, g);
    var sortedProducers := SortDefault(producers);
    assert forall n :: n in sortedProducers <==> n in Elems(sortedProducers);
    added := Independent(g, sortedProducers);
    IndependentNoDup(g, sortedProducers);
    forall n
      ensures InSome(allDeps, n) <==> n in g
    {
      RootListsCover(g, names, n);
    }
    roots, more := AddEach(sortedProducers, allDeps, sequences, reg, g);
    IndependentRooted(g, names, added);
  }

  /** The loop over the producers. */
  method AddEach(sortedProducers: seq<string>, allDeps: seq<seq<string>>, sequences: seq<Item>, reg: Registry,
                 ghost g: Graph)
    returns (roots: seq<Item>, more: Registry)
    requires Shows(g, reg) && (forall r <- sequences :: Known(reg, r)) && NoDup(sortedProducers)
    requires forall n {:trigger InSome(allDeps, n)} :: InSome(allDeps, n) <==> n in g
    ensures NamesOf(roots) == NamesOf(sequences) + Independent(g, sortedProducers)
    ensures forall r <- roots :: Known(more, r)
    ensures Shows(WithIndependent(g, Independent(g, sortedProducers)), more)
  {
    roots, more := sequences, reg;
    for i := 0 to |sortedProducers|
      invariant NamesOf(roots) == NamesOf(sequences) + Independent(g, sortedProducers[..i])
      invariant Shows(WithIndependent(g, Independent(g, sortedProducers[..i])), more)
      invariant forall r <- roots :: Known(more, r)
    {
      var name := sortedProducers[i];
      NextIndependent(g, NamesOf(sequences), sortedProducers, i);
      var inSequence := InSequence(name, allDeps);
      if !inSequence {
        roots, more := AppendItem(name, roots, more, WithIndependent(g, Independent(g, sortedProducers[..i])));
      }
    }
    assert sortedProducers[..|sortedProducers|] == sortedProducers;
  }

  lemma NextIndependent(g: Graph, names: seq<string>, producers: seq<string>, i: nat)
    requires NoDup(producers) && i < |producers|
    ensures var before, after := Independent(g, producers[..i]), Independent(g, producers[..i + 1]);
            if producers[i] in g then after == before
            else
              && names + after == names + before + [producers[i]] && producers[i] !in WithIndependent(g, before)
              && WithIndependent(g, after) == WithIndependent(g, before)[producers[i] := []]
  {
    var before, after := Independent(g, producers[..i]), Independent(g, producers[..i + 1]);
    assert producers[..i + 1][..i] == producers[..i];
    if producers[i] !in g {
      assert after == before + [producers[i]];
      OneMoreIndependent(g, before, producers[i]);
    } else {
      assert after == before;
    }
  }

  lemma OneMoreIndependent(g: Graph, added: seq<string>, name: string)
    requires name !in g && name !in added && forall n <- added :: n !in g
    ensures name !in WithIndependent(g, added)
    ensures WithIndependent(g, added + [name]) == WithIndependent(g, added)[name := []]
  {
    WithIndependentIs(g, added);
    assert (added + [name])[..|added|] == added;
  }

  lemma ShowsOneMore(g: Graph, reg: Registry, item: Item)
    requires Shows(g, reg) && item.name !in g && item.deps == [] && item.parent == null
    ensures Shows(g[item.name := []], reg[item.name := item])
  {
    assert forall a, b :: Edge(g[item.name := []], a, b) ==> Edge(g, a, b);
  }

  method AppendItem(name: string, items: seq<Item>, reg: Registry, ghost g: Graph)
    returns (more: seq<Item>, known: Registry)
    requires Shows(g, reg) && name !in g && forall i <- items :: Known(reg, i)
    ensures NamesOf(more) == NamesOf(items) + [name]
    ensures Shows(g[name := []], known) && forall i <- more :: Known(known, i)
  {
    var item := new Item(name);
    ShowsOneMore(g, reg, item);
    more, known := items + [item], reg[name := item];
  }
}
