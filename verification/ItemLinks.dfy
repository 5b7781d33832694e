/** What a series of Item.Add calls does to the links between uniquely named items. */
module ItemLinks {
  import opened Options
  import opened Graphs
  import opened Text

  /** deps: the names added to each item, oldest first. parent: the item that added a name last. */
  datatype Links = Links(deps: map<string, seq<string>>, parent: map<string, string>)

  datatype Op = Introduce(name: string) | Add(item: string, ref: string)

  const NO_LINKS := Links(map[], map[])

  function Reverse<T>(s: seq<T>): (r: seq<T>)
    ensures |r| == |s| && forall i :: 0 <= i < |s| ==> r[i] == s[|s| - 1 - i]
  {
    seq(|s|, i requires 0 <= i < |s| => s[|s| - 1 - i])
  }

  /** The dependency graph, in the order of Item.Deps. */
  function DepGraph(deps: map<string, seq<string>>): Graph {
    map n | n in deps :: Reverse(deps[n])
  }

  /** Each item points to its parent only. */
  function ParentGraph(l: Links): Graph {
    map n | n in l.deps :: if n in l.parent then [l.parent[n]] else []
  }

  /** Some proper ancestor of s is called name. */
  ghost predicate HasAncestor(l: Links, s: string, name: string) {
    exists p :: Edge(ParentGraph(l), s, p) && Reaches(ParentGraph(l), p, name)
  }

  function WithItem(l: Links, n: string): Links {
    if n in l.deps then l else l.(deps := l.deps[n := []])
  }

  function WithBoth(l: Links, s: string, ref: string): Links {
    WithItem(WithItem(l, s), ref)
  }

  /** Add sets the parent first; then it gives up if ref is an ancestor by now. */
  ghost function AddLink(l: Links, s: string, ref: string): Option<Links>
    requires s in l.deps && ref in l.deps
  {
    if Blank(ref) then Some(l)
    else
      var linked := l.(parent := l.parent[ref := s]);
      if HasAncestor(linked, s, ref) then None
      else Some(linked.(deps := l.deps[s := l.deps[s] + [ref]]))
  }

  ghost function Apply(l: Links, op: Op): Option<Links> {
    match op
    case Introduce(n) => Some(WithItem(l, n))
    case Add(s, ref) => AddLink(WithBoth(l, s, ref), s, ref)
  }

  /** The links after all calls, or None once a call has reported a circular reference. */
  ghost function Run(ops: seq<Op>): Option<Links> {
    if ops == [] then Some(NO_LINKS)
    else
      var before := Run(ops[..|ops| - 1]);
      if before.None? then None else Apply(before.value, ops[|ops| - 1])
  }

  // ---------- What every accepted run keeps ----------

  /** All names are items, every dependency has a parent, and every parent link is a
      dependency edge taken backwards. */
  ghost predicate Linked(l: Links) {
    && Total(DepGraph(l.deps))
    && l.parent.Keys <= l.deps.Keys
    && (forall n :: n in l.parent ==> l.parent[n] in l.deps && n in l.deps[l.parent[n]])
    && (forall a, b :: a in l.deps && b in l.deps[a] ==> b in l.parent)
  }

  lemma EdgeIsDep(deps: map<string, seq<string>>, a: string, b: string)
    ensures Edge(DepGraph(deps), a, b) <==> a in deps && b in deps[a]
  {
    if a in deps {
      var s := deps[a];
      var r := Reverse(s);
      if b in s {
        var i :| 0 <= i < |s| && s[i] == b;
        assert r[|s| - 1 - i] == b;
      }
      if b in r {
        var i :| 0 <= i < |r| && r[i] == b;
        assert s[|s| - 1 - i] == b;
      }
    }
  }

  lemma WithItemKeeps(l: Links, n: string)
    requires Linked(l) && Acyclic(ParentGraph(l))
    ensures Linked(WithItem(l, n)) && Acyclic(ParentGraph(WithItem(l, n)))
  {
    var k := WithItem(l, n);
    forall a, b
      ensures Edge(DepGraph(k.deps), a, b) <==> Edge(DepGraph(l.deps), a, b)
      ensures Edge(ParentGraph(k), a, b) <==> Edge(ParentGraph(l), a, b)
    {
      EdgeIsDep(k.deps, a, b);
      EdgeIsDep(l.deps, a, b);
    }
    SubgraphAcyclic(ParentGraph(k), ParentGraph(l));
  }

  lemma WithBothKeeps(l: Links, s: string, ref: string)
    requires Linked(l) && Acyclic(ParentGraph(l))
    ensures Linked(WithBoth(l, s, ref)) && Acyclic(ParentGraph(WithBoth(l, s, ref)))
  {
    WithItemKeeps(l, s);
    WithItemKeeps(WithItem(l, s), ref);
  }

  /** Looking for ref among the ancestors of s finds it exactly when the new parent link closes a cycle. */
  lemma AncestorIffParentCycle(l: Links, s: string, ref: string)
    requires Linked(l) && Acyclic(ParentGraph(l)) && s in l.deps && ref in l.deps
    ensures var linked := l.(parent := l.parent[ref := s]);
            HasAncestor(linked, s, ref) <==> !Acyclic(ParentGraph(linked))
  {
    var linked := l.(parent := l.parent[ref := s]);
    var up := ParentGraph(linked);
    assert Edge(up, ref, s);
    ReachesFirst(up, s, ref);
    if !HasAncestor(linked, s, ref) {
      if s == ref {
        ReachesSelf(up, s);
        assert false;
      } else {
        assert OneMoreEdge(ParentGraph(l), up, ref, s);
        OneMoreEdgeAcyclic(ParentGraph(l), up, ref, s);
      }
    }
  }

  lemma AddLinkKeeps(l: Links, s: string, ref: string)
    requires Linked(l) && Acyclic(ParentGraph(l)) && s in l.deps && ref in l.deps
    ensures var r := AddLink(l, s, ref);
            r.Some? ==> Linked(r.value) && Acyclic(ParentGraph(r.value))
  {
    var r := AddLink(l, s, ref);
    if r.Some? && !Blank(ref) {
      AncestorIffParentCycle(l, s, ref);
      assert ParentGraph(r.value) == ParentGraph(l.(parent := l.parent[ref := s]));
      forall a, b | Edge(DepGraph(r.value.deps), a, b)
        ensures b in DepGraph(r.value.deps)
      {
        EdgeIsDep(r.value.deps, a, b);
        EdgeIsDep(l.deps, a, b);
      }
    }
  }

  lemma ApplyKeeps(l: Links, op: Op)
    requires Linked(l) && Acyclic(ParentGraph(l))
    ensures var r := Apply(l, op); r.Some? ==> Linked(r.value) && Acyclic(ParentGraph(r.value))
  {
    match op
    case Introduce(n) => WithItemKeeps(l, n);
    case Add(s, ref) =>
      WithBothKeeps(l, s, ref);
      AddLinkKeeps(WithBoth(l, s, ref), s, ref);
  }

  /** Parent chains stay finite and every parent link is a real dependency edge. */
  lemma {:induction false} AcceptedKeeps(ops: seq<Op>)
    requires Run(ops).Some?
    ensures Linked(Run(ops).value) && Acyclic(ParentGraph(Run(ops).value))
  {
    if ops != [] {
      AcceptedKeeps(ops[..|ops| - 1]);
      ApplyKeeps(Run(ops[..|ops| - 1]).value, ops[|ops| - 1]);
    }
  }

  // ---------- The declared graph ----------

  /** The names that the calls add to n, oldest first, whatever the cycle check says. */
  function RefsOf(ops: seq<Op>, n: string): seq<string> {
    if ops == [] then []
    else
      var op := ops[|ops| - 1];
      RefsOf(ops[..|ops| - 1], n) + if op.Add? && op.item == n && !Blank(op.ref) then [op.ref] else []
  }

  function Mentioned(op: Op): set<string> {
    match op
    case Introduce(n) => {n}
    case Add(s, ref) => {s, ref}
  }

  function Names(ops: seq<Op>): set<string> {
    if ops == [] then {} else Names(ops[..|ops| - 1]) + Mentioned(ops[|ops| - 1])
  }

  function Declared(ops: seq<Op>): Graph {
    map n | n in Names(ops) :: Reverse(RefsOf(ops, n))
  }

  function DeclaredDeps(ops: seq<Op>): map<string, seq<string>> {
    map n | n in Names(ops) :: RefsOf(ops, n)
  }

  /** What one more call does to dependency lists that belong to the calls so far. */
  function NextDeps(deps: map<string, seq<string>>, op: Op): map<string, seq<string>> {
    match op
    case Introduce(n) => WithItem(Links(deps, map[]), n).deps
    case Add(s, ref) =>
      var d := WithBoth(Links(deps, map[]), s, ref).deps;
      if Blank(ref) then d else d[s := d[s] + [ref]]
  }

  /** What one more call does to the list of n. */
  lemma NextDepsAt(deps: map<string, seq<string>>, op: Op, n: string)
    ensures n in NextDeps(deps, op) <==> n in deps || n in Mentioned(op)
    ensures n in NextDeps(deps, op) ==>
      NextDeps(deps, op)[n] == (if n in deps then deps[n] else [])
        + if op.Add? && op.item == n && !Blank(op.ref) then [op.ref] else []
  {
  }

  lemma DeclaredDepsStep(ops: seq<Op>)
    requires ops != []
    ensures DeclaredDeps(ops) == NextDeps(DeclaredDeps(ops[..|ops| - 1]), ops[|ops| - 1])
  {
    var init, op := ops[..|ops| - 1], ops[|ops| - 1];
    RefsOutside(init);
    var d, e := DeclaredDeps(ops), NextDeps(DeclaredDeps(init), op);
    forall n
      ensures n in d <==> n in e
      ensures n in d && n in e ==> d[n] == e[n]
    {
      NextDepsAt(DeclaredDeps(init), op, n);
    }
    assert d.Keys == e.Keys;
  }

  /** An accepted run has built exactly the declared graph. */
  lemma {:induction false} AcceptedIsDeclared(ops: seq<Op>)
    requires Run(ops).Some?
    ensures Run(ops).value.deps == DeclaredDeps(ops)
    ensures DepGraph(Run(ops).value.deps) == Declared(ops)
  {
    if ops != [] {
      AcceptedIsDeclared(ops[..|ops| - 1]);
      DeclaredDepsStep(ops);
    }
  }

  lemma {:induction false} RefsOutside(ops: seq<Op>)
    ensures forall n :: n !in Names(ops) ==> RefsOf(ops, n) == []
  {
    if ops != [] {
      RefsOutside(ops[..|ops| - 1]);
    }
  }

  /** The declared edges are the calls with a name that is not blank. */
  lemma {:induction false} DeclaredEdge(ops: seq<Op>, a: string, b: string)
    ensures Edge(Declared(ops), a, b) <==> Op.Add(a, b) in ops && !Blank(b)
  {
    EdgeIsDep(DeclaredDeps(ops), a, b);
    RefsOutside(ops);
    RefIsAdded(ops, a, b);
  }

  lemma {:induction false} RefIsAdded(ops: seq<Op>, a: string, b: string)
    ensures b in RefsOf(ops, a) <==> Op.Add(a, b) in ops && !Blank(b)
  {
    if ops != [] {
      RefIsAdded(ops[..|ops| - 1], a, b);
      assert ops == ops[..|ops| - 1] + [ops[|ops| - 1]];
    }
  }

  lemma OneMoreCall(ops: seq<Op>, op: Op, n: string)
    ensures RefsOf(ops + [op], n) == RefsOf(ops, n) + if op.Add? && op.item == n && !Blank(op.ref) then [op.ref] else []
    ensures n in Names(ops + [op]) <==> n in Names(ops) || n in Mentioned(op)
  {
    assert (ops + [op])[..|ops|] == ops;
  }

  lemma {:induction false} ConcatCalls(ops: seq<Op>, more: seq<Op>, n: string)
    ensures RefsOf(ops + more, n) == RefsOf(ops, n) + RefsOf(more, n)
    ensures n in Names(ops + more) <==> n in Names(ops) || n in Names(more)
  {
    if more == [] {
      assert ops + more == ops;
    } else {
      assert (ops + more)[..|ops + more| - 1] == ops + more[..|more| - 1];
      ConcatCalls(ops, more[..|more| - 1], n);
    }
  }

  lemma DeclaredGrows(ops: seq<Op>)
    requires ops != []
    ensures Subgraph(Declared(ops[..|ops| - 1]), Declared(ops))
  {
    forall a, b | Edge(Declared(ops[..|ops| - 1]), a, b)
      ensures Edge(Declared(ops), a, b)
    {
      DeclaredEdge(ops[..|ops| - 1], a, b);
      DeclaredEdge(ops, a, b);
    }
  }

  // ---------- A report means a real cycle ----------

  lemma ReportedLinkCloses(l: Links, s: string, ref: string)
    requires Linked(l) && s in l.deps && ref in l.deps
    requires AddLink(l, s, ref).None?
    ensures !Acyclic(DepGraph(l.deps[s := l.deps[s] + [ref]]))
  {
    var more := l.deps[s := l.deps[s] + [ref]];
    var linked := l.(parent := l.parent[ref := s]);
    ParentsInDeps(l, s, ref);
    ReachesFirst(ParentGraph(linked), s, ref);
    ReachesReversed(ParentGraph(linked), DepGraph(more), s, ref);
    EdgeIsDep(more, s, ref);
  }

  lemma ParentsInDeps(l: Links, s: string, ref: string)
    requires Linked(l) && s in l.deps && ref in l.deps
    ensures Reverses(ParentGraph(l.(parent := l.parent[ref := s])), DepGraph(l.deps[s := l.deps[s] + [ref]]))
  {
    var linked := l.(parent := l.parent[ref := s]);
    forall x, y | Edge(ParentGraph(linked), x, y)
      ensures Edge(DepGraph(l.deps[s := l.deps[s] + [ref]]), y, x)
    {
      EdgeIsDep(l.deps[s := l.deps[s] + [ref]], y, x);
    }
  }

  lemma ReportedCallCloses(l: Links, op: Op)
    requires Linked(l) && Acyclic(ParentGraph(l)) && Apply(l, op).None?
    ensures !Acyclic(DepGraph(NextDeps(l.deps, op)))
  {
    WithBothKeeps(l, op.item, op.ref);
    ReportedLinkCloses(WithBoth(l, op.item, op.ref), op.item, op.ref);
  }

  /** A circular reference is reported only if the calls declare a cycle. */
  lemma {:induction false} ReportedIsCycle(ops: seq<Op>)
    requires Run(ops).None?
    ensures !Acyclic(Declared(ops))
  {
    var init := ops[..|ops| - 1];
    if Run(init).None? {
      ReportedIsCycle(init);
      DeclaredGrows(ops);
      if Acyclic(Declared(ops)) {
        SubgraphAcyclic(Declared(init), Declared(ops));
      }
    } else {
      AcceptedKeeps(init);
      AcceptedIsDeclared(init);
      ReportedCallCloses(Run(init).value, ops[|ops| - 1]);
      DeclaredDepsStep(ops);
      assert DepGraph(DeclaredDeps(ops)) == Declared(ops);
    }
  }

  // ---------- Exactly when cycles are found ----------

  /** Every name is added to an item at most once. */
  ghost predicate AddedOnce(ops: seq<Op>) {
    forall i, j :: 0 <= i < j < |ops| && ops[i].Add? && ops[j].Add? ==> ops[i].ref != ops[j].ref
  }

  lemma {:induction false} AddedOnceParents(ops: seq<Op>, a: string, b: string)
    requires Run(ops).Some? && AddedOnce(ops) && Op.Add(a, b) in ops && !Blank(b)
    ensures b in Run(ops).value.parent && Run(ops).value.parent[b] == a
  {
    var init, op := ops[..|ops| - 1], ops[|ops| - 1];
    if op != Op.Add(a, b) {
      var i :| 0 <= i < |ops| && ops[i] == Op.Add(a, b);
      assert init[i] == Op.Add(a, b);
      AddedOnceParents(init, a, b);
    }
  }

  /** With every name added at most once, the calls are accepted exactly when they declare no cycle. */
  lemma AddedOnceAcceptedIffAcyclic(ops: seq<Op>)
    requires AddedOnce(ops)
    ensures Run(ops).Some? <==> Acyclic(Declared(ops))
  {
    if Run(ops).None? {
      ReportedIsCycle(ops);
    } else {
      var l := Run(ops).value;
      AcceptedKeeps(ops);
      AcceptedIsDeclared(ops);
      var g, up := Declared(ops), ParentGraph(l);
      forall x, y | Edge(g, x, y)
        ensures Edge(up, y, x)
      {
        DeclaredEdge(ops, x, y);
        AddedOnceParents(ops, x, y);
      }
      forall a, b | Edge(g, a, b)
        ensures !Reaches(g, b, a)
      {
        if Reaches(g, b, a) {
          ReachesReversed(g, up, b, a);
        }
      }
    }
  }

  function NextParents(parents: map<string, string>, op: Op): map<string, string> {
    if op.Add? && !Blank(op.ref) then parents[op.ref := op.item] else parents
  }

  /** The item of the last call that added each name. */
  function LatestParents(ops: seq<Op>): map<string, string> {
    if ops == [] then map[] else NextParents(LatestParents(ops[..|ops| - 1]), ops[|ops| - 1])
  }

  function UpGraph(parents: map<string, string>): Graph {
    map n | n in parents :: [parents[n]]
  }

  lemma {:induction false} AcceptedParents(ops: seq<Op>)
    requires Run(ops).Some?
    ensures Run(ops).value.parent == LatestParents(ops)
  {
    if ops != [] {
      AcceptedParents(ops[..|ops| - 1]);
    }
  }

  lemma UpGraphAcyclicIff(l: Links)
    requires l.parent.Keys <= l.deps.Keys
    ensures Acyclic(UpGraph(l.parent)) <==> Acyclic(ParentGraph(l))
  {
    var up := UpGraph(l.parent);
    assert Subgraph(up, ParentGraph(l)) && Subgraph(ParentGraph(l), up);
    if Acyclic(up) {
      SubgraphAcyclic(ParentGraph(l), up);
    }
    if Acyclic(ParentGraph(l)) {
      SubgraphAcyclic(up, ParentGraph(l));
    }
  }

  lemma AcceptedStep(l: Links, op: Op)
    requires Linked(l) && Acyclic(ParentGraph(l))
    ensures Apply(l, op).Some? <==> Acyclic(UpGraph(NextParents(l.parent, op)))
  {
    if op.Introduce? || Blank(op.ref) {
      UpGraphAcyclicIff(l);
    } else {
      WithBothKeeps(l, op.item, op.ref);
      AddedStep(WithBoth(l, op.item, op.ref), op.item, op.ref);
    }
  }

  lemma AddedStep(l: Links, s: string, ref: string)
    requires Linked(l) && Acyclic(ParentGraph(l)) && s in l.deps && ref in l.deps && !Blank(ref)
    ensures AddLink(l, s, ref).Some? <==> Acyclic(UpGraph(l.parent[ref := s]))
  {
    AncestorIffParentCycle(l, s, ref);
    UpGraphAcyclicIff(l.(parent := l.parent[ref := s]));
  }

  lemma {:induction false} AcceptedPrefix(ops: seq<Op>, k: nat)
    requires Run(ops).Some? && k <= |ops|
    ensures Run(ops[..k]).Some?
  {
    if k < |ops| {
      AcceptedPrefix(ops[..|ops| - 1], k);
      assert ops[..|ops| - 1][..k] == ops[..k];
    } else {
      assert ops[..k] == ops;
    }
  }

  lemma RejectedStays(ops: seq<Op>, all: seq<Op>)
    requires ops <= all && Run(ops).None?
    ensures Run(all).None?
  {
    assert all[..|ops|] == ops;
    if Run(all).Some? {
      AcceptedPrefix(all, |ops|);
    }
  }

  lemma {:induction false} ReportedPrefix(ops: seq<Op>) returns (k: nat)
    requires Run(ops).None?
    ensures k <= |ops| && !Acyclic(UpGraph(LatestParents(ops[..k])))
  {
    var init := ops[..|ops| - 1];
    if Run(init).None? {
      k := ReportedPrefix(init);
      assert init[..k] == ops[..k];
    } else {
      AcceptedKeeps(init);
      AcceptedParents(init);
      AcceptedStep(Run(init).value, ops[|ops| - 1]);
      k := |ops|;
      assert ops[..k] == ops;
    }
  }

  /** At no time the latest parents form a cycle. */
  ghost predicate NeverCircular(ops: seq<Op>) {
    forall k :: 0 <= k <= |ops| ==> Acyclic(UpGraph(LatestParents(ops[..k])))
  }

  /** In general, the calls are accepted exactly when at no time the latest parents form a cycle. */
  lemma AcceptedIffParentsAcyclic(ops: seq<Op>)
    ensures Run(ops).Some? <==> NeverCircular(ops)
  {
    if Run(ops).Some? {
      forall k | 0 <= k <= |ops|
        ensures Acyclic(UpGraph(LatestParents(ops[..k])))
      {
        AcceptedPrefix(ops, k);
        AcceptedKeeps(ops[..k]);
        AcceptedParents(ops[..k]);
        UpGraphAcyclicIff(Run(ops[..k]).value);
      }
    } else {
      var k := ReportedPrefix(ops);
    }
  }

  // ---------- One referrer for each item ----------

  /** If no item is a dependency of two others, no cycle is missed. */
  lemma OneReferrerAcyclic(l: Links)
    requires Linked(l) && Acyclic(ParentGraph(l))
    requires forall a, b, n :: Edge(DepGraph(l.deps), a, n) && Edge(DepGraph(l.deps), b, n) ==> a == b
    ensures Acyclic(DepGraph(l.deps))
  {
    var g, up := DepGraph(l.deps), ParentGraph(l);
    forall x, y | Edge(g, x, y)
      ensures Edge(up, y, x)
    {
      EdgeIsDep(l.deps, x, y);
      EdgeIsDep(l.deps, l.parent[y], y);
    }
    forall a, b | Edge(g, a, b)
      ensures !Reaches(g, b, a)
    {
      if Reaches(g, b, a) {
        ReachesReversed(g, up, b, a);
      }
    }
  }

  // ---------- A cycle that is missed ----------

  /** a and b both refer to d, and d refers to a: accepted, because d only knows its latest parent b. */
  lemma MissedCycle()
    ensures var ops := [Op.Add("a", "d"), Op.Add("b", "d"), Op.Add("d", "a")];
            Run(ops).Some? && !Acyclic(Declared(ops))
  {
    var ops := [Op.Add("a", "d"), Op.Add("b", "d"), Op.Add("d", "a")];
    TrimSpaceTrims("a");
    TrimSpaceTrims("d");
    MissedCycleAccepted(ops);
    assert ops[0] == Op.Add("a", "d") && ops[2] == Op.Add("d", "a");
    DeclaredEdge(ops, "a", "d");
    DeclaredEdge(ops, "d", "a");
    ReachesEdge(Declared(ops), "d", "a");
  }

  lemma MissedCycleAccepted(ops: seq<Op>)
    requires ops == [Op.Add("a", "d"), Op.Add("b", "d"), Op.Add("d", "a")]
    requires !Blank("a") && !Blank("d")
    ensures Run(ops).Some?
  {
    MissedCycleParents(ops);
    DescendingParents(map[], map[]);
    DescendingParents(map["d" := "a"], map["d" := 1, "a" := 0]);
    DescendingParents(map["d" := "b"], map["d" := 1, "b" := 0]);
    DescendingParents(map["d" := "b", "a" := "d"], map["a" := 2, "d" := 1, "b" := 0]);
    forall k | 0 <= k <= |ops|
      ensures Acyclic(UpGraph(LatestParents(ops[..k])))
    {
      assert k == 0 || k == 1 || k == 2 || k == 3;
    }
    AcceptedIffParentsAcyclic(ops);
  }

  lemma DescendingParents(parents: map<string, string>, rank: map<string, nat>)
    requires forall n :: n in parents ==> n in rank && parents[n] in rank && rank[parents[n]] < rank[n]
    ensures Acyclic(UpGraph(parents))
  {
    RankedIsAcyclic(UpGraph(parents), rank);
  }

  lemma MissedCycleParents(ops: seq<Op>)
    requires ops == [Op.Add("a", "d"), Op.Add("b", "d"), Op.Add("d", "a")]
    requires !Blank("a") && !Blank("d")
    ensures LatestParents(ops[..0]) == map[]
    ensures LatestParents(ops[..1]) == map["d" := "a"]
    ensures LatestParents(ops[..2]) == map["d" := "b"]
    ensures LatestParents(ops[..3]) == map["d" := "b", "a" := "d"]
  {
    var o1, o2 := [Op.Add("a", "d")], [Op.Add("a", "d"), Op.Add("b", "d")];
    assert ops[..0] == [] && ops[..1] == o1 && ops[..2] == o2 && ops[..3] == ops;
    assert o1[..0] == [] && o2[..1] == o1 && ops[..2] == o2;
  }
}
