/** config/configload/helper.go: the order in which backends are set up. */
module BackendOrder {
  import opened Graphs
  import opened Text
  import opened ItemLinks
  import opened DepthFirst
  import opened Sequence
  import opened Collections
  import opened ItemBuilding

  datatype Outcome = Ordered(names: seq<string>) | Circular

  function NonBlank(s: seq<string>): (r: seq<string>)
    ensures forall n :: n in r <==> n in s && !Blank(n)
  {
    if s == [] then [] else (if Blank(s[0]) then [] else [s[0]]) + NonBlank(s[1..])
  }

  /** What each defined backend refers to. */
  function RefGraph(refs: map<string, seq<string>>): Graph {
    map a | a in refs :: NonBlank(refs[a])
  }

  // ---------- First occurrences ----------

  /** Appends the names of s that are new. */
  function AddNew(acc: seq<string>, s: seq<string>): seq<string>
    decreases |s|
  {
    if s == [] then acc
    else AddNew(if s[0] in acc then acc else acc + [s[0]], s[1..])
  }

  function AddAllNew(acc: seq<string>, lists: seq<seq<string>>): seq<string>
    decreases |lists|
  {
    if lists == [] then acc else AddAllNew(AddNew(acc, lists[0]), lists[1..])
  }

  lemma {:induction false} AddNewElements(acc: seq<string>, s: seq<string>)
    requires NoDup(acc)
    ensures NoDup(AddNew(acc, s))
    ensures forall n :: n in AddNew(acc, s) <==> n in acc || n in s
    decreases |s|
  {
    if s != [] {
      AddNewElements(if s[0] in acc then acc else acc + [s[0]], s[1..]);
    }
  }

  /** Dependencies stay first if every name of s has its dependencies before it in s, or in acc. */
  lemma {:induction false} AddNewDepsFirst(g: Graph, acc: seq<string>, s: seq<string>)
    requires NoDup(acc) && DepsFirst(g, acc)
    requires forall i, d :: 0 <= i < |s| && Edge(g, s[i], d) ==> d in acc || d in s[..i]
    ensures DepsFirst(g, AddNew(acc, s))
    decreases |s|
  {
    if s != [] {
      var next := if s[0] in acc then acc else acc + [s[0]];
      if s[0] !in acc {
        assert s[..0] == [];
        AppendDepsFirst(g, acc, s[0]);
      }
      forall i, d | 0 <= i < |s[1..]| && Edge(g, s[1..][i], d)
        ensures d in next || d in s[1..][..i]
      {
        assert s[1..][i] == s[i + 1];
        assert s[..i + 1] == [s[0]] + s[1..][..i];
      }
      AddNewDepsFirst(g, next, s[1..]);
    }
  }

  lemma {:induction false} AddAllNewElements(acc: seq<string>, lists: seq<seq<string>>)
    requires NoDup(acc)
    ensures NoDup(AddAllNew(acc, lists))
    ensures forall n :: n in AddAllNew(acc, lists) <==> n in acc || exists k :: 0 <= k < |lists| && n in lists[k]
    decreases |lists|
  {
    if lists != [] {
      var next := AddNew(acc, lists[0]);
      AddNewElements(acc, lists[0]);
      AddAllNewElements(next, lists[1..]);
      forall n
        ensures n in AddAllNew(acc, lists) <==> n in acc || exists k :: 0 <= k < |lists| && n in lists[k]
      {
        if n in acc || exists k :: 0 <= k < |lists| && n in lists[k] {
          if n !in next {
            var k :| 0 <= k < |lists| && n in lists[k];
            assert n in lists[1..][k - 1];
          }
        }
        if n in AddAllNew(acc, lists) && n !in next {
          var k :| 0 <= k < |lists[1..]| && n in lists[1..][k];
          assert n in lists[k + 1];
        }
      }
    }
  }

  lemma {:induction false} AddAllNewDepsFirst(g: Graph, acc: seq<string>, lists: seq<seq<string>>)
    requires NoDup(acc) && DepsFirst(g, acc) && forall k :: 0 <= k < |lists| ==> DepsFirst(g, lists[k])
    ensures DepsFirst(g, AddAllNew(acc, lists))
    decreases |lists|
  {
    if lists != [] {
      AddNewElements(acc, lists[0]);
      AddNewDepsFirst(g, acc, lists[0]);
      AddAllNewDepsFirst(g, AddNew(acc, lists[0]), lists[1..]);
    }
  }

  // ---------- The order is right ----------

  /** The names in order: first those of the dependency lists, then the standalone ones. */
  function BackendNames(g: Graph, defs: seq<string>, standalone: seq<string>): seq<string>
    requires Total(g) && forall i :: 0 <= i < |defs| ==> defs[i] in g
  {
    AddAllNew([], DependencyLists(g, defs) + [standalone])
  }

  /** defs names all items with dependencies, and only such items or standalone ones. */
  ghost predicate Covers(g: Graph, defs: seq<string>, standalone: seq<string>) {
    && Total(g)
    && (forall i :: 0 <= i < |defs| ==> defs[i] in g && defs[i] in standalone)
    && (forall a, b :: Edge(g, a, b) ==> a in defs)
  }

  lemma BackendNamesComplete(g: Graph, defs: seq<string>, standalone: seq<string>)
    requires Covers(g, defs, standalone)
    ensures NoDup(BackendNames(g, defs, standalone))
    ensures forall n :: n in BackendNames(g, defs, standalone) <==> n in standalone || exists a :: Edge(g, a, n)
  {
    var lists := DependencyLists(g, defs);
    ListsLength(g, defs);
    AddAllNewElements([], lists + [standalone]);
    forall n
      ensures (exists k :: 0 <= k < |lists + [standalone]| && n in (lists + [standalone])[k]) <==>
              n in standalone || exists a :: Edge(g, a, n)
    {
      if n in standalone {
        assert n in (lists + [standalone])[|lists|];
      } else if exists a :: Edge(g, a, n) {
        var a :| Edge(g, a, n);
        var k :| 0 <= k < |defs| && defs[k] == a;
        ListsAt(g, defs, k);
        DependencyListIsReachable(g, a);
        ReachesEdge(g, a, n);
        assert n in (lists + [standalone])[k];
      }
      if k :| 0 <= k < |lists + [standalone]| && n in (lists + [standalone])[k] && n !in standalone {
        ListsAt(g, defs, k);
        DependencyListIsReachable(g, defs[k]);
        EnteredBySomeEdge(g, defs[k], n);
      }
    }
  }

  lemma EnteredBySomeEdge(g: Graph, a: string, n: string)
    requires Reaches(g, a, n) && a != n
    ensures exists c :: Edge(g, c, n)
  {
    var p :| PathFromTo(g, p, a, n);
    assert Edge(g, p[|p| - 2], p[|p| - 1]);
  }

  lemma BackendNamesDepsFirst(g: Graph, defs: seq<string>, standalone: seq<string>)
    requires Covers(g, defs, standalone)
    ensures DepsFirst(g, BackendNames(g, defs, standalone)) <==> Acyclic(g)
  {
    var order := BackendNames(g, defs, standalone);
    BackendNamesComplete(g, defs, standalone);
    if DepsFirst(g, order) {
      assert forall a, b :: Edge(g, a, b) ==> a in order;
      DepsFirstIsRanked(g, order);
      RankedIsAcyclic(g, OrderRank(order));
    }
    if Acyclic(g) {
      var lists := DependencyLists(g, defs);
      ListsLength(g, defs);
      forall k | 0 <= k < |lists|
        ensures DepsFirst(g, lists[k])
      {
        ListsAt(g, defs, k);
        DependencyListDepsFirst(g, defs[k]);
      }
      AddAllNewDepsFirst(g, [], lists);
      AddAllNewElements([], lists);
      var first := AddAllNew([], lists);
      forall i, d | 0 <= i < |standalone| && Edge(g, standalone[i], d)
        ensures d in first
      {
        var k :| 0 <= k < |defs| && defs[k] == standalone[i];
        ListsAt(g, defs, k);
        DependencyListIsReachable(g, defs[k]);
        ReachesEdge(g, defs[k], d);
        assert d in lists[k];
      }
      AddNewDepsFirst(g, first, standalone);
      AddAllNewLast([], lists, standalone);
    }
  }

  lemma {:induction false} AddAllNewLast(acc: seq<string>, lists: seq<seq<string>>, last: seq<string>)
    ensures AddAllNew(acc, lists + [last]) == AddNew(AddAllNew(acc, lists), last)
    decreases |lists|
  {
    if lists == [] {
      assert [last][1..] == [];
    } else {
      assert (lists + [last])[1..] == lists[1..] + [last];
      AddAllNewLast(AddNew(acc, lists[0]), lists[1..], last);
    }
  }

  // ---------- Building it ----------

  /** One call for each reference of a parent. */
  function ParentCalls(parent: string, refs: seq<string>): seq<Op> {
    seq(|refs|, j requires 0 <= j < |refs| => Op.Add(parent, refs[j]))
  }

  function CallsOf(refs: map<string, seq<string>>, parent: string): seq<Op> {
    if parent in refs then ParentCalls(parent, refs[parent]) else []
  }

  /** The calls for these parents, in turn. */
  function BackendCalls(refs: map<string, seq<string>>, parents: seq<string>): seq<Op> {
    if parents == [] then []
    else BackendCalls(refs, parents[..|parents| - 1]) + CallsOf(refs, parents[|parents| - 1])
  }

  lemma BackendCallsNext(refs: map<string, seq<string>>, parents: seq<string>, k: nat)
    requires k < |parents|
    ensures BackendCalls(refs, parents[..k + 1]) == BackendCalls(refs, parents[..k]) + CallsOf(refs, parents[k])
    ensures parents[..k + 1] == parents[..k] + [parents[k]]
  {
    assert parents[..k + 1][..k] == parents[..k];
  }

  lemma {:induction false} BackendCallsGrow(refs: map<string, seq<string>>, parents: seq<string>, k: nat)
    requires k <= |parents|
    ensures BackendCalls(refs, parents[..k]) <= BackendCalls(refs, parents)
  {
    if k < |parents| {
      BackendCallsGrow(refs, parents[..|parents| - 1], k);
      assert parents[..|parents| - 1][..k] == parents[..k];
    } else {
      assert parents[..k] == parents;
    }
  }

  lemma PrefixAfter(ops: seq<Op>, a: seq<Op>, b: seq<Op>, all: seq<Op>, calls: seq<Op>)
    requires a + b <= all && calls <= ops + a + b
    ensures calls <= ops + all
  {
    assert ops + a + b == ops + (a + b);
    assert ops + (a + b) <= ops + all;
  }

  /** Calls that stop where a circle is reported. */
  lemma ReportedParents(refs: map<string, seq<string>>, parents: seq<string>, k: nat, ops: seq<Op>, calls: seq<Op>)
    requires k < |parents| && Run(calls).None?
    requires calls <= ops + BackendCalls(refs, parents[..k]) + CallsOf(refs, parents[k])
    ensures Run(ops + BackendCalls(refs, parents)).None?
  {
    BackendCallsNext(refs, parents, k);
    BackendCallsGrow(refs, parents, k + 1);
    PrefixAfter(ops, BackendCalls(refs, parents[..k]), CallsOf(refs, parents[k]), BackendCalls(refs, parents), calls);
    RejectedStays(calls, ops + BackendCalls(refs, parents));
  }

  /** Items that are only created have no parents. */
  lemma {:induction false} OnlyCreated(ops: seq<Op>)
    requires forall op <- ops :: op.Introduce?
    ensures LatestParents(ops) == map[]
  {
    if ops != [] {
      assert ops[|ops| - 1] in ops;
      OnlyCreated(ops[..|ops| - 1]);
    }
  }

  lemma {:induction false} CreatedFirst(ops: seq<Op>, calls: seq<Op>)
    requires forall op <- ops :: op.Introduce?
    ensures LatestParents(ops + calls) == LatestParents(calls)
  {
    if calls != [] {
      var init, last := calls[..|calls| - 1], calls[|calls| - 1];
      CreatedFirst(ops, init);
      assert (ops + calls)[..|ops + calls| - 1] == ops + init;
    } else {
      OnlyCreated(ops);
      assert ops + [] == ops;
    }
  }

  lemma CreatedNeverCircular(ops: seq<Op>, calls: seq<Op>)
    requires forall op <- ops :: op.Introduce?
    ensures NeverCircular(ops + calls) <==> NeverCircular(calls)
  {
    forall k | 0 <= k <= |calls|
      ensures LatestParents((ops + calls)[..|ops| + k]) == LatestParents(calls[..k])
    {
      CreatedFirst(ops, calls[..k]);
      assert (ops + calls)[..|ops| + k] == ops + calls[..k];
    }
    forall k | 0 <= k <= |ops|
      ensures LatestParents((ops + calls)[..k]) == LatestParents(calls[..0])
    {
      CreatedFirst(ops[..k], []);
      assert (ops + calls)[..k] == ops[..k] + [];
    }
    if NeverCircular(ops + calls) {
      forall k | 0 <= k <= |calls|
        ensures Acyclic(UpGraph(LatestParents(calls[..k])))
      {
        assert Acyclic(UpGraph(LatestParents((ops + calls)[..|ops| + k])));
      }
    }
    if NeverCircular(calls) {
      forall k | 0 <= k <= |ops + calls|
        ensures Acyclic(UpGraph(LatestParents((ops + calls)[..k])))
      {
        assert Acyclic(UpGraph(LatestParents(calls[..if k <= |ops| then 0 else k - |ops|])));
      }
    }
  }

  /** The calls made so far stay within the references. */
  ghost predicate CallsWithin(ops: seq<Op>, refs: map<string, seq<string>>) {
    forall a, b :: Op.Add(a, b) in ops ==> a in refs && b in refs[a]
  }

  /** The first k references of a are among the calls. */
  ghost predicate CallsFirst(ops: seq<Op>, refs: map<string, seq<string>>, a: string, k: nat) {
    a in refs && k <= |refs[a]| && forall j :: 0 <= j < k ==> Op.Add(a, refs[a][j]) in ops
  }

  ghost predicate CallsAll(ops: seq<Op>, refs: map<string, seq<string>>, a: string) {
    a in refs && CallsFirst(ops, refs, a, |refs[a]|)
  }

  lemma CallsCreate(ops: seq<Op>, refs: map<string, seq<string>>, n: string)
    requires CallsWithin(ops, refs)
    ensures CallsWithin(ops + [Introduce(n)], refs)
  {
  }

  lemma CallsAdd(ops: seq<Op>, refs: map<string, seq<string>>, a: string, k: nat)
    requires CallsWithin(ops, refs) && CallsFirst(ops, refs, a, k) && k < |refs[a]|
    ensures CallsWithin(ops + [Op.Add(a, refs[a][k])], refs)
    ensures CallsFirst(ops + [Op.Add(a, refs[a][k])], refs, a, k + 1)
  {
    var more := ops + [Op.Add(a, refs[a][k])];
    forall j | 0 <= j < k + 1
      ensures Op.Add(a, refs[a][j]) in more
    {
      if j < k {
        assert Op.Add(a, refs[a][j]) in ops;
      }
    }
  }

  lemma CallsKept(ops: seq<Op>, more: seq<Op>, refs: map<string, seq<string>>, a: string)
    requires CallsAll(ops, refs, a) && ops <= more
    ensures CallsAll(more, refs, a)
  {
    forall j | 0 <= j < |refs[a]|
      ensures Op.Add(a, refs[a][j]) in more
    {
      var i :| 0 <= i < |ops| && ops[i] == Op.Add(a, refs[a][j]);
      assert more[i] == ops[i];
    }
  }

  lemma CallsGiveRefGraph(ops: seq<Op>, refs: map<string, seq<string>>)
    requires CallsWithin(ops, refs) && forall a :: a in refs ==> CallsAll(ops, refs, a)
    ensures Subgraph(Declared(ops), RefGraph(refs)) && Subgraph(RefGraph(refs), Declared(ops))
  {
    forall a, b
      ensures Edge(Declared(ops), a, b) <==> Edge(RefGraph(refs), a, b)
    {
      DeclaredEdge(ops, a, b);
      if Edge(RefGraph(refs), a, b) {
        assert CallsAll(ops, refs, a);
        var j :| 0 <= j < |refs[a]| && refs[a][j] == b;
      }
    }
  }

  /** One item for each defined backend. */
  method CreateItems(refs: map<string, seq<string>>) returns (refPtr: Registry, ghost ops: seq<Op>, ghost l: Links)
    ensures Built(ops, l, refPtr) && refPtr.Keys == refs.Keys && CallsWithin(ops, refs)
    ensures forall op <- ops :: op.Introduce?
    ensures forall n :: n in refPtr ==> fresh(refPtr[n])
  {
    var names := Enumerate(refs.Keys);
    refPtr, ops, l := CreateEach(names, refs);
    assert forall n :: n in refs <==> n in Elems(names);
  }

  /** The loop over the names. */
  method CreateEach(names: seq<string>, ghost refs: map<string, seq<string>>)
    returns (refPtr: Registry, ghost ops: seq<Op>, ghost l: Links)
    ensures Built(ops, l, refPtr) && CallsWithin(ops, refs) && forall op <- ops :: op.Introduce?
    ensures forall n :: n in refPtr <==> n in names
    ensures forall n :: n in refPtr ==> fresh(refPtr[n])
  {
    refPtr, ops, l := map[], [], NO_LINKS;
    for i := 0 to |names|
      invariant Built(ops, l, refPtr) && CallsWithin(ops, refs) && forall op <- ops :: op.Introduce?
      invariant (forall n :: n in refPtr ==> n in names) && forall j :: 0 <= j < i ==> names[j] in refPtr
      invariant forall n :: n in refPtr ==> fresh(refPtr[n])
    {
      var item, more := Obtain(refPtr, names[i], ops, l);
      CallsCreate(ops, refs, names[i]);
      refPtr, ops, l := more, ops + [Introduce(names[i])], WithItem(l, names[i]);
    }
  }

  /** Adds everything that one backend refers to. */
  method AddReferences(reg: Registry, parent: string, refs: map<string, seq<string>>, ghost ops: seq<Op>,
                       ghost l: Links)
    returns (ok: bool, more: Registry, added: seq<Item>, ghost calls: seq<Op>, ghost links: Links)
    requires Built(ops, l, reg) && CallsWithin(ops, refs) && parent in refs && parent in reg
    modifies reg.Values
    ensures CallsWithin(calls, refs) && ops <= calls
    ensures if ok then calls == ops + ParentCalls(parent, refs[parent])
            else Run(calls).None? && calls <= ops + ParentCalls(parent, refs[parent])
    ensures ok ==> Built(calls, links, more) && Extends(reg, more) && CallsAll(calls, refs, parent)
    ensures ok ==> |added| == |refs[parent]| && forall d <- added :: d == reg[parent]
    ensures forall n :: n in more && n !in reg ==> fresh(more[n])
  {
    ok, more, added, calls, links := true, reg, [], ops, l;
    var p := reg[parent];
    for j := 0 to |refs[parent]|
      invariant ok && Built(calls, links, more) && Extends(reg, more)
      invariant AddedFirst(ops, calls, refs, parent, j)
      invariant |added| == j && forall d <- added :: d == p
      invariant forall n :: n in more && n !in reg ==> fresh(more[n])
    {
      ok, more, calls, links := AddReference(p, refs, j, more, ops, calls, links);
      if !ok {
        AddedIsPrefix(ops, calls, refs, parent, j + 1);
        return;
      }
      added := added + [p];
    }
    AddedIsPrefix(ops, calls, refs, parent, |refs[parent]|);
  }

  /** The body of the inner loop. */
  method AddReference(p: Item, refs: map<string, seq<string>>, j: nat, reg: Registry, ghost ops: seq<Op>,
                      ghost before: seq<Op>, ghost l: Links)
    returns (ok: bool, more: Registry, ghost calls: seq<Op>, ghost links: Links)
    requires Built(before, l, reg) && Known(reg, p) && AddedFirst(ops, before, refs, p.name, j) && j < |refs[p.name]|
    modifies reg.Values
    ensures AddedFirst(ops, calls, refs, p.name, j + 1)
    ensures if ok then Built(calls, links, more) else Run(calls).None?
    ensures Extends(reg, more) && forall n :: n in more && n !in reg ==> fresh(more[n])
  {
    var r := refs[p.name][j];
    OneMoreAdded(ops, before, refs, p.name, j);
    calls := before + [Op.Add(p.name, r)];
    ok, more, links := Refer(p, r, reg, before, l);
  }

  /** After ops, the first k references of a parent have been added. */
  ghost predicate AddedFirst(ops: seq<Op>, calls: seq<Op>, refs: map<string, seq<string>>, parent: string, k: nat) {
    && CallsWithin(calls, refs) && CallsFirst(calls, refs, parent, k)
    && calls == ops + ParentCalls(parent, refs[parent][..k])
  }

  lemma OneMoreAdded(ops: seq<Op>, calls: seq<Op>, refs: map<string, seq<string>>, parent: string, k: nat)
    requires AddedFirst(ops, calls, refs, parent, k) && k < |refs[parent]|
    ensures AddedFirst(ops, calls + [Op.Add(parent, refs[parent][k])], refs, parent, k + 1)
  {
    CallsAdd(calls, refs, parent, k);
    assert ParentCalls(parent, refs[parent][..k + 1])
           == ParentCalls(parent, refs[parent][..k]) + [Op.Add(parent, refs[parent][k])];
  }

  lemma AddedIsPrefix(ops: seq<Op>, calls: seq<Op>, refs: map<string, seq<string>>, parent: string, k: nat)
    requires AddedFirst(ops, calls, refs, parent, k)
    ensures ops <= calls <= ops + ParentCalls(parent, refs[parent])
    ensures k == |refs[parent]| ==> calls == ops + ParentCalls(parent, refs[parent])
  {
    assert refs[parent][..|refs[parent]|] == refs[parent];
    assert ParentCalls(parent, refs[parent][..k]) == ParentCalls(parent, refs[parent])[..k];
  }

  /** Backend a is linked to what it refers to and, if that is anything, listed in defs. */
  ghost predicate Processed(ops: seq<Op>, reg: Registry, refs: map<string, seq<string>>, defs: seq<Item>, a: string) {
    a in reg && CallsAll(ops, refs, a) && (refs[a] != [] ==> reg[a] in defs)
  }

  ghost predicate Progress(ops: seq<Op>, reg: Registry, refs: map<string, seq<string>>, defs: seq<Item>,
                           done: seq<string>) {
    && CallsWithin(ops, refs) && refs.Keys <= reg.Keys
    && (forall d {:trigger Known(reg, d)} :: d in defs ==> Known(reg, d) && d.name in refs)
    && (forall a {:trigger Processed(ops, reg, refs, defs, a)} :: a in done ==> Processed(ops, reg, refs, defs, a))
  }

  lemma ProgressStep(ops: seq<Op>, reg: Registry, refs: map<string, seq<string>>, defs: seq<Item>, done: seq<string>,
                     calls: seq<Op>, more: Registry, added: seq<Item>, p: string)
    requires Progress(ops, reg, refs, defs, done) && Extends(reg, more)
    requires ops <= calls && CallsWithin(calls, refs) && CallsAll(calls, refs, p) && Known(more, more[p])
    requires p in more && more[p].name == p && |added| == |refs[p]| && forall d <- added :: d == more[p]
    ensures Progress(calls, more, refs, defs + added, done + [p])
  {
    forall a | a in done + [p]
      ensures Processed(calls, more, refs, defs + added, a)
    {
      if a in done {
        assert Processed(ops, reg, refs, defs, a);
        CallsKept(ops, calls, refs, a);
      } else if refs[p] != [] {
        assert added[0] in added;
      }
    }
    forall d | d in defs + added
      ensures Known(more, d) && d.name in refs
    {
      assert d in defs ==> Known(reg, d);
    }
  }

  lemma ProgressDone(ops: seq<Op>, l: Links, reg: Registry, refs: map<string, seq<string>>, defs: seq<Item>,
                     done: seq<string>)
    requires Built(ops, l, reg) && Progress(ops, reg, refs, defs, done) && Elems(done) == refs.Keys
    ensures Shows(DepGraph(l.deps), reg)
    ensures Subgraph(DepGraph(l.deps), RefGraph(refs)) && Subgraph(RefGraph(refs), DepGraph(l.deps))
    ensures forall a :: a in refs && refs[a] != [] ==> reg[a] in defs
    ensures forall i :: 0 <= i < |defs| ==> Known(reg, defs[i]) && defs[i].name in refs
  {
    AcceptedKeeps(ops);
    AcceptedIsDeclared(ops);
    MirroredShows(l, reg);
    forall a | a in refs
      ensures CallsAll(ops, refs, a) && (refs[a] != [] ==> reg[a] in defs)
    {
      assert a in Elems(done);
      assert Processed(ops, reg, refs, defs, a);
    }
    CallsGiveRefGraph(ops, refs);
  }

  /** The first k parents have been processed, after ops. */
  ghost predicate Reached(ops: seq<Op>, calls: seq<Op>, reg: Registry, refs: map<string, seq<string>>,
                          defs: seq<Item>, parents: seq<string>, k: nat) {
    && k <= |parents| && (forall p <- parents :: p in refs)
    && calls == ops + BackendCalls(refs, parents[..k]) && Progress(calls, reg, refs, defs, parents[..k])
  }

  lemma ReachedNext(ops: seq<Op>, before: seq<Op>, reg: Registry, refs: map<string, seq<string>>, defs: seq<Item>,
                    parents: seq<string>, i: nat, calls: seq<Op>, more: Registry, added: seq<Item>)
    requires Reached(ops, before, reg, refs, defs, parents, i) && i < |parents| && Extends(reg, more)
    requires calls == before + CallsOf(refs, parents[i]) && CallsWithin(calls, refs)
    requires var p := parents[i];
             && p in more && more[p].name == p && CallsAll(calls, refs, p)
             && |added| == |refs[p]| && forall d <- added :: d == more[p]
    ensures Reached(ops, calls, more, refs, defs + added, parents, i + 1)
  {
    BackendCallsNext(refs, parents, i);
    AfterOps(ops, BackendCalls(refs, parents[..i]), CallsOf(refs, parents[i]));
    ProgressStep(before, reg, refs, defs, parents[..i], calls, more, added, parents[i]);
  }

  lemma AfterOps(ops: seq<Op>, a: seq<Op>, b: seq<Op>)
    ensures ops + a + b == ops + (a + b) && ops + a <= ops + a + b
  {
  }

  /** The references of the next parent, or a report of a circle. */
  method LinkParent(reg: Registry, refs: map<string, seq<string>>, parents: seq<string>, i: nat, defs: seq<Item>,
                    ghost ops: seq<Op>, ghost before: seq<Op>, ghost l: Links)
    returns (ok: bool, more: Registry, all: seq<Item>, ghost calls: seq<Op>, ghost links: Links)
    requires Built(before, l, reg) && Reached(ops, before, reg, refs, defs, parents, i) && i < |parents|
    modifies reg.Values
    ensures !ok ==> Run(ops + BackendCalls(refs, parents)).None? && !Acyclic(RefGraph(refs))
    ensures ok ==> Built(calls, links, more) && Reached(ops, calls, more, refs, all, parents, i + 1)
    ensures ok ==> Extends(reg, more) && forall n :: n in more && n !in reg ==> fresh(more[n])
  {
    var added;
    assert parents[i] in parents;
    ok, more, added, calls, links := AddReferences(reg, parents[i], refs, before, l);
    all := defs + added;
    if ok {
      ReachedNext(ops, before, reg, refs, defs, parents, i, calls, more, added);
    } else {
      ReportedIsCycle(calls);
      DeclaredWithin(calls, refs);
      ReportedParents(refs, parents, i, ops, calls);
    }
  }

  /** The references of all parents, or a report of a circle. */
  method LinkParents(reg: Registry, refs: map<string, seq<string>>, parents: seq<string>, ghost ops: seq<Op>,
                     ghost l: Links)
    returns (ok: bool, more: Registry, defs: seq<Item>, ghost calls: seq<Op>, ghost links: Links)
    requires Built(ops, l, reg) && Progress(ops, reg, refs, [], []) && forall p <- parents :: p in refs
    modifies reg.Values
    ensures ok <==> Run(ops + BackendCalls(refs, parents)).Some?
    ensures !ok ==> !Acyclic(RefGraph(refs))
    ensures ok ==> calls == ops + BackendCalls(refs, parents)
    ensures ok ==> Built(calls, links, more) && Progress(calls, more, refs, defs, parents)
  {
    ok, more, defs, calls, links := true, reg, [], ops, l;
    assert parents[..0] == [] && ops == ops + [];
    for i := 0 to |parents|
      invariant ok && Built(calls, links, more) && Reached(ops, calls, more, refs, defs, parents, i)
      invariant Extends(reg, more) && forall n :: n in more && n !in reg ==> fresh(more[n])
    {
      ok, more, defs, calls, links := LinkParent(more, refs, parents, i, defs, ops, calls, links);
      if !ok {
        return;
      }
    }
    assert parents[..|parents|] == parents;
  }

  /** The backends are taken in this order, in which the latest parents never form a circle. */
  ghost predicate AcceptedIn(refs: map<string, seq<string>>, order: seq<string>) {
    (forall p <- order :: p in refs) && NeverCircular(BackendCalls(refs, order))
  }

  /** a and b refer to d, and d refers to a. */
  const CIRCLE: map<string, seq<string>> := map["a" := ["d"], "b" := ["d"], "d" := ["a"]]

  lemma ThreeCalls(refs: map<string, seq<string>>, x: string, y: string, z: string, up: string)
    requires x in refs && y in refs && z in refs && refs[x] == refs[y] == [z] && refs[z] == [up]
    ensures BackendCalls(refs, [x, y, z]) == [Op.Add(x, z), Op.Add(y, z), Op.Add(z, up)]
  {
    var one, two, three := [x], [x, y], [x, y, z];
    assert three[..2] == two && two[..1] == one && one[..0] == [];
    assert BackendCalls(refs, one) == [Op.Add(x, z)];
    assert BackendCalls(refs, two) == [Op.Add(x, z), Op.Add(y, z)];
  }

  lemma LatestFirst()
    ensures !NeverCircular([Op.Add("b", "d"), Op.Add("a", "d"), Op.Add("d", "a")])
  {
    var ops := [Op.Add("b", "d"), Op.Add("a", "d"), Op.Add("d", "a")];
    TrimSpaceTrims("a");
    TrimSpaceTrims("d");
    assert ops[..3] == ops && ops[..2][..1] == ops[..1] && ops[..1][..0] == [];
    var up := UpGraph(LatestParents(ops));
    assert Edge(up, "d", "a") && Edge(up, "a", "d");
    ReachesEdge(up, "a", "d");
    assert !Acyclic(UpGraph(LatestParents(ops[..3])));
  }

  /** Whether this circle is reported depends on the order. */
  lemma OrderDecides()
    ensures AcceptedIn(CIRCLE, ["a", "b", "d"]) && !AcceptedIn(CIRCLE, ["b", "a", "d"])
  {
    ThreeCalls(CIRCLE, "a", "b", "d", "a");
    ThreeCalls(CIRCLE, "b", "a", "d", "a");
    TrimSpaceTrims("a");
    TrimSpaceTrims("d");
    var calls := BackendCalls(CIRCLE, ["a", "b", "d"]);
    MissedCycleAccepted(calls);
    AcceptedIffParentsAcyclic(calls);
    LatestFirst();
  }

  /** All items for the references, or a report of a circle. order: that in which the map is read. */
  method LinkAll(refs: map<string, seq<string>>)
    returns (ok: bool, reg: Registry, defs: seq<Item>, ghost g: Graph, ghost order: seq<string>)
    ensures NoDup(order) && Elems(order) == refs.Keys && (ok <==> AcceptedIn(refs, order))
    ensures !ok ==> !Acyclic(RefGraph(refs))
    ensures ok ==> Shows(g, reg) && refs.Keys <= reg.Keys
    ensures ok ==> Subgraph(g, RefGraph(refs)) && Subgraph(RefGraph(refs), g)
    ensures ok && ReferencedOnce(refs) ==> Acyclic(RefGraph(refs))
    ensures ok ==> forall i :: 0 <= i < |defs| ==> Known(reg, defs[i]) && defs[i].name in refs
    ensures ok ==> forall a :: a in refs && refs[a] != [] ==> reg[a] in defs
  {
    ghost var ops, l;
    reg, ops, l := CreateItems(refs);
    g := map[];
    var parents := Enumerate(refs.Keys);
    order := parents;
    assert forall p :: p in parents <==> p in Elems(parents);
    AcceptedIffParentsAcyclic(ops + BackendCalls(refs, parents));
    CreatedNeverCircular(ops, BackendCalls(refs, parents));
    ok, reg, defs, ops, l := LinkParents(reg, refs, parents, ops, l);
    if ok {
      ProgressDone(ops, l, reg, refs, defs, parents);
      g := DepGraph(l.deps);
      AcceptedKeeps(ops);
      if ReferencedOnce(refs) {
        ReferencedOnceAcyclic(l, refs);
      }
    }
  }

  /** No backend is referred to by two others. */
  ghost predicate ReferencedOnce(refs: map<string, seq<string>>) {
    forall a, b, n :: Edge(RefGraph(refs), a, n) && Edge(RefGraph(refs), b, n) ==> a == b
  }

  lemma ReferencedOnceAcyclic(l: Links, refs: map<string, seq<string>>)
    requires Linked(l) && Acyclic(ParentGraph(l)) && ReferencedOnce(refs)
    requires Subgraph(DepGraph(l.deps), RefGraph(refs)) && Subgraph(RefGraph(refs), DepGraph(l.deps))
    ensures Acyclic(RefGraph(refs))
  {
    OneReferrerAcyclic(l);
    SubgraphAcyclic(RefGraph(refs), DepGraph(l.deps));
  }

  lemma DeclaredWithin(ops: seq<Op>, refs: map<string, seq<string>>)
    requires CallsWithin(ops, refs) && !Acyclic(Declared(ops))
    ensures !Acyclic(RefGraph(refs))
  {
    forall a, b | Edge(Declared(ops), a, b)
      ensures Edge(RefGraph(refs), a, b)
    {
      DeclaredEdge(ops, a, b);
    }
    if Acyclic(RefGraph(refs)) {
      SubgraphAcyclic(Declared(ops), RefGraph(refs));
    }
  }

  /** The names of all lists, each at its first occurrence. */
  method Unique(lists: seq<seq<string>>) returns (uniqueItems: seq<string>)
    ensures uniqueItems == AddAllNew([], lists)
  {
    uniqueItems := [];
    var unique: map<string, nat> := map[];
    for i := 0 to |lists|
      invariant unique.Keys == Elems(uniqueItems)
      invariant AddAllNew(uniqueItems, lists[i..]) == AddAllNew([], lists)
    {
      ghost var acc := uniqueItems;
      assert lists[i..][0] == lists[i] && lists[i..][1..] == lists[i + 1..];
      for j := 0 to |lists[i]|
        invariant unique.Keys == Elems(uniqueItems)
        invariant AddNew(uniqueItems, lists[i][j..]) == AddNew(acc, lists[i])
      {
        var name := lists[i][j];
        assert lists[i][j..][0] == name && lists[i][j..][1..] == lists[i][j + 1..];
        if name !in unique {
          unique := unique[name := 1];
          uniqueItems := uniqueItems + [name];
        } else {
          unique := unique[name := unique[name] + 1];
        }
      }
    }
  }

  /** Every defined or referenced backend once, referenced ones first. A circle is reported
      only if there is one; if one is missed, and only then, some backend comes too early. Whether
      it is missed depends on the order in which the map is read. */
  method ResolveBackendDeps(refs: map<string, seq<string>>) returns (r: Outcome, ghost order: seq<string>)
    ensures NoDup(order) && Elems(order) == refs.Keys && (r.Circular? <==> !AcceptedIn(refs, order))
    ensures r.Circular? ==> !Acyclic(RefGraph(refs))
    ensures ReferencedOnce(refs) ==> (r.Circular? <==> !Acyclic(RefGraph(refs)))
    ensures r.Ordered? ==> NoDup(r.names)
    ensures r.Ordered? ==> forall n :: n in r.names <==> n in refs || exists a :: Edge(RefGraph(refs), a, n)
    ensures r.Ordered? ==> (DepsFirst(RefGraph(refs), r.names) <==> Acyclic(RefGraph(refs)))
  {
    var ok, reg, defs;
    ghost var g;
    ok, reg, defs, g, order := LinkAll(refs);
    if !ok {
      r := Circular;
      return;
    }
    var names := OrderItems(refs, reg, defs, g);
    r := Ordered(names);
  }

  /** The names below the items, and then all others. */
  method OrderItems(refs: map<string, seq<string>>, reg: Registry, defs: seq<Item>, ghost g: Graph)
    returns (names: seq<string>)
    requires Shows(g, reg) && refs.Keys <= reg.Keys && Subgraph(g, RefGraph(refs)) && Subgraph(RefGraph(refs), g)
    requires forall i :: 0 <= i < |defs| ==> Known(reg, defs[i]) && defs[i].name in refs
    requires forall a :: a in refs && refs[a] != [] ==> reg[a] in defs
    ensures NoDup(names)
    ensures forall n :: n in names <==> n in refs || exists a :: Edge(RefGraph(refs), a, n)
    ensures DepsFirst(RefGraph(refs), names) <==> Acyclic(RefGraph(refs))
  {
    var items := Dependencies(defs, reg, g);
    var standalone := Enumerate(refs.Keys);
    names := Unique(items + [standalone]);
    OrderForReferences(refs, g, NamesOf(defs), standalone);
  }

  lemma OrderForReferences(refs: map<string, seq<string>>, g: Graph, defs: seq<string>, standalone: seq<string>)
    requires Covers(g, defs, standalone) && Elems(standalone) == refs.Keys
    requires Subgraph(g, RefGraph(refs)) && Subgraph(RefGraph(refs), g)
    ensures var names := BackendNames(g, defs, standalone);
            && NoDup(names)
            && (forall n :: n in names <==> n in refs || exists a :: Edge(RefGraph(refs), a, n))
            && (DepsFirst(RefGraph(refs), names) <==> Acyclic(RefGraph(refs)))
  {
    var names := BackendNames(g, defs, standalone);
    BackendNamesComplete(g, defs, standalone);
    BackendNamesDepsFirst(g, defs, standalone);
    forall n
      ensures n in standalone <==> n in refs
      ensures (exists a :: Edge(g, a, n)) <==> exists a :: Edge(RefGraph(refs), a, n)
    {
      assert n in Elems(standalone) <==> n in refs.Keys;
    }
    if Acyclic(g) {
      SubgraphAcyclic(RefGraph(refs), g);
    }
    if Acyclic(RefGraph(refs)) {
      SubgraphAcyclic(g, RefGraph(refs));
    }
  }
}
