/** From the references of an endpoint to the channels of its goroutines: what configuration
    sets up is what the sequence engine needs. */
module EndpointSetup {
  import opened Graphs
  import opened Sequence
  import opened EndpointItems
  import opened DependencyMarks
  import opened Wiring
  import opened EndpointChannels
  import opened Dataflow
  import opened DataflowEnds

  lemma CabledFromChannels(e: Endpoint)
    requires Ranked(e.g, e.rank) && Rooted(e.g, e.roots) && ChannelsFor(e.g, e.roots, e.w)
    ensures Cabled(e)
  {
    forall n | n in e.g
      ensures n in e.w.results && InOrder(e.g, e.w, n) && |In(e.w, n)| >= |Succ(e.g, n)|
    {
      assert Covered(e.g, e.roots, n);
      var r :| r in e.roots && Reaches(e.g, r, n);
      FinishedReaches(e.g, e.w, r, n);
      assert Settled(e.g, e.w, n);
    }
  }

  /** With producers for items only, the engine is valid; with producers for all, nothing hangs. */
  lemma SetUp(e: Endpoint)
    requires Total(e.g) && Ranked(e.g, e.rank) && e.g.Keys <= e.rank.Keys && e.prod.Keys <= e.g.Keys
    requires Rooted(e.g, e.roots) && ChannelsFor(e.g, e.roots, e.w)
    ensures Valid(e)
    ensures e.prod.Keys == e.g.Keys ==> NoRootHangs(e)
  {
    CabledFromChannels(e);
    assert forall i :: 0 <= i < |e.roots| ==> e.roots[i] in e.roots;
    if e.prod.Keys == e.g.Keys {
      forall r | r in e.roots && r in e.g
        ensures !Hangs(e, r)
      {
        ProducersPreventHanging(e, r);
      }
    }
  }

  lemma SetUpNamed(e: Endpoint, names: set<string>)
    requires Total(e.g) && Ranked(e.g, e.rank) && e.g.Keys == e.rank.Keys == names + e.prod.Keys
    requires Rooted(e.g, e.roots) && ChannelsFor(e.g, e.roots, e.w)
    ensures Valid(e) && (names <= e.prod.Keys ==> NoRootHangs(e))
  {
    SetUp(e);
  }

  lemma IndependentAcyclic(g: Graph, added: seq<string>)
    requires Total(g) && forall n <- added :: n !in g
    ensures Total(WithIndependent(g, added)) && (Acyclic(g) <==> Acyclic(WithIndependent(g, added)))
  {
    WithIndependentIs(g, added);
    if Acyclic(g) {
      SubgraphAcyclic(WithIndependent(g, added), g);
    }
    if Acyclic(WithIndependent(g, added)) {
      SubgraphAcyclic(g, WithIndependent(g, added));
    }
  }

  lemma IndependentKeys(g: Graph, added: seq<string>, producers: set<string>)
    requires forall n :: n in added <==> n in producers && n !in g
    ensures WithIndependent(g, added).Keys == g.Keys + producers
  {
    WithIndependentIs(g, added);
  }

  /** How setting up an endpoint ends: with a report of a cycle, with a panic, because the stack
      is too small, or well. */
  datatype Setup = Reported | Panicked | Overflowed | Ready

  /** The walk over the roots, as the graph determines it. */
  method MarkRoots(names: set<string>, roots: seq<Item>, stack: nat, reg: Registry, ghost g: Graph)
    returns (r: Setup, dependsOn: map<string, string>)
    requires Shows(g, reg) && Rooted(g, NamesOf(roots)) && forall i <- roots :: Known(reg, i)
    ensures !r.Reported?
    ensures r.Ready? ==> Acyclic(g) && Producible(g, names) && dependsOn == DependsOn(g)
    ensures r.Panicked? ==> !Producible(g, names)
    ensures r.Overflowed? ==> !Acyclic(g) || stack <= |g|
  {
    var producers := new Producers(names);
    var ending := producers.MarkDependencies(roots, stack, reg, g);
    dependsOn := producers.dependsOn;
    match ending
    case Returned =>
      MarkedRoots(g, names, NamesOf(roots), stack);
      r := Ready;
    case Panicked =>
      PanickedRoots(g, names, NamesOf(roots), stack);
      r := Setup.Panicked;
    case Overflowed =>
      if Acyclic(g) && stack > |g| {
        AcyclicFits(g, names, NamesOf(roots), stack);
      }
      r := Setup.Overflowed;
  }

  /** The items of an endpoint with these references and producers, and what each producer is told
      that it depends on. stack: how many nested calls of markDependencies the stack allows. */
  method PrepareItems(refs: map<string, seq<string>>, producers: set<string>, stack: nat)
    returns (r: Setup, roots: seq<Item>, reg: Registry, dependsOn: map<string, string>, ghost g: Graph)
    ensures r.Reported? <==> !Loadable(refs)
    ensures r.Reported? ==> !Acyclic(EndpointGraph(refs))
    ensures ReferencedOnce(refs) ==> (r.Reported? <==> !Acyclic(EndpointGraph(refs)))
    ensures r.Ready? ==> Acyclic(EndpointGraph(refs)) && Producible(EndpointGraph(refs), producers)
    ensures r.Panicked? ==> !Producible(EndpointGraph(refs), producers)
    ensures r.Overflowed? ==> !Acyclic(EndpointGraph(refs)) || stack <= |EndpointNames(refs)|
    ensures r.Ready? ==> Shows(g, reg) && Rooted(g, NamesOf(roots)) && forall r <- roots :: Known(reg, r)
    ensures r.Ready? ==> g.Keys == EndpointNames(refs) + producers && Acyclic(g)
    ensures r.Ready? ==> dependsOn == DependsOn(EndpointGraph(refs))
  {
    g, dependsOn := map[], map[];
    var ok;
    ok, roots, reg := BuildSequences(refs);
    if !ok {
      r := Reported;
      return;
    }
    ghost var base := EndpointGraph(refs);
    assert base.Keys == EndpointNames(refs);
    r, dependsOn := MarkRoots(producers, roots, stack, reg, base);
    if r.Ready? {
      ghost var added;
      roots, reg, added := AddIndependentProducers(producers, roots, reg, base);
      g := WithIndependent(base, added);
      IndependentKeys(base, added, producers);
      IndependentAcyclic(base, added);
    }
  }

  /** The channels for these roots. */
  method Connect(roots: seq<Item>, reg: Registry, ghost g: Graph) returns (w: Channels)
    requires Shows(g, reg) && Acyclic(g) && Total(g) && forall r <- roots :: Known(reg, r)
    ensures ChannelsFor(g, NamesOf(roots), w) && Ranked(g, ReachRank(g)) && ReachRank(g).Keys == g.Keys
  {
    AcyclicIsRanked(g);
    var maps := NewChannels(roots, reg, g, ReachRank(g));
    w := Channels(maps.inputChannels, maps.outputChannels, maps.resultChannels, maps.made);
  }

  /** Sets up an endpoint with these references and producers. This succeeds if there is no cycle,
      every item that refers to others has a producer, and the stack allows one more nested call
      than there are items. No root hangs if every item that is referred to has a producer. */
  method Prepare(refs: map<string, seq<string>>, prod: map<string, Outcome>, stack: nat)
    returns (r: Setup, roots: seq<Item>, w: Channels, dependsOn: map<string, string>, ghost g: Graph)
    ensures r.Reported? <==> !Loadable(refs)
    ensures r.Reported? ==> !Acyclic(EndpointGraph(refs))
    ensures ReferencedOnce(refs) ==> (r.Reported? <==> !Acyclic(EndpointGraph(refs)))
    ensures r.Ready? ==> Acyclic(EndpointGraph(refs)) && Producible(EndpointGraph(refs), prod.Keys)
    ensures r.Panicked? ==> !Producible(EndpointGraph(refs), prod.Keys)
    ensures r.Overflowed? ==> !Acyclic(EndpointGraph(refs)) || stack <= |EndpointNames(refs)|
    ensures r.Ready? ==> dependsOn == DependsOn(EndpointGraph(refs))
    ensures r.Ready? ==> g.Keys == EndpointNames(refs) + prod.Keys && Acyclic(g)
    ensures r.Ready? ==>
      var e := Endpoint(g, ReachRank(g), NamesOf(roots), w, prod);
      Valid(e) && (EndpointNames(refs) <= prod.Keys ==> NoRootHangs(e))
  {
    w := NO_CHANNELS;
    var reg;
    r, roots, reg, dependsOn, g := PrepareItems(refs, prod.Keys, stack);
    if r.Ready? {
      w := Connect(roots, reg, g);
      SetUpNamed(Endpoint(g, ReachRank(g), NamesOf(roots), w, prod), EndpointNames(refs));
    }
  }
}
