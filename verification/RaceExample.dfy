/** handler/endpoint.go: an endpoint whose result depends on the order of its goroutines. */
module RaceExample {
  import opened Graphs
  import opened Wiring
  import opened EndpointItems
  import opened EndpointChannels
  import opened EndpointSetup
  import opened Dataflow
  import opened DataflowRuns
  import opened DataflowEnds
  import opened DataflowResults
  import opened DataflowRaces

  /** The root refers to a and b, which both refer to x. */
  const DIAMOND: Graph := map["r" := ["a", "b"], "a" := ["x"], "b" := ["x"], "x" := []]

  const HEIGHT: map<string, nat> := map["r" := 2, "a" := 1, "b" := 1, "x" := 0]

  /** Only the producer of x fails: it panics. */
  const PRODUCERS := map["r" := Delivers, "a" := Delivers, "b" := Delivers, "x" := Crashes]

  ghost function Example(): Endpoint
    requires Ranked(DIAMOND, HEIGHT)
  {
    Endpoint(DIAMOND, HEIGHT, ["r"], FillAll(DIAMOND, HEIGHT, ["r"], NO_CHANNELS), PRODUCERS)
  }

  lemma DiamondEdges(a: string, b: string)
    ensures Edge(DIAMOND, a, b) <==> (a, b) in {("r", "a"), ("r", "b"), ("a", "x"), ("b", "x")}
  {
  }

  lemma DiamondRanked()
    ensures Ranked(DIAMOND, HEIGHT) && Total(DIAMOND)
  {
    forall a, b | Edge(DIAMOND, a, b)
      ensures b in DIAMOND && a in HEIGHT && b in HEIGHT && HEIGHT[b] < HEIGHT[a]
    {
      DiamondEdges(a, b);
    }
  }

  lemma DiamondRooted()
    ensures Rooted(DIAMOND, ["r"])
  {
    forall a, b | Edge(DIAMOND, a, b)
      ensures b !in ["r"]
    {
      DiamondEdges(a, b);
    }
    forall n | n in DIAMOND
      ensures Covered(DIAMOND, ["r"], n)
    {
      DiamondReached(n);
      assert "r" in ["r"];
    }
  }

  lemma DiamondReached(n: string)
    requires n in DIAMOND
    ensures Reaches(DIAMOND, "r", n)
  {
    ReachesSelf(DIAMOND, n);
    if n != "r" {
      DiamondEdges("r", n);
      if n == "x" {
        DiamondEdges("r", "a");
        DiamondEdges("a", "x");
        ReachesFirst(DIAMOND, "a", "x");
        ReachesFirst(DIAMOND, "r", "x");
      } else {
        ReachesFirst(DIAMOND, "r", n);
      }
    }
  }

  lemma SameKeys()
    ensures PRODUCERS.Keys == DIAMOND.Keys == HEIGHT.Keys
  {
  }

  lemma DiamondChannels()
    requires Ranked(DIAMOND, HEIGHT)
    ensures ChannelsFor(DIAMOND, ["r"], FillAll(DIAMOND, HEIGHT, ["r"], NO_CHANNELS))
  {
    SameKeys();
    AllChannels(DIAMOND, HEIGHT, ["r"]);
  }

  lemma ExampleValid()
    ensures Ranked(DIAMOND, HEIGHT) && Valid(Example()) && NoRootHangs(Example())
  {
    DiamondRanked();
    DiamondRooted();
    DiamondChannels();
    SameKeys();
    SetUp(Example());
  }

  /** The item n has x, which panics, as its only dependency. */
  lemma WaitsForX(n: string)
    requires Ranked(DIAMOND, HEIGHT) && Graphed(Example()) && n in {"a", "b"}
    ensures var e := Example(); Blocked(e, n) && Culprit(e, n) == "x"
    ensures SharedForeign(Example(), "x")
  {
    var e := Example();
    assert Succ(e.g, "x") == [] && Succ(e.g, n) == ["x"];
    FirstOffIs(e, "x", 0, 0);
    FailsIff(e, "x");
    FirstOffIs(e, n, 0, 0);
    DiamondEdges(n, "x");
  }

  /** The root is not clean, and two complete runs give it different errors. */
  lemma ResultsDiffer() returns (a: seq<Actor>, b: seq<Actor>)
    ensures Ranked(DIAMOND, HEIGHT) && Valid(Example()) && NoRootHangs(Example())
    ensures "r" in Example().g && !Clean(Example(), "r")
    ensures AllRead(Example(), a) && AllRead(Example(), b)
    ensures ReadErr(Run(Example(), a).value, "r") != ReadErr(Run(Example(), b).value, "r")
  {
    ExampleValid();
    var e := Example();
    WaitsForX("a");
    WaitsForX("b");
    assert !OnlyDependent(e, "a");
    assert Succ(e.g, "r") == ["a", "b"];
    FailsIff(e, "a");
    FirstOffIs(e, "r", 0, 0);
    DiamondEdges("r", "a");
    assert Blocked(e, "r") && Culprit(e, "r") == "a";
    assert "r" in e.roots;
    SameErrorIffClean(e, "r");
    a, b :| AllRead(e, a) && AllRead(e, b) && ReadErr(Run(e, a).value, "r") != ReadErr(Run(e, b).value, "r");
  }
}
