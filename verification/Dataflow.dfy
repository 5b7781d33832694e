/** handler/endpoint.go: one goroutine for each producer and one reader of the results, as
    steps over the shared channels and the shared results. */
module Dataflow {
  import opened Options
  import opened Graphs
  import opened Wiring
  import opened CouperErrors

  /** What a producer does when it is run. */
  datatype Outcome = Delivers | Errs(err: Err) | Crashes

  /** An endpoint. The rank only shows that dependencies end. */
  datatype Endpoint = Endpoint(
    g: Graph, rank: map<string, nat>, roots: seq<string>, w: Channels, prod: map<string, Outcome>)

  /** Where a goroutine is. A result is named after the producer whose goroutine made it. */
  datatype Pc =
    | Reading(i: nat)                      // before receiving from the i-th input channel
    | Checking(i: nat, result: string)     // has received a result from it
    | Rewriting(result: string, err: Err)  // about to set the error of that result
    | Producing
    | Sending(result: string, j: nat)      // before sending to the j-th output channel
    | Done(result: string)

  /** cells: the error field of every result made so far. slots: the channels that hold a result.
      read: how many roots the reader has read. */
  datatype State = State(
    pcs: map<string, Pc>, cells: map<string, Option<Err>>, slots: map<Chan, string>,
    results: map<string, string>, read: nat)

  datatype Actor = Node(name: string) | Reader

  function Init(e: Endpoint): State {
    State(map n | n in e.prod :: Reading(0), map[], map[], map[], 0)
  }

  function PanicErr(n: string): Err {
    Foreign(n)
  }

  /** The error of the result that the producer of n makes. */
  function OwnErr(e: Endpoint, n: string): Option<Err>
    requires n in e.prod
  {
    match e.prod[n]
    case Delivers => None
    case Errs(err) => Some(err)
    case Crashes => Some(PanicErr(n))
  }

  /** n goes on at pc; errors and channels are as given. */
  function Move(s: State, n: string, pc: Pc, cells: map<string, Option<Err>>, slots: map<Chan, string>): State {
    State(s.pcs[n := pc], cells, slots, s.results, s.read)
  }

  /** The next step of goroutine n, or None while it has to wait or once it has ended. */
  function StepNode(e: Endpoint, s: State, n: string): Option<State>
    requires n in s.pcs && n in e.prod
  {
    match s.pcs[n]
    case Reading(i) =>
      if i >= |In(e.w, n)| then Some(Move(s, n, Producing, s.cells, s.slots))
      else
        var ch := In(e.w, n)[i];
        if ch !in s.slots then None
        else Some(Move(s, n, Checking(i, s.slots[ch]), s.cells, s.slots - {ch}))
    case Checking(i, r) =>
      if r !in s.cells then None
      else if s.cells[r].None? then Some(Move(s, n, Reading(i + 1), s.cells, s.slots))
      else
        (match Judge(s.cells[r].value)
         case Panics => Some(Move(s, n, Sending(n, 0), s.cells[n := Some(PanicErr(n))], s.slots))
         case Keeps => Some(Move(s, n, Sending(r, 0), s.cells, s.slots))
         case Replaces(err) => Some(Move(s, n, Rewriting(r, err), s.cells, s.slots)))
    case Rewriting(r, err) => Some(Move(s, n, Sending(r, 0), s.cells[r := Some(err)], s.slots))
    case Producing => Some(Move(s, n, Sending(n, 0), s.cells[n := OwnErr(e, n)], s.slots))
    case Sending(r, j) =>
      if j >= |Out(e.w, n)| then Some(Move(s, n, Done(r), s.cells, s.slots))
      else
        var ch := Out(e.w, n)[j];
        if ch in s.slots then None
        else Some(Move(s, n, Sending(r, j + 1), s.cells, s.slots[ch := r]))
    case Done(_) => None
  }

  /** The next step of readResults. */
  function StepReader(e: Endpoint, s: State): Option<State> {
    if s.read >= |e.roots| then None
    else
      var r := e.roots[s.read];
      if r !in e.w.results || e.w.results[r] !in s.slots then None
      else
        var ch := e.w.results[r];
        Some(State(s.pcs, s.cells, s.slots - {ch}, s.results[r := s.slots[ch]], s.read + 1))
  }

  function Step(e: Endpoint, s: State, a: Actor): Option<State> {
    match a
    case Node(n) => if n in s.pcs && n in e.prod then StepNode(e, s, n) else None
    case Reader => StepReader(e, s)
  }

  /** The state after these actors have each made a step in turn, if they could. */
  function Run(e: Endpoint, schedule: seq<Actor>): Option<State> {
    if schedule == [] then Some(Init(e))
    else
      var before := Run(e, schedule[..|schedule| - 1]);
      if before.None? then None else Step(e, before.value, schedule[|schedule| - 1])
  }

  // ---------- Endpoints that configuration yields ----------

  /** The dependencies end, and only items have producers. Some items may have none. */
  ghost predicate Graphed(e: Endpoint) {
    Ranked(e.g, e.rank) && Total(e.g) && e.g.Keys <= e.rank.Keys && e.prod.Keys <= e.g.Keys
  }

  /** Every item has a result channel, and inputs that begin with its dependencies in order. */
  ghost predicate Cabled(e: Endpoint) {
    && Wired(e.w)
    && (forall n :: n in e.g ==> n in e.w.results)
    && (forall n {:trigger InOrder(e.g, e.w, n)} :: n in e.g ==>
          InOrder(e.g, e.w, n) && |In(e.w, n)| >= |Succ(e.g, n)|)
  }

  /** The roots are distinct items that nothing depends on. */
  ghost predicate RootsOnTop(e: Endpoint) {
    && NoDup(e.roots) && (forall i :: 0 <= i < |e.roots| ==> e.roots[i] in e.g)
    && (forall a, r :: Edge(e.g, a, r) ==> r !in e.roots)
  }

  ghost predicate Valid(e: Endpoint) {
    Graphed(e) && Cabled(e) && RootsOnTop(e)
  }

  // ---------- What the graph says ----------

  /** Whether an item delivers, fails, or never sends anything. */
  datatype Fate = Good | Bad | Never

  /** The position of the first dependency of n, from the i-th on, that does not deliver. */
  ghost function FirstOff(e: Endpoint, n: string, i: nat): (k: nat)
    requires Graphed(e) && n in e.g && i <= |Succ(e.g, n)|
    ensures i <= k <= |Succ(e.g, n)|
    decreases e.rank[n], |Succ(e.g, n)| - i
  {
    if i == |Succ(e.g, n)| then i
    else
      assert Edge(e.g, n, Succ(e.g, n)[i]);
      if FateOf(e, Succ(e.g, n)[i]) != Good then i else FirstOff(e, n, i + 1)
  }

  /** An item without a producer never sends. Any other shares the fate of its first dependency
      that does not deliver, or else has that of its own producer. */
  ghost function FateOf(e: Endpoint, n: string): Fate
    requires Graphed(e) && n in e.g
    decreases e.rank[n], |Succ(e.g, n)| + 1
  {
    var k := FirstOff(e, n, 0);
    if n !in e.prod then Never
    else if k < |Succ(e.g, n)| then
      assert Edge(e.g, n, Succ(e.g, n)[k]);
      FateOf(e, Succ(e.g, n)[k])
    else if e.prod[n].Delivers? then Good
    else Bad
  }

  ghost predicate Fails(e: Endpoint, n: string)
    requires Graphed(e) && n in e.g
  {
    FateOf(e, n) == Bad
  }

  ghost predicate Hangs(e: Endpoint, n: string)
    requires Graphed(e) && n in e.g
  {
    FateOf(e, n) == Never
  }

  /** n has a producer, but the first dependency that does not deliver fails. */
  ghost predicate Blocked(e: Endpoint, n: string)
    requires Graphed(e) && n in e.g
  {
    var k := FirstOff(e, n, 0);
    n in e.prod && k < |Succ(e.g, n)| && Edge(e.g, n, Succ(e.g, n)[k]) && Fails(e, Succ(e.g, n)[k])
  }

  /** The first dependency of n that fails. */
  ghost function Culprit(e: Endpoint, n: string): (d: string)
    requires Graphed(e) && n in e.g && Blocked(e, n)
    ensures Edge(e.g, n, d) && d in e.g && e.rank[d] < e.rank[n] && Fails(e, d)
  {
    Succ(e.g, n)[FirstOff(e, n, 0)]
  }

  lemma {:induction false} FirstOffIs(e: Endpoint, n: string, i: nat, k: nat)
    requires Graphed(e) && n in e.g && i <= k <= |Succ(e.g, n)|
    requires forall j :: i <= j < k ==> Succ(e.g, n)[j] in e.g && FateOf(e, Succ(e.g, n)[j]) == Good
    requires k < |Succ(e.g, n)| ==> Succ(e.g, n)[k] in e.g && FateOf(e, Succ(e.g, n)[k]) != Good
    ensures FirstOff(e, n, i) == k
    decreases k - i
  {
    if i < k {
      FirstOffIs(e, n, i + 1, k);
    }
  }

  lemma {:induction false} FirstOffIsOff(e: Endpoint, n: string, i: nat)
    requires Graphed(e) && n in e.g && i <= |Succ(e.g, n)| && FirstOff(e, n, i) < |Succ(e.g, n)|
    ensures Succ(e.g, n)[FirstOff(e, n, i)] in e.g && FateOf(e, Succ(e.g, n)[FirstOff(e, n, i)]) != Good
    decreases |Succ(e.g, n)| - i
  {
    assert Edge(e.g, n, Succ(e.g, n)[i]);
    if FateOf(e, Succ(e.g, n)[i]) == Good {
      FirstOffIsOff(e, n, i + 1);
    }
  }

  /** n fails exactly if it is blocked, or is not kept from running and its producer fails. */
  lemma FailsIff(e: Endpoint, n: string)
    requires Graphed(e) && n in e.g
    ensures Blocked(e, n) ==> Fails(e, n)
    ensures Fails(e, n) && !Blocked(e, n) ==> n in e.prod && !e.prod[n].Delivers? && FirstOff(e, n, 0) == |Succ(e.g, n)|
    ensures n in e.prod && FirstOff(e, n, 0) == |Succ(e.g, n)| ==>
      !Hangs(e, n) && (Fails(e, n) <==> !e.prod[n].Delivers?)
  {
    if FirstOff(e, n, 0) < |Succ(e.g, n)| {
      FirstOffIsOff(e, n, 0);
      assert Edge(e.g, n, Succ(e.g, n)[FirstOff(e, n, 0)]);
    }
  }
}
