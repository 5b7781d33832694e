/** Every run of the sequence engine ends, and can be continued to its end. */
module DataflowEnds {
  import opened Options
  import opened Graphs
  import opened Wiring
  import opened Dataflow
  import opened DataflowInvariant
  import opened DataflowRuns

  /** How many steps a goroutine has left, at most. */
  function StepsLeft(e: Endpoint, n: string, pc: Pc): nat {
    var ins, outs := |In(e.w, n)|, |Out(e.w, n)|;
    match pc
    case Reading(i) => outs + 3 + if i <= ins then 2 * (ins - i) else 0
    case Checking(i, _) => outs + 2 + if i <= ins then 2 * (ins - i) else 0
    case Rewriting(_, _) => outs + 2
    case Producing => outs + 2
    case Sending(_, j) => 1 + if j <= outs then outs - j else 0
    case Done(_) => 0
  }

  /** The steps left to the goroutines of these names. */
  function Work(e: Endpoint, pcs: map<string, Pc>, names: seq<string>): nat {
    if names == [] then 0
    else (if names[0] in pcs then StepsLeft(e, names[0], pcs[names[0]]) else 0) + Work(e, pcs, names[1..])
  }

  function AllWork(e: Endpoint, s: State, names: seq<string>): int {
    Work(e, s.pcs, names) + |e.roots| - s.read
  }

  lemma {:induction false} WorkDrops(e: Endpoint, pcs: map<string, Pc>, n: string, pc: Pc, names: seq<string>)
    requires n in pcs && StepsLeft(e, n, pc) < StepsLeft(e, n, pcs[n])
    ensures Work(e, pcs[n := pc], names) <= Work(e, pcs, names)
    ensures n in names ==> Work(e, pcs[n := pc], names) < Work(e, pcs, names)
  {
    if names != [] {
      WorkDrops(e, pcs, n, pc, names[1..]);
    }
  }

  /** A goroutine does not run past the end of its channel lists. */
  predicate WithinLists(e: Endpoint, n: string, pc: Pc) {
    match pc
    case Reading(i) => i <= |In(e.w, n)|
    case Checking(i, _) => i < |In(e.w, n)|
    case Sending(_, j) => j <= |Out(e.w, n)|
    case _ => true
  }

  lemma ReadingDrops(e: Endpoint, s: State, t: State, n: string)
    requires StepNode.requires(e, s, n) && s.pcs[n].Reading? && WithinLists(e, n, s.pcs[n])
    requires StepNode(e, s, n) == Some(t)
    ensures n in t.pcs && StepsLeft(e, n, t.pcs[n]) < StepsLeft(e, n, s.pcs[n])
  {
  }

  lemma CheckingDrops(e: Endpoint, s: State, t: State, n: string)
    requires StepNode.requires(e, s, n) && s.pcs[n].Checking? && WithinLists(e, n, s.pcs[n])
    requires StepNode(e, s, n) == Some(t)
    ensures n in t.pcs && StepsLeft(e, n, t.pcs[n]) < StepsLeft(e, n, s.pcs[n])
  {
  }

  lemma SendingDrops(e: Endpoint, s: State, t: State, n: string)
    requires StepNode.requires(e, s, n) && s.pcs[n].Sending? && WithinLists(e, n, s.pcs[n])
    requires StepNode(e, s, n) == Some(t)
    ensures n in t.pcs && StepsLeft(e, n, t.pcs[n]) < StepsLeft(e, n, s.pcs[n])
  {
  }

  lemma NodeStepDrops(e: Endpoint, s: State, t: State, n: string)
    requires StepNode.requires(e, s, n) && WithinLists(e, n, s.pcs[n]) && StepNode(e, s, n) == Some(t)
    ensures n in t.pcs && StepsLeft(e, n, t.pcs[n]) < StepsLeft(e, n, s.pcs[n])
  {
    match s.pcs[n] {
      case Reading(_) => ReadingDrops(e, s, t, n);
      case Checking(_, _) => CheckingDrops(e, s, t, n);
      case Sending(_, _) => SendingDrops(e, s, t, n);
      case _ =>
    }
  }

  lemma StepDrops(e: Endpoint, s: State, t: State, a: Actor, names: seq<string>)
    requires Valid(e) && Inv(e, s) && Step(e, s, a) == Some(t) && forall n :: n in e.g ==> n in names
    ensures AllWork(e, t, names) < AllWork(e, s, names)
  {
    if a.Node? {
      var n := a.name;
      assert NodeOk(e, s, n);
      OnlyMoves(e, s, t, n);
      NodeStepDrops(e, s, t, n);
      WorkDrops(e, s.pcs, n, t.pcs[n], names);
    }
  }

  /** A run has at most as many steps as goroutines and reader have at the start. */
  lemma {:induction false} EveryRunEnds(e: Endpoint, schedule: seq<Actor>, names: seq<string>)
    requires Valid(e) && Run(e, schedule).Some? && forall n :: n in e.g ==> n in names
    ensures |schedule| + AllWork(e, Run(e, schedule).value, names) <= AllWork(e, Init(e), names)
    ensures AllWork(e, Run(e, schedule).value, names) >= 0
  {
    RunKeeps(e, schedule);
    if schedule != [] {
      var init, last := schedule[..|schedule| - 1], schedule[|schedule| - 1];
      RunKeeps(e, init);
      EveryRunEnds(e, init, names);
      StepDrops(e, Run(e, init).value, Run(e, schedule).value, last, names);
    }
  }

  // ---------- Holding some goroutines back ----------

  predicate IsNode(a: Actor, names: set<string>) {
    a.Node? && a.name in names
  }

  /** Only the held goroutines could still make a step. */
  ghost predicate Stuck(e: Endpoint, s: State, held: set<string>) {
    forall a :: !IsNode(a, held) ==> Step(e, s, a).None?
  }

  predicate Untouched(s: State, t: State, held: set<string>) {
    t.pcs.Keys == s.pcs.Keys && forall h :: h in held && h in s.pcs ==> t.pcs[h] == s.pcs[h]
  }

  /** t comes after s, and the held goroutines have not moved in between. */
  ghost predicate Later(e: Endpoint, s: State, t: State, held: set<string>)
    requires Graphed(e)
  {
    Inv(e, t) && Grows(e, s, t) && Untouched(s, t, held)
  }

  lemma GrowsTrans(e: Endpoint, s: State, t: State, u: State)
    requires Graphed(e) && Grows(e, s, t) && Grows(e, t, u)
    ensures Grows(e, s, u)
  {
  }

  lemma SameGrows(e: Endpoint, s: State, t: State)
    requires Graphed(e) && CellsOk(e, s) && t.pcs == s.pcs && t.cells == s.cells
    ensures Grows(e, s, t)
  {
    forall q | q in s.cells
      ensures q in e.g
    {
      assert CellOk(e, s, q);
    }
  }

  lemma OneMovesLater(e: Endpoint, s: State, t: State, n: string, held: set<string>)
    requires Graphed(e) && Inv(e, t) && Grows(e, s, t) && n in t.pcs && t.pcs == s.pcs[n := t.pcs[n]] && n !in held
    ensures Later(e, s, t, held)
  {
  }

  lemma StepLater(e: Endpoint, s: State, t: State, a: Actor, held: set<string>)
    requires Valid(e) && Inv(e, s) && Step(e, s, a) == Some(t) && !IsNode(a, held)
    ensures Later(e, s, t, held)
  {
    StepKeeps(e, s, t, a);
    match a
    case Reader => SameGrows(e, s, t);
    case Node(n) =>
      NodeStepKeeps(e, s, t, n);
      OnlyMoves(e, s, t, n);
      OneMovesLater(e, s, t, n, held);
  }

  lemma LaterTrans(e: Endpoint, s: State, t: State, u: State, held: set<string>)
    requires Graphed(e) && Later(e, s, t, held) && Later(e, t, u, held)
    ensures Later(e, s, u, held)
  {
    GrowsTrans(e, s, t, u);
  }

  lemma {:induction false} Enumeration(names: set<string>) returns (l: seq<string>)
    ensures forall n :: n in names ==> n in l
  {
    if names == {} {
      l := [];
    } else {
      var n :| n in names;
      l := Enumeration(names - {n});
      l := l + [n];
    }
  }

  /** A run can be continued, without the held goroutines, until nothing else can move. A
      property that these steps keep holds at the end. */
  lemma {:induction false} RunOn(e: Endpoint, schedule: seq<Actor>, held: set<string>, names: seq<string>,
                                 p: State -> bool)
    returns (longer: seq<Actor>)
    requires Valid(e) && Run(e, schedule).Some? && forall n :: n in e.g ==> n in names
    requires p(Run(e, schedule).value)
    requires forall s, t, a :: Inv(e, s) && p(s) && Step(e, s, a) == Some(t) && !IsNode(a, held) ==> p(t)
    ensures schedule <= longer && Run(e, longer).Some? && p(Run(e, longer).value)
    ensures Stuck(e, Run(e, longer).value, held)
    ensures Later(e, Run(e, schedule).value, Run(e, longer).value, held)
    decreases AllWork(e, Run(e, schedule).value, names)
  {
    var s := Run(e, schedule).value;
    RunKeeps(e, schedule);
    EveryRunEnds(e, schedule, names);
    if Stuck(e, s, held) {
      longer := schedule;
      SameGrows(e, s, s);
    } else {
      var a :| !IsNode(a, held) && Step(e, s, a).Some?;
      var t := Step(e, s, a).value;
      OneMore(e, schedule, a);
      StepLater(e, s, t, a, held);
      StepDrops(e, s, t, a, names);
      EveryRunEnds(e, schedule + [a], names);
      longer := RunOn(e, schedule + [a], held, names, p);
      LaterTrans(e, s, t, Run(e, longer).value, held);
    }
  }

  ghost predicate NoRootHangs(e: Endpoint)
    requires Graphed(e)
  {
    forall r :: r in e.roots && r in e.g ==> !Hangs(e, r)
  }

  /** Every run can be continued to one in which all roots are read, if none of them hangs. */
  lemma RunToTheEnd(e: Endpoint, schedule: seq<Actor>) returns (longer: seq<Actor>)
    requires Valid(e) && Run(e, schedule).Some? && NoRootHangs(e)
    ensures schedule <= longer && AllRead(e, longer)
    ensures Later(e, Run(e, schedule).value, Run(e, longer).value, {})
  {
    var names := Enumeration(e.g.Keys);
    longer := RunOn(e, schedule, {}, names, s => true);
    var s := Run(e, longer).value;
    assert forall a :: !IsNode(a, {});
    if !Over(e, s) {
      SomeActorMoves(e, s);
    }
  }

  lemma ReadRootsDoNotHang(e: Endpoint, schedule: seq<Actor>)
    requires Valid(e) && AllRead(e, schedule)
    ensures NoRootHangs(e)
  {
    RunKeeps(e, schedule);
    var s := Run(e, schedule).value;
    forall r | r in e.roots && r in e.g
      ensures !Hangs(e, r)
    {
      var k :| 0 <= k < |e.roots| && e.roots[k] == r;
      HeldIsSent(e, s, r, s.results[r]);
    }
  }

  /** Each run can be continued until all roots are read exactly if no root hangs. */
  lemma AllReadIff(e: Endpoint, schedule: seq<Actor>)
    requires Valid(e) && Run(e, schedule).Some?
    ensures NoRootHangs(e) <==>
      exists longer :: schedule <= longer && AllRead(e, longer)
  {
    if NoRootHangs(e) {
      var longer := RunToTheEnd(e, schedule);
    } else {
      forall longer | schedule <= longer && AllRead(e, longer)
        ensures false
      {
        ReadRootsDoNotHang(e, longer);
      }
    }
  }

  /** An item does not hang if all items have producers. */
  lemma {:induction false} ProducersPreventHanging(e: Endpoint, n: string)
    requires Graphed(e) && n in e.g && e.prod.Keys == e.g.Keys
    ensures !Hangs(e, n)
    decreases e.rank[n]
  {
    var k := FirstOff(e, n, 0);
    if k < |Succ(e.g, n)| {
      assert Edge(e.g, n, Succ(e.g, n)[k]);
      ProducersPreventHanging(e, Succ(e.g, n)[k]);
    }
  }
}
