/** When the results of the sequence engine depend on the order in which goroutines run:
    exactly when several dependents look at the same foreign error. */
module DataflowRaces {
  import opened Options
  import opened Wiring
  import opened CouperErrors
  import opened Dataflow
  import opened DataflowInvariant
  import opened DataflowRuns
  import opened DataflowEnds
  import opened DataflowResults

  // ---------- Goroutines that do not wait for those held back ----------

  /** Neither n nor any item down its first failing dependencies is held. */
  ghost predicate Unheld(e: Endpoint, n: string, held: set<string>)
    requires Graphed(e) && n in e.g
    decreases e.rank[n]
  {
    n !in held && (Blocked(e, n) ==> Unheld(e, Culprit(e, n), held))
  }

  /** Only items with a failing dependency are held. */
  ghost predicate HoldsBlocked(e: Endpoint, held: set<string>)
    requires Graphed(e)
  {
    forall h :: h in held ==> h in e.g && Blocked(e, h)
  }

  lemma WaitsUnheld(e: Endpoint, s: State, n: string, held: set<string>)
    requires Graphed(e) && Cabled(e) && Inv(e, s) && n in e.prod && HoldsBlocked(e, held) && Unheld(e, n, held)
    requires !Hangs(e, n) && s.pcs[n].Reading? && s.pcs[n].i < |In(e.w, n)|
    ensures var d := In(e.w, n)[s.pcs[n].i].from; d in e.g && Unheld(e, d, held)
  {
    var i := s.pcs[n].i;
    assert NodeOk(e, s, n);
    InputsAreDeps(e, n, i);
    var d := In(e.w, n)[i].from;
    InputDoesNotHang(e, n, i);
    if Fails(e, d) {
      BadInputIsCulprit(e, n, i);
    } else {
      FailsIff(e, d);
    }
  }

  /** When all others are stuck, a goroutine that is not waiting for held ones has ended. */
  lemma {:induction false} UnheldIsDone(e: Endpoint, s: State, n: string, held: set<string>)
    requires Graphed(e) && Cabled(e) && Inv(e, s) && n in e.prod && HoldsBlocked(e, held) && Unheld(e, n, held)
    requires Stuck(e, s, held) && !Hangs(e, n)
    ensures s.pcs[n].Done?
    decreases e.rank[n]
  {
    assert !IsNode(Node(n), held) && Step(e, s, Node(n)).None?;
    match s.pcs[n] {
      case Sending(_, _) => SendNeverWaits(e, s, n);
      case Checking(_, _) => CheckNeverWaits(e, s, n);
      case Reading(i) =>
        WaitsForUnfinished(e, s, n);
        WaitsUnheld(e, s, n, held);
        UnheldIsDone(e, s, In(e.w, n)[i].from, held);
      case _ =>
    }
  }

  /** Held items that wait for n, or for something ranking higher, are not below n. */
  lemma {:induction false} UnheldBelow(e: Endpoint, n: string, held: set<string>, r: nat)
    requires Graphed(e) && n in e.g && HoldsBlocked(e, held) && e.rank[n] <= r
    requires forall h :: h in held ==> e.rank[Culprit(e, h)] >= r
    ensures Unheld(e, n, held)
    decreases e.rank[n]
  {
    if Blocked(e, n) {
      UnheldBelow(e, Culprit(e, n), held, r);
    }
  }

  /** The items whose first failing dependency is d. */
  ghost function Dependents(e: Endpoint, d: string): set<string>
    requires Graphed(e)
  {
    set m | m in e.g && Blocked(e, m) && Culprit(e, m) == d
  }

  // ---------- Two ways for an item that is not clean ----------

  /** None of these goroutines has decided on a result. */
  ghost predicate Idle(s: State, names: set<string>) {
    forall n, r :: n in names ==> !Holds(s, n, r)
  }

  /** s is reached, n has decided on r, and no dependent of n has looked at it. */
  ghost predicate Decides(e: Endpoint, schedule: seq<Actor>, n: string, r: string)
    requires Graphed(e)
  {
    && Run(e, schedule).Some? && Holds(Run(e, schedule).value, n, r)
    && Idle(Run(e, schedule).value, Dependents(e, n))
  }

  lemma StaysIdle(s: State, t: State, held: set<string>, names: set<string>)
    requires Untouched(s, t, held) && Idle(s, names) && names <= held
    ensures Idle(t, names)
  {
    forall n, r | n in names
      ensures !Holds(t, n, r)
    {
      assert !Holds(s, n, r);
    }
  }

  /** Run until only held goroutines can move. */
  lemma Continue(e: Endpoint, schedule: seq<Actor>, held: set<string>) returns (longer: seq<Actor>)
    requires Valid(e) && Run(e, schedule).Some?
    ensures Run(e, longer).Some? && Stuck(e, Run(e, longer).value, held)
    ensures Inv(e, Run(e, schedule).value) && Later(e, Run(e, schedule).value, Run(e, longer).value, held)
  {
    RunKeeps(e, schedule);
    var names := Enumeration(e.g.Keys);
    longer := RunOn(e, schedule, held, names, s => true);
  }

  lemma Decided(e: Endpoint, s: State, n: string, d: string, held: set<string>) returns (r: string)
    requires Graphed(e) && Cabled(e) && Inv(e, s) && n in e.g && Blocked(e, n) && d == Culprit(e, n)
    requires HoldsBlocked(e, held) && n !in held && Stuck(e, s, held)
    requires forall h :: h in held ==> Culprit(e, h) == n || Culprit(e, h) == d
    ensures Holds(s, n, r) && SentOk(e, s, n, r)
  {
    UnheldBelow(e, d, held, e.rank[d]);
    FailsIff(e, n);
    UnheldIsDone(e, s, n, held);
    r := s.pcs[n].result;
    HeldIsSent(e, s, n, r);
  }

  /** Dependents of an undecided item are undecided. */
  lemma IdleAbove(e: Endpoint, s: State, n: string)
    requires Graphed(e) && NodesOk(e, s) && CellsOk(e, s) && n in e.g && Idle(s, {n})
    ensures Idle(s, Dependents(e, n))
  {
    forall m, r | m in Dependents(e, n)
      ensures !Holds(s, m, r)
    {
      if Holds(s, m, r) {
        HeldIsSent(e, s, m, r);
        var p := Received(e, s, m, r);
        assert false;
      }
    }
  }

  /** Let n decide, while its own dependents are held, and perhaps other dependents of its
      first failing dependency d. */
  lemma Await(e: Endpoint, schedule: seq<Actor>, n: string, d: string, others: set<string>)
    returns (longer: seq<Actor>, r: string)
    requires Valid(e) && n in e.g && Blocked(e, n) && d == Culprit(e, n) && Run(e, schedule).Some?
    requires others <= Dependents(e, d) - {n} && Idle(Run(e, schedule).value, others + {n})
    ensures Run(e, longer).Some? && Decides(e, longer, n, r) && SentOk(e, Run(e, longer).value, n, r)
    ensures Idle(Run(e, longer).value, others)
    ensures Inv(e, Run(e, longer).value) && Grows(e, Run(e, schedule).value, Run(e, longer).value)
  {
    var s, held := Run(e, schedule).value, Dependents(e, n) + others;
    longer := Continue(e, schedule, held);
    var t := Run(e, longer).value;
    IdleAbove(e, s, n);
    StaysIdle(s, t, held, held);
    r := Decided(e, t, n, d, held);
  }

  /** d sends its own result, if any, from this state on. */
  ghost predicate SendsOwn(e: Endpoint, s: State, d: string)
    requires Graphed(e) && d in e.g
  {
    Holds(s, d, d) || (Clean(e, d) && Owner(e, d) == d)
  }

  lemma OwnIsSent(e: Endpoint, s: State, t: State, d: string, p: string)
    requires Graphed(e) && d in e.g && SendsOwn(e, s, d) && Grows(e, s, t) && Inv(e, t) && Holds(t, d, p)
    ensures p == d
  {
    if Holds(s, d, d) {
      OneHolds(t, d, d, p);
    } else {
      CleanSends(e, t, d, p);
    }
  }

  lemma NotCrashed(e: Endpoint, s: State, n: string, d: string)
    requires Graphed(e) && n in e.g && Blocked(e, n) && d == Culprit(e, n) && Holds(s, d, d)
    requires Fresh(e, d).Some? && Fresh(e, d).value.Foreign?
    requires Idle(s, Dependents(e, d) - {n})
    ensures !SentOk(e, s, n, n)
  {
    assert forall m :: m in e.g && Blocked(e, m) && Culprit(e, m) == d && m != n ==> m in Dependents(e, d) - {n};
    assert forall p :: CrashOk(e, s, n, d, p) ==> p == d;
  }

  /** With the other dependents of d idle, n has sent on the error of d. */
  lemma LookedFirst(e: Endpoint, s: State, n: string, d: string, r: string)
    requires Graphed(e) && n in e.g && Blocked(e, n) && d == Culprit(e, n) && SentOk(e, s, n, r)
    requires Fresh(e, d).Some? && Fresh(e, d).value.Foreign?
    requires forall p :: Holds(s, d, p) ==> p == d
    requires Idle(s, Dependents(e, d) - {n})
    ensures r == d
  {
    var p := Received(e, s, n, r);
    NotCrashed(e, s, n, d);
  }

  /** If d sends its own foreign error, n can be the first to look at it. */
  lemma FirstToLook(e: Endpoint, schedule: seq<Actor>, n: string, d: string) returns (longer: seq<Actor>)
    requires Valid(e) && n in e.g && Blocked(e, n) && d == Culprit(e, n) && Run(e, schedule).Some?
    requires SendsOwn(e, Run(e, schedule).value, d) && Fresh(e, d).Some? && Fresh(e, d).value.Foreign?
    requires Idle(Run(e, schedule).value, Dependents(e, d))
    ensures Decides(e, longer, n, d)
  {
    var r;
    longer, r := Await(e, schedule, n, d, Dependents(e, d) - {n});
    var s, t := Run(e, schedule).value, Run(e, longer).value;
    forall p | Holds(t, d, p)
      ensures p == d
    {
      OwnIsSent(e, s, t, d, p);
    }
    LookedFirst(e, t, n, d, r);
  }

  lemma ForeignFinalPanics(e: Endpoint, d: string)
    requires Graphed(e) && d in e.g && Fresh(e, d).Some? && Fresh(e, d).value.Foreign?
    ensures Final(e, d) == Some(Sequence(NoError)) && Judge(Sequence(NoError)) == Panics
  {
  }

  /** The error of d is already rewritten, and n has not begun to rewrite it. */
  ghost predicate TooLate(e: Endpoint, s: State, n: string, d: string)
    requires Graphed(e) && d in e.g
  {
    && d in s.cells && s.cells[d] == Final(e, d) && Holds(s, d, d)
    && n in s.pcs && HasOwnOrNone(s.pcs[n], n)
  }

  /** An error that n looks at is the one sent by its first failing dependency. */
  lemma LooksAt(e: Endpoint, s: State, n: string)
    requires Graphed(e) && Cabled(e) && NodesOk(e, s) && CellsOk(e, s) && n in e.prod && s.pcs[n].Checking?
    ensures var r := s.pcs[n].result;
            r in s.cells && (s.cells[r].Some? ==> Blocked(e, n) && Holds(s, Culprit(e, n), r))
  {
    var i := s.pcs[n].i;
    assert NodeOk(e, s, n);
    InputsAreDeps(e, n, i);
    var from := In(e.w, n)[i].from;
    HeldIsSent(e, s, from, s.pcs[n].result);
    if Fails(e, from) {
      BadInputIsCulprit(e, n, i);
    }
  }

  predicate HasOwnOrNone(pc: Pc, n: string) {
    !pc.Rewriting? && (ResultAt(pc) == None || ResultAt(pc) == Some(n))
  }

  lemma StepHasOwn(e: Endpoint, s: State, t: State, n: string)
    requires StepNode.requires(e, s, n) && StepNode(e, s, n) == Some(t) && HasOwnOrNone(s.pcs[n], n)
    requires s.pcs[n].Checking? ==>
      var r := s.pcs[n].result; r in s.cells && (s.cells[r].Some? ==> Judge(s.cells[r].value).Panics?)
    ensures n in t.pcs && HasOwnOrNone(t.pcs[n], n)
  {
  }

  /** n can only crash. */
  lemma MoveTooLate(e: Endpoint, s: State, t: State, n: string, d: string)
    requires Graphed(e) && Cabled(e) && NodesOk(e, s) && CellsOk(e, s)
    requires n in e.g && Blocked(e, n) && d == Culprit(e, n)
    requires TooLate(e, s, n, d) && Fresh(e, d).Some? && Fresh(e, d).value.Foreign?
    requires StepNode(e, s, n) == Some(t)
    ensures n in t.pcs && HasOwnOrNone(t.pcs[n], n)
  {
    ForeignFinalPanics(e, d);
    if s.pcs[n].Checking? {
      LooksAt(e, s, n);
    }
    StepHasOwn(e, s, t, n);
  }

  lemma OthersTooLate(e: Endpoint, s: State, t: State, n: string, d: string)
    requires Graphed(e) && d in e.g && TooLate(e, s, n, d) && Grows(e, s, t)
    requires n in t.pcs && HasOwnOrNone(t.pcs[n], n)
    ensures TooLate(e, t, n, d)
  {
  }

  lemma PcStays(e: Endpoint, s: State, t: State, a: Actor, n: string)
    requires Step(e, s, a) == Some(t) && a != Node(n) && n in s.pcs
    ensures n in t.pcs && t.pcs[n] == s.pcs[n]
  {
    if a.Node? {
      OnlyMoves(e, s, t, a.name);
    }
  }

  lemma StepTooLate(e: Endpoint, s: State, t: State, a: Actor, n: string, d: string)
    requires Graphed(e) && Cabled(e) && NodesOk(e, s) && CellsOk(e, s)
    requires n in e.g && Blocked(e, n) && d == Culprit(e, n)
    requires TooLate(e, s, n, d) && Fresh(e, d).Some? && Fresh(e, d).value.Foreign?
    requires Step(e, s, a) == Some(t) && Grows(e, s, t)
    ensures TooLate(e, t, n, d)
  {
    if a == Node(n) {
      MoveTooLate(e, s, t, n, d);
    } else {
      PcStays(e, s, t, a, n);
    }
    OthersTooLate(e, s, t, n, d);
  }

  /** Another dependent m has looked at the error of d and rewritten it. */
  lemma RewrittenBy(e: Endpoint, s: State, m: string, d: string, r: string)
    requires Graphed(e) && m in e.g && Blocked(e, m) && d == Culprit(e, m) && SentOk(e, s, m, r)
    requires forall p :: Holds(s, d, p) ==> p == d
    ensures d in s.cells && s.cells[d] == Final(e, d) && Holds(s, d, d)
  {
    if r == m {
      var p :| CrashOk(e, s, m, d, p);
      OneHolds(s, d, p, d);
    }
  }

  lemma CleanOwn(e: Endpoint, s: State, d: string)
    requires Graphed(e) && Inv(e, s) && d in e.g && Clean(e, d) && Owner(e, d) == d
    ensures forall p :: Holds(s, d, p) ==> p == d
  {
    forall p | Holds(s, d, p)
      ensures p == d
    {
      CleanSends(e, s, d, p);
    }
  }

  /** If only n is held, m has rewritten the error of d. */
  lemma RewrittenAtLast(e: Endpoint, s: State, n: string, d: string, m: string)
    requires Graphed(e) && Cabled(e) && Inv(e, s) && Stuck(e, s, {n}) && n in e.g && Blocked(e, n) && d == Culprit(e, n)
    requires m in e.g && Blocked(e, m) && Culprit(e, m) == d && m != n
    requires forall p :: Holds(s, d, p) ==> p == d
    ensures d in s.cells && s.cells[d] == Final(e, d) && Holds(s, d, d)
  {
    UnheldBelow(e, d, {n}, e.rank[d]);
    FailsIff(e, m);
    UnheldIsDone(e, s, m, {n});
    var r := s.pcs[m].result;
    HeldIsSent(e, s, m, r);
    RewrittenBy(e, s, m, d, r);
  }

  /** With n held, another dependent of d gets to rewrite the error of d. */
  lemma OtherLooks(e: Endpoint, n: string, d: string, m: string) returns (schedule: seq<Actor>)
    requires Valid(e) && n in e.g && Blocked(e, n) && d == Culprit(e, n) && SharedForeign(e, d) && Clean(e, d)
    requires m in e.g && Blocked(e, m) && Culprit(e, m) == d && m != n
    ensures Run(e, schedule).Some? && TooLate(e, Run(e, schedule).value, n, d)
    ensures Idle(Run(e, schedule).value, {n})
  {
    schedule := Continue(e, [], {n});
    var s := Run(e, schedule).value;
    CleanOwn(e, s, d);
    RewrittenAtLast(e, s, n, d, m);
    StaysIdle(Init(e), s, {n}, {n});
    assert s.pcs[n] == Reading(0);
  }

  /** Then n crashes. */
  lemma LastToLook(e: Endpoint, n: string, d: string, m: string) returns (schedule: seq<Actor>)
    requires Valid(e) && n in e.g && Blocked(e, n) && d == Culprit(e, n) && SharedForeign(e, d) && Clean(e, d)
    requires m in e.g && Blocked(e, m) && Culprit(e, m) == d && m != n
    ensures Decides(e, schedule, n, n)
  {
    var before := OtherLooks(e, n, d, m);
    var s := Run(e, before).value;
    RunKeeps(e, before);
    IdleAbove(e, s, n);
    var held := Dependents(e, n);
    var names := Enumeration(e.g.Keys);
    forall s, t, a | Inv(e, s) && TooLate(e, s, n, d) && Step(e, s, a) == Some(t) && !IsNode(a, held)
      ensures TooLate(e, t, n, d)
    {
      StepLater(e, s, t, a, {});
      StepTooLate(e, s, t, a, n, d);
    }
    schedule := RunOn(e, before, held, names, s => TooLate(e, s, n, d));
    var t := Run(e, schedule).value;
    StaysIdle(s, t, held, held);
    var r := Decided(e, t, n, d, held);
  }

  lemma CannotForward(e: Endpoint, s: State, n: string, c: string, d: string, r: string)
    requires Graphed(e) && n in e.g && Blocked(e, n) && c == Culprit(e, n) && c != d && d in e.g
    requires Fresh(e, d).Some? && Fresh(e, d).value.Foreign? && Holds(s, c, d) && SentOk(e, s, n, r)
    ensures r == n
  {
    ForeignFinalPanics(e, d);
    if r != n {
      OneHolds(s, c, r, d);
    }
  }

  /** n crashes if the error of d, sent on by its dependency c, is a rewritten foreign one. */
  lemma CrashNext(e: Endpoint, schedule: seq<Actor>, n: string, c: string, d: string) returns (longer: seq<Actor>)
    requires Valid(e) && n in e.g && Blocked(e, n) && c == Culprit(e, n) && c != d && d in e.g
    requires Fresh(e, d).Some? && Fresh(e, d).value.Foreign? && Decides(e, schedule, c, d)
    ensures Decides(e, longer, n, n)
  {
    assert n in Dependents(e, c);
    var r;
    longer, r := Await(e, schedule, n, c, {});
    CannotForward(e, Run(e, longer).value, n, c, d, r);
  }

  lemma TwoWaysHere(e: Endpoint, n: string) returns (crash: seq<Actor>, forward: seq<Actor>)
    requires Valid(e) && n in e.g && Blocked(e, n) && Clean(e, Culprit(e, n)) && SharedForeign(e, Culprit(e, n))
    requires !OnlyDependent(e, n)
    ensures Decides(e, crash, n, n) && Decides(e, forward, n, Culprit(e, n))
  {
    var d := Culprit(e, n);
    var m :| m in e.g && Blocked(e, m) && Culprit(e, m) == d && m != n;
    crash := LastToLook(e, n, d, m);
    assert Run(e, []) == Some(Init(e)) && Idle(Init(e), Dependents(e, d));
    forward := FirstToLook(e, [], n, d);
  }

  lemma TwoWaysAbove(e: Endpoint, n: string, crashed: seq<Actor>, forwarded: seq<Actor>)
    returns (crash: seq<Actor>, forward: seq<Actor>)
    requires Valid(e) && n in e.g && Blocked(e, n) && Blocked(e, Culprit(e, n))
    requires var d := Culprit(e, n);
      && Fresh(e, Culprit(e, d)).Some? && Fresh(e, Culprit(e, d)).value.Foreign?
      && Decides(e, crashed, d, d) && Decides(e, forwarded, d, Culprit(e, d))
    ensures Decides(e, crash, n, n) && Decides(e, forward, n, Culprit(e, n))
  {
    var d := Culprit(e, n);
    crash := CrashNext(e, forwarded, n, d, Culprit(e, d));
    forward := FirstToLook(e, crashed, n, d);
  }

  /** An item that is not clean either crashes, or sends on the foreign error of its first
      failing dependency, depending on the order in which the goroutines run. */
  lemma {:induction false} TwoWays(e: Endpoint, n: string) returns (crash: seq<Actor>, forward: seq<Actor>)
    requires Valid(e) && n in e.g && !Clean(e, n)
    ensures Blocked(e, n) && Fresh(e, Culprit(e, n)).Some? && Fresh(e, Culprit(e, n)).value.Foreign?
    ensures Decides(e, crash, n, n) && Decides(e, forward, n, Culprit(e, n))
    decreases e.rank[n]
  {
    if Clean(e, Culprit(e, n)) {
      crash, forward := TwoWaysHere(e, n);
    } else {
      crash, forward := TwoWays(e, Culprit(e, n));
      crash, forward := TwoWaysAbove(e, n, crash, forward);
    }
  }

  // ---------- The results of roots ----------

  /** The error that was read for root r. */
  function ReadErr(s: State, r: string): Option<Err> {
    if r in s.results && s.results[r] in s.cells then s.cells[s.results[r]] else None
  }

  /** A decision about a root is what will be read. */
  lemma DecisionIsRead(e: Endpoint, schedule: seq<Actor>, r: string, o: string) returns (longer: seq<Actor>)
    requires Valid(e) && NoRootHangs(e) && r in e.roots && r in e.g
    requires Run(e, schedule).Some? && Holds(Run(e, schedule).value, r, o)
    ensures AllRead(e, longer) && o in e.g
    ensures ReadErr(Run(e, longer).value, r) == if o == r then Fresh(e, r) else Final(e, o)
  {
    longer := RunToTheEnd(e, schedule);
    var s := Run(e, longer).value;
    RootIsRead(e, longer, r);
    OneHolds(s, r, s.results[r], o);
    RootErr(e, s, r, o);
  }

  /** The error read for a root is the same in all runs exactly if the root is clean. (If some
      root hangs, there is no such run.) */
  lemma SameErrorIffClean(e: Endpoint, r: string)
    requires Valid(e) && NoRootHangs(e) && r in e.roots && r in e.g
    ensures Clean(e, r) <==>
      forall a, b :: AllRead(e, a) && AllRead(e, b) ==> ReadErr(Run(e, a).value, r) == ReadErr(Run(e, b).value, r)
  {
    if Clean(e, r) {
      forall a | AllRead(e, a)
        ensures ReadErr(Run(e, a).value, r) == ResultErr(e, r)
      {
        ResultsFixed(e, a);
      }
    } else {
      var crash, forward := TwoWays(e, r);
      var a := DecisionIsRead(e, crash, r, r);
      var b := DecisionIsRead(e, forward, r, Culprit(e, r));
      ForeignFinalPanics(e, Culprit(e, r));
    }
  }

  // ---------- The error of produce ----------

  /** produce can return this after the run: nothing if no root has an error, and otherwise the
      error of any such root, as results are kept in a map. */
  ghost predicate Returns(e: Endpoint, schedule: seq<Actor>, err: Option<Err>) {
    && AllRead(e, schedule)
    && var s := Run(e, schedule).value;
       if err.None? then forall r :: r in s.results ==> ReadErr(s, r).None?
       else exists r :: r in s.results && ReadErr(s, r) == err
  }

  /** All roots that fail are clean and have the same error. */
  ghost predicate OneError(e: Endpoint)
    requires Valid(e)
  {
    forall q, r :: FailingRoot(e, q) && FailingRoot(e, r) ==>
      Clean(e, q) && Clean(e, r) && ResultErr(e, q) == ResultErr(e, r)
  }

  ghost predicate FailingRoot(e: Endpoint, r: string)
    requires Valid(e)
  {
    r in e.roots && r in e.g && Fails(e, r)
  }

  lemma RootIsReturned(e: Endpoint, schedule: seq<Actor>, r: string)
    requires Valid(e) && AllRead(e, schedule) && FailingRoot(e, r)
    ensures ReadErr(Run(e, schedule).value, r).Some? && Returns(e, schedule, ReadErr(Run(e, schedule).value, r))
    ensures Clean(e, r) ==> ReadErr(Run(e, schedule).value, r) == ResultErr(e, r)
  {
    ResultsFixed(e, schedule);
  }

  lemma ReturnedIsRoot(e: Endpoint, schedule: seq<Actor>, err: Option<Err>) returns (r: string)
    requires Valid(e) && Returns(e, schedule, err)
    ensures err.Some? ==> FailingRoot(e, r) && ReadErr(Run(e, schedule).value, r) == err
    ensures err.None? ==> forall q :: !FailingRoot(e, q)
  {
    ResultsFixed(e, schedule);
    r := "";
    var s := Run(e, schedule).value;
    if err.Some? {
      r :| r in s.results && ReadErr(s, r) == err;
    } else {
      forall q | FailingRoot(e, q)
        ensures false
      {
        RootIsReturned(e, schedule, q);
      }
    }
  }

  /** Nothing is returned exactly if no root fails. */
  lemma ReturnedIff(e: Endpoint, schedule: seq<Actor>, err: Option<Err>)
    requires Valid(e) && Returns(e, schedule, err)
    ensures err.Some? <==> exists r :: FailingRoot(e, r)
  {
    var r := ReturnedIsRoot(e, schedule, err);
  }

  lemma ReturnedIsClean(e: Endpoint, schedule: seq<Actor>, err: Option<Err>) returns (r: string)
    requires Valid(e) && OneError(e) && Returns(e, schedule, err) && err.Some?
    ensures FailingRoot(e, r) && err == ResultErr(e, r)
  {
    r := ReturnedIsRoot(e, schedule, err);
    assert Clean(e, r);
    RootIsReturned(e, schedule, r);
  }

  lemma ReturnedIsFixed(e: Endpoint, a: seq<Actor>, b: seq<Actor>, x: Option<Err>, y: Option<Err>)
    requires Valid(e) && OneError(e) && Returns(e, a, x) && Returns(e, b, y)
    ensures x == y
  {
    ReturnedIff(e, a, x);
    ReturnedIff(e, b, y);
    if x.Some? {
      var q := ReturnedIsClean(e, a, x);
      var r := ReturnedIsClean(e, b, y);
    }
  }

  /** What produce returns is always the same if it is so for all runs and all orders. */
  ghost predicate SameReturned(e: Endpoint) {
    forall a, b, x, y :: Returns(e, a, x) && Returns(e, b, y) ==> x == y
  }

  lemma FailingIsClean(e: Endpoint, r: string)
    requires Valid(e) && NoRootHangs(e) && SameReturned(e) && FailingRoot(e, r)
    ensures Clean(e, r)
  {
    SameErrorIffClean(e, r);
    forall a, b | AllRead(e, a) && AllRead(e, b)
      ensures ReadErr(Run(e, a).value, r) == ReadErr(Run(e, b).value, r)
    {
      RootIsReturned(e, a, r);
      RootIsReturned(e, b, r);
    }
  }

  lemma FailingAgree(e: Endpoint, q: string, r: string)
    requires Valid(e) && NoRootHangs(e) && SameReturned(e) && FailingRoot(e, q) && FailingRoot(e, r)
    ensures Clean(e, q) && Clean(e, r) && ResultErr(e, q) == ResultErr(e, r)
  {
    var a := RunToTheEnd(e, []);
    FailingIsClean(e, q);
    FailingIsClean(e, r);
    RootIsReturned(e, a, q);
    RootIsReturned(e, a, r);
  }

  /** produce returns the same in all runs and for all orders of the results exactly if all failing
      roots are clean and have the same error. */
  lemma ProduceSameIff(e: Endpoint)
    requires Valid(e) && NoRootHangs(e)
    ensures SameReturned(e) <==> OneError(e)
  {
    if OneError(e) {
      forall a, b, x, y | Returns(e, a, x) && Returns(e, b, y)
        ensures x == y
      {
        ReturnedIsFixed(e, a, b, x, y);
      }
    }
    if SameReturned(e) {
      forall q, r | FailingRoot(e, q) && FailingRoot(e, r)
        ensures Clean(e, q) && Clean(e, r) && ResultErr(e, q) == ResultErr(e, r)
      {
        FailingAgree(e, q, r);
      }
    }
  }
}
