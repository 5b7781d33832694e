/** What readResults reads, whatever the order in which the goroutines run. */
module DataflowResults {
  import opened Options
  import opened Graphs
  import opened CouperErrors
  import opened Dataflow
  import opened DataflowInvariant
  import opened DataflowRuns

  // ---------- What the graph and the producers determine ----------

  /** The error that a dependent of d finds, being the first to look. */
  ghost function Seen(e: Endpoint, d: string, o: string): Option<Err>
    requires Graphed(e) && d in e.g && o in e.g
  {
    if o == d then Fresh(e, d) else Final(e, o)
  }

  /** Whose result a failing item sends on: its own, or that of the first dependency that fails.
      An item that cannot read the kinds of the error crashes, which gives a result of its own. */
  ghost function Owner(e: Endpoint, n: string): (o: string)
    requires Graphed(e) && n in e.g
    ensures o in e.g && (o != n ==> Blocked(e, n))
    decreases e.rank[n]
  {
    if !Blocked(e, n) then n
    else
      var d := Culprit(e, n);
      var seen := Seen(e, d, Owner(e, d));
      if seen.Some? && Judge(seen.value).Panics? then n else Owner(e, d)
  }

  /** Nobody else waits for the same failing dependency of n first. */
  ghost predicate OnlyDependent(e: Endpoint, n: string)
    requires Graphed(e) && n in e.g && Blocked(e, n)
  {
    forall m :: m in e.g && Blocked(e, m) && Culprit(e, m) == Culprit(e, n) ==> m == n
  }

  /** Along the chain of first failing dependencies, no error of a foreign type that its item
      made itself is looked at by several dependents. */
  ghost predicate Clean(e: Endpoint, n: string)
    requires Graphed(e) && n in e.g
    decreases e.rank[n]
  {
    Blocked(e, n) ==>
      var d := Culprit(e, n);
      Clean(e, d) && (SharedForeign(e, d) ==> OnlyDependent(e, n))
  }

  /** d sends a result of its own with a foreign error. */
  ghost predicate SharedForeign(e: Endpoint, d: string)
    requires Graphed(e) && d in e.g
  {
    Owner(e, d) == d && Fresh(e, d).Some? && Fresh(e, d).value.Foreign?
  }

  /** The error read for root r. */
  ghost function ResultErr(e: Endpoint, r: string): Option<Err>
    requires Graphed(e) && r in e.g
  {
    if !Fails(e, r) then None else if Owner(e, r) == r then Fresh(e, r) else Final(e, Owner(e, r))
  }

  // ---------- What the goroutines send ----------

  lemma OneHolds(s: State, n: string, p: string, r: string)
    requires Holds(s, n, p) && Holds(s, n, r)
    ensures p == r
  {
  }

  /** What n does with the result of the first failing dependency, if that is o's. */
  lemma CleanStep(e: Endpoint, s: State, n: string, d: string, o: string, r: string)
    requires Graphed(e) && n in e.g && Blocked(e, n) && d == Culprit(e, n) && SentOk(e, s, n, r)
    requires Holds(s, d, o) && o == Owner(e, d)
    requires SharedForeign(e, d) ==> OnlyDependent(e, n)
    ensures r == Owner(e, n)
  {
    if r != n {
      OneHolds(s, d, r, o);
    } else {
      var p :| CrashOk(e, s, n, d, p);
      OneHolds(s, d, p, o);
      FinalStays(e, p);
      CrashedSeen(e, s, n, d, p);
    }
  }

  lemma CrashedSeen(e: Endpoint, s: State, n: string, d: string, p: string)
    requires Graphed(e) && n in e.g && Blocked(e, n) && d == Culprit(e, n) && CrashOk(e, s, n, d, p)
    requires d == p ==> !Fresh(e, p).value.Foreign? || OnlyDependent(e, n)
    ensures Seen(e, d, p).Some? && Judge(Seen(e, d, p).value).Panics?
  {
    if d == p {
      var err := Fresh(e, p).value;
      if Judge(err).Replaces? {
        ReplacementIsFinal(err);
      }
    }
  }

  /** In every reachable state, a clean item sends the result of its owner, if any. */
  lemma {:induction false} CleanSends(e: Endpoint, s: State, n: string, r: string)
    requires Graphed(e) && Inv(e, s) && n in e.g && Clean(e, n) && Holds(s, n, r)
    ensures r == Owner(e, n)
    decreases e.rank[n]
  {
    HeldIsSent(e, s, n, r);
    if Blocked(e, n) {
      var d := Culprit(e, n);
      var p := Received(e, s, n, r);
      CleanSends(e, s, d, p);
      CleanStep(e, s, n, d, p, r);
    }
  }

  /** An item that could not deliver has received the result of the first failing dependency. */
  lemma Received(e: Endpoint, s: State, n: string, r: string) returns (p: string)
    requires Graphed(e) && n in e.g && Blocked(e, n) && SentOk(e, s, n, r)
    ensures Holds(s, Culprit(e, n), p)
  {
    if r != n {
      p := r;
    } else {
      p :| CrashOk(e, s, n, Culprit(e, n), p);
    }
  }

  // ---------- What is read ----------

  /** The result that was read for root r, and its error. */
  ghost predicate Reads(s: State, r: string, owner: string, err: Option<Err>) {
    r in s.results && s.results[r] == owner && owner in s.cells && s.cells[owner] == err
  }

  lemma RootIsRead(e: Endpoint, schedule: seq<Actor>, r: string)
    requires Valid(e) && AllRead(e, schedule) && r in e.roots
    ensures var s := Run(e, schedule).value; Inv(e, s) && r in e.g && r in s.results && Holds(s, r, s.results[r])
  {
    RunKeeps(e, schedule);
    var s := Run(e, schedule).value;
    var k :| 0 <= k < |e.roots| && e.roots[k] == r;
    assert e.roots[k] in s.results;
  }

  /** The error of what a root sends is final. */
  lemma RootErr(e: Endpoint, s: State, r: string, o: string)
    requires Valid(e) && Inv(e, s) && r in e.g && r in e.roots && Holds(s, r, o)
    ensures o in s.cells && o in e.g
    ensures s.cells[o] == if o == r then Fresh(e, r) else Final(e, o)
    ensures s.cells[o].Some? <==> Fails(e, r)
  {
    HeldIsSent(e, s, r, o);
    assert forall m :: Forwarded(e, s, r, m) ==> Edge(e.g, m, r);
  }

  /** In whatever order the goroutines run: exactly the roots are read, and a root has an error
      exactly if it fails. A clean root always gets the same result with the same error. */
  lemma ResultsFixed(e: Endpoint, schedule: seq<Actor>)
    requires Valid(e) && AllRead(e, schedule)
    ensures var s := Run(e, schedule).value;
            && (forall r :: r in s.results <==> r in e.roots)
            && (forall r :: r in e.roots ==> r in e.g && s.results[r] in s.cells)
            && (forall r :: r in e.roots ==> (s.cells[s.results[r]].Some? <==> Fails(e, r)))
            && (forall r :: r in e.roots && !Fails(e, r) ==> Reads(s, r, r, None))
            && (forall r :: r in e.roots && Clean(e, r) ==> Reads(s, r, Owner(e, r), ResultErr(e, r)))
  {
    var s := Run(e, schedule).value;
    RunKeeps(e, schedule);
    forall r | r in e.roots
      ensures r in s.results && r in e.g && s.results[r] in s.cells && (s.cells[s.results[r]].Some? <==> Fails(e, r))
      ensures !Fails(e, r) ==> Reads(s, r, r, None)
      ensures Clean(e, r) ==> Reads(s, r, Owner(e, r), ResultErr(e, r))
    {
      RootIsRead(e, schedule, r);
      RootErr(e, s, r, s.results[r]);
      HeldIsSent(e, s, r, s.results[r]);
      if Clean(e, r) {
        CleanSends(e, s, r, s.results[r]);
      }
    }
  }

  /** produce returns an error exactly if a root fails. */
  lemma ProduceFailsIff(e: Endpoint, schedule: seq<Actor>)
    requires Valid(e) && AllRead(e, schedule)
    ensures var s := Run(e, schedule).value;
            (exists r :: r in s.results && s.results[r] in s.cells && s.cells[s.results[r]].Some?)
            <==> exists r :: r in e.roots && r in e.g && Fails(e, r)
  {
    ResultsFixed(e, schedule);
  }

  /** An item that fails by itself yields what its producer returned, or a panic. */
  lemma FailsAlone(e: Endpoint, n: string)
    requires Graphed(e) && n in e.g && Fails(e, n) && !Blocked(e, n)
    ensures Clean(e, n) && n in e.prod && !e.prod[n].Delivers?
    ensures e.prod[n].Errs? ==> ResultErr(e, n) == Some(e.prod[n].err)
    ensures e.prod[n].Crashes? ==> ResultErr(e, n).Some? && ResultErr(e, n).value.Foreign?
  {
    FailsIff(e, n);
  }

  /** A foreign error reaches its only dependent as an error that does not say its kinds. */
  lemma BlockedByForeign(e: Endpoint, n: string)
    requires Graphed(e) && n in e.g && Blocked(e, n) && OnlyDependent(e, n) && !Blocked(e, Culprit(e, n))
    requires ResultErr(e, Culprit(e, n)).Some? && ResultErr(e, Culprit(e, n)).value.Foreign?
    ensures Clean(e, n) && ResultErr(e, n) == Some(Couper(["sequence", "endpoint"], NoError))
    ensures Kinds(ResultErr(e, n).value).None?
  {
    FailsIff(e, n);
    OtherErrors(ResultErr(e, Culprit(e, n)).value);
  }

  // ---------- Producers run after their dependencies ----------

  lemma {:induction false} FreeDepsDeliver(e: Endpoint, n: string, i: nat, j: nat)
    requires Graphed(e) && n in e.g && i <= j < |Succ(e.g, n)| && FirstOff(e, n, i) == |Succ(e.g, n)|
    ensures Succ(e.g, n)[j] in e.g && FateOf(e, Succ(e.g, n)[j]) == Good
    decreases j - i
  {
    assert Edge(e.g, n, Succ(e.g, n)[j]);
    if i < j {
      FreeDepsDeliver(e, n, i + 1, j);
    }
  }

  lemma DeliveredBelow(e: Endpoint, s: State, n: string, d: string)
    requires Graphed(e) && Inv(e, s) && n in e.g && Free(e, n) && Delivered(e, s, n) && Edge(e.g, n, d)
    ensures d in e.g && FateOf(e, d) == Good && Holds(s, d, d) && Free(e, d) && Delivered(e, s, d)
  {
    var j :| 0 <= j < |Succ(e.g, n)| && Succ(e.g, n)[j] == d;
    FreeDepsDeliver(e, n, 0, j);
    HeldIsSent(e, s, d, d);
    FailsIff(e, d);
  }

  /** A producer runs only when all items it depends on, directly or not, have run and delivered. */
  lemma ProducesAfterDependencies(e: Endpoint, schedule: seq<Actor>, n: string, d: string)
    requires Valid(e) && Run(e, schedule).Some? && n in e.prod && Reaches(e.g, n, d) && d != n
    requires n in Run(e, schedule).value.pcs && Run(e, schedule).value.pcs[n].Producing?
    ensures d in e.prod && e.prod[d].Delivers?
    ensures Holds(Run(e, schedule).value, d, d)
  {
    var s := Run(e, schedule).value;
    RunKeeps(e, schedule);
    assert NodeOk(e, s, n);
    var ready := set x | x in e.g && Free(e, x) && Delivered(e, s, x)
                         && (x == n || (FateOf(e, x) == Good && Holds(s, x, x)));
    forall x, y | x in ready && Edge(e.g, x, y)
      ensures y in ready
    {
      DeliveredBelow(e, s, x, y);
    }
    ReachesWithin(e.g, n, d, ready);
  }

  // ---------- Errors of Couper's own type ----------

  /** Every failing producer yields an error of Couper's own type with readable kinds. */
  ghost predicate OwnErrors(e: Endpoint) {
    forall n :: n in e.prod ==>
      e.prod[n].Delivers? || (e.prod[n].Errs? && e.prod[n].err.Couper? && Kinds(e.prod[n].err).Some?)
  }

  /** The first item that fails by itself, down the first failing dependencies. */
  ghost function Origin(e: Endpoint, n: string): (o: string)
    requires Graphed(e) && n in e.g
    ensures o in e.g && !Blocked(e, o)
    decreases e.rank[n]
  {
    if Blocked(e, n) then Origin(e, Culprit(e, n)) else n
  }

  /** An error as dependents pass on the error own: as it is if it has the kind of a sequence
      error; otherwise as the cause of an error of which it says all kinds, followed by those of a
      sequence error. */
  ghost predicate PassedOn(own: Err, err: Err)
    requires own.Couper? && Kinds(own).Some?
  {
    if "sequence" in Kinds(own).value then err == own
    else err.Couper? && err.inner == Wraps(own) && Kinds(err) == Some(Kinds(own).value + ["sequence", "endpoint"])
  }

  lemma {:induction false} OriginFails(e: Endpoint, n: string)
    requires Graphed(e) && n in e.g && Fails(e, n)
    ensures Origin(e, n) in e.prod && !e.prod[Origin(e, n)].Delivers?
    decreases e.rank[n]
  {
    FailsIff(e, n);
    if Blocked(e, n) {
      OriginFails(e, Culprit(e, n));
    }
  }

  /** Without foreign errors everything is clean, and all failures pass on the original error. */
  lemma {:induction false} OwnErrorsAreClean(e: Endpoint, n: string)
    requires Graphed(e) && n in e.g && OwnErrors(e)
    ensures Clean(e, n) && Owner(e, n) == Origin(e, n)
    ensures !Fails(e, n) ==> ResultErr(e, n) == None
    ensures Fails(e, n) && !Blocked(e, n) ==> n in e.prod && e.prod[n].Errs? && ResultErr(e, n) == Some(e.prod[n].err)
    ensures Blocked(e, n) ==>
      Origin(e, n) in e.prod &&
      var own := e.prod[Origin(e, n)];
      && own.Errs? && own.err.Couper? && Kinds(own.err).Some?
      && ResultErr(e, n).Some? && PassedOn(own.err, ResultErr(e, n).value)
    decreases e.rank[n]
  {
    FailsIff(e, n);
    if Blocked(e, n) {
      var d := Culprit(e, n);
      OwnErrorsAreClean(e, d);
      OriginFails(e, d);
      var o := Origin(e, d);
      var err := e.prod[o].err;
      if "sequence" !in Kinds(err).value {
        ReplacementKeepsCause(err);
        ReplacementIsFinal(err);
      }
      OriginRanksBelow(e, d);
    }
  }

  lemma {:induction false} OriginRanksBelow(e: Endpoint, n: string)
    requires Graphed(e) && n in e.g
    ensures e.rank[Origin(e, n)] <= e.rank[n]
    decreases e.rank[n]
  {
    if Blocked(e, n) {
      OriginRanksBelow(e, Culprit(e, n));
    }
  }
}
