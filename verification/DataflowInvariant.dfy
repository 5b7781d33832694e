/** What every step of the sequence engine keeps. */
module DataflowInvariant {
  import opened Options
  import opened Graphs
  import opened Wiring
  import opened CouperErrors
  import opened Dataflow

  // ---------- Errors of results ----------

  /** The error with which n makes a result of its own: if a dependency failed, this is a panic. */
  ghost function Fresh(e: Endpoint, n: string): Option<Err>
    requires Graphed(e) && n in e.g
  {
    if Blocked(e, n) then Some(PanicErr(n)) else if n in e.prod then OwnErr(e, n) else None
  }

  /** The error once dependents have rewritten it. */
  ghost function Final(e: Endpoint, n: string): Option<Err>
    requires Graphed(e) && n in e.g
  {
    var f := Fresh(e, n);
    if f.Some? && Judge(f.value).Replaces? then Some(Judge(f.value).err) else f
  }

  lemma FinalStays(e: Endpoint, n: string)
    requires Graphed(e) && n in e.g
    ensures Final(e, n).Some? ==> !Judge(Final(e, n).value).Replaces?
    ensures Final(e, n).Some? <==> Fresh(e, n).Some?
  {
    if Fresh(e, n).Some? && Judge(Fresh(e, n).value).Replaces? {
      ReplacementIsFinal(Fresh(e, n).value);
    }
  }

  // ---------- The invariant, goroutine by goroutine ----------

  /** The result that a goroutine has decided to send. */
  function ResultAt(pc: Pc): Option<string> {
    match pc
    case Sending(r, _) => Some(r)
    case Done(r) => Some(r)
    case _ => None
  }

  ghost predicate Holds(s: State, n: string, r: string) {
    n in s.pcs && ResultAt(s.pcs[n]) == Some(r)
  }

  /** The first i inputs come from items that deliver. */
  ghost predicate GoodUntil(e: Endpoint, n: string, i: nat)
    requires Graphed(e)
  {
    && i <= |In(e.w, n)|
    && forall q :: 0 <= q < i ==> In(e.w, n)[q].from in e.g && FateOf(e, In(e.w, n)[q].from) == Good
  }

  /** The items of the first i inputs have sent their own results. */
  ghost predicate HeardUntil(e: Endpoint, s: State, n: string, i: nat) {
    i <= |In(e.w, n)| && forall q :: 0 <= q < i ==> Holds(s, In(e.w, n)[q].from, In(e.w, n)[q].from)
  }

  /** All dependencies of n have sent their own results. */
  ghost predicate Delivered(e: Endpoint, s: State, n: string) {
    forall d :: Edge(e.g, n, d) ==> Holds(s, d, d)
  }

  /** n has a producer, and all its dependencies deliver. */
  ghost predicate Free(e: Endpoint, n: string)
    requires Graphed(e) && n in e.g
  {
    n in e.prod && FirstOff(e, n, 0) == |Succ(e.g, n)|
  }

  /** Some other dependent of d sends its result on. */
  ghost predicate Forwarded(e: Endpoint, s: State, d: string, m: string)
    requires Graphed(e)
  {
    m in e.g && Blocked(e, m) && Culprit(e, m) == d && Holds(s, m, d)
  }

  /** n sends r, which it made itself, or got from the first dependency that fails. */
  ghost predicate SentOk(e: Endpoint, s: State, n: string, r: string)
    requires Graphed(e) && n in e.g
  {
    && r in s.cells && r in e.g && !Hangs(e, n) && (s.cells[r].Some? <==> Fails(e, n))
    && (r != n ==> Blocked(e, n) && SentOnOk(e, s, n, Culprit(e, n), r))
    && (r == n && Blocked(e, n) ==> exists p :: CrashOk(e, s, n, Culprit(e, n), p))
    && (r == n && !Blocked(e, n) ==> Free(e, n) && Delivered(e, s, n))
  }

  ghost predicate SentOnOk(e: Endpoint, s: State, n: string, d: string, r: string)
    requires Graphed(e) && n in e.g
  {
    && Holds(s, d, r) && r in s.cells && r in e.g && s.cells[r] == Final(e, r) && Fresh(e, r).Some?
    && !Judge(Fresh(e, r).value).Panics?
    && (d != r ==> Judge(Final(e, r).value).Keeps?)
  }

  /** n crashed on reading the kinds of the error in p. If that error was foreign, another
      dependent had rewritten it before. */
  ghost predicate CrashOk(e: Endpoint, s: State, n: string, d: string, p: string)
    requires Graphed(e) && n in e.g
  {
    && Holds(s, d, p) && p in s.cells && p in e.g && Final(e, p).Some? && Judge(Final(e, p).value).Panics?
    && s.cells[p] == Final(e, p)
    && (d == p && Fresh(e, p).value.Foreign? ==> exists m :: m != n && Forwarded(e, s, p, m))
  }

  ghost predicate NodeOk(e: Endpoint, s: State, n: string)
    requires Graphed(e) && n in e.g
  {
    n in s.pcs &&
    match s.pcs[n]
    case Reading(i) => GoodUntil(e, n, i) && HeardUntil(e, s, n, i)
    case Checking(i, r) =>
      GoodUntil(e, n, i) && HeardUntil(e, s, n, i) && i < |In(e.w, n)| && Holds(s, In(e.w, n)[i].from, r)
    case Rewriting(r, err) =>
      && Blocked(e, n) && Culprit(e, n) == r && Holds(s, r, r) && r in s.cells
      && Fresh(e, r).Some? && Judge(Fresh(e, r).value) == Replaces(err)
    case Producing => Free(e, n) && Delivered(e, s, n)
    case Sending(r, j) => j <= |Out(e.w, n)| && SentOk(e, s, n, r)
    case Done(r) => SentOk(e, s, n, r)
  }

  ghost predicate CellOk(e: Endpoint, s: State, o: string)
    requires Graphed(e)
  {
    o in s.cells ==>
      && o in e.g && Holds(s, o, o)
      && (s.cells[o] == Fresh(e, o) || (s.cells[o] == Final(e, o) && exists m :: Forwarded(e, s, o, m)))
  }

  // ---------- The invariant, channel by channel ----------

  /** How many of its outputs a goroutine has sent on. */
  function SentOn(e: Endpoint, pc: Pc, n: string): nat {
    match pc
    case Sending(_, j) => j
    case Done(_) => |Out(e.w, n)|
    case _ => 0
  }

  /** The writer of ch has sent on it. */
  ghost predicate Written(e: Endpoint, s: State, ch: Chan) {
    && ch.from in s.pcs && ch in Out(e.w, ch.from)
    && IndexOf(Out(e.w, ch.from), ch) < SentOn(e, s.pcs[ch.from], ch.from)
  }

  ghost predicate SlotOk(e: Endpoint, s: State, ch: Chan) {
    ch in s.slots ==> Written(e, s, ch) && Holds(s, ch.from, s.slots[ch])
  }

  /** n may still receive from its q-th input. */
  predicate Pending(pc: Pc, q: nat) {
    match pc
    case Reading(i) => i <= q
    case Checking(i, _) => i < q
    case _ => false
  }

  /** A result that was sent, and may still be received, is in its channel. */
  ghost predicate InputOk(e: Endpoint, s: State, n: string, q: nat) {
    n in s.pcs && q < |In(e.w, n)| && Pending(s.pcs[n], q) && Written(e, s, In(e.w, n)[q]) ==> In(e.w, n)[q] in s.slots
  }

  /** If the result of root r was sent, it is in its channel. */
  ghost predicate RootOk(e: Endpoint, s: State, r: string) {
    r in e.w.results && Written(e, s, e.w.results[r]) ==> e.w.results[r] in s.slots
  }

  ghost predicate ReaderOk(e: Endpoint, s: State) {
    && s.read <= |e.roots| && (forall r :: r in s.results ==> r in e.roots)
    && (forall k :: 0 <= k < s.read ==> e.roots[k] in s.results && Holds(s, e.roots[k], s.results[e.roots[k]]))
    && (forall k :: s.read <= k < |e.roots| ==> RootOk(e, s, e.roots[k]))
  }

  ghost predicate NodesOk(e: Endpoint, s: State)
    requires Graphed(e)
  {
    s.pcs.Keys == e.prod.Keys && forall n {:trigger NodeOk(e, s, n)} :: n in e.prod ==> NodeOk(e, s, n)
  }

  ghost predicate CellsOk(e: Endpoint, s: State)
    requires Graphed(e)
  {
    forall o :: CellOk(e, s, o)
  }

  ghost predicate ChannelsOk(e: Endpoint, s: State) {
    (forall ch :: SlotOk(e, s, ch)) && forall n, q: nat :: InputOk(e, s, n, q)
  }

  ghost predicate Inv(e: Endpoint, s: State)
    requires Graphed(e)
  {
    NodesOk(e, s) && CellsOk(e, s) && ChannelsOk(e, s) && ReaderOk(e, s)
  }

  // ---------- What a step never takes back ----------

  ghost predicate Grows(e: Endpoint, s: State, t: State)
    requires Graphed(e)
  {
    && t.pcs.Keys == s.pcs.Keys
    && (forall n, r :: Holds(s, n, r) ==> Holds(t, n, r))
    && (forall r :: r in s.cells ==>
          (r in t.cells && r in e.g && (t.cells[r] == s.cells[r] || (t.cells[r] == Final(e, r) && Fresh(e, r).Some?))))
    && (forall r :: r in s.cells && s.cells[r] == Final(e, r) ==> t.cells[r] == s.cells[r])
  }

  lemma SentOkGrows(e: Endpoint, s: State, t: State, n: string, r: string)
    requires Graphed(e) && n in e.g && Grows(e, s, t) && SentOk(e, s, n, r)
    requires CellOk(e, s, r)
    ensures SentOk(e, t, n, r)
  {
    FinalStays(e, r);
    if r == n && Blocked(e, n) {
      var p :| CrashOk(e, s, n, Culprit(e, n), p);
      CrashOkGrows(e, s, t, n, Culprit(e, n), p);
    }
  }

  lemma CrashOkGrows(e: Endpoint, s: State, t: State, n: string, d: string, p: string)
    requires Graphed(e) && n in e.g && Grows(e, s, t) && CrashOk(e, s, n, d, p)
    ensures CrashOk(e, t, n, d, p)
  {
    if d == p && Fresh(e, p).value.Foreign? {
      var m :| m != n && Forwarded(e, s, p, m);
      assert Forwarded(e, t, p, m);
    }
  }

  lemma NodeOkGrows(e: Endpoint, s: State, t: State, n: string)
    requires Graphed(e) && n in e.g && Grows(e, s, t) && NodeOk(e, s, n) && CellsOk(e, s)
    requires t.pcs[n] == s.pcs[n]
    ensures NodeOk(e, t, n)
  {
    match s.pcs[n]
    case Sending(r, j) => SentOkGrows(e, s, t, n, r);
    case Done(r) => SentOkGrows(e, s, t, n, r);
    case _ =>
  }

  lemma CellOkGrows(e: Endpoint, s: State, t: State, o: string)
    requires Graphed(e) && Grows(e, s, t) && CellOk(e, s, o)
    requires o in t.cells ==> o in s.cells && t.cells[o] == s.cells[o]
    ensures CellOk(e, t, o)
  {
    if o in t.cells && s.cells[o] != Fresh(e, o) {
      var m :| Forwarded(e, s, o, m);
      assert Forwarded(e, t, o, m);
    }
  }

  // ---------- Goroutines and results after a step ----------

  /** Only n has moved, and its slots and cells have changed as described. */
  ghost predicate Moves(s: State, t: State, n: string, pc: Pc) {
    n in s.pcs && t.pcs == s.pcs[n := pc] && t.results == s.results && t.read == s.read
  }

  lemma InputsAreDeps(e: Endpoint, n: string, i: nat)
    requires Graphed(e) && Cabled(e) && n in e.g && i < |In(e.w, n)|
    ensures var d := In(e.w, n)[i].from; d in e.g && Edge(e.g, n, d)
  {
    assert In(e.w, n)[i] in In(e.w, n);
    assert InOrder(e.g, e.w, n);
  }

  /** A failing input after good ones comes from the first dependency that fails. */
  lemma BadInputIsCulprit(e: Endpoint, n: string, i: nat)
    requires Graphed(e) && Cabled(e) && n in e.prod && i < |In(e.w, n)| && GoodUntil(e, n, i)
    requires In(e.w, n)[i].from in e.g && Fails(e, In(e.w, n)[i].from)
    ensures Blocked(e, n) && Culprit(e, n) == In(e.w, n)[i].from
  {
    var deps := Succ(e.g, n);
    assert InOrder(e.g, e.w, n);
    if i < |deps| {
      forall j | 0 <= j < i
        ensures deps[j] in e.g && FateOf(e, deps[j]) == Good
      {
        assert In(e.w, n)[j].from == deps[j];
      }
      FirstOffIs(e, n, 0, i);
    } else {
      InputsAreDeps(e, n, i);
      assert false;
    }
  }

  lemma AllHeard(e: Endpoint, s: State, n: string)
    requires Graphed(e) && Cabled(e) && n in e.g && HeardUntil(e, s, n, |In(e.w, n)|)
    ensures Delivered(e, s, n)
  {
    assert InOrder(e.g, e.w, n);
    forall d | Edge(e.g, n, d)
      ensures Holds(s, d, d)
    {
      var i :| 0 <= i < |Succ(e.g, n)| && Succ(e.g, n)[i] == d;
      assert In(e.w, n)[i].from == d;
    }
  }

  lemma AllGoodIsFree(e: Endpoint, n: string)
    requires Graphed(e) && Cabled(e) && n in e.prod && GoodUntil(e, n, |In(e.w, n)|)
    ensures Free(e, n)
  {
    var deps := Succ(e.g, n);
    assert InOrder(e.g, e.w, n);
    forall j | 0 <= j < |deps|
      ensures deps[j] in e.g && FateOf(e, deps[j]) == Good
    {
      assert In(e.w, n)[j].from == deps[j];
    }
    FirstOffIs(e, n, 0, |deps|);
  }

  /** n makes a result of its own, having none yet. */
  lemma OwnGrows(e: Endpoint, s: State, t: State, n: string)
    requires Graphed(e) && Inv(e, s) && n in e.prod && ResultAt(s.pcs[n]).None?
    requires Moves(s, t, n, Sending(n, 0)) && t.cells == s.cells[n := Fresh(e, n)]
    ensures Grows(e, s, t) && n !in s.cells
    ensures CellsOk(e, t)
  {
    assert CellOk(e, s, n);
    assert n !in s.cells;
    forall r | r in s.cells
      ensures r in t.cells && r in e.g && t.cells[r] == s.cells[r]
    {
      assert CellOk(e, s, r);
    }
    forall o
      ensures CellOk(e, t, o)
    {
      if o != n {
        assert CellOk(e, s, o);
        CellOkGrows(e, s, t, o);
      }
    }
  }

  /** n goes on without touching any result. */
  lemma PlainGrows(e: Endpoint, s: State, t: State, n: string, pc: Pc)
    requires Graphed(e) && Inv(e, s) && n in e.prod && Moves(s, t, n, pc) && t.cells == s.cells
    requires ResultAt(s.pcs[n]).Some? ==> ResultAt(pc) == ResultAt(s.pcs[n])
    ensures Grows(e, s, t) && CellsOk(e, t)
  {
    forall r | r in s.cells
      ensures r in e.g
    {
      assert CellOk(e, s, r);
    }
    forall o
      ensures CellOk(e, t, o)
    {
      assert CellOk(e, s, o);
      CellOkGrows(e, s, t, o);
    }
  }

  lemma ReceiveKeeps(e: Endpoint, s: State, t: State, n: string)
    requires Graphed(e) && Cabled(e) && Inv(e, s) && n in e.prod && s.pcs[n].Reading? && StepNode(e, s, n) == Some(t)
    ensures Grows(e, s, t) && NodeOk(e, t, n) && CellsOk(e, t)
  {
    var i := s.pcs[n].i;
    assert NodeOk(e, s, n);
    if i < |In(e.w, n)| {
      var ch := In(e.w, n)[i];
      assert SlotOk(e, s, ch);
      PlainGrows(e, s, t, n, Checking(i, s.slots[ch]));
    } else {
      PlainGrows(e, s, t, n, Producing);
      AllGoodIsFree(e, n);
      AllHeard(e, s, n);
    }
  }

  lemma HeldIsSent(e: Endpoint, s: State, d: string, r: string)
    requires Graphed(e) && NodesOk(e, s) && CellsOk(e, s) && d in e.g && Holds(s, d, r)
    ensures SentOk(e, s, d, r) && CellOk(e, s, r)
  {
    assert NodeOk(e, s, d);
  }

  lemma OneMoreGood(e: Endpoint, s: State, n: string, i: nat)
    requires Graphed(e) && GoodUntil(e, n, i) && HeardUntil(e, s, n, i) && i < |In(e.w, n)|
    requires var d := In(e.w, n)[i].from; d in e.g && FateOf(e, d) == Good && Holds(s, d, d)
    ensures GoodUntil(e, n, i + 1) && HeardUntil(e, s, n, i + 1)
  {
  }

  lemma GoodCheckKeeps(e: Endpoint, s: State, t: State, n: string, d: string)
    requires Graphed(e) && Inv(e, s) && n in e.prod && s.pcs[n].Checking? && StepNode(e, s, n) == Some(t)
    requires NodeOk(e, s, n) && d == In(e.w, n)[s.pcs[n].i].from && d in e.g
    requires s.pcs[n].result in s.cells && s.cells[s.pcs[n].result].None? && FateOf(e, d) == Good
    requires SentOk(e, s, d, s.pcs[n].result)
    ensures Grows(e, s, t) && NodeOk(e, t, n) && CellsOk(e, t)
  {
    var i := s.pcs[n].i;
    FailsIff(e, d);
    OneMoreGood(e, s, n, i);
    PlainGrows(e, s, t, n, Reading(i + 1));
  }

  lemma CheckKeeps(e: Endpoint, s: State, t: State, n: string)
    requires Graphed(e) && Cabled(e) && Inv(e, s) && n in e.prod && s.pcs[n].Checking? && StepNode(e, s, n) == Some(t)
    ensures Grows(e, s, t) && NodeOk(e, t, n) && CellsOk(e, t)
  {
    var i, r := s.pcs[n].i, s.pcs[n].result;
    assert NodeOk(e, s, n);
    InputsAreDeps(e, n, i);
    var d := In(e.w, n)[i].from;
    HeldIsSent(e, s, d, r);
    if Fails(e, d) {
      BadInputIsCulprit(e, n, i);
      FailedCheckKeeps(e, s, t, n, d, r);
    } else {
      GoodCheckKeeps(e, s, t, n, d);
    }
  }

  lemma FailedCheckKeeps(e: Endpoint, s: State, t: State, n: string, d: string, r: string)
    requires Graphed(e) && Inv(e, s) && n in e.prod && s.pcs[n].Checking? && StepNode(e, s, n) == Some(t)
    requires r == s.pcs[n].result && r in s.cells && s.cells[r].Some? && CellOk(e, s, r)
    requires Blocked(e, n) && d == Culprit(e, n) && Holds(s, d, r) && SentOk(e, s, d, r)
    ensures Grows(e, s, t) && NodeOk(e, t, n) && CellsOk(e, t)
  {
    FinalStays(e, r);
    FailsIff(e, n);
    match Judge(s.cells[r].value)
    case Panics =>
      OwnGrows(e, s, t, n);
      assert CrashOk(e, s, n, d, r);
      CrashOkGrows(e, s, t, n, d, r);
    case Keeps =>
      PlainGrows(e, s, t, n, Sending(r, 0));
      assert SentOnOk(e, t, n, d, r);
      assert r != n;
    case Replaces(err) =>
      PlainGrows(e, s, t, n, Rewriting(r, err));
      assert s.cells[r] == Fresh(e, r);
      assert d == r;
  }

  lemma RewriteKeeps(e: Endpoint, s: State, t: State, n: string)
    requires Graphed(e) && Inv(e, s) && n in e.prod && s.pcs[n].Rewriting? && StepNode(e, s, n) == Some(t)
    ensures Grows(e, s, t) && NodeOk(e, t, n) && CellsOk(e, t)
  {
    var r := s.pcs[n].result;
    assert NodeOk(e, s, n) && CellOk(e, s, r);
    FinalStays(e, r);
    FailsIff(e, n);
    forall q | q in s.cells
      ensures q in e.g
    {
      assert CellOk(e, s, q);
    }
    assert Grows(e, s, t);
    assert r != n;
    assert SentOnOk(e, t, n, r, r);
    assert Forwarded(e, t, r, n);
    forall o
      ensures CellOk(e, t, o)
    {
      if o != r {
        assert CellOk(e, s, o);
        CellOkGrows(e, s, t, o);
      }
    }
  }

  lemma ProduceKeeps(e: Endpoint, s: State, t: State, n: string)
    requires Graphed(e) && Inv(e, s) && n in e.prod && s.pcs[n].Producing? && StepNode(e, s, n) == Some(t)
    ensures Grows(e, s, t) && NodeOk(e, t, n) && CellsOk(e, t)
  {
    FailsIff(e, n);
    assert NodeOk(e, s, n);
    OwnGrows(e, s, t, n);
  }

  lemma SendKeeps(e: Endpoint, s: State, t: State, n: string)
    requires Graphed(e) && Inv(e, s) && n in e.prod && s.pcs[n].Sending? && StepNode(e, s, n) == Some(t)
    ensures Grows(e, s, t) && NodeOk(e, t, n) && CellsOk(e, t)
  {
    var r, j := s.pcs[n].result, s.pcs[n].j;
    assert NodeOk(e, s, n) && CellOk(e, s, r);
    PlainGrows(e, s, t, n, t.pcs[n]);
    SentOkGrows(e, s, t, n, r);
  }

  lemma MoverKeeps(e: Endpoint, s: State, t: State, n: string)
    requires Graphed(e) && Cabled(e) && Inv(e, s) && n in e.prod && StepNode(e, s, n) == Some(t)
    ensures Grows(e, s, t) && NodeOk(e, t, n) && CellsOk(e, t)
  {
    match s.pcs[n] {
      case Reading(_) => ReceiveKeeps(e, s, t, n);
      case Checking(_, _) => CheckKeeps(e, s, t, n);
      case Rewriting(_, _) => RewriteKeeps(e, s, t, n);
      case Producing => ProduceKeeps(e, s, t, n);
      case Sending(_, _) => SendKeeps(e, s, t, n);
    }
  }

  lemma ReadingMoves(e: Endpoint, s: State, t: State, n: string)
    requires StepNode.requires(e, s, n) && StepNode(e, s, n) == Some(t) && s.pcs[n].Reading?
    ensures n in t.pcs && t.pcs == s.pcs[n := t.pcs[n]] && t.read == s.read && t.results == s.results
  {
  }

  lemma CheckingMoves(e: Endpoint, s: State, t: State, n: string)
    requires StepNode.requires(e, s, n) && StepNode(e, s, n) == Some(t) && s.pcs[n].Checking?
    ensures n in t.pcs && t.pcs == s.pcs[n := t.pcs[n]] && t.read == s.read && t.results == s.results
  {
  }

  lemma SendingMoves(e: Endpoint, s: State, t: State, n: string)
    requires StepNode.requires(e, s, n) && StepNode(e, s, n) == Some(t) && s.pcs[n].Sending?
    ensures n in t.pcs && t.pcs == s.pcs[n := t.pcs[n]] && t.read == s.read && t.results == s.results
  {
  }

  /** A step of a goroutine moves it alone, and leaves the reader alone. */
  lemma OnlyMoves(e: Endpoint, s: State, t: State, n: string)
    requires StepNode.requires(e, s, n) && StepNode(e, s, n) == Some(t)
    ensures n in t.pcs && t.pcs == s.pcs[n := t.pcs[n]] && t.read == s.read && t.results == s.results
  {
    match s.pcs[n] {
      case Reading(_) => ReadingMoves(e, s, t, n);
      case Checking(_, _) => CheckingMoves(e, s, t, n);
      case Sending(_, _) => SendingMoves(e, s, t, n);
      case _ =>
    }
  }

  lemma OthersKeep(e: Endpoint, s: State, t: State, n: string)
    requires Graphed(e) && Grows(e, s, t) && NodesOk(e, s) && CellsOk(e, s)
    requires n in t.pcs && t.pcs == s.pcs[n := t.pcs[n]]
    ensures forall m :: m in e.prod && m != n ==> NodeOk(e, t, m)
  {
    forall m | m in e.prod && m != n
      ensures NodeOk(e, t, m)
    {
      NodeOkGrows(e, s, t, m);
    }
  }

  lemma NodeStepKeeps(e: Endpoint, s: State, t: State, n: string)
    requires Graphed(e) && Cabled(e) && Inv(e, s) && n in e.prod && StepNode(e, s, n) == Some(t)
    ensures Grows(e, s, t) && NodesOk(e, t) && CellsOk(e, t)
  {
    MoverKeeps(e, s, t, n);
    OnlyMoves(e, s, t, n);
    OthersKeep(e, s, t, n);
  }
}
