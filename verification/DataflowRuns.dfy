/** Runs of the sequence engine: nothing gets lost in the channels, and every run ends. */
module DataflowRuns {
  import opened Options
  import opened Graphs
  import opened Wiring
  import opened Dataflow
  import opened DataflowInvariant

  // ---------- Channels ----------

  lemma PositionOf(e: Endpoint, n: string, j: nat)
    requires Cabled(e) && j < |Out(e.w, n)|
    ensures IndexOf(Out(e.w, n), Out(e.w, n)[j]) == j && Out(e.w, n)[j].from == n
  {
    assert Out(e.w, n)[j] in Out(e.w, n);
    assert NoDup(Out(e.w, n));
  }

  lemma InputWiring(e: Endpoint, n: string, q: nat)
    requires Cabled(e) && q < |In(e.w, n)|
    ensures var ch := In(e.w, n)[q]; ch.Link? && ch.to == n && ch in Out(e.w, ch.from)
    ensures forall p :: 0 <= p < |In(e.w, n)| && p != q ==> In(e.w, n)[p] != In(e.w, n)[q]
  {
    assert In(e.w, n)[q] in In(e.w, n);
    assert NoDup(In(e.w, n));
  }

  lemma ResultWiring(e: Endpoint, r: string)
    requires Cabled(e) && r in e.w.results
    ensures e.w.results[r].ResultOf? && e.w.results[r].from == r && e.w.results[r] in Out(e.w, r)
  {
  }

  lemma SlotStays(e: Endpoint, s: State, t: State, n: string, pc: Pc, ch: Chan)
    requires n in s.pcs && t.pcs == s.pcs[n := pc]
    requires SentOn(e, s.pcs[n], n) <= SentOn(e, pc, n)
    requires ResultAt(s.pcs[n]).Some? ==> ResultAt(pc) == ResultAt(s.pcs[n])
    requires SlotOk(e, s, ch) && (ch in t.slots ==> ch in s.slots && t.slots[ch] == s.slots[ch])
    ensures SlotOk(e, t, ch)
  {
  }

  lemma InputStays(e: Endpoint, s: State, t: State, n: string, pc: Pc, m: string, q: nat)
    requires n in s.pcs && t.pcs == s.pcs[n := pc] && q < |In(e.w, m)|
    requires InputOk(e, s, m, q) && (m == n && Pending(pc, q) ==> Pending(s.pcs[n], q))
    requires Written(e, t, In(e.w, m)[q]) ==> Written(e, s, In(e.w, m)[q]) || In(e.w, m)[q] in t.slots
    requires In(e.w, m)[q] in s.slots ==> In(e.w, m)[q] in t.slots || (m == n && !Pending(pc, q))
    ensures InputOk(e, t, m, q)
  {
  }

  /** Nothing sent on a result channel is lost, and whatever is newly sent is in its channel. */
  ghost predicate KeepsResults(e: Endpoint, s: State, t: State) {
    && (forall ch: Chan :: ch.ResultOf? && ch in s.slots ==> ch in t.slots)
    && (forall ch :: Written(e, t, ch) ==> Written(e, s, ch) || ch in t.slots)
  }

  lemma WrittenStays(e: Endpoint, s: State, t: State, n: string, pc: Pc, ch: Chan)
    requires n in s.pcs && t.pcs == s.pcs[n := pc] && SentOn(e, s.pcs[n], n) == SentOn(e, pc, n)
    ensures Written(e, t, ch) <==> Written(e, s, ch)
  {
  }

  /** n has received from its i-th input channel. */
  lemma ReceiveChannels(e: Endpoint, s: State, t: State, n: string, i: nat, r: string)
    requires Cabled(e) && ChannelsOk(e, s) && n in s.pcs && s.pcs[n] == Reading(i) && i < |In(e.w, n)|
    requires t.pcs == s.pcs[n := Checking(i, r)] && t.slots == s.slots - {In(e.w, n)[i]}
    ensures ChannelsOk(e, t) && KeepsResults(e, s, t)
  {
    var pc := Checking(i, r);
    InputWiring(e, n, i);
    forall ch
      ensures (Written(e, t, ch) <==> Written(e, s, ch)) && SlotOk(e, t, ch)
    {
      WrittenStays(e, s, t, n, pc, ch);
      SlotStays(e, s, t, n, pc, ch);
    }
    forall m, q: nat
      ensures InputOk(e, t, m, q)
    {
      if q < |In(e.w, m)| {
        InputWiring(e, m, q);
        InputStays(e, s, t, n, pc, m, q);
      }
    }
  }

  /** n has moved on without receiving or sending. */
  lemma SilentChannels(e: Endpoint, s: State, t: State, n: string, pc: Pc)
    requires ChannelsOk(e, s) && n in s.pcs && t.pcs == s.pcs[n := pc] && t.slots == s.slots
    requires SentOn(e, s.pcs[n], n) == SentOn(e, pc, n)
    requires forall q: nat :: Pending(pc, q) ==> Pending(s.pcs[n], q)
    requires ResultAt(s.pcs[n]).Some? ==> ResultAt(pc) == ResultAt(s.pcs[n])
    ensures ChannelsOk(e, t) && KeepsResults(e, s, t)
  {
    forall ch
      ensures (Written(e, t, ch) <==> Written(e, s, ch)) && SlotOk(e, t, ch)
    {
      WrittenStays(e, s, t, n, pc, ch);
      SlotStays(e, s, t, n, pc, ch);
    }
    forall m, q: nat
      ensures InputOk(e, t, m, q)
    {
      if q < |In(e.w, m)| {
        InputStays(e, s, t, n, pc, m, q);
      }
    }
  }

  lemma NewlyWritten(e: Endpoint, s: State, t: State, n: string, r: string, j: nat, ch: Chan)
    requires Cabled(e) && n in s.pcs && s.pcs[n] == Sending(r, j) && j < |Out(e.w, n)|
    requires t.pcs == s.pcs[n := Sending(r, j + 1)]
    ensures Written(e, t, ch) <==> Written(e, s, ch) || ch == Out(e.w, n)[j]
  {
    PositionOf(e, n, j);
    if ch.from == n && ch in Out(e.w, n) {
      PositionOf(e, n, IndexOf(Out(e.w, n), ch));
    }
  }

  /** n has sent on its j-th output channel. */
  lemma SendChannels(e: Endpoint, s: State, t: State, n: string, r: string, j: nat)
    requires Cabled(e) && ChannelsOk(e, s) && n in s.pcs && s.pcs[n] == Sending(r, j) && j < |Out(e.w, n)|
    requires t.pcs == s.pcs[n := Sending(r, j + 1)] && t.slots == s.slots[Out(e.w, n)[j] := r]
    ensures ChannelsOk(e, t) && KeepsResults(e, s, t)
  {
    var pc, sent := Sending(r, j + 1), Out(e.w, n)[j];
    PositionOf(e, n, j);
    forall ch
      ensures (Written(e, t, ch) <==> Written(e, s, ch) || ch == sent) && SlotOk(e, t, ch)
    {
      NewlyWritten(e, s, t, n, r, j, ch);
      if ch != sent {
        SlotStays(e, s, t, n, pc, ch);
      }
    }
    forall m, q: nat
      ensures InputOk(e, t, m, q)
    {
      if q < |In(e.w, m)| {
        InputStays(e, s, t, n, pc, m, q);
      }
    }
  }

  predicate UsesChannel(e: Endpoint, n: string, pc: Pc) {
    match pc
    case Reading(i) => i < |In(e.w, n)|
    case Sending(_, j) => j < |Out(e.w, n)|
    case _ => false
  }

  /** What a step that uses no channel changes. */
  lemma SilentStep(e: Endpoint, s: State, t: State, n: string)
    requires StepNode.requires(e, s, n) && StepNode(e, s, n) == Some(t) && !UsesChannel(e, n, s.pcs[n])
    requires s.pcs[n].Sending? ==> s.pcs[n].j == |Out(e.w, n)|
    ensures n in t.pcs && t.pcs == s.pcs[n := t.pcs[n]] && t.slots == s.slots
    ensures SentOn(e, s.pcs[n], n) == SentOn(e, t.pcs[n], n)
    ensures forall q: nat :: Pending(t.pcs[n], q) ==> Pending(s.pcs[n], q)
    ensures ResultAt(s.pcs[n]).Some? ==> ResultAt(t.pcs[n]) == ResultAt(s.pcs[n])
  {
  }

  lemma ReceiveStepChannels(e: Endpoint, s: State, t: State, n: string)
    requires Cabled(e) && ChannelsOk(e, s) && n in s.pcs && s.pcs[n].Reading? && UsesChannel(e, n, s.pcs[n])
    requires n in e.prod && StepNode(e, s, n) == Some(t)
    ensures ChannelsOk(e, t) && KeepsResults(e, s, t)
  {
    var i := s.pcs[n].i;
    ReceiveChannels(e, s, t, n, i, s.slots[In(e.w, n)[i]]);
  }

  lemma SendStepChannels(e: Endpoint, s: State, t: State, n: string)
    requires Cabled(e) && ChannelsOk(e, s) && n in s.pcs && s.pcs[n].Sending? && UsesChannel(e, n, s.pcs[n])
    requires n in e.prod && StepNode(e, s, n) == Some(t)
    ensures ChannelsOk(e, t) && KeepsResults(e, s, t)
  {
    SendChannels(e, s, t, n, s.pcs[n].result, s.pcs[n].j);
  }

  lemma NodeStepChannels(e: Endpoint, s: State, t: State, n: string)
    requires Graphed(e) && Cabled(e) && n in e.prod && NodeOk(e, s, n)
    requires ChannelsOk(e, s) && StepNode(e, s, n) == Some(t)
    ensures ChannelsOk(e, t) && KeepsResults(e, s, t)
  {
    if !UsesChannel(e, n, s.pcs[n]) {
      SilentStep(e, s, t, n);
      SilentChannels(e, s, t, n, t.pcs[n]);
    } else if s.pcs[n].Reading? {
      ReceiveStepChannels(e, s, t, n);
    } else {
      SendStepChannels(e, s, t, n);
    }
  }

  lemma NodeStepReader(e: Endpoint, s: State, t: State)
    requires Graphed(e) && Cabled(e) && ReaderOk(e, s) && t.read == s.read && t.results == s.results
    requires Grows(e, s, t) && KeepsResults(e, s, t)
    ensures ReaderOk(e, t)
  {
    forall k | s.read <= k < |e.roots|
      ensures RootOk(e, t, e.roots[k])
    {
      assert RootOk(e, s, e.roots[k]);
      if e.roots[k] in e.w.results {
        ResultWiring(e, e.roots[k]);
      }
    }
  }

  /** readResults has read the result of root r. */
  lemma ReaderChannels(e: Endpoint, s: State, t: State, r: string)
    requires Cabled(e) && ChannelsOk(e, s) && t.pcs == s.pcs
    requires r in e.w.results && t.slots == s.slots - {e.w.results[r]}
    ensures ChannelsOk(e, t)
  {
    ResultWiring(e, r);
    forall ch
      ensures SlotOk(e, t, ch)
    {
      assert SlotOk(e, s, ch);
    }
    forall m, q: nat
      ensures InputOk(e, t, m, q)
    {
      assert InputOk(e, s, m, q);
      if q < |In(e.w, m)| {
        InputWiring(e, m, q);
      }
    }
  }

  lemma ReaderReader(e: Endpoint, s: State, t: State, r: string)
    requires Cabled(e) && RootsOnTop(e) && ChannelsOk(e, s) && ReaderOk(e, s)
    requires s.read < |e.roots| && r == e.roots[s.read] && r in e.w.results && e.w.results[r] in s.slots
    requires t.pcs == s.pcs && t.slots == s.slots - {e.w.results[r]}
    requires t.results == s.results[r := s.slots[e.w.results[r]]] && t.read == s.read + 1
    ensures ReaderOk(e, t)
  {
    ResultWiring(e, r);
    assert SlotOk(e, s, e.w.results[r]);
    forall k | t.read <= k < |e.roots|
      ensures RootOk(e, t, e.roots[k])
    {
      assert RootOk(e, s, e.roots[k]);
      if e.roots[k] in e.w.results {
        ResultWiring(e, e.roots[k]);
        assert e.roots[k] != r;
      }
    }
  }

  lemma ReaderStepNodes(e: Endpoint, s: State, t: State)
    requires Graphed(e) && NodesOk(e, s) && CellsOk(e, s) && t.pcs == s.pcs && t.cells == s.cells
    ensures NodesOk(e, t) && CellsOk(e, t)
  {
    forall q | q in s.cells
      ensures q in e.g
    {
      assert CellOk(e, s, q);
    }
    forall n | n in e.prod
      ensures NodeOk(e, t, n)
    {
      NodeOkGrows(e, s, t, n);
    }
    forall o
      ensures CellOk(e, t, o)
    {
      assert CellOk(e, s, o);
      CellOkGrows(e, s, t, o);
    }
  }

  // ---------- Every reachable state ----------

  lemma ReaderStepKeeps(e: Endpoint, s: State, t: State)
    requires Valid(e) && Inv(e, s) && StepReader(e, s) == Some(t)
    ensures Inv(e, t)
  {
    ReaderStepNodes(e, s, t);
    ReaderChannels(e, s, t, e.roots[s.read]);
    ReaderReader(e, s, t, e.roots[s.read]);
  }

  lemma GoroutineStepKeeps(e: Endpoint, s: State, t: State, n: string)
    requires Valid(e) && Inv(e, s) && n in e.prod && StepNode(e, s, n) == Some(t)
    ensures Inv(e, t)
  {
    assert NodeOk(e, s, n);
    NodeStepKeeps(e, s, t, n);
    NodeStepChannels(e, s, t, n);
    OnlyMoves(e, s, t, n);
    NodeStepReader(e, s, t);
  }

  lemma StepKeeps(e: Endpoint, s: State, t: State, a: Actor)
    requires Valid(e) && Inv(e, s) && Step(e, s, a) == Some(t)
    ensures Inv(e, t)
  {
    match a
    case Reader => ReaderStepKeeps(e, s, t);
    case Node(n) => GoroutineStepKeeps(e, s, t, n);
  }

  lemma InitNodes(e: Endpoint)
    requires Graphed(e)
    ensures NodesOk(e, Init(e)) && CellsOk(e, Init(e))
  {
  }

  lemma InitChannels(e: Endpoint, r: string)
    ensures ChannelsOk(e, Init(e)) && RootOk(e, Init(e), r)
  {
  }

  lemma InitInv(e: Endpoint)
    requires Graphed(e)
    ensures Inv(e, Init(e))
  {
    InitNodes(e);
    InitChannels(e, "");
    forall k | 0 <= k < |e.roots|
      ensures RootOk(e, Init(e), e.roots[k])
    {
      InitChannels(e, e.roots[k]);
    }
  }

  lemma {:induction false} RunKeeps(e: Endpoint, schedule: seq<Actor>)
    requires Valid(e) && Run(e, schedule).Some?
    ensures Inv(e, Run(e, schedule).value)
  {
    if schedule == [] {
      InitInv(e);
    } else {
      var init, last := schedule[..|schedule| - 1], schedule[|schedule| - 1];
      RunKeeps(e, init);
      StepKeeps(e, Run(e, init).value, Run(e, schedule).value, last);
    }
  }

  // ---------- No deadlock ----------

  /** A send never has to wait: the channel has not been used before. */
  lemma SendNeverWaits(e: Endpoint, s: State, n: string)
    requires Cabled(e) && ChannelsOk(e, s) && n in s.pcs && s.pcs[n].Sending? && n in e.prod
    ensures StepNode(e, s, n).Some?
  {
    var j := s.pcs[n].j;
    if j < |Out(e.w, n)| {
      PositionOf(e, n, j);
      assert SlotOk(e, s, Out(e.w, n)[j]);
    }
  }

  lemma CheckNeverWaits(e: Endpoint, s: State, n: string)
    requires Graphed(e) && Cabled(e) && Inv(e, s) && n in e.prod && s.pcs[n].Checking?
    ensures StepNode(e, s, n).Some?
  {
    var i := s.pcs[n].i;
    assert NodeOk(e, s, n);
    InputsAreDeps(e, n, i);
    HeldIsSent(e, s, In(e.w, n)[i].from, s.pcs[n].result);
  }

  lemma InputArrives(e: Endpoint, s: State, n: string, i: nat)
    requires Cabled(e) && ChannelsOk(e, s) && n in s.pcs && s.pcs[n] == Reading(i) && i < |In(e.w, n)|
    requires var d := In(e.w, n)[i].from; d in s.pcs && s.pcs[d].Done?
    ensures In(e.w, n)[i] in s.slots
  {
    InputWiring(e, n, i);
    assert InputOk(e, s, n, i);
  }

  /** A goroutine that does not hang waits only for dependencies that do not hang. */
  lemma InputDoesNotHang(e: Endpoint, n: string, i: nat)
    requires Graphed(e) && Cabled(e) && n in e.prod && GoodUntil(e, n, i) && i < |In(e.w, n)| && !Hangs(e, n)
    ensures var d := In(e.w, n)[i].from; d in e.prod && !Hangs(e, d)
  {
    var deps, d := Succ(e.g, n), In(e.w, n)[i].from;
    InputsAreDeps(e, n, i);
    assert InOrder(e.g, e.w, n);
    if FateOf(e, d) != Good {
      forall j | 0 <= j < i && j < |deps|
        ensures deps[j] in e.g && FateOf(e, deps[j]) == Good
      {
        assert In(e.w, n)[j].from == deps[j];
      }
      assert i < |deps|;
      FirstOffIs(e, n, 0, i);
    }
  }

  /** It waits only for one that has not ended. */
  lemma WaitsForUnfinished(e: Endpoint, s: State, n: string)
    requires Graphed(e) && Cabled(e) && Inv(e, s) && n in e.prod && s.pcs[n].Reading? && StepNode(e, s, n).None?
    requires !Hangs(e, n)
    ensures s.pcs[n].i < |In(e.w, n)|
    ensures var d := In(e.w, n)[s.pcs[n].i].from; Edge(e.g, n, d) && d in e.prod && !Hangs(e, d) && !s.pcs[d].Done?
  {
    var i := s.pcs[n].i;
    assert NodeOk(e, s, n);
    InputsAreDeps(e, n, i);
    InputDoesNotHang(e, n, i);
    if s.pcs[In(e.w, n)[i].from].Done? {
      InputArrives(e, s, n, i);
    }
  }

  /** A goroutine that has not ended and does not hang can go on, or something below it can. */
  lemma {:induction false} SomeoneMoves(e: Endpoint, s: State, n: string) returns (m: string)
    requires Graphed(e) && Cabled(e) && Inv(e, s) && n in e.prod && !s.pcs[n].Done? && !Hangs(e, n)
    ensures m in e.prod && StepNode(e, s, m).Some?
    decreases e.rank[n]
  {
    m := n;
    match s.pcs[n] {
      case Sending(_, _) => SendNeverWaits(e, s, n);
      case Checking(_, _) => CheckNeverWaits(e, s, n);
      case Reading(i) =>
        if StepNode(e, s, n).None? {
          WaitsForUnfinished(e, s, n);
          m := SomeoneMoves(e, s, In(e.w, n)[i].from);
        }
      case _ =>
    }
  }

  lemma OneMore(e: Endpoint, schedule: seq<Actor>, a: Actor)
    requires Run(e, schedule).Some?
    ensures Run(e, schedule + [a]) == Step(e, Run(e, schedule).value, a)
  {
    assert (schedule + [a])[..|schedule|] == schedule;
  }

  /** Once the goroutine of a root has ended, the reader does not wait for it. */
  lemma ReaderNeverStuck(e: Endpoint, s: State, r: string)
    requires Cabled(e) && r in e.w.results && r in s.pcs && s.pcs[r].Done? && RootOk(e, s, r)
    ensures e.w.results[r] in s.slots
  {
    ResultWiring(e, r);
  }

  /** All goroutines that do not hang have ended, and the reader has read all roots up to the
      first one that hangs. */
  ghost predicate Over(e: Endpoint, s: State)
    requires Graphed(e)
  {
    && (forall n :: n in s.pcs && n in e.g && !Hangs(e, n) ==> s.pcs[n].Done?)
    && (s.read >= |e.roots| || (e.roots[s.read] in e.g && Hangs(e, e.roots[s.read])))
  }

  /** The reader has finished. */
  ghost predicate AllRead(e: Endpoint, schedule: seq<Actor>) {
    Run(e, schedule).Some? && Run(e, schedule).value.read == |e.roots|
  }

  lemma SomeActorMoves(e: Endpoint, s: State)
    requires Valid(e) && Inv(e, s) && !Over(e, s)
    ensures exists a :: Step(e, s, a).Some?
  {
    if n :| n in s.pcs && n in e.g && !Hangs(e, n) && !s.pcs[n].Done? {
      var m := SomeoneMoves(e, s, n);
      assert Step(e, s, Node(m)).Some?;
    } else {
      ReaderNeverStuck(e, s, e.roots[s.read]);
      assert Step(e, s, Reader).Some?;
    }
  }

  /** In every reachable state some actor can make a step, unless all is over. */
  lemma DeadlockFree(e: Endpoint, schedule: seq<Actor>)
    requires Valid(e) && Run(e, schedule).Some?
    ensures Over(e, Run(e, schedule).value) || exists a :: Run(e, schedule + [a]).Some?
  {
    var s := Run(e, schedule).value;
    RunKeeps(e, schedule);
    if !Over(e, s) {
      SomeActorMoves(e, s);
      var a :| Step(e, s, a).Some?;
      OneMore(e, schedule, a);
    }
  }
}
