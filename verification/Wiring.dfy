/** Which channels newChannels of handler/endpoint.go creates for a dependency graph. */
module Wiring {
  import opened Graphs

  /** A one-slot channel. The names only record which lists it was created for. */
  datatype Chan =
    | Link(id: nat, from: string, to: string)
    | ResultOf(id: nat, from: string)

  datatype Channels = Channels(
    inputs: map<string, seq<Chan>>, outputs: map<string, seq<Chan>>, results: map<string, Chan>, next: nat)

  const NO_CHANNELS := Channels(map[], map[], map[], 0)

  function Get(m: map<string, seq<Chan>>, n: string): seq<Chan> {
    if n in m then m[n] else []
  }

  function In(w: Channels, n: string): seq<Chan> {
    Get(w.inputs, n)
  }

  function Out(w: Channels, n: string): seq<Chan> {
    Get(w.outputs, n)
  }

  function Append(m: map<string, seq<Chan>>, n: string, c: Chan): map<string, seq<Chan>> {
    m[n := Get(m, n) + [c]]
  }

  function AddLink(w: Channels, item: string, dep: string): Channels {
    var c := Link(w.next, dep, item);
    Channels(Append(w.inputs, item, c), Append(w.outputs, dep, c), w.results, w.next + 1)
  }

  function AddResult(w: Channels, item: string): Channels {
    if item in w.results then w
    else
      var c := ResultOf(w.next, item);
      Channels(w.inputs, Append(w.outputs, item, c), w.results[item := c], w.next + 1)
  }

  /** All channels below item, and its result channel. The rank only shows that this ends. */
  ghost function Fill(g: Graph, rank: map<string, nat>, item: string, w: Channels): Channels
    requires Ranked(g, rank) && item in rank
    decreases rank[item], |Succ(g, item)| + 1
  {
    assert forall d <- Succ(g, item) :: Edge(g, item, d);
    AddResult(FillDeps(g, rank, item, 0, w), item)
  }

  /** The loop over the dependencies, from the k-th on. */
  ghost function FillDeps(g: Graph, rank: map<string, nat>, item: string, k: nat, w: Channels): Channels
    requires Ranked(g, rank) && item in rank && k <= |Succ(g, item)|
    decreases rank[item], |Succ(g, item)| - k
  {
    if k == |Succ(g, item)| then w
    else
      var dep := Succ(g, item)[k];
      assert Edge(g, item, dep);
      FillDeps(g, rank, item, k + 1, Fill(g, rank, dep, AddLink(w, item, dep)))
  }

  ghost function FillAll(g: Graph, rank: map<string, nat>, items: seq<string>, w: Channels): Channels
    requires Ranked(g, rank) && forall i :: 0 <= i < |items| ==> items[i] in rank
    decreases |items|
  {
    if items == [] then w else FillAll(g, rank, items[1..], Fill(g, rank, items[0], w))
  }

  // ---------- Every channel has one place to be written and one to be read ----------

  /** Inputs are links to their item, and are written by the item they come from. */
  ghost predicate InputsFit(w: Channels) {
    forall x, c {:trigger c in In(w, x)} :: c in In(w, x) ==> c.Link? && c.to == x && c in Out(w, c.from)
  }

  /** Outputs are inputs elsewhere, or the result channel of their item. */
  ghost predicate OutputsFit(w: Channels) {
    forall x, c {:trigger c in Out(w, x)} :: c in Out(w, x) ==>
      && c.from == x && c.id < w.next
      && (if c.Link? then c in In(w, c.to) else x in w.results && w.results[x] == c)
  }

  ghost predicate ResultsFit(w: Channels) {
    forall x :: x in w.results ==> w.results[x].ResultOf? && w.results[x] in Out(w, x)
  }

  ghost predicate NoneTwice(w: Channels) {
    (forall x :: NoDup(In(w, x))) && (forall x :: NoDup(Out(w, x)))
  }

  /** Each channel is in exactly one output list, once, and either in exactly one input
      list, once, or the result channel of its name. */
  ghost predicate Wired(w: Channels) {
    InputsFit(w) && OutputsFit(w) && ResultsFit(w) && NoneTwice(w)
  }

  lemma AddLinkChanges(w: Channels, item: string, dep: string)
    ensures var v, c := AddLink(w, item, dep), Link(w.next, dep, item);
            && (forall x :: In(v, x) == if x == item then In(w, x) + [c] else In(w, x))
            && (forall x :: Out(v, x) == if x == dep then Out(w, x) + [c] else Out(w, x))
  {
  }

  lemma AddResultChanges(w: Channels, item: string)
    ensures var v, c := AddResult(w, item), ResultOf(w.next, item);
            && (forall x :: In(v, x) == In(w, x))
            && (forall x :: Out(v, x) == if x == item && item !in w.results then Out(w, x) + [c] else Out(w, x))
  {
  }

  lemma FreshInNone(w: Channels, x: string, c: Chan)
    requires InputsFit(w) && OutputsFit(w) && c.id == w.next
    ensures c !in In(w, x) && c !in Out(w, x)
  {
  }

  lemma NoDupAppend<T>(s: seq<T>, c: T)
    requires NoDup(s) && c !in s
    ensures NoDup(s + [c])
  {
  }

  lemma AddLinkFits(w: Channels, item: string, dep: string)
    requires InputsFit(w) && OutputsFit(w) && ResultsFit(w)
    ensures var v := AddLink(w, item, dep); InputsFit(v) && OutputsFit(v) && ResultsFit(v)
  {
    var v, c := AddLink(w, item, dep), Link(w.next, dep, item);
    forall x, d | d in In(v, x)
      ensures d.Link? && d.to == x && d in Out(v, d.from)
    {
      AddLinkChanges(w, item, dep);
      assert d == c || d in In(w, x);
    }
    forall x, d | d in Out(v, x)
      ensures d.from == x && d.id < v.next
      ensures if d.Link? then d in In(v, d.to) else x in v.results && v.results[x] == d
    {
      AddLinkChanges(w, item, dep);
      assert d == c || d in Out(w, x);
    }
    forall x | x in v.results
      ensures v.results[x].ResultOf? && v.results[x] in Out(v, x)
    {
      AddLinkChanges(w, item, dep);
    }
  }

  lemma AddLinkWired(w: Channels, item: string, dep: string)
    requires Wired(w)
    ensures Wired(AddLink(w, item, dep))
  {
    var v, c := AddLink(w, item, dep), Link(w.next, dep, item);
    AddLinkFits(w, item, dep);
    forall x
      ensures NoDup(In(v, x)) && NoDup(Out(v, x))
    {
      AddLinkChanges(w, item, dep);
      FreshInNone(w, x, c);
      NoDupAppend(In(w, x), c);
      NoDupAppend(Out(w, x), c);
    }
  }

  lemma AddResultFits(w: Channels, item: string)
    requires InputsFit(w) && OutputsFit(w) && ResultsFit(w)
    ensures var v := AddResult(w, item); InputsFit(v) && OutputsFit(v) && ResultsFit(v)
  {
    var v, c := AddResult(w, item), ResultOf(w.next, item);
    forall x, d | d in In(v, x)
      ensures d.Link? && d.to == x && d in Out(v, d.from)
    {
      AddResultChanges(w, item);
    }
    forall x, d | d in Out(v, x)
      ensures d.from == x && d.id < v.next
      ensures if d.Link? then d in In(v, d.to) else x in v.results && v.results[x] == d
    {
      AddResultChanges(w, item);
      assert (x == item && d == c && item !in w.results) || d in Out(w, x);
    }
    forall x | x in v.results
      ensures v.results[x].ResultOf? && v.results[x] in Out(v, x)
    {
      AddResultChanges(w, item);
    }
  }

  lemma AddResultWired(w: Channels, item: string)
    requires Wired(w)
    ensures Wired(AddResult(w, item))
  {
    var v, c := AddResult(w, item), ResultOf(w.next, item);
    AddResultFits(w, item);
    forall x
      ensures NoDup(In(v, x)) && NoDup(Out(v, x))
    {
      AddResultChanges(w, item);
      FreshInNone(w, x, c);
      NoDupAppend(Out(w, x), c);
    }
  }

  /** A property that every new channel keeps holds of the filled channels. */
  lemma {:induction false} FillKeeps(g: Graph, rank: map<string, nat>, item: string, w: Channels, p: Channels -> bool)
    requires Ranked(g, rank) && item in rank && p(w)
    requires forall v, x, d :: p(v) && Edge(g, x, d) ==> p(AddLink(v, x, d))
    requires forall v, x :: p(v) ==> p(AddResult(v, x))
    ensures p(Fill(g, rank, item, w))
    decreases rank[item], |Succ(g, item)| + 1
  {
    FillDepsKeeps(g, rank, item, 0, w, p);
  }

  lemma {:induction false} FillDepsKeeps(g: Graph, rank: map<string, nat>, item: string, k: nat, w: Channels,
                                         p: Channels -> bool)
    requires Ranked(g, rank) && item in rank && k <= |Succ(g, item)| && p(w)
    requires forall v, x, d :: p(v) && Edge(g, x, d) ==> p(AddLink(v, x, d))
    requires forall v, x :: p(v) ==> p(AddResult(v, x))
    ensures p(FillDeps(g, rank, item, k, w))
    decreases rank[item], |Succ(g, item)| - k
  {
    if k < |Succ(g, item)| {
      var dep := Succ(g, item)[k];
      assert Edge(g, item, dep);
      FillKeeps(g, rank, dep, AddLink(w, item, dep), p);
      FillDepsKeeps(g, rank, item, k + 1, Fill(g, rank, dep, AddLink(w, item, dep)), p);
    }
  }

  // ---------- Inputs follow the dependencies ----------

  /** Every input of x comes from a dependency; the first ones come from the dependencies in order. */
  ghost predicate InOrder(g: Graph, w: Channels, x: string) {
    && (forall c :: c in In(w, x) ==> Edge(g, x, c.from))
    && (forall i :: 0 <= i < |In(w, x)| && i < |Succ(g, x)| ==> In(w, x)[i].from == Succ(g, x)[i])
  }

  /** The first round of inputs of x is either complete or not begun; it is complete once x is finished. */
  ghost predicate Settled(g: Graph, w: Channels, x: string) {
    && InOrder(g, w, x)
    && (|In(w, x)| >= |Succ(g, x)| || (|In(w, x)| == 0 && x !in w.results))
  }

  lemma AddLinkInOrder(g: Graph, w: Channels, x: string, k: nat)
    requires k < |Succ(g, x)| && InOrder(g, w, x) && (|In(w, x)| == k || |In(w, x)| >= |Succ(g, x)|)
    ensures InOrder(g, AddLink(w, x, Succ(g, x)[k]), x)
  {
    assert Edge(g, x, Succ(g, x)[k]);
  }

  /** Filling below item leaves the inputs of items that rank as high alone. */
  lemma {:induction false} FillSameInputs(g: Graph, rank: map<string, nat>, item: string, w: Channels, x: string)
    requires Ranked(g, rank) && item in rank && x in rank && rank[x] >= rank[item] && x != item
    ensures In(Fill(g, rank, item, w), x) == In(w, x)
    ensures x in Fill(g, rank, item, w).results <==> x in w.results
    decreases rank[item], |Succ(g, item)| + 1
  {
    FillDepsSameInputs(g, rank, item, 0, w, x);
  }

  lemma {:induction false} FillDepsSameInputs(g: Graph, rank: map<string, nat>, item: string, k: nat, w: Channels,
                                              x: string)
    requires Ranked(g, rank) && item in rank && k <= |Succ(g, item)| && x in rank && rank[x] >= rank[item] && x != item
    ensures In(FillDeps(g, rank, item, k, w), x) == In(w, x)
    ensures x in FillDeps(g, rank, item, k, w).results <==> x in w.results
    decreases rank[item], |Succ(g, item)| - k
  {
    if k < |Succ(g, item)| {
      var dep := Succ(g, item)[k];
      assert Edge(g, item, dep);
      FillSameInputs(g, rank, dep, AddLink(w, item, dep), x);
      FillDepsSameInputs(g, rank, item, k + 1, Fill(g, rank, dep, AddLink(w, item, dep)), x);
    }
  }

  lemma {:induction false} FillSettled(g: Graph, rank: map<string, nat>, item: string, w: Channels, x: string)
    requires Ranked(g, rank) && item in rank && x in rank && Settled(g, w, x)
    ensures Settled(g, Fill(g, rank, item, w), x)
    decreases rank[item], |Succ(g, item)| + 1
  {
    if x == item {
      FillOwnRound(g, rank, item, 0, w);
    } else {
      FillDepsSettled(g, rank, item, 0, w, x);
    }
  }

  /** The inputs of other items grow in whole rounds. */
  lemma {:induction false} FillDepsSettled(g: Graph, rank: map<string, nat>, item: string, k: nat, w: Channels,
                                           x: string)
    requires Ranked(g, rank) && item in rank && k <= |Succ(g, item)| && x in rank && x != item && Settled(g, w, x)
    ensures Settled(g, FillDeps(g, rank, item, k, w), x)
    decreases rank[item], |Succ(g, item)| - k
  {
    if k < |Succ(g, item)| {
      var dep := Succ(g, item)[k];
      assert Edge(g, item, dep);
      LinkElsewhere(g, w, item, dep, x);
      FillSettled(g, rank, dep, AddLink(w, item, dep), x);
      FillDepsSettled(g, rank, item, k + 1, Fill(g, rank, dep, AddLink(w, item, dep)), x);
    }
  }

  /** Those of the item itself grow one by one. */
  lemma {:induction false} FillOwnRound(g: Graph, rank: map<string, nat>, item: string, k: nat, w: Channels)
    requires Ranked(g, rank) && item in rank && k <= |Succ(g, item)| && OwnRound(g, w, item, k)
    ensures var v := FillDeps(g, rank, item, k, w); InOrder(g, v, item) && |In(v, item)| >= |Succ(g, item)|
    decreases |Succ(g, item)| - k
  {
    if k < |Succ(g, item)| {
      var dep := Succ(g, item)[k];
      OneMoreOwn(g, rank, item, k, w);
      FillOwnRound(g, rank, item, k + 1, Fill(g, rank, dep, AddLink(w, item, dep)));
    }
  }

  /** In the first round, the inputs of x grow one by one. */
  ghost predicate OwnRound(g: Graph, w: Channels, x: string, k: nat) {
    InOrder(g, w, x) && ((|In(w, x)| == k && x !in w.results) || |In(w, x)| >= |Succ(g, x)|)
  }

  lemma OneMoreOwn(g: Graph, rank: map<string, nat>, item: string, k: nat, w: Channels)
    requires Ranked(g, rank) && item in rank && k < |Succ(g, item)| && OwnRound(g, w, item, k)
    ensures var dep := Succ(g, item)[k];
            Edge(g, item, dep) && OwnRound(g, Fill(g, rank, dep, AddLink(w, item, dep)), item, k + 1)
  {
    var dep := Succ(g, item)[k];
    assert Edge(g, item, dep);
    AddLinkInOrder(g, w, item, k);
    FillSameInputs(g, rank, dep, AddLink(w, item, dep), item);
  }

  lemma LinkElsewhere(g: Graph, w: Channels, item: string, dep: string, x: string)
    requires Settled(g, w, x) && x != item
    ensures Settled(g, AddLink(w, item, dep), x)
  {
    assert In(AddLink(w, item, dep), x) == In(w, x);
  }

  // ---------- All items get a result channel ----------

  /** Finished items have only finished dependencies. */
  ghost predicate Finished(g: Graph, w: Channels) {
    forall x, d :: x in w.results && Edge(g, x, d) ==> d in w.results
  }

  lemma {:induction false} FillFinished(g: Graph, rank: map<string, nat>, item: string, w: Channels)
    requires Ranked(g, rank) && item in rank && Finished(g, w)
    ensures var v := Fill(g, rank, item, w);
            Finished(g, v) && item in v.results && w.results.Keys <= v.results.Keys
    decreases rank[item], |Succ(g, item)| + 1
  {
    FillDepsFinished(g, rank, item, 0, w);
  }

  lemma {:induction false} FillDepsFinished(g: Graph, rank: map<string, nat>, item: string, k: nat, w: Channels)
    requires Ranked(g, rank) && item in rank && k <= |Succ(g, item)| && Finished(g, w)
    ensures var v := FillDeps(g, rank, item, k, w);
            && Finished(g, v) && w.results.Keys <= v.results.Keys
            && forall i :: k <= i < |Succ(g, item)| ==> Succ(g, item)[i] in v.results
    decreases rank[item], |Succ(g, item)| - k
  {
    if k < |Succ(g, item)| {
      var dep := Succ(g, item)[k];
      assert Edge(g, item, dep);
      FillFinished(g, rank, dep, AddLink(w, item, dep));
      FillDepsFinished(g, rank, item, k + 1, Fill(g, rank, dep, AddLink(w, item, dep)));
    }
  }

  // ---------- All roots ----------

  lemma FillWired(g: Graph, rank: map<string, nat>, item: string, w: Channels)
    requires Ranked(g, rank) && item in rank && Wired(w)
    ensures Wired(Fill(g, rank, item, w))
  {
    forall v, x, d | Wired(v) && Edge(g, x, d)
      ensures Wired(AddLink(v, x, d))
    {
      AddLinkWired(v, x, d);
    }
    forall v, x | Wired(v)
      ensures Wired(AddResult(v, x))
    {
      AddResultWired(v, x);
    }
    FillKeeps(g, rank, item, w, v => Wired(v));
  }

  /** Every channel has one writer and one reader, every reachable item has a result channel,
      and its inputs start with one round over its dependencies. */
  lemma {:induction false} FillAllSound(g: Graph, rank: map<string, nat>, items: seq<string>, w: Channels)
    requires Ranked(g, rank) && forall i :: 0 <= i < |items| ==> items[i] in rank
    requires Wired(w) && Finished(g, w)
    ensures var v := FillAll(g, rank, items, w);
            && Wired(v) && Finished(g, v) && w.results.Keys <= v.results.Keys
            && forall i :: 0 <= i < |items| ==> items[i] in v.results
    decreases |items|
  {
    if items != [] {
      FillWired(g, rank, items[0], w);
      FillFinished(g, rank, items[0], w);
      FillAllSound(g, rank, items[1..], Fill(g, rank, items[0], w));
    }
  }

  lemma {:induction false} FillAllSettled(g: Graph, rank: map<string, nat>, items: seq<string>, w: Channels, x: string)
    requires Ranked(g, rank) && forall i :: 0 <= i < |items| ==> items[i] in rank
    requires x in rank && Settled(g, w, x)
    ensures Settled(g, FillAll(g, rank, items, w), x)
    decreases |items|
  {
    if items != [] {
      FillSettled(g, rank, items[0], w, x);
      FillAllSettled(g, rank, items[1..], Fill(g, rank, items[0], w), x);
    }
  }

  lemma FinishedReaches(g: Graph, w: Channels, a: string, b: string)
    requires Finished(g, w) && a in w.results && Reaches(g, a, b)
    ensures b in w.results
  {
    ReachesWithin(g, a, b, w.results.Keys);
  }
}
