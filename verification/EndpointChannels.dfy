/** handler/endpoint.go: newChannels and fillChannels, which fill three maps in place. */
module EndpointChannels {
  import opened Graphs
  import opened Sequence
  import opened Wiring

  class ChannelMaps {
    var inputChannels: map<string, seq<Chan>>
    var outputChannels: map<string, seq<Chan>>
    var resultChannels: map<string, Chan>
    var made: nat // how many channels have been made

    ghost function View(): Channels
      reads this
    {
      Channels(inputChannels, outputChannels, resultChannels, made)
    }

    constructor ()
      ensures View() == NO_CHANNELS
    {
      inputChannels, outputChannels, resultChannels, made := map[], map[], map[], 0;
    }

    method FillChannels(item: Item, ghost reg: Registry, ghost g: Graph, ghost rank: map<string, nat>)
      requires Shows(g, reg) && Known(reg, item) && Ranked(g, rank) && g.Keys <= rank.Keys
      modifies this
      ensures View() == Fill(g, rank, item.name, old(View()))
      decreases rank[item.name], |Succ(g, item.name)| + 1
    {
      ShownDeps(g, reg, item);
      var deps := item.Deps();
      FillEach(item, deps, reg, g, rank);
      AddResultChannel(item.name);
    }

    /** The loop over the dependencies. */
    method FillEach(item: Item, deps: seq<Item>, ghost reg: Registry, ghost g: Graph, ghost rank: map<string, nat>)
      requires Shows(g, reg) && Known(reg, item) && Ranked(g, rank) && g.Keys <= rank.Keys
      requires Succ(g, item.name) == NamesOf(deps) && forall d <- deps :: Known(reg, d)
      modifies this
      ensures View() == FillDeps(g, rank, item.name, 0, old(View()))
      decreases rank[item.name], |Succ(g, item.name)|
    {
      ghost var w := View();
      for k := 0 to |deps|
        invariant FillDeps(g, rank, item.name, k, View()) == FillDeps(g, rank, item.name, 0, w)
      {
        assert Succ(g, item.name)[k] == deps[k].name;
        FillDependency(item, deps[k], reg, g, rank);
      }
    }

    /** The body of the loop: a channel from dep to item, and all channels below dep. */
    method FillDependency(item: Item, dep: Item, ghost reg: Registry, ghost g: Graph, ghost rank: map<string, nat>)
      requires Shows(g, reg) && Known(reg, item) && Known(reg, dep) && dep.name in Succ(g, item.name)
      requires Ranked(g, rank) && g.Keys <= rank.Keys
      modifies this
      ensures Edge(g, item.name, dep.name)
      ensures View() == Fill(g, rank, dep.name, Wiring.AddLink(old(View()), item.name, dep.name))
      decreases rank[item.name], 0
    {
      assert Edge(g, item.name, dep.name);
      AddLinkChannel(item.name, dep.name);
      FillChannels(dep, reg, g, rank);
    }

    method AddLinkChannel(item: string, dep: string)
      modifies this
      ensures View() == Wiring.AddLink(old(View()), item, dep)
    {
      var ch := Link(made, dep, item);
      made := made + 1;
      inputChannels := Append(inputChannels, item, ch);
      outputChannels := Append(outputChannels, dep, ch);
    }

    method AddResultChannel(name: string)
      modifies this
      ensures View() == AddResult(old(View()), name)
    {
      if name !in resultChannels {
        var ch := ResultOf(made, name);
        made := made + 1;
        outputChannels := Append(outputChannels, name, ch);
        resultChannels := resultChannels[name := ch];
      }
    }
  }

  /** One writer and one reader for each channel, result channels for all items below the
      roots, and inputs from the dependencies in order. */
  ghost predicate ChannelsFor(g: Graph, roots: seq<string>, w: Channels) {
    && Wired(w) && Finished(g, w)
    && (forall n :: n in g ==> Settled(g, w, n))
    && (forall i :: 0 <= i < |roots| ==> roots[i] in w.results)
  }

  method NewChannels(items: seq<Item>, ghost reg: Registry, ghost g: Graph, ghost rank: map<string, nat>)
    returns (maps: ChannelMaps)
    requires Shows(g, reg) && Ranked(g, rank) && g.Keys <= rank.Keys && forall i <- items :: Known(reg, i)
    ensures ChannelsFor(g, NamesOf(items), maps.View())
  {
    ghost var names := NamesOf(items);
    forall i | 0 <= i < |items|
      ensures names[i] in rank
    {
      assert items[i] in items && names[i] == items[i].name;
    }
    maps := new ChannelMaps();
    for i := 0 to |items|
      invariant FillAll(g, rank, names[i..], maps.View()) == FillAll(g, rank, names, NO_CHANNELS)
      invariant fresh(maps)
    {
      assert names[i..][0] == items[i].name && names[i..][1..] == names[i + 1..];
      maps.FillChannels(items[i], reg, g, rank);
    }
    AllChannels(g, rank, names);
  }

  lemma AllChannels(g: Graph, rank: map<string, nat>, roots: seq<string>)
    requires Ranked(g, rank) && g.Keys <= rank.Keys && forall i :: 0 <= i < |roots| ==> roots[i] in rank
    ensures ChannelsFor(g, roots, FillAll(g, rank, roots, NO_CHANNELS))
  {
    FillAllSound(g, rank, roots, NO_CHANNELS);
    forall n | n in g
      ensures Settled(g, FillAll(g, rank, roots, NO_CHANNELS), n)
    {
      FillAllSettled(g, rank, roots, NO_CHANNELS, n);
    }
  }
}
