/** How configload creates items by name and links them: the steps shared by
    endpoint_sequence.go and helper.go, each tied to one call of the run. */
module ItemBuilding {
  import opened Options
  import opened ItemLinks
  import opened Sequence

  /** The items hold the links that the calls have made so far. */
  ghost predicate Built(ops: seq<Op>, l: Links, reg: Registry)
    reads reg.Values
  {
    Run(ops) == Some(l) && Mirrors(l, reg)
  }

  ghost predicate Extends(reg: Registry, more: Registry) {
    reg.Keys <= more.Keys && forall n {:trigger more[n]} {:trigger reg[n]} :: n in reg ==> more[n] == reg[n]
  }

  lemma RunStep(ops: seq<Op>, op: Op)
    ensures Run(ops + [op]) == if Run(ops).None? then None else Apply(Run(ops).value, op)
  {
    assert (ops + [op])[..|ops|] == ops;
  }

  /** Looks an item up by name, or creates it. */
  method Obtain(reg: Registry, n: string, ghost ops: seq<Op>, ghost l: Links)
    returns (item: Item, more: Registry)
    requires Built(ops, l, reg)
    ensures Extends(reg, more) && more.Keys == reg.Keys + {n} && Known(more, item) && item.name == n
    ensures n in reg ==> more == reg
    ensures n !in reg ==> fresh(item)
    ensures Built(ops + [Introduce(n)], WithItem(l, n), more)
  {
    RunStep(ops, Introduce(n));
    if n in reg {
      item, more := reg[n], reg;
    } else {
      item := new Item(n);
      more := reg[n := item];
    }
  }

  /** Makes p depend on the item called r, which is created if need be. */
  method Refer(p: Item, r: string, reg: Registry, ghost ops: seq<Op>, ghost l: Links)
    returns (ok: bool, more: Registry, ghost links: Links)
    requires Built(ops, l, reg) && Known(reg, p)
    modifies reg.Values
    ensures if ok then Built(ops + [Op.Add(p.name, r)], links, more) else Run(ops + [Op.Add(p.name, r)]).None?
    ensures Extends(reg, more) && forall n :: n in more && n !in reg ==> fresh(more[n])
  {
    RunStep(ops, Op.Add(p.name, r));
    AcceptedKeeps(ops);
    WithBothKeeps(l, p.name, r);
    var ref;
    ref, more := Obtain(reg, r, ops, l);
    ok := p.Add(ref, more, WithItem(l, r));
    links := if ok then AddLink(WithItem(l, r), p.name, r).value else l;
  }
}
