/** cache/memory.go: an expiring store, against a history in which nothing is ever collected. */
module MemoryStores {
  import opened Options
  import opened Graphs
  import opened Text
  import opened Collections

  const MAX_EXPIRES_IN := 86400

  datatype Entry = Entry(value: string, expAt: int)

  function Clamped(ttl: int): int {
    if ttl < 0 then 0 else if ttl > MAX_EXPIRES_IN then MAX_EXPIRES_IN else ttl
  }

  /** Negative lifetimes count as none, and those of more than a day as a day. */
  lemma ClampedIs(ttl: int)
    ensures ttl < 0 ==> Clamped(ttl) == 0
    ensures 0 <= ttl <= 24 * 60 * 60 ==> Clamped(ttl) == ttl
    ensures ttl > 24 * 60 * 60 ==> Clamped(ttl) == 24 * 60 * 60
  {
  }

  // ---------- What the store promises ----------

  datatype Event = Put(key: string, value: string, ttl: int, at: int) | Delete(key: string)

  /** The value of a key: that of the latest Put which no Delete follows, while it lives. */
  function Live(history: seq<Event>, key: string, now: int): Option<string> {
    if history == [] then None
    else
      match history[|history| - 1]
      case Put(k, value, ttl, at) =>
        if k == key then (if now < at + Clamped(ttl) then Some(value) else None)
        else Live(history[..|history| - 1], key, now)
      case Delete(k) => if k == key then None else Live(history[..|history| - 1], key, now)
  }

  /** The i-th event set this value, and no later one concerns the key. */
  ghost predicate LatestPut(history: seq<Event>, key: string, i: nat, value: string, ttl: int, at: int) {
    && i < |history| && history[i] == Put(key, value, ttl, at)
    && forall j :: i < j < |history| ==> history[j].key != key
  }

  /** A key has a value exactly while the latest event that concerns it set that value, and its
      lifetime has not passed. */
  lemma {:induction false} LiveIff(history: seq<Event>, key: string, now: int, value: string)
    ensures Live(history, key, now) == Some(value) <==>
      exists i, ttl, at :: LatestPut(history, key, i, value, ttl, at) && now < at + Clamped(ttl)
  {
    if history != [] {
      var init, last := history[..|history| - 1], history[|history| - 1];
      if last.key == key {
        forall i, v, ttl, at | LatestPut(history, key, i, v, ttl, at)
          ensures i == |init|
        {
        }
        assert last.Put? ==> LatestPut(history, key, |init|, last.value, last.ttl, last.at);
      } else {
        LiveIff(init, key, now, value);
        forall i, ttl, at
          ensures LatestPut(history, key, i, value, ttl, at) <==> LatestPut(init, key, i, value, ttl, at)
        {
        }
      }
    }
  }

  /** What is in the database now. */
  function Found(db: map<string, Entry>, key: string, now: int): Option<string> {
    if key in db && now < db[key].expAt then Some(db[key].value) else None
  }

  /** From some time on, the database is as good as the history. */
  ghost predicate Agrees(db: map<string, Entry>, history: seq<Event>, clock: int) {
    forall key, now :: now >= clock ==> Found(db, key, now) == Live(history, key, now)
  }

  lemma LiveAfter(history: seq<Event>, e: Event, key: string, now: int)
    ensures Live(history + [e], key, now) ==
      if e.key != key then Live(history, key, now)
      else if e.Put? && now < e.at + Clamped(e.ttl) then Some(e.value) else None
  {
    assert (history + [e])[..|history|] == history;
  }

  lemma PutAgrees(db: map<string, Entry>, history: seq<Event>, clock: int, k: string, v: string, ttl: int, at: int)
    requires Agrees(db, history, clock) && at >= clock
    ensures Agrees(db[k := Entry(v, at + Clamped(ttl))], history + [Put(k, v, ttl, at)], at)
  {
    forall key, now | now >= at
      ensures Found(db[k := Entry(v, at + Clamped(ttl))], key, now) == Live(history + [Put(k, v, ttl, at)], key, now)
    {
      LiveAfter(history, Put(k, v, ttl, at), key, now);
      assert Found(db, key, now) == Live(history, key, now);
    }
  }

  lemma DeleteAgrees(db: map<string, Entry>, history: seq<Event>, clock: int, k: string)
    requires Agrees(db, history, clock)
    ensures Agrees(db - {k}, history + [Delete(k)], clock)
  {
    forall key, now | now >= clock
      ensures Found(db - {k}, key, now) == Live(history + [Delete(k)], key, now)
    {
      LiveAfter(history, Delete(k), key, now);
      assert Found(db, key, now) == Live(history, key, now);
    }
  }

  lemma LaterAgrees(db: map<string, Entry>, history: seq<Event>, clock: int, at: int)
    requires Agrees(db, history, clock) && clock <= at
    ensures Agrees(db, history, at)
  {
    forall key, now | now >= at
      ensures Found(db, key, now) == Live(history, key, now)
    {
      assert now >= clock;
    }
  }

  /** Removing an entry that had expired by some earlier tick goes unnoticed. */
  lemma CollectAgrees(db: map<string, Entry>, history: seq<Event>, clock: int, tick: int, k: string)
    requires Agrees(db, history, clock) && tick <= clock && k in db && tick >= db[k].expAt
    ensures Agrees(db - {k}, history, clock)
  {
    forall key, now | now >= clock
      ensures Found(db - {k}, key, now) == Live(history, key, now)
    {
      assert Found(db, key, now) == Live(history, key, now);
    }
  }

  /** The list has the values of these keys: no key twice, only keys with the prefix that lived
      at the beginning, and all of those that live until the end. */
  ghost predicate ListsLive(history: seq<Event>, prefix: string, from: int, until: int, keys: seq<string>,
                            list: seq<string>) {
    && |keys| == |list| && NoDup(keys)
    && (forall i :: 0 <= i < |keys| ==> HasPrefix(keys[i], prefix) && Live(history, keys[i], from) == Some(list[i]))
    && (forall k :: HasPrefix(k, prefix) && Live(history, k, until).Some? ==> k in keys)
  }

  // ---------- The store ----------

  class MemoryStore {
    var db: map<string, Entry>
    ghost var history: seq<Event>
    ghost var clock: int

    ghost predicate Valid()
      reads this
    {
      Agrees(db, history, clock)
    }

    constructor (ghost now: int)
      ensures Valid() && history == [] && clock == now
    {
      db := map[];
      history, clock := [], now;
    }

    method Del(k: string)
      requires Valid()
      modifies this
      ensures Valid() && history == old(history) + [Delete(k)] && clock == old(clock)
    {
      DeleteAgrees(db, history, clock, k);
      db := db - {k};
      history := history + [Delete(k)];
    }

    method Get(k: string, now: int) returns (r: Option<string>)
      requires Valid() && now >= clock
      ensures r == Live(history, k, now)
    {
      assert Found(db, k, now) == Live(history, k, now);
      if k in db {
        if now >= db[k].expAt {
          return None;
        }
        return Some(db[k].value);
      }
      return None;
    }

    /** Reads the clock again for each entry, between from and until. */
    method GetAllWithPrefix(prefix: string, times: seq<int>, ghost from: int,
                            ghost until: int) returns (list: seq<string>)
      requires Valid() && |times| == |db| && clock <= from <= until && forall t <- times :: from <= t <= until
      ensures exists keys :: ListsLive(history, prefix, from, until, keys, list)
    {
      ghost var keys: seq<string>;
      list, keys := [], [];
      var order := Enumerate(db.Keys);
      SameSize(order, db.Keys);
      for i := 0 to |order|
        invariant |keys| == |list| && NoDup(keys) && forall k <- keys :: k in order[..i]
        invariant forall j :: 0 <= j < |keys| ==>
          HasPrefix(keys[j], prefix) && keys[j] in db && from < db[keys[j]].expAt && list[j] == db[keys[j]].value
        invariant forall j :: 0 <= j < i && HasPrefix(order[j], prefix) && until < db[order[j]].expAt ==>
          order[j] in keys
      {
        var k := order[i];
        assert k in Elems(order);
        assert order[..i + 1] == order[..i] + [k];
        assert times[i] in times;
        assert k !in order[..i];
        if times[i] >= db[k].expAt || !HasPrefix(k, prefix) {
          continue;
        }
        list, keys := list + [db[k].value], keys + [k];
      }
      forall j | 0 <= j < |keys|
        ensures Live(history, keys[j], from) == Some(list[j])
      {
        assert Found(db, keys[j], from) == Live(history, keys[j], from);
      }
      forall k | HasPrefix(k, prefix) && Live(history, k, until).Some?
        ensures k in keys
      {
        assert Found(db, k, until) == Live(history, k, until);
        assert k in Elems(order);
      }
      assert ListsLive(history, prefix, from, until, keys, list);
    }

    method Set(k: string, v: string, ttl: int, now: int)
      requires Valid() && now >= clock
      modifies this
      ensures Valid() && history == old(history) + [Put(k, v, ttl, now)] && clock == now
    {
      var t := ttl;
      if t < 0 {
        t := 0;
      } else if t > MAX_EXPIRES_IN {
        t := MAX_EXPIRES_IN;
      }
      PutAgrees(db, history, clock, k, v, ttl, now);
      db := db[k := Entry(v, now + t)];
      history, clock := history + [Put(k, v, ttl, now)], now;
    }

    /** One tick of the collector, which may be handled at a later time. It leaves no trace in
        the history. */
    method Gc(now: int, ghost at: int)
      requires Valid() && now <= at && clock <= at
      modifies this
      ensures Valid() && history == old(history) && clock == at
      ensures forall k :: k in db <==> k in old(db) && now < old(db)[k].expAt
      ensures forall k :: k in db ==> db[k] == old(db)[k]
    {
      var order := Enumerate(db.Keys);
      ghost var was := db;
      LaterAgrees(db, history, clock, at);
      clock := at;
      for i := 0 to |order|
        invariant Valid() && history == old(history) && clock == at
        invariant forall k :: k in db <==> k in was && (k in order[..i] ==> now < was[k].expAt)
        invariant forall k :: k in db ==> db[k] == was[k]
      {
        var k := order[i];
        assert order[..i + 1] == order[..i] + [k];
        assert k in Elems(order);
        if k in db && now >= db[k].expAt {
          CollectAgrees(db, history, clock, now, k);
          db := db - {k};
        }
      }
      assert forall k :: k in was ==> k in Elems(order);
      assert order[..|order|] == order;
    }
  }

  lemma {:induction false} SameSize(order: seq<string>, keys: set<string>)
    requires NoDup(order) && Elems(order) == keys
    ensures |order| == |keys|
  {
    if order != [] {
      var init, last := order[..|order| - 1], order[|order| - 1];
      assert Elems(order) == Elems(init) + {last};
      SameSize(init, Elems(init));
      assert last !in Elems(init);
    }
  }
}
