/** handler/ratelimit/limiter.go: two sliding windows, the longer period first, as the
    configuration sorts them. When the first limit holds although the second one may replace its
    wait. */
module RateLimitPairs {
  import opened Options
  import opened RateLimits
  import opened RateLimitRuns

  /** At most n requests per p in mode a, then at most m per q in mode b. */
  datatype Pair = Pair(a: Mode, n: nat, p: int, b: Mode, m: nat, q: int)

  predicate Proper(c: Pair) {
    c.a != Unset && c.b != Unset && c.n > 0 && c.m > 0 && c.p > c.q > 0
  }

  function Limits(c: Pair, xs: seq<int>, ys: seq<int>): seq<Limit> {
    [Limit(c.a, c.p, c.n, Sliding(xs)), Limit(c.b, c.q, c.m, Sliding(ys))]
  }

  function Start(c: Pair, now: int): State {
    State(Limits(c, [], []), false, now, [])
  }

  lemma LastDecides(c: Pair, xs: seq<int>, ys: seq<int>, now: int)
    requires Proper(c)
    ensures var l := Limits(c, xs, ys);
            && AllRolled(l, now) == l
            && Verdict(l, now) == if WaitFor(l[1], now) != 0 then (c.b, WaitFor(l[1], now))
                                  else if WaitFor(l[0], now) != 0 then (c.a, WaitFor(l[0], now))
                                  else (Unset, 0)
  {
    var l := Limits(c, xs, ys);
    assert l[..1] == [l[0]] && l[..1][..0] == [];
    assert Verdict(l[..1][..0], now) == (Unset, 0);
  }

  // ---------- How admissions are paced ----------

  /** Each request is counted by the first limit, then by the second, before the next one. */
  ghost predicate Interleaved(xs: seq<int>, ys: seq<int>) {
    && |xs| == |ys|
    && (forall i :: 0 <= i < |xs| ==> xs[i] <= ys[i])
    && (forall i, j :: 0 <= i < j < |xs| ==> ys[i] <= xs[j])
  }

  /** The second limit always has capacity; the first has, unless the second was exhausted. */
  ghost predicate PacedAt(c: Pair, xs: seq<int>, ys: seq<int>, i: nat)
    requires |xs| == |ys|
  {
    i < |xs| ==>
      && (i >= c.m > 0 ==> ys[i - c.m] + c.q <= xs[i])
      && (i >= c.n > 0 ==> xs[i - c.n] + c.p <= xs[i] || (i >= c.m > 0 && ys[i - 1] < ys[i - c.m] + c.q))
  }

  ghost predicate Paced(c: Pair, xs: seq<int>, ys: seq<int>) {
    Interleaved(xs, ys) && forall i {:trigger PacedAt(c, xs, ys, i)} :: 0 <= i < |xs| ==> PacedAt(c, xs, ys, i)
  }

  /** The state is that of the two limits after paced admissions. */
  ghost predicate Follows(c: Pair, s: State) {
    && Serial(s) && |s.limits| == 2
    && s.limits == Limits(c, CountedAt(s.log, 0), CountedAt(s.log, 1))
    && Paced(c, CountedAt(s.log, 0), CountedAt(s.log, 1))
  }

  lemma PacedMore(c: Pair, xs: seq<int>, ys: seq<int>, check: int, x: int, y: int)
    requires Proper(c) && c.b == Wait && Paced(c, xs, ys) && check <= x <= y && (ys != [] ==> ys[|ys| - 1] <= check)
    requires var l := Limits(c, xs, ys);
             if Exhausted(l[1], check) then check + WaitFor(l[1], check) <= x else check + WaitFor(l[0], check) <= x
    ensures Paced(c, xs + [x], ys + [y])
  {
    var us, vs := xs + [x], ys + [y];
    forall i | 0 <= i < |us|
      ensures PacedAt(c, us, vs, i)
    {
      assert i < |xs| ==> PacedAt(c, xs, ys, i);
    }
    forall i, j | 0 <= i < j < |us|
      ensures vs[i] <= us[j]
    {
      assert j == |xs| ==> ys[i] <= ys[|ys| - 1];
    }
  }

  lemma NextFollows(c: Pair, s: State, e: Event)
    requires Proper(c) && c.b == Wait && Follows(c, s) && Next(s, e).Some?
    ensures Follows(c, Next(s, e).value)
  {
    var xs, ys := CountedAt(s.log, 0), CountedAt(s.log, 1);
    NextSerial(s, e);
    if e.Trip? {
      LastDecides(c, xs, ys, e.check);
      if e.fate.Admitted? {
        AdmittedFollows(c, s, e.check, e.fate.at);
      }
    }
  }

  lemma AdmittedFollows(c: Pair, s: State, check: int, at: seq<int>)
    requires Proper(c) && c.b == Wait && Follows(c, s) && Next(s, Trip(check, Admitted(at))).Some?
    requires Serial(Next(s, Trip(check, Admitted(at))).value)
    ensures Follows(c, Next(s, Trip(check, Admitted(at))).value)
  {
    var xs, ys := CountedAt(s.log, 0), CountedAt(s.log, 1);
    var t := Next(s, Trip(check, Admitted(at))).value;
    LastDecides(c, xs, ys, check);
    PacedMore(c, xs, ys, check, at[0], at[1]);
    assert CountedAt(t.log, 0) == xs + [at[0]] && CountedAt(t.log, 1) == ys + [at[1]];
  }

  lemma {:induction false} RunFollows(c: Pair, now: int, events: seq<Event>)
    requires Proper(c) && c.b == Wait && Periodic(Start(c, now).limits) && Run(Start(c, now), events).Some?
    ensures Follows(c, Run(Start(c, now), events).value)
  {
    if events == [] {
      assert CountedAt([], 0) == [] && CountedAt([], 1) == [];
    } else {
      var init, last := events[..|events| - 1], events[|events| - 1];
      RunFollows(c, now, init);
      NextFollows(c, Run(Start(c, now), init).value, last);
    }
  }

  // ---------- When the first limit holds ----------

  /** The second limit blocks; or it allows so many requests that it is never exhausted while the
      first limit holds; or its own pace is slow enough for the first limit. */
  predicate FirstIsSafe(c: Pair)
    requires Proper(c)
  {
    || c.b == Block
    || c.m >= c.n + 2
    || (c.m <= c.n && (c.n / c.m) * c.q + (if c.n % c.m == 0 then 0 else 1) >= c.p)
  }

  /** k rounds of the second limit take k times its period. */
  lemma {:induction false} Rounds(c: Pair, xs: seq<int>, ys: seq<int>, j: nat, k: nat)
    requires Proper(c) && Paced(c, xs, ys) && k * c.m <= j < |ys|
    ensures 0 <= j - k * c.m && ys[j - k * c.m] + k * c.q <= ys[j]
    decreases k
  {
    if k > 0 {
      OneLess(k, c.m);
      OneLess(k, c.q);
      assert PacedAt(c, xs, ys, j);
      Rounds(c, xs, ys, j - c.m, k - 1);
    }
  }

  /** Whole rounds. */
  lemma SlowRounds(c: Pair, xs: seq<int>, ys: seq<int>, i: nat, k: nat)
    requires Proper(c) && Paced(c, xs, ys) && c.n <= i < |xs| && c.n == k * c.m && k > 0 && k * c.q >= c.p
    ensures xs[i - c.n] + c.p <= xs[i]
  {
    OneLess(k, c.m);
    OneLess(k, c.q);
    assert PacedAt(c, xs, ys, i);
    Rounds(c, xs, ys, i - c.m, k - 1);
  }

  /** Rounds and a rest: the first limit has capacity, or the request comes after the last one. */
  lemma SlowRest(c: Pair, xs: seq<int>, ys: seq<int>, i: nat, k: nat, r: nat)
    requires Proper(c) && Paced(c, xs, ys) && c.n <= i < |xs| && c.m <= c.n && r > 0
    requires c.n == k * c.m + r && k * c.q + 1 >= c.p
    ensures xs[i - c.n] + c.p <= xs[i]
  {
    assert PacedAt(c, xs, ys, i);
    Rounds(c, xs, ys, i - 1, k);
    assert xs[i - c.n] <= ys[i - c.n] <= ys[i - 1 - k * c.m];
  }

  /** A slow second limit spaces admissions out for the first. */
  lemma SlowSecond(c: Pair, xs: seq<int>, ys: seq<int>, i: nat)
    requires Proper(c) && Paced(c, xs, ys) && c.n <= i < |xs| && c.m <= c.n
    requires (c.n / c.m) * c.q + (if c.n % c.m == 0 then 0 else 1) >= c.p
    ensures xs[i - c.n] + c.p <= xs[i]
  {
    var k, r := c.n / c.m, c.n % c.m;
    Division(c.n, c.m);
    if r == 0 {
      SlowRounds(c, xs, ys, i, k);
    } else {
      SlowRest(c, xs, ys, i, k, r);
    }
  }

  lemma SafeHolds(c: Pair, now: int, events: seq<Event>)
    requires Proper(c) && FirstIsSafe(c) && Periodic(Start(c, now).limits)
    ensures FirstHolds(Start(c, now), events)
  {
    var s := Start(c, now);
    if Run(s, events).Some? {
      if c.b == Block || c.m > c.n {
        SlidingBound(s, events, 0);
      } else {
        RunFollows(c, now, events);
        var t := Run(s, events).value;
        var xs, ys := CountedAt(t.log, 0), CountedAt(t.log, 1);
        forall i, j | 0 <= i < j < |xs| && j == i + c.n
          ensures xs[i] + c.p <= xs[j]
        {
          SlowSecond(c, xs, ys, j);
        }
        SerialOrdered(t, 0);
        SpacedAtMost(xs, c.n, c.p);
      }
    }
  }

  /** The second limit counts each request soon after the first does. */
  ghost predicate Prompt(c: Pair, log: seq<Admission>) {
    forall i :: 0 <= i < |log| && |log[i].at| == 2 ==> log[i].at[1] - log[i].at[0] <= c.p - c.q
  }

  lemma {:induction false} PromptSpaced(c: Pair, xs: seq<int>, ys: seq<int>, i: nat)
    requires Proper(c) && Paced(c, xs, ys) && c.m == c.n + 1 && c.n <= i < |xs|
    requires forall j :: 0 <= j < |xs| ==> ys[j] - xs[j] <= c.p - c.q
    ensures xs[i - c.n] + c.p <= xs[i]
  {
    assert PacedAt(c, xs, ys, i);
    if i > c.n {
      PromptSpaced(c, xs, ys, i - 1);
      assert xs[i - 1] <= ys[i - 1];
    }
  }

  /** If the second limit allows one request more, only a late count can break the first. */
  lemma PromptHolds(c: Pair, now: int, events: seq<Event>)
    requires Proper(c) && c.b == Wait && c.m == c.n + 1
    requires Periodic(Start(c, now).limits) && Run(Start(c, now), events).Some?
    requires Prompt(c, Run(Start(c, now), events).value.log)
    ensures FirstHolds(Start(c, now), events)
  {
    RunFollows(c, now, events);
    var t := Run(Start(c, now), events).value;
    var xs, ys := CountedAt(t.log, 0), CountedAt(t.log, 1);
    forall i, j | 0 <= i < j < |xs| && j == i + c.n
      ensures xs[i] + c.p <= xs[j]
    {
      PromptSpaced(c, xs, ys, j);
    }
    SerialOrdered(t, 0);
    SpacedAtMost(xs, c.n, c.p);
  }

  /** The first limit holds in this run. */
  ghost predicate FirstHolds(s: State, events: seq<Event>)
    requires s.limits != [] && Periodic(s.limits)
  {
    Run(s, events).Some? ==>
      var log := Run(s, events).value.log;
      (forall i :: 0 <= i < |log| ==> 0 < |log[i].at|)
      && AtMost(s.limits[0].perPeriod, CountedAt(log, 0), s.limits[0].period)
  }

  // ---------- Runs that break the first limit ----------

  ghost predicate Both(log: seq<Admission>) {
    forall i :: 0 <= i < |log| ==> |log[i].at| == 2
  }

  ghost function After(c: Pair, now: int, log: seq<Admission>): State
    requires Both(log)
  {
    State(Limits(c, CountedAt(log, 0), CountedAt(log, 1)), false, if log == [] then now else log[|log| - 1].at[1], log)
  }

  function EventsOf(log: seq<Admission>): seq<Event> {
    if log == [] then []
    else
      var a := log[|log| - 1];
      EventsOf(log[..|log| - 1]) + [Trip(a.check, Admitted(a.at))]
  }

  /** The next request can be admitted like this. */
  ghost predicate Possible(c: Pair, now: int, log: seq<Admission>, a: Admission)
    requires Both(log)
  {
    var l := Limits(c, CountedAt(log, 0), CountedAt(log, 1));
    && |a.at| == 2 && After(c, now, log).clock <= a.check <= a.at[0] <= a.at[1]
    && if Exhausted(l[1], a.check) then a.check + WaitFor(l[1], a.check) <= a.at[0] else !Exhausted(l[0], a.check)
  }

  /** Every request of the log can be admitted in turn. */
  ghost predicate Playable(c: Pair, now: int, log: seq<Admission>) {
    && Both(log)
    && forall i {:trigger Possible(c, now, log[..i], log[i])} :: 0 <= i < |log| ==> Possible(c, now, log[..i], log[i])
  }

  lemma PlayOne(c: Pair, now: int, log: seq<Admission>, a: Admission)
    requires Proper(c) && c.b == Wait && Both(log) && Possible(c, now, log, a)
    ensures var s := After(c, now, log);
            && Periodic(s.limits) && Both(log + [a])
            && Next(s, Trip(a.check, Admitted(a.at))) == Some(After(c, now, log + [a]))
  {
    var xs, ys := CountedAt(log, 0), CountedAt(log, 1);
    var s := After(c, now, log);
    LastDecides(c, xs, ys, a.check);
    assert CountedAt(log + [a], 0) == xs + [a.at[0]] && CountedAt(log + [a], 1) == ys + [a.at[1]];
    assert AllCounted(s.limits, a.at) == After(c, now, log + [a]).limits;
  }

  lemma PlayablePrefix(c: Pair, now: int, log: seq<Admission>)
    requires Playable(c, now, log) && log != []
    ensures Playable(c, now, log[..|log| - 1]) && Possible(c, now, log[..|log| - 1], log[|log| - 1])
  {
    var init := log[..|log| - 1];
    assert Possible(c, now, log[..|log| - 1], log[|log| - 1]);
    forall i | 0 <= i < |init|
      ensures Possible(c, now, init[..i], init[i])
    {
      assert init[..i] == log[..i];
      assert Possible(c, now, log[..i], log[i]);
    }
  }

  lemma NothingPlayed(c: Pair, now: int)
    requires Proper(c)
    ensures Periodic(Start(c, now).limits) && Run(Start(c, now), []) == Some(After(c, now, []))
  {
    assert CountedAt([], 0) == [] && CountedAt([], 1) == [];
  }

  lemma {:induction false} Play(c: Pair, now: int, log: seq<Admission>)
    requires Proper(c) && c.b == Wait && Playable(c, now, log)
    ensures Periodic(Start(c, now).limits) && Run(Start(c, now), EventsOf(log)) == Some(After(c, now, log))
  {
    NothingPlayed(c, now);
    if log != [] {
      var init, a := log[..|log| - 1], log[|log| - 1];
      PlayablePrefix(c, now, log);
      Play(c, now, init);
      PlayOne(c, now, init, a);
      assert log == init + [a];
      RunMore(Start(c, now), EventsOf(init), Trip(a.check, Admitted(a.at)));
    }
  }

  /** A playable log with more than n requests in some period, from the i-th on. */
  lemma Breaks(c: Pair, now: int, log: seq<Admission>, i: nat, from: int)
    requires Proper(c) && c.b == Wait && Playable(c, now, log) && |log| > i + c.n
    requires forall j :: i <= j < |log| ==> from <= log[j].at[0] < from + c.p
    ensures Periodic(Start(c, now).limits) && !FirstHolds(Start(c, now), EventsOf(log))
  {
    Play(c, now, log);
    WithinMany(CountedAt(log, 0), from, from + c.p, i);
  }

  // ---------- The second limit is too fast ----------

  /** When to let the i-th request through: rounds of m requests, a period of the second limit
      apart. With a rest of r requests, the others of each round come one nanosecond later. */
  function Beat(c: Pair, r: nat, i: nat): int
    requires Proper(c)
  {
    if i >= c.m then Beat(c, r, i - c.m) + c.q else if 0 < r <= i then 1 else 0
  }

  lemma {:induction false} BeatAscends(c: Pair, r: nat, i: nat)
    requires Proper(c)
    ensures 0 <= Beat(c, r, i) <= Beat(c, r, i + 1)
    decreases i
  {
    if i >= c.m {
      BeatAscends(c, r, i - c.m);
    } else if i + 1 == c.m {
      assert Beat(c, r, c.m) == Beat(c, r, 0) + c.q;
    }
  }

  lemma {:induction false} BeatOrdered(c: Pair, r: nat, i: nat, j: nat)
    requires Proper(c) && i <= j
    ensures 0 <= Beat(c, r, i) <= Beat(c, r, j)
    decreases j - i
  {
    BeatAscends(c, r, i);
    if i < j {
      BeatOrdered(c, r, i + 1, j);
    }
  }

  lemma OneLess(k: nat, m: nat)
    requires k > 0
    ensures (k - 1) * m == k * m - m && k * m >= m
  {
    assert (k - 1) * m >= 0;
  }

  /** After k rounds and the rest. */
  lemma {:induction false} BeatAt(c: Pair, r: nat, i: nat, k: nat, time: nat)
    requires Proper(c) && i == k * c.m + r && r < c.m && time == k * c.q
    ensures Beat(c, r, i) == time + if r == 0 then 0 else 1
    ensures i > 0 ==> Beat(c, r, i - 1) < Beat(c, r, i)
    decreases k
  {
    if k > 0 {
      OneLess(k, c.m);
      OneLess(k, c.q);
      BeatAt(c, r, i - c.m, k - 1, time - c.q);
      if i == c.m {
        BeatOrdered(c, r, 0, c.m - 1);
      }
    }
  }

  function Rest(c: Pair): nat
    requires Proper(c)
  {
    c.n % c.m
  }

  lemma Division(n: nat, m: nat)
    requires m > 0
    ensures n == (n / m) * m + n % m
  {
  }

  /** n requests in time, and one that has to wait for the second limit only. */
  ghost function FastLog(c: Pair, now: int): seq<Admission>
    requires Proper(c)
  {
    seq(c.n + 1, i requires 0 <= i <= c.n =>
      var time := now + Beat(c, Rest(c), i);
      Admission(now + Beat(c, Rest(c), if i < c.n then i else c.n - 1), [time, time]))
  }

  lemma FastIsPossible(c: Pair, now: int, i: nat)
    requires Proper(c) && c.b == Wait && c.m <= c.n && i < c.n && Both(FastLog(c, now)[..i])
    ensures Possible(c, now, FastLog(c, now)[..i], FastLog(c, now)[i])
  {
    var ys := CountedAt(FastLog(c, now)[..i], 1);
    BeatOrdered(c, Rest(c), 0, i);
    if i > 0 {
      BeatOrdered(c, Rest(c), i - 1, i);
    }
    if i >= c.m {
      assert ys[i - c.m] == now + Beat(c, Rest(c), i - c.m);
    }
  }

  lemma LastIsPossible(c: Pair, now: int)
    requires Proper(c) && c.b == Wait && c.m <= c.n && Both(FastLog(c, now)[..c.n])
    ensures Possible(c, now, FastLog(c, now)[..c.n], FastLog(c, now)[c.n])
  {
    var ys := CountedAt(FastLog(c, now)[..c.n], 1);
    BeatOfN(c);
    assert ys[c.n - c.m] == now + Beat(c, Rest(c), c.n - c.m);
  }

  lemma BeatOfN(c: Pair)
    requires Proper(c)
    ensures Beat(c, Rest(c), c.n - 1) < Beat(c, Rest(c), c.n) == (c.n / c.m) * c.q + if c.n % c.m == 0 then 0 else 1
  {
    Division(c.n, c.m);
    BeatAt(c, Rest(c), c.n, c.n / c.m, (c.n / c.m) * c.q);
  }

  lemma FastIsPlayable(c: Pair, now: int)
    requires Proper(c) && c.b == Wait && c.m <= c.n
    ensures Playable(c, now, FastLog(c, now))
  {
    var log := FastLog(c, now);
    assert Both(log);
    forall i | 0 <= i < |log|
      ensures Possible(c, now, log[..i], log[i])
    {
      if i < c.n {
        FastIsPossible(c, now, i);
      } else {
        LastIsPossible(c, now);
      }
    }
  }

  lemma FastBreaks(c: Pair, now: int)
    requires Proper(c) && c.b == Wait && c.m <= c.n
    requires (c.n / c.m) * c.q + (if c.n % c.m == 0 then 0 else 1) < c.p
    ensures Periodic(Start(c, now).limits) && !FirstHolds(Start(c, now), EventsOf(FastLog(c, now)))
  {
    var log := FastLog(c, now);
    FastIsPlayable(c, now);
    BeatOfN(c);
    forall j | 0 <= j < |log|
      ensures now <= log[j].at[0] < now + c.p
    {
      BeatOrdered(c, Rest(c), j, c.n);
    }
    Breaks(c, now, log, 0, now);
  }

  // ---------- The second limit allows one request more ----------

  /** The second limit counts the first request late, and is exhausted with the last one. */
  ghost function LateLog(c: Pair, now: int): seq<Admission>
    requires Proper(c)
  {
    [Admission(now, [now, now + c.p])]
    + seq(c.n, i requires 0 <= i < c.n => Admission(now + c.p, [now + c.p, now + c.p]))
    + [Admission(now + c.p, [now + c.p + c.q, now + c.p + c.q])]
  }

  lemma LateIsPossible(c: Pair, now: int, i: nat)
    requires Proper(c) && c.b == Wait && c.m == c.n + 1 && i <= c.n + 1 && Both(LateLog(c, now)[..i])
    ensures Possible(c, now, LateLog(c, now)[..i], LateLog(c, now)[i])
  {
    var log := LateLog(c, now)[..i];
    var xs, ys := CountedAt(log, 0), CountedAt(log, 1);
    assert i > 0 ==> xs[0] == now && ys[0] == now + c.p && log[i - 1].at[1] == now + c.p;
  }

  lemma LateBreaks(c: Pair, now: int)
    requires Proper(c) && c.b == Wait && c.m == c.n + 1
    ensures Periodic(Start(c, now).limits) && !FirstHolds(Start(c, now), EventsOf(LateLog(c, now)))
  {
    var log := LateLog(c, now);
    assert Both(log);
    forall i | 0 <= i < |log|
      ensures Possible(c, now, log[..i], log[i])
    {
      LateIsPossible(c, now, i);
    }
    Breaks(c, now, log, 1, now + c.p);
  }

  // ---------- Exactly when the first limit holds ----------

  /** The first limit holds in all runs exactly if the settings are safe for it. */
  lemma FirstHoldsIff(c: Pair, now: int)
    requires Proper(c)
    ensures Periodic(Start(c, now).limits)
    ensures (forall events :: FirstHolds(Start(c, now), events)) <==> FirstIsSafe(c)
  {
    if FirstIsSafe(c) {
      forall events
        ensures FirstHolds(Start(c, now), events)
      {
        SafeHolds(c, now, events);
      }
    } else if c.m == c.n + 1 {
      LateBreaks(c, now);
    } else {
      FastBreaks(c, now);
    }
  }

  /** One request per p and one per q: a request at once and one that waits for the second limit
      break the first. */
  lemma LaterWaitWins(a: Mode, p: int, q: int, now: int)
    requires p > q > 0 && a != Unset
    ensures var s := Start(Pair(a, 1, p, Wait, 1, q), now);
            var events := [Trip(now, Admitted([now, now])), Trip(now, Admitted([now + q, now + q]))];
            Periodic(s.limits) && Run(s, events).Some? && !FirstHolds(s, events)
  {
    var c := Pair(a, 1, p, Wait, 1, q);
    var first, second := Admission(now, [now, now]), Admission(now, [now + q, now + q]);
    assert Beat(c, Rest(c), 0) == 0 && Beat(c, Rest(c), 1) == q;
    assert FastLog(c, now) == [first, second];
    assert [first, second][..1] == [first] && [first][..0] == [];
    assert EventsOf([]) == [] && EventsOf([first]) == [Trip(now, Admitted([now, now]))];
    assert EventsOf([first, second]) == EventsOf([first]) + [Trip(now, Admitted([now + q, now + q]))];
    FastBreaks(c, now);
    FastIsPlayable(c, now);
    Play(c, now, FastLog(c, now));
  }
}
