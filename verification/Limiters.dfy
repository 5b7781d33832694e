/** handler/ratelimit/config.go and limiter.go: the limits as they are configured, checked and
    counted in place. */
module Limiters {
  import opened Options
  import opened RateLimits
  import opened RateLimitRuns
  import opened RateLimitPairs
  import opened RingBuffers

  class RateLimit {
    var count: nat
    const mode: Mode
    const period: int
    var periodStart: int
    const perPeriod: nat
    const ringBuffer: RingBuffer?

    ghost function Parts(): set<object> {
      if ringBuffer == null then {this} else {this, ringBuffer, ringBuffer.buf}
    }

    ghost predicate Valid()
      reads Parts()
    {
      && period > 0 && perPeriod > 0 && mode != Unset
      && (ringBuffer != null ==> ringBuffer.Valid() && ringBuffer.len == perPeriod)
    }

    ghost function View(): Limit
      reads this, if ringBuffer == null then {} else {ringBuffer}
    {
      Limit(mode, period, perPeriod, if ringBuffer == null then Fixed(periodStart, count) else Sliding(ringBuffer.puts))
    }

    constructor (mode: Mode, period: int, perPeriod: nat, fixed: bool)
      requires mode != Unset && period > 0 && perPeriod > 0
      ensures Valid() && fresh(Parts())
      ensures this.mode == mode && this.period == period && this.perPeriod == perPeriod
      ensures ringBuffer == null <==> fixed
      ensures View() == Limit(mode, period, perPeriod, if fixed then Fixed(0, 0) else Sliding([]))
    {
      var r: RingBuffer? := null;
      if !fixed {
        r := new RingBuffer(perPeriod);
      }
      this.mode, this.period, this.perPeriod, ringBuffer := mode, period, perPeriod, r;
      count, periodStart := 0, 0;
    }

    /** The part of checkCapacity for one limit: the time to wait, or none if there is capacity. */
    method CheckCapacity(now: int) returns (t: Option<int>)
      requires Valid()
      modifies this
      ensures Valid() && View() == Rolled(old(View()), now)
      ensures t == if Exhausted(View(), now) then Some(WaitFor(View(), now)) else None
    {
      t := None;
      if ringBuffer == null {
        WaitIsPositive(View(), now);
        var multiplicator := (now - periodStart) / period;
        if multiplicator > 0 {
          periodStart := periodStart + period * multiplicator;
          count := 0;
        }
        if count >= perPeriod {
          t := Some(periodStart + period - now);
        }
      } else {
        var latest := ringBuffer.Get();
        if latest.Some? && latest.value + period > now {
          t := Some(latest.value + period - now);
        }
      }
    }

    method CountRequest(now: int)
      requires Valid()
      modifies Parts()
      ensures Valid() && View() == Counted(old(View()), now)
    {
      if ringBuffer == null {
        count := count + 1;
      } else {
        ringBuffer.Put(now);
      }
    }
  }

  ghost predicate Apart(a: RateLimit, b: RateLimit) {
    && a != b
    && (a.ringBuffer != null && b.ringBuffer != null ==>
          a.ringBuffer != b.ringBuffer && a.ringBuffer.buf != b.ringBuffer.buf)
  }

  ghost function AllParts(limits: seq<RateLimit>): set<object> {
    set i, o | 0 <= i < |limits| && o in limits[i].Parts() :: o
  }

  /** v is what the limits, which share nothing, look like. */
  ghost predicate Shows(limits: seq<RateLimit>, v: seq<Limit>)
    reads AllParts(limits)
  {
    && |v| == |limits|
    && (forall i :: 0 <= i < |limits| ==> limits[i].Valid() && limits[i].View() == v[i])
    && (forall i, j :: 0 <= i < j < |limits| ==> Apart(limits[i], limits[j]))
  }

  lemma ShowsConfigured(limits: seq<RateLimit>, v: seq<Limit>)
    requires Shows(limits, v)
    ensures forall i :: 0 <= i < |v| ==> Configured(v[i])
    ensures Periodic(v)
  {
  }

  lemma InParts(limits: seq<RateLimit>)
    ensures forall l <- limits :: l in AllParts(limits)
  {
    forall l | l in limits
      ensures l in AllParts(limits)
    {
      var i :| 0 <= i < |limits| && limits[i] == l;
      assert l in limits[i].Parts();
    }
  }

  /** A request that gave up is not admitted; an admitted one is counted after the wait and the
      given delays. */
  ghost predicate FateFollows(s: State, check: int, gaveUp: Option<int>, delays: seq<nat>, fate: Fate)
    requires Periodic(s.limits)
  {
    match fate
    case Rejected => true
    case Abandoned(when) => gaveUp == Some(when)
    case Admitted(at) =>
      && gaveUp.None? && |at| == |delays|
      && forall k :: 0 <= k < |at| ==>
          at[k] == check + RateLimits.Verdict(AllRolled(s.limits, check), check).1 + delays[k]
  }

  lemma BlockedIsNext(s: State, check: int)
    requires Periodic(s.limits) && !s.locked && check >= s.clock
    requires var (mode, wait) := RateLimits.Verdict(AllRolled(s.limits, check), check); mode == Block && wait > 0
    ensures Next(s, Trip(check, Rejected)) == Some(State(AllRolled(s.limits, check), false, check, s.log))
  {
  }

  lemma AbandonedIsNext(s: State, check: int, when: int)
    requires Periodic(s.limits) && !s.locked && check >= s.clock && when >= check
    requires var (mode, wait) := RateLimits.Verdict(AllRolled(s.limits, check), check); !(mode == Block && wait > 0)
    ensures Next(s, Trip(check, Abandoned(when))) == Some(State(AllRolled(s.limits, check), true, when, s.log))
  {
  }

  lemma AdmittedIsNext(s: State, check: int, delays: seq<nat>, at: seq<int>)
    requires AllConfigured(s.limits) && !s.locked && check >= s.clock
    requires |delays| == |at| == |s.limits| && Ordered(delays)
    requires var (mode, wait) := RateLimits.Verdict(AllRolled(s.limits, check), check);
             !(mode == Block && wait > 0) && forall k :: 0 <= k < |at| ==> at[k] == check + wait + delays[k]
    ensures Next(s, Trip(check, Admitted(at)))
            == Some(State(AllCounted(AllRolled(s.limits, check), at), false, at[|at| - 1],
                          s.log + [Admission(check, at)]))
  {
    CapacityIsNoWait(s, check);
    assert at[0] >= check;
    assert Ordered(at);
  }

  class Limiter {
    const limits: seq<RateLimit>
    var locked: bool

    constructor (limits: seq<RateLimit>)
      ensures this.limits == limits && !locked
    {
      this.limits, locked := limits, false;
    }

    method CheckOne(i: nat, now: int, ghost v: seq<Limit>) returns (wait: Option<int>)
      requires Shows(limits, v) && i < |limits|
      modifies limits[i]
      ensures Shows(limits, v[i := Rolled(v[i], now)])
      ensures wait == if Exhausted(Rolled(v[i], now), now) then Some(WaitFor(Rolled(v[i], now), now)) else None
    {
      wait := limits[i].CheckCapacity(now);
    }

    method CheckCapacity(now: int, ghost v: seq<Limit>) returns (mode: Mode, t: int)
      requires Shows(limits, v)
      modifies limits
      ensures Periodic(v) && Shows(limits, AllRolled(v, now))
      ensures (mode, t) == RateLimits.Verdict(AllRolled(v, now), now)
    {
      ShowsConfigured(limits, v);
      mode, t := Unset, 0;
      ghost var all, cur := AllRolled(v, now), v;
      for i := 0 to |limits|
        invariant Shows(limits, cur) && |cur| == |v|
        invariant forall k :: 0 <= k < |v| ==> cur[k] == if k < i then all[k] else v[k]
        invariant (mode, t) == RateLimits.Verdict(all[..i], now)
      {
        var wait := CheckOne(i, now, cur);
        cur := cur[i := all[i]];
        assert all[..i + 1][..i] == all[..i];
        if wait.Some? {
          mode, t := limits[i].mode, wait.value;
        }
      }
      assert cur == all == all[..|limits|];
    }

    method CountOne(i: nat, now: int, ghost v: seq<Limit>)
      requires Shows(limits, v) && i < |limits|
      modifies limits[i].Parts()
      ensures Shows(limits, v[i := Counted(v[i], now)])
    {
      limits[i].CountRequest(now);
    }

    /** Each limit counts the request at its own time. */
    method CountRequest(at: seq<int>, ghost v: seq<Limit>)
      requires Shows(limits, v) && |at| == |limits|
      modifies AllParts(limits)
      ensures Shows(limits, AllCounted(v, at))
    {
      ghost var all, cur := AllCounted(v, at), v;
      for i := 0 to |limits|
        invariant Shows(limits, cur) && |cur| == |v|
        invariant forall k :: 0 <= k < |v| ==> cur[k] == if k < i then all[k] else v[k]
      {
        CountOne(i, at[i], cur);
        cur := cur[i := all[i]];
      }
      assert cur == all;
    }

    /** One turn of slowTripper. cancelled: the request is cancelled in the queue. gaveUp: when it
        is cancelled while waiting, if it is. delays: how long after the timer the limits count it. */
    method Turn(cancelled: bool, check: int, gaveUp: Option<int>, delays: seq<nat>, ghost s: State) returns (e: Event)
      requires Shows(limits, s.limits) && locked == s.locked && limits != []
      requires !locked && check >= s.clock && |delays| == |limits| && Ordered(delays)
      requires gaveUp.Some? ==> gaveUp.value >= check
      modifies this, AllParts(limits)
      ensures Periodic(s.limits) && Next(s, e).Some?
      ensures Shows(limits, Next(s, e).value.limits) && locked == Next(s, e).value.locked
      ensures if cancelled then e == CancelledInQueue
              else e.Trip? && e.check == check && FateFollows(s, check, gaveUp, delays, e.fate)
    {
      ShowsConfigured(limits, s.limits);
      if cancelled {
        return CancelledInQueue;
      }
      locked := true;
      InParts(limits);
      var mode, timeToWait := CheckCapacity(check, s.limits);
      e := Settle(mode, timeToWait, check, gaveUp, delays, s);
    }

    /** Blocks the request, gives it up, or lets it through after the wait. */
    method Settle(mode: Mode, timeToWait: int, check: int, gaveUp: Option<int>, delays: seq<nat>, ghost s: State)
      returns (e: Event)
      requires AllConfigured(s.limits) && Shows(limits, AllRolled(s.limits, check)) && locked && !s.locked
      requires (mode, timeToWait) == RateLimits.Verdict(AllRolled(s.limits, check), check)
      requires check >= s.clock && |delays| == |limits| && Ordered(delays)
      requires gaveUp.Some? ==> gaveUp.value >= check
      modifies this, AllParts(limits)
      ensures Periodic(s.limits) && Next(s, e).Some? && e.Trip? && e.check == check
      ensures FateFollows(s, check, gaveUp, delays, e.fate)
      ensures Shows(limits, Next(s, e).value.limits) && locked == Next(s, e).value.locked
    {
      if mode == Block && timeToWait > 0 {
        locked := false;
        BlockedIsNext(s, check);
        return Trip(check, Rejected);
      }
      if gaveUp.Some? {
        AbandonedIsNext(s, check, gaveUp.value);
        return Trip(check, Abandoned(gaveUp.value));
      }
      e := Admit(timeToWait, check, delays, s);
    }

    /** All limits count the request after the wait. */
    method Admit(timeToWait: int, check: int, delays: seq<nat>, ghost s: State) returns (e: Event)
      requires AllConfigured(s.limits) && Shows(limits, AllRolled(s.limits, check)) && locked && !s.locked
      requires timeToWait == RateLimits.Verdict(AllRolled(s.limits, check), check).1
      requires timeToWait > 0 ==> RateLimits.Verdict(AllRolled(s.limits, check), check).0 != Block
      requires check >= s.clock && |delays| == |limits| && Ordered(delays)
      modifies this, AllParts(limits)
      ensures Periodic(s.limits) && Next(s, e).Some? && e.Trip? && e.check == check
      ensures e.fate.Admitted? && FateFollows(s, check, None, delays, e.fate)
      ensures Shows(limits, Next(s, e).value.limits) && !locked && !Next(s, e).value.locked
    {
      var at := seq(|delays|, k requires 0 <= k < |delays| => check + timeToWait + delays[k]);
      AdmittedIsNext(s, check, delays, at);
      e := Trip(check, Admitted(at));
      ghost var t := Next(s, e).value;
      assert t.limits == AllCounted(AllRolled(s.limits, check), at) && !t.locked;
      CountAndUnlock(at, AllRolled(s.limits, check));
    }

    method CountAndUnlock(at: seq<int>, ghost v: seq<Limit>)
      requires Shows(limits, v) && |at| == |v|
      modifies this, AllParts(limits)
      ensures Shows(limits, AllCounted(v, at)) && !locked
    {
      CountRequest(at, v);
      locked := false;
    }
  }

  /** A new limiter, or none without limits. now: when the first periods of the limits begin. */
  method NewLimiter(limits: seq<RateLimit>, now: seq<int>, ghost v: seq<Limit>, ghost clock: int)
    returns (limiter: Limiter?, ghost s: State)
    requires Shows(limits, v) && |now| == |limits| && forall k :: 0 <= k < |now| ==> now[k] <= clock
    requires forall k :: 0 <= k < |v| ==> v[k].window == Sliding([]) || (v[k].window.Fixed? && v[k].window.count == 0)
    modifies limits
    ensures limiter == null <==> limits == []
    ensures limiter != null ==> limiter.limits == limits && !limiter.locked && Initial(s) && Shows(limits, s.limits)
    ensures SameSettings(v, s.limits) && s.clock == clock
    ensures limiter != null ==> forall k :: 0 <= k < |v| ==> s.limits[k] == StartedAt(v[k], now[k])
  {
    s := State(v, false, clock, []);
    if limits == [] {
      return null, s;
    }
    ghost var cur := v;
    for k := 0 to |limits|
      invariant Shows(limits, cur) && |cur| == |v|
      invariant forall i :: 0 <= i < |v| ==> cur[i] == if i < k then StartedAt(v[i], now[i]) else v[i]
    {
      cur := SetStart(limits, k, now[k], cur);
    }
    limiter := new Limiter(limits);
    s := State(cur, false, clock, []);
    ShowsConfigured(limits, cur);
  }

  ghost function StartedAt(l: Limit, now: int): Limit {
    match l.window
    case Fixed(_, count) => l.(window := Fixed(now, count))
    case Sliding(_) => l
  }

  method SetStart(limits: seq<RateLimit>, k: nat, now: int, ghost v: seq<Limit>) returns (ghost w: seq<Limit>)
    requires Shows(limits, v) && k < |limits|
    modifies limits[k]
    ensures w == v[k := StartedAt(v[k], now)] && Shows(limits, w)
  {
    limits[k].periodStart := now;
    w := v[k := StartedAt(v[k], now)];
  }

  // ---------- Configuration ----------

  /** A period as time.ParseDuration understands it. */
  datatype PeriodSetting = Empty | Unparsable | Duration(ns: int)

  datatype Setting = Setting(period: PeriodSetting, perPeriod: nat, periodWindow: string, mode: string)

  /** config.ParseDuration with a default of 0 */
  function ParsePeriod(p: PeriodSetting): Option<int> {
    match p
    case Empty => Some(0)
    case Unparsable => None
    case Duration(ns) => if ns < 0 then None else Some(ns)
  }

  ghost predicate Acceptable(l: Setting) {
    && l.period.Duration? && l.period.ns > 0 && l.perPeriod > 0
    && l.periodWindow in {"", "sliding", "fixed"} && l.mode in {"", "wait", "block"}
  }

  ghost function AsLimit(l: Setting): Limit {
    Limit(if l.mode == "block" then Block else Wait, if l.period.Duration? then l.period.ns else 0, l.perPeriod,
          if l.periodWindow == "fixed" then Fixed(0, 0) else Sliding([]))
  }

  /** What is not set means waiting and a sliding window. */
  lemma DefaultsAre(l: Setting)
    requires Acceptable(l)
    ensures var r := AsLimit(l);
            && r.period == l.period.ns && r.perPeriod == l.perPeriod
            && (l.mode == "" || l.mode == "wait" ==> r.mode == Wait) && (l.mode == "block" ==> r.mode == Block)
            && (l.periodWindow == "" || l.periodWindow == "sliding" ==> r.window == Sliding([]))
            && (l.periodWindow == "fixed" ==> r.window == Fixed(0, 0))
  {
  }

  ghost function AsLimits(settings: seq<Setting>): (r: seq<Limit>)
    ensures |r| == |settings| && forall i :: 0 <= i < |r| ==> r[i] == AsLimit(settings[i])
  {
    seq(|settings|, i requires 0 <= i < |settings| => AsLimit(settings[i]))
  }

  /** The first n settings are valid, and their periods differ. */
  ghost predicate AcceptableUntil(settings: seq<Setting>, n: nat)
    requires n <= |settings|
  {
    && (forall i :: 0 <= i < n ==> Acceptable(settings[i]))
    && (forall i, j :: 0 <= i < j < n ==> settings[i].period != settings[j].period)
  }

  ghost predicate AllAcceptable(settings: seq<Setting>) {
    AcceptableUntil(settings, |settings|)
  }

  /** Longer periods come first. */
  ghost predicate Descending(v: seq<Limit>) {
    forall i, j :: 0 <= i < j < |v| ==> v[i].period > v[j].period
  }

  /** One limit for each setting, longest period first, or an error for an invalid setting or
      two equal periods. */
  method ConfigureRateLimits(settings: seq<Setting>) returns (ok: bool, rateLimits: seq<RateLimit>, ghost v: seq<Limit>)
    ensures ok <==> AllAcceptable(settings)
    ensures ok ==> Shows(rateLimits, v) && Descending(v) && multiset(v) == multiset(AsLimits(settings))
  {
    ok, rateLimits := ConfigureEach(settings);
    v := AsLimits(settings);
    if ok {
      PeriodsDiffer(settings);
      rateLimits, v := SortByPeriod(rateLimits, v);
    }
  }

  /** Two settings for sliding windows give a pair of limits as FirstHoldsIff is about: the longer
      period comes first. */
  lemma TwoSettings(settings: seq<Setting>, v: seq<Limit>) returns (c: Pair)
    requires AllAcceptable(settings) && |settings| == 2 && forall l <- settings :: l.periodWindow != "fixed"
    requires Descending(v) && multiset(v) == multiset(AsLimits(settings))
    ensures Proper(c) && v == Limits(c, [], [])
  {
    var all := AsLimits(settings);
    assert multiset(all) == multiset{all[0], all[1]} by {
      assert all == [all[0], all[1]];
    }
    assert |multiset(v)| == 2;
    assert v == [v[0], v[1]] && v[0] in multiset(v) && v[1] in multiset(v);
    assert v[0] in all && v[1] in all && v[0].period > v[1].period;
    assert settings[0] in settings && settings[1] in settings;
    c := Pair(v[0].mode, v[0].perPeriod, v[0].period, v[1].mode, v[1].perPeriod, v[1].period);
  }

  /** The loop over the settings. */
  method ConfigureEach(settings: seq<Setting>) returns (ok: bool, rateLimits: seq<RateLimit>)
    ensures ok <==> AllAcceptable(settings)
    ensures ok ==> Shows(rateLimits, AsLimits(settings))
  {
    rateLimits := [];
    ghost var all := AsLimits(settings);
    var uniqueDurations: set<int> := {};
    for i := 0 to |settings|
      invariant AcceptableUntil(settings, i) && PeriodsUntil(settings, i, uniqueDurations)
      invariant Shows(rateLimits, all[..i])
    {
      AcceptableNext(settings, i, uniqueDurations);
      assert all[..i + 1] == all[..i] + [AsLimit(settings[i])];
      ok, rateLimits := ConfigureOneMore(settings[i], uniqueDurations, rateLimits, all[..i]);
      if !ok {
        return;
      }
      uniqueDurations := uniqueDurations + {settings[i].period.ns};
    }
    assert all[..|settings|] == all;
    ok := true;
  }

  /** The body of the loop. */
  method ConfigureOneMore(l: Setting, uniqueDurations: set<int>, rateLimits: seq<RateLimit>, ghost v: seq<Limit>)
    returns (ok: bool, more: seq<RateLimit>)
    requires Shows(rateLimits, v)
    ensures ok <==> Acceptable(l) && l.period.ns !in uniqueDurations
    ensures ok ==> Shows(more, v + [AsLimit(l)])
  {
    var limit;
    ok, limit := ConfigureNext(l, uniqueDurations);
    more := rateLimits + [limit];
    if ok {
      AppendShows(rateLimits, v, limit);
    }
  }

  /** These are the periods of the first n settings. */
  ghost predicate PeriodsUntil(settings: seq<Setting>, n: nat, periods: set<int>)
    requires n <= |settings|
  {
    forall d :: d in periods <==> exists j :: 0 <= j < n && settings[j].period == Duration(d)
  }

  lemma AcceptableNext(settings: seq<Setting>, n: nat, periods: set<int>)
    requires n < |settings| && AcceptableUntil(settings, n) && PeriodsUntil(settings, n, periods)
    ensures AcceptableUntil(settings, n + 1) <==> Acceptable(settings[n]) && settings[n].period.ns !in periods
    ensures AllAcceptable(settings) ==> AcceptableUntil(settings, n + 1)
    ensures Acceptable(settings[n]) ==> PeriodsUntil(settings, n + 1, periods + {settings[n].period.ns})
  {
    if Acceptable(settings[n]) {
      var ns := settings[n].period.ns;
      assert settings[n].period == Duration(ns);
      if ns in periods {
        var j :| 0 <= j < n && settings[j].period == Duration(ns);
      }
    }
  }

  lemma PeriodsDiffer(settings: seq<Setting>)
    requires AllAcceptable(settings)
    ensures var v := AsLimits(settings); forall i, j :: 0 <= i < j < |v| ==> v[i].period != v[j].period
  {
  }

  lemma AppendShows(limits: seq<RateLimit>, v: seq<Limit>, x: RateLimit)
    requires Shows(limits, v) && x.Valid() && forall i :: 0 <= i < |limits| ==> Apart(limits[i], x)
    ensures Shows(limits + [x], v + [x.View()])
  {
    InsertShows(limits, v, |limits|, x);
    assert limits[..|limits|] + [x] + limits[|limits|..] == limits + [x];
    assert v[..|limits|] + [x.View()] + v[|limits|..] == v + [x.View()];
  }

  /** The limit for the next setting, unless that is invalid or has the period of an earlier one. */
  method ConfigureNext(l: Setting, uniqueDurations: set<int>) returns (ok: bool, limit: RateLimit)
    ensures ok <==> Acceptable(l) && l.period.ns !in uniqueDurations
    ensures fresh(limit.Parts()) && (ok ==> limit.Valid() && limit.View() == AsLimit(l))
  {
    var d := ParsePeriod(l.period);
    if d.None? || d.value == 0 || l.perPeriod == 0 || d.value in uniqueDurations {
      ok := false;
      limit := new RateLimit(Wait, 1, 1, true);
    } else {
      ok, limit := Configure(l, d.value);
    }
  }

  /** The limit for a setting whose numbers are in order, if window and mode are supported. */
  method Configure(l: Setting, d: int) returns (ok: bool, limit: RateLimit)
    requires l.period == Duration(d) && d > 0 && l.perPeriod > 0
    ensures ok <==> Acceptable(l)
    ensures limit.Valid() && fresh(limit.Parts()) && (ok ==> limit.View() == AsLimit(l))
  {
    ok := true;
    var fixed := false;
    match l.periodWindow {
      case "" =>
      case "sliding" =>
      case "fixed" => fixed := true;
      case _ => ok := false;
    }
    var mode := Wait;
    match l.mode {
      case "" =>
      case "wait" =>
      case "block" => mode := Block;
      case _ => ok := false;
    }
    limit := new RateLimit(mode, d, l.perPeriod, fixed);
  }

  /** Where a limit belongs among limits in descending order. */
  method PlaceOf(limits: seq<RateLimit>, period: int, ghost v: seq<Limit>) returns (j: nat)
    requires Shows(limits, v) && Descending(v) && forall i :: 0 <= i < |v| ==> v[i].period != period
    ensures j <= |limits|
    ensures forall i :: 0 <= i < |v| ==> (i < j <==> v[i].period > period)
  {
    j := 0;
    while j < |limits| && limits[j].period > period
      invariant j <= |limits| && forall i :: 0 <= i < j ==> v[i].period > period
    {
      assert limits[j].View() == v[j];
      j := j + 1;
    }
    assert j < |limits| ==> limits[j].View() == v[j];
  }

  lemma InsertShows(limits: seq<RateLimit>, v: seq<Limit>, j: nat, x: RateLimit)
    requires Shows(limits, v) && j <= |limits| && x.Valid() && forall i :: 0 <= i < |limits| ==> Apart(limits[i], x)
    ensures Shows(limits[..j] + [x] + limits[j..], v[..j] + [x.View()] + v[j..])
  {
    var r := limits[..j] + [x] + limits[j..];
    forall a, b | 0 <= a < b < |r|
      ensures Apart(r[a], r[b])
    {
      assert r[a] == if a < j then limits[a] else if a == j then x else limits[a - 1];
      assert r[b] == if b < j then limits[b] else if b == j then x else limits[b - 1];
    }
  }

  lemma InsertDescending(v: seq<Limit>, j: nat, x: Limit)
    requires Descending(v) && j <= |v| && forall i :: 0 <= i < |v| ==> v[i].period != x.period
    requires forall i :: 0 <= i < |v| ==> (i < j <==> v[i].period > x.period)
    ensures Descending(v[..j] + [x] + v[j..])
    ensures multiset(v[..j] + [x] + v[j..]) == multiset(v) + multiset{x}
  {
    assert v == v[..j] + v[j..];
  }

  /** x and the limits from i on are not among the sorted ones. */
  ghost predicate Others(sorted: seq<RateLimit>, w: seq<Limit>, limits: seq<RateLimit>, v: seq<Limit>, i: nat) {
    && |w| == |sorted| && |v| == |limits|
    && (forall k, m {:trigger sorted[k], limits[m]} ::
          0 <= k < |sorted| && i <= m < |limits| ==> Apart(sorted[k], limits[m]))
    && (forall k, m {:trigger w[k], v[m]} :: 0 <= k < |w| && i <= m < |v| ==> w[k].period != v[m].period)
  }

  method Insert(sorted: seq<RateLimit>, ghost w: seq<Limit>, ghost limits: seq<RateLimit>, ghost v: seq<Limit>,
                ghost i: nat,
                x: RateLimit)
    returns (r: seq<RateLimit>, ghost u: seq<Limit>)
    requires Shows(sorted, w) && Descending(w) && Shows(limits, v) && i < |limits| && x == limits[i]
    requires Others(sorted, w, limits, v, i) && forall a, b :: 0 <= a < b < |v| ==> v[a].period != v[b].period
    ensures Shows(r, u) && Descending(u) && multiset(u) == multiset(w) + multiset{v[i]}
    ensures Others(r, u, limits, v, i + 1)
  {
    assert x.View() == v[i];
    var j := PlaceOf(sorted, x.period, w);
    InsertShows(sorted, w, j, x);
    InsertDescending(w, j, v[i]);
    InsertOthers(sorted, w, limits, v, i, j);
    r, u := sorted[..j] + [x] + sorted[j..], w[..j] + [v[i]] + w[j..];
  }

  lemma InsertOthers(sorted: seq<RateLimit>, w: seq<Limit>, limits: seq<RateLimit>, v: seq<Limit>, i: nat, j: nat)
    requires Others(sorted, w, limits, v, i) && i < |v| && j <= |w|
    requires forall a, b :: 0 <= a < b < |v| ==> v[a].period != v[b].period
    requires forall a, b :: 0 <= a < b < |limits| ==> Apart(limits[a], limits[b])
    ensures Others(sorted[..j] + [limits[i]] + sorted[j..], w[..j] + [v[i]] + w[j..], limits, v, i + 1)
  {
  }

  /** sort.Slice with the longer period first */
  method SortByPeriod(limits: seq<RateLimit>, ghost v: seq<Limit>) returns (sorted: seq<RateLimit>, ghost w: seq<Limit>)
    requires Shows(limits, v) && forall i, j :: 0 <= i < j < |v| ==> v[i].period != v[j].period
    ensures Shows(sorted, w) && Descending(w) && multiset(w) == multiset(v)
  {
    sorted, w := [], [];
    for i := 0 to |limits|
      invariant Shows(sorted, w) && Descending(w) && multiset(w) == multiset(v[..i])
      invariant Others(sorted, w, limits, v, i)
    {
      assert v[..i + 1] == v[..i] + [v[i]];
      sorted, w := Insert(sorted, w, limits, v, i, limits[i]);
    }
    assert v[..|limits|] == v;
  }
}
