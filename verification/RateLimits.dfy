/** handler/ratelimit/limiter.go: the admission of requests one by one, over all runs. Times and
    durations are whole nanoseconds. */
module RateLimits {
  import opened Options
  import opened Periods

  /** Unset is the mode while no limit is exhausted. */
  datatype Mode = Unset | Block | Wait

  /** start and count: the current period and the requests counted in it. puts: when requests
      were counted, of which the ring buffer holds the latest. */
  datatype Window = Fixed(start: int, count: nat) | Sliding(puts: seq<int>)

  datatype Limit = Limit(mode: Mode, period: int, perPeriod: nat, window: Window)

  predicate Configured(l: Limit) {
    l.period > 0 && l.perPeriod > 0 && l.mode != Unset
  }

  /** The time that is n requests back, if there were that many. */
  function Latest(puts: seq<int>, n: nat): Option<int> {
    if n == 0 || |puts| < n then None else Some(puts[|puts| - n])
  }

  predicate Periodic(limits: seq<Limit>) {
    forall k :: 0 <= k < |limits| ==> limits[k].period > 0
  }

  // ---------- One check, one admission ----------

  /** A fixed window moves on to the period of now. */
  function Rolled(l: Limit, now: int): Limit
    requires l.period > 0
  {
    match l.window
    case Fixed(start, count) =>
      var multiplicator := (now - start) / l.period;
      if multiplicator > 0 then l.(window := Fixed(start + l.period * multiplicator, 0)) else l
    case Sliding(_) => l
  }

  /** How long to wait for this limit alone. */
  function WaitFor(l: Limit, now: int): int {
    match l.window
    case Fixed(start, count) => if count >= l.perPeriod then start + l.period - now else 0
    case Sliding(puts) =>
      var latest := Latest(puts, l.perPeriod);
      if latest.Some? && latest.value + l.period > now then latest.value + l.period - now else 0
  }

  function AllRolled(limits: seq<Limit>, now: int): (r: seq<Limit>)
    requires Periodic(limits)
    ensures |r| == |limits| && forall k :: 0 <= k < |r| ==> r[k] == Rolled(limits[k], now)
  {
    seq(|limits|, k requires 0 <= k < |limits| => Rolled(limits[k], now))
  }

  /** Mode and time to wait: those of the last exhausted limit. */
  function Verdict(limits: seq<Limit>, now: int): (Mode, int) {
    if limits == [] then (Unset, 0)
    else
      var last := limits[|limits| - 1];
      if WaitFor(last, now) != 0 then (last.mode, WaitFor(last, now)) else Verdict(limits[..|limits| - 1], now)
  }

  function Counted(l: Limit, at: int): Limit {
    match l.window
    case Fixed(start, count) => l.(window := Fixed(start, count + 1))
    case Sliding(puts) => l.(window := Sliding(puts + [at]))
  }

  function AllCounted(limits: seq<Limit>, at: seq<int>): (r: seq<Limit>)
    requires |at| == |limits|
    ensures |r| == |limits| && forall k :: 0 <= k < |r| ==> r[k] == Counted(limits[k], at[k])
  {
    seq(|limits|, k requires 0 <= k < |limits| => Counted(limits[k], at[k]))
  }

  // ---------- Runs ----------

  /** What becomes of a request: at holds the times at which the limits count it. */
  datatype Fate = Rejected | Abandoned(when: int) | Admitted(at: seq<int>)

  datatype Event = CancelledInQueue | Trip(check: int, fate: Fate)

  datatype Admission = Admission(check: int, at: seq<int>)

  /** locked: the mutex is held although no request is being handled. */
  datatype State = State(limits: seq<Limit>, locked: bool, clock: int, log: seq<Admission>)

  ghost predicate Ordered(times: seq<int>) {
    forall i, j :: 0 <= i < j < |times| ==> times[i] <= times[j]
  }

  /** One turn of the admission loop, or None if it cannot go like this. The clock does not run
      backwards, and timers do not fire early. */
  ghost function Next(s: State, e: Event): Option<State>
    requires Periodic(s.limits)
  {
    match e
    case CancelledInQueue => Some(s)
    case Trip(check, fate) =>
      if s.locked || check < s.clock then None
      else
        var limits := AllRolled(s.limits, check);
        var (mode, wait) := Verdict(limits, check);
        match fate
        case Rejected =>
          if mode == Block && wait > 0 then Some(State(limits, false, check, s.log)) else None
        case Abandoned(when) =>
          if !(mode == Block && wait > 0) && when >= check then Some(State(limits, true, when, s.log)) else None
        case Admitted(at) =>
          if && !(mode == Block && wait > 0) && |at| == |limits| > 0 && Ordered(at)
             && at[0] >= check + wait && at[0] >= check
          then Some(State(AllCounted(limits, at), false, at[|at| - 1], s.log + [Admission(check, at)])) else None
  }

  /** When the first period of a limit began. */
  function StartOf(l: Limit): int {
    match l.window
    case Fixed(start, _) => start
    case Sliding(_) => 0
  }

  /** The limits of a new limiter: nothing is counted, and periods have begun. */
  ghost predicate Initial(s: State) {
    && s.limits != [] && !s.locked && s.log == []
    && forall l <- s.limits ::
        Configured(l) && (l.window == Sliding([]) || (l.window == Fixed(StartOf(l), 0) && StartOf(l) <= s.clock))
  }

  ghost predicate SameSettings(a: seq<Limit>, b: seq<Limit>) {
    |a| == |b| && forall k :: 0 <= k < |a| ==>
      a[k].mode == b[k].mode && a[k].period == b[k].period && a[k].perPeriod == b[k].perPeriod
      && (a[k].window.Fixed? <==> b[k].window.Fixed?)
  }

  lemma NextSettings(s: State, e: Event)
    requires Periodic(s.limits)
    requires Next(s, e).Some?
    ensures SameSettings(s.limits, Next(s, e).value.limits)
  {
  }

  ghost function Run(s: State, events: seq<Event>): (r: Option<State>)
    requires Periodic(s.limits)
    ensures r.Some? ==> SameSettings(s.limits, r.value.limits)
  {
    if events == [] then Some(s)
    else
      var before := Run(s, events[..|events| - 1]);
      if before.None? then None
      else
        assert Periodic(before.value.limits);
        if Next(before.value, events[|events| - 1]).Some? then
          NextSettings(before.value, events[|events| - 1]);
          Next(before.value, events[|events| - 1])
        else None
  }

  lemma RunMore(s: State, events: seq<Event>, e: Event)
    requires Periodic(s.limits) && Run(s, events).Some?
    ensures Run(s, events + [e]) == Next(Run(s, events).value, e)
  {
    assert (events + [e])[..|events|] == events;
    assert Run(s, events + [e]).Some? <==> Next(Run(s, events).value, e).Some?;
  }

  // ---------- What the verdict means ----------

  /** The limit lets no request through right now. */
  predicate Exhausted(l: Limit, now: int) {
    WaitFor(l, now) != 0
  }

  lemma WaitIsPositive(l: Limit, now: int)
    requires Configured(l)
    ensures WaitFor(Rolled(l, now), now) >= 0
    ensures l.window.Fixed? ==> now < Rolled(l, now).window.start + l.period
  {
    if l.window.Fixed? {
      var m := (now - l.window.start) / l.period;
      RollGrid(l.window.start, l.period, now);
    }
  }

  /** There is no wait exactly if every limit has capacity. */
  lemma {:induction false} NoWaitIff(limits: seq<Limit>, now: int)
    requires forall l <- limits :: WaitFor(l, now) >= 0
    ensures Verdict(limits, now).1 >= 0
    ensures Verdict(limits, now).1 == 0 <==> forall l <- limits :: !Exhausted(l, now)
  {
    if limits != [] {
      var init, last := limits[..|limits| - 1], limits[|limits| - 1];
      NoWaitIff(init, now);
      assert forall l :: l in limits <==> l in init || l == last;
      assert last in limits;
      if !Exhausted(last, now) {
        assert Verdict(limits, now) == Verdict(init, now);
      }
    }
  }

  /** No limit after the k-th lets requests wait. */
  ghost predicate BlockAfter(limits: seq<Limit>, k: nat) {
    forall j :: k < j < |limits| ==> limits[j].mode == Block
  }

  /** No exhausted limit after the k-th lets requests wait. */
  ghost predicate DecidedBy(limits: seq<Limit>, now: int, k: nat) {
    forall j :: k < j < |limits| ==> limits[j].mode == Block || !Exhausted(limits[j], now)
  }

  /** If the k-th limit is exhausted and those that follow block or have capacity, the request is
      blocked, or waits as long as that limit demands. */
  lemma {:induction false} ExhaustedDecides(limits: seq<Limit>, now: int, k: nat)
    requires k < |limits| && DecidedBy(limits, now, k) && Exhausted(limits[k], now)
    requires forall l <- limits :: WaitFor(l, now) >= 0
    ensures var (mode, wait) := Verdict(limits, now);
            wait > 0 && (mode == Block || (mode == limits[k].mode && wait == WaitFor(limits[k], now)))
  {
    var last := limits[|limits| - 1];
    assert last in limits;
    if k < |limits| - 1 && !Exhausted(last, now) {
      ExhaustedDecides(limits[..|limits| - 1], now, k);
    }
  }

  /** Mode and wait are those of the last exhausted limit. */
  lemma {:induction false} LastExhausted(limits: seq<Limit>, now: int, k: nat)
    requires k < |limits| && Exhausted(limits[k], now)
    requires forall j :: k < j < |limits| ==> !Exhausted(limits[j], now)
    ensures Verdict(limits, now) == (limits[k].mode, WaitFor(limits[k], now))
  {
    if k < |limits| - 1 {
      LastExhausted(limits[..|limits| - 1], now, k);
    }
  }

  // ---------- Sliding windows ----------

  /** Any two times that are n places apart are at least a period apart. */
  ghost predicate Spaced(times: seq<int>, n: nat, period: int) {
    forall i, j :: 0 <= i < j < |times| && j == i + n ==> times[i] + period <= times[j]
  }

  /** How many of the times are in the half-open interval. */
  function Within(times: seq<int>, from: int, until: int): nat {
    if times == [] then 0
    else
      var last := times[|times| - 1];
      Within(times[..|times| - 1], from, until) + if from <= last < until then 1 else 0
  }

  /** Every half-open interval of this length holds at most n of the times. */
  ghost predicate AtMost(n: nat, times: seq<int>, length: int) {
    forall from, until :: until == from + length ==> Within(times, from, until) <= n
  }

  lemma {:induction false} WithinIsShort(times: seq<int>, from: int, until: int, i: nat)
    requires Ordered(times) && i <= |times| && forall j :: 0 <= j < i ==> times[j] < from
    ensures Within(times, from, until) <= |times| - i
  {
    if |times| > i {
      WithinIsShort(times[..|times| - 1], from, until, i);
    } else if times != [] {
      WithinIsShort(times[..|times| - 1], from, until, i - 1);
    }
  }

  lemma {:induction false} WithinMany(times: seq<int>, from: int, until: int, i: nat)
    requires i <= |times| && forall j :: i <= j < |times| ==> from <= times[j] < until
    ensures Within(times, from, until) >= |times| - i
  {
    if |times| > i {
      WithinMany(times[..|times| - 1], from, until, i);
    }
  }

  lemma {:induction false} SpacedWithin(times: seq<int>, n: nat, period: int, from: int)
    requires Ordered(times) && Spaced(times, n, period) && n > 0
    ensures Within(times, from, from + period) <= n
  {
    if times != [] {
      var init, last := times[..|times| - 1], times[|times| - 1];
      if from <= last < from + period {
        var i := if |times| > n then |times| - n else 0;
        if |times| > n {
          assert times[|times| - 1 - n] + period <= last;
        }
        WithinIsShort(times, from, from + period, i);
      } else {
        SpacedWithin(init, n, period, from);
      }
    }
  }

  /** Spaced times: every half-open interval of one period holds at most n. */
  lemma SpacedAtMost(times: seq<int>, n: nat, period: int)
    requires Ordered(times) && Spaced(times, n, period) && n > 0
    ensures AtMost(n, times, period)
  {
    forall from, until | until == from + period
      ensures Within(times, from, until) <= n
    {
      SpacedWithin(times, n, period, from);
    }
  }
}
