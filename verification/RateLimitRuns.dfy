/** The bounds that limits keep over every run of the admission loop. */
module RateLimitRuns {
  import opened Options
  import opened RateLimits
  import opened Periods

  ghost predicate AllConfigured(limits: seq<Limit>) {
    limits != [] && forall k :: 0 <= k < |limits| ==> Configured(limits[k])
  }

  // ---------- The log ----------

  /** Requests were handled one after the other. */
  ghost predicate Serial(s: State) {
    && s.limits != []
    && (forall i :: 0 <= i < |s.log| ==>
          |s.log[i].at| == |s.limits| && Ordered(s.log[i].at) && s.log[i].check <= s.log[i].at[0])
    && (forall i, j :: 0 <= i < j < |s.log| ==> s.log[i].at[|s.limits| - 1] <= s.log[j].check)
    && (forall i :: 0 <= i < |s.log| ==> s.log[i].at[|s.limits| - 1] <= s.clock)
  }

  lemma SerialMore(s: State, t: State, a: Admission)
    requires Serial(s) && |t.limits| == |s.limits| == |a.at| && t.log == s.log + [a]
    requires Ordered(a.at) && s.clock <= a.check <= a.at[0] && t.clock == a.at[|a.at| - 1]
    ensures Serial(t)
  {
    assert s.clock <= t.clock;
    forall i, j | 0 <= i < j < |t.log|
      ensures t.log[i].at[|t.limits| - 1] <= t.log[j].check
    {
    }
  }

  lemma NextSerial(s: State, e: Event)
    requires AllConfigured(s.limits) && Serial(s) && Next(s, e).Some?
    ensures Serial(Next(s, e).value)
  {
    if e.Trip? && e.fate.Admitted? {
      CapacityIsNoWait(s, e.check);
      SerialMore(s, Next(s, e).value, Admission(e.check, e.fate.at));
    }
  }

  /** When the k-th limit counted the requests. */
  ghost function CountedAt(log: seq<Admission>, k: nat): (r: seq<int>)
    requires forall i :: 0 <= i < |log| ==> k < |log[i].at|
    ensures |r| == |log| && forall i :: 0 <= i < |r| ==> r[i] == log[i].at[k]
  {
    seq(|log|, i requires 0 <= i < |log| => log[i].at[k])
  }

  lemma SerialOrdered(s: State, k: nat)
    requires Serial(s) && k < |s.limits|
    ensures Ordered(CountedAt(s.log, k))
  {
    forall i, j | 0 <= i < j < |s.log|
      ensures s.log[i].at[k] <= s.log[j].at[k]
    {
      assert s.log[i].at[k] <= s.log[i].at[|s.limits| - 1];
      assert s.log[j].at[0] <= s.log[j].at[k];
    }
  }

  /** A request is counted by the k-th limit only when that has capacity, if those that follow
      block or have capacity. */
  lemma AdmittedInTime(s: State, check: int, at: seq<int>, k: nat)
    requires AllConfigured(s.limits) && k < |s.limits| && DecidedBy(AllRolled(s.limits, check), check, k)
    requires Next(s, Trip(check, Admitted(at))).Some?
    ensures |at| == |s.limits| && at[k] >= check
    ensures var l := Rolled(s.limits[k], check);
            Exhausted(l, check) ==> l.mode == Wait && at[k] >= check + WaitFor(l, check)
  {
    var limits := AllRolled(s.limits, check);
    forall l | l in limits
      ensures WaitFor(l, check) >= 0
    {
      var i :| 0 <= i < |limits| && limits[i] == l;
      WaitIsPositive(s.limits[i], check);
    }
    if Exhausted(limits[k], check) {
      ExhaustedDecides(limits, check, k);
      assert Configured(s.limits[k]);
    }
    assert at[0] <= at[k];
  }

  // ---------- Sliding windows ----------

  /** A limit that a sliding one for n requests per period leaves with capacity. */
  predicate Spare(l: Limit, n: nat, period: int) {
    l.period <= period && l.perPeriod >= if l.window.Sliding? then n + 2 else n + 1
  }

  /** Every limit after the k-th blocks, or is generous in comparison. */
  ghost predicate Guarded(limits: seq<Limit>, k: nat)
    requires k < |limits|
  {
    forall j :: k < j < |limits| ==>
      limits[j].mode == Block || Spare(limits[j], limits[k].perPeriod, limits[k].period)
  }

  /** The window holds the times of all admissions, and they are spaced as the limit demands. */
  ghost predicate SlidingKept(s: State, k: nat)
    requires Serial(s) && k < |s.limits|
  {
    var l := s.limits[k];
    l.window.Sliding? ==>
      && l.window.puts == CountedAt(s.log, k)
      && (Guarded(s.limits, k) ==> Spaced(l.window.puts, l.perPeriod, l.period))
  }

  lemma SpacedMore(times: seq<int>, n: nat, period: int, t: int)
    requires Spaced(times, n, period) && n > 0
    requires Latest(times, n).Some? ==> Latest(times, n).value + period <= t
    ensures Spaced(times + [t], n, period)
  {
  }

  // ---------- Fixed windows ----------

  /** How many admissions were checked in period p. */
  function Checks(log: seq<Admission>, start: int, period: int, p: int): nat
    requires period > 0
  {
    if log == [] then 0
    else
      Checks(log[..|log| - 1], start, period, p) + if Slot(start, period, log[|log| - 1].check) == p then 1 else 0
  }

  lemma {:induction false} NoChecks(log: seq<Admission>, start: int, period: int, p: int)
    requires period > 0 && forall i :: 0 <= i < |log| ==> Slot(start, period, log[i].check) != p
    ensures Checks(log, start, period, p) == 0
  {
    if log != [] {
      NoChecks(log[..|log| - 1], start, period, p);
    }
  }

  /** Rolling keeps the window on the grid, and brackets the time of the check. */
  lemma RolledOnGrid(l: Limit, start: int, now: int)
    requires Configured(l) && l.window.Fixed? && l.window.start <= now && (l.window.start - start) % l.period == 0
    ensures var w := Rolled(l, now).window;
            w.Fixed? && w.start <= now < w.start + l.period && (w.start - start) % l.period == 0
    ensures var w := Rolled(l, now).window;
            w == l.window || (w.count == 0 && l.window.start + l.period <= w.start)
  {
    var m := (now - l.window.start) / l.period;
    RollGrid(l.window.start, l.period, now);
    GridStep(l.window.start - start, l.period, m);
  }

  /** Before admission i, fewer than n were checked in its period, if the condition holds. */
  ghost predicate RoomAt(log: seq<Admission>, start: int, period: int, n: nat, i: nat)
    requires period > 0 && i < |log|
  {
    Checks(log[..i], start, period, Slot(start, period, log[i].check)) < n
  }

  /** The count is right, and admissions that fall into the period of their check found room. */
  ghost predicate FixedKept(s: State, k: nat, start: int)
    requires Serial(s) && k < |s.limits|
  {
    var l := s.limits[k];
    l.window.Fixed? && l.period > 0 ==>
      && l.window.start <= s.clock && (l.window.start - start) % l.period == 0
      && (forall i :: 0 <= i < |s.log| ==> s.log[i].check < l.window.start + l.period)
      && l.window.count == Checks(s.log, start, l.period, Slot(start, l.period, l.window.start))
      && (BlockAfter(s.limits, k) ==> forall i :: 0 <= i < |s.log| ==> FoundRoom(s, k, start, i))
  }

  ghost predicate FoundRoom(s: State, k: nat, start: int, i: nat)
    requires Serial(s) && k < |s.limits| && s.limits[k].period > 0 && i < |s.log|
  {
    var l := s.limits[k];
    l.mode == Block || Slot(start, l.period, s.log[i].at[k]) == Slot(start, l.period, s.log[i].check) ==>
      RoomAt(s.log, start, l.period, l.perPeriod, i)
  }

  /** What the roll at a check keeps of the window. */
  lemma RolledCount(s: State, k: nat, start: int, now: int)
    requires AllConfigured(s.limits) && Serial(s) && k < |s.limits| && s.limits[k].window.Fixed?
    requires FixedKept(s, k, start) && now >= s.clock
    ensures var l := Rolled(s.limits[k], now);
            && l.window.Fixed? && l.window.start <= now < l.window.start + l.period
            && (l.window.start - start) % l.period == 0
            && (forall i :: 0 <= i < |s.log| ==> s.log[i].check < l.window.start + l.period)
            && l.window.count == Checks(s.log, start, l.period, Slot(start, l.period, l.window.start))
  {
    var l := s.limits[k];
    var w := Rolled(l, now).window;
    RolledOnGrid(l, start, now);
    if w != l.window {
      forall i | 0 <= i < |s.log|
        ensures Slot(start, l.period, s.log[i].check) != Slot(start, l.period, w.start)
      {
        SlotOnGrid(start, l.period, w.start, s.log[i].check);
      }
      NoChecks(s.log, start, l.period, Slot(start, l.period, w.start));
    }
  }

  lemma SameRoom(s: State, t: State, k: nat, start: int, i: nat)
    requires Serial(s) && Serial(t) && SameSettings(s.limits, t.limits) && k < |s.limits| && s.limits[k].period > 0
    requires i < |s.log| && s.log <= t.log && FoundRoom(s, k, start, i)
    ensures FoundRoom(t, k, start, i)
  {
    assert t.log[..i] == s.log[..i];
  }

  lemma NextFixedUncounted(s: State, e: Event, k: nat, start: int)
    requires AllConfigured(s.limits) && Serial(s) && k < |s.limits|
    requires s.limits[k].window.Fixed? && FixedKept(s, k, start)
    requires Next(s, e).Some? && Serial(Next(s, e).value) && !(e.Trip? && e.fate.Admitted?)
    ensures FixedKept(Next(s, e).value, k, start)
  {
    var t := Next(s, e).value;
    NextSettings(s, e);
    if e.Trip? {
      RolledCount(s, k, start, e.check);
    }
    if BlockAfter(t.limits, k) {
      forall i | 0 <= i < |t.log|
        ensures FoundRoom(t, k, start, i)
      {
        assert FoundRoom(s, k, start, i);
        SameRoom(s, t, k, start, i);
      }
    }
  }

  /** The latest admission found room unless it had to wait for the next period. */
  lemma LastFoundRoom(s: State, check: int, at: seq<int>, k: nat, start: int)
    requires AllConfigured(s.limits) && Serial(s) && k < |s.limits|
    requires s.limits[k].window.Fixed? && FixedKept(s, k, start)
    requires Next(s, Trip(check, Admitted(at))).Some? && BlockAfter(s.limits, k)
    requires Serial(Next(s, Trip(check, Admitted(at))).value)
    ensures FoundRoom(Next(s, Trip(check, Admitted(at))).value, k, start, |s.log|)
  {
    var l := Rolled(s.limits[k], check);
    var t := Next(s, Trip(check, Admitted(at))).value;
    RolledCount(s, k, start, check);
    AdmittedInTime(s, check, at, k);
    SlotOnGrid(start, l.period, l.window.start, check);
    SlotOnGrid(start, l.period, l.window.start, at[k]);
    assert t.log[..|s.log|] == s.log;
  }

  lemma OneMoreCheck(log: seq<Admission>, a: Admission, start: int, period: int, now: int)
    requires period > 0 && (now - start) % period == 0 && now <= a.check < now + period
    ensures var p := Slot(start, period, now); Checks(log + [a], start, period, p) == Checks(log, start, period, p) + 1
  {
    SlotOnGrid(start, period, now, a.check);
    assert (log + [a])[..|log|] == log;
  }

  lemma RoomAfter(s: State, t: State, k: nat, start: int)
    requires Serial(s) && Serial(t) && SameSettings(s.limits, t.limits) && k < |s.limits| && s.limits[k].period > 0
    requires s.log <= t.log && |t.log| == |s.log| + 1 && FoundRoom(t, k, start, |s.log|)
    requires forall i :: 0 <= i < |s.log| ==> FoundRoom(s, k, start, i)
    ensures forall i :: 0 <= i < |t.log| ==> FoundRoom(t, k, start, i)
  {
    forall i | 0 <= i < |t.log|
      ensures FoundRoom(t, k, start, i)
    {
      if i < |s.log| {
        assert FoundRoom(s, k, start, i);
        SameRoom(s, t, k, start, i);
      }
    }
  }

  lemma NextFixedAdmitted(s: State, check: int, at: seq<int>, k: nat, start: int)
    requires AllConfigured(s.limits) && Serial(s) && k < |s.limits|
    requires s.limits[k].window.Fixed? && FixedKept(s, k, start)
    requires Next(s, Trip(check, Admitted(at))).Some? && Serial(Next(s, Trip(check, Admitted(at))).value)
    ensures FixedKept(Next(s, Trip(check, Admitted(at))).value, k, start)
  {
    var e := Trip(check, Admitted(at));
    var t := Next(s, e).value;
    NextSettings(s, e);
    RolledCount(s, k, start, check);
    assert at[0] <= at[|at| - 1];
    if BlockAfter(t.limits, k) {
      LastFoundRoom(s, check, at, k, start);
      RoomAfter(s, t, k, start);
    }
    AfterAdmission(s, t, Rolled(s.limits[k], check), check, at, k, start);
  }

  lemma AfterAdmission(s: State, t: State, l: Limit, check: int, at: seq<int>, k: nat, start: int)
    requires Serial(s) && Serial(t) && l.period > 0 && l.window.Fixed? && (l.window.start - start) % l.period == 0
    requires l.window.start <= check < l.window.start + l.period && check <= t.clock
    requires forall i :: 0 <= i < |s.log| ==> s.log[i].check < l.window.start + l.period
    requires l.window.count == Checks(s.log, start, l.period, Slot(start, l.period, l.window.start))
    requires k < |t.limits| && k < |at| && t.limits[k] == Counted(l, at[k]) && t.log == s.log + [Admission(check, at)]
    requires BlockAfter(t.limits, k) ==> forall i :: 0 <= i < |t.log| ==> FoundRoom(t, k, start, i)
    ensures FixedKept(t, k, start)
  {
    OneMoreCheck(s.log, Admission(check, at), start, l.period, l.window.start);
  }

  // ---------- Every run ----------

  ghost predicate Kept(s: State, init: seq<Limit>) {
    && AllConfigured(s.limits) && Serial(s) && |init| == |s.limits|
    && forall k :: 0 <= k < |s.limits| ==> SlidingKept(s, k) && FixedKept(s, k, StartOf(init[k]))
  }

  /** Checks before this one are in earlier periods, so that few are left. */
  lemma {:induction false} ChecksAfter(log: seq<Admission>, start: int, period: int, p: int, i: nat)
    requires period > 0 && i <= |log| && forall j :: 0 <= j < i ==> Slot(start, period, log[j].check) < p
    ensures Checks(log, start, period, p) <= |log| - i
  {
    if |log| > i {
      ChecksAfter(log[..|log| - 1], start, period, p, i);
    } else if log != [] {
      ChecksAfter(log[..|log| - 1], start, period, p, i - 1);
    }
  }

  /** While limit k spaces admissions out, a period has passed since the one that is n + 1 back. */
  lemma PeriodPassed(s: State, k: nat, i: nat, check: int)
    requires AllConfigured(s.limits) && Serial(s) && k < |s.limits| && check >= s.clock
    requires var l := s.limits[k]; Spaced(CountedAt(s.log, k), l.perPeriod, l.period) && i + l.perPeriod < |s.log|
    ensures s.log[i].at[k] + s.limits[k].period <= check
  {
    var xs, last, n := CountedAt(s.log, k), |s.log| - 1, s.limits[k].perPeriod;
    SerialOrdered(s, k);
    assert Configured(s.limits[k]);
    assert xs[i] <= xs[last - n] && xs[last - n] + s.limits[k].period <= xs[last];
    assert s.log[last].at[k] <= s.log[last].at[|s.limits| - 1] <= s.clock;
  }

  lemma SlidingSpare(s: State, k: nat, j: nat, check: int)
    requires AllConfigured(s.limits) && Serial(s) && k < |s.limits| && j < |s.limits| && check >= s.clock
    requires s.limits[j].window == Sliding(CountedAt(s.log, j))
    requires var l := s.limits[k];
             Spaced(CountedAt(s.log, k), l.perPeriod, l.period) && Spare(s.limits[j], l.perPeriod, l.period)
    ensures !Exhausted(s.limits[j], check)
  {
    var m := s.limits[j].perPeriod;
    if |s.log| >= m {
      var i := |s.log| - m;
      PeriodPassed(s, k, i + 1, check);
      assert s.log[i].at[j] <= s.log[i].at[|s.limits| - 1] <= s.log[i + 1].check;
      assert s.log[i + 1].at[0] <= s.log[i + 1].at[k];
    }
  }

  lemma FixedSpare(s: State, k: nat, j: nat, start: int, check: int)
    requires AllConfigured(s.limits) && Serial(s) && k < |s.limits| && j < |s.limits| && check >= s.clock
    requires s.limits[j].window.Fixed? && FixedKept(s, j, start)
    requires var l := s.limits[k];
             Spaced(CountedAt(s.log, k), l.perPeriod, l.period) && Spare(s.limits[j], l.perPeriod, l.period)
    ensures !Exhausted(Rolled(s.limits[j], check), check)
  {
    var l := Rolled(s.limits[j], check);
    RolledCount(s, j, start, check);
    var p, i := Slot(start, l.period, l.window.start), |s.log| - l.perPeriod;
    if i < 0 {
      ChecksAfter(s.log, start, l.period, p, 0);
    } else {
      PeriodPassed(s, k, i, check);
      assert s.log[i].at[0] <= s.log[i].at[k];
      forall h | 0 <= h < i + 1
        ensures Slot(start, l.period, s.log[h].check) < p
      {
        assert s.log[h].check <= s.log[i].check;
        SlotOnGrid(start, l.period, l.window.start, s.log[h].check);
      }
      ChecksAfter(s.log, start, l.period, p, i + 1);
    }
  }

  /** So generous limits have capacity whenever a request is checked. */
  lemma GuardedDecides(s: State, init: seq<Limit>, k: nat, check: int)
    requires Kept(s, init) && k < |s.limits| && s.limits[k].window.Sliding? && Guarded(s.limits, k) && check >= s.clock
    ensures DecidedBy(AllRolled(s.limits, check), check, k)
  {
    assert SlidingKept(s, k);
    forall j | k < j < |s.limits| && s.limits[j].mode != Block
      ensures !Exhausted(Rolled(s.limits[j], check), check)
    {
      assert SlidingKept(s, j) && FixedKept(s, j, StartOf(init[j]));
      if s.limits[j].window.Sliding? {
        SlidingSpare(s, k, j, check);
      } else {
        FixedSpare(s, k, j, StartOf(init[j]), check);
      }
    }
  }

  lemma NextSliding(s: State, e: Event, init: seq<Limit>, k: nat)
    requires Kept(s, init) && k < |s.limits| && Next(s, e).Some?
    ensures Serial(Next(s, e).value) && SlidingKept(Next(s, e).value, k)
  {
    NextSerial(s, e);
    NextSettings(s, e);
    assert SlidingKept(s, k);
    if s.limits[k].window.Sliding? && e.Trip? && e.fate.Admitted? {
      AdmittedSliding(s, e.check, e.fate.at, init, k);
    }
  }

  lemma AdmittedSliding(s: State, check: int, at: seq<int>, init: seq<Limit>, k: nat)
    requires Kept(s, init) && k < |s.limits| && s.limits[k].window.Sliding? && Next(s, Trip(check, Admitted(at))).Some?
    requires Serial(Next(s, Trip(check, Admitted(at))).value)
    ensures SlidingKept(Next(s, Trip(check, Admitted(at))).value, k)
  {
    var t, l := Next(s, Trip(check, Admitted(at))).value, s.limits[k];
    assert SlidingKept(s, k);
    NextSettings(s, Trip(check, Admitted(at)));
    assert t.limits[k].window.puts == l.window.puts + [at[k]] == CountedAt(t.log, k);
    if Guarded(t.limits, k) {
      GuardedBefore(s.limits, t.limits, k);
      GuardedDecides(s, init, k, check);
      AdmittedInTime(s, check, at, k);
      SpacedMore(l.window.puts, l.perPeriod, l.period, at[k]);
    }
  }

  lemma GuardedBefore(a: seq<Limit>, b: seq<Limit>, k: nat)
    requires SameSettings(a, b) && k < |a|
    ensures Guarded(a, k) <==> Guarded(b, k)
  {
  }

  lemma NextKept(s: State, e: Event, init: seq<Limit>)
    requires Kept(s, init) && Next(s, e).Some?
    ensures Kept(Next(s, e).value, init)
  {
    var t := Next(s, e).value;
    NextSerial(s, e);
    NextSettings(s, e);
    forall k | 0 <= k < |t.limits|
      ensures SlidingKept(t, k) && FixedKept(t, k, StartOf(init[k]))
    {
      NextSliding(s, e, init, k);
      if s.limits[k].window.Fixed? {
        if e.Trip? && e.fate.Admitted? {
          NextFixedAdmitted(s, e.check, e.fate.at, k, StartOf(init[k]));
        } else {
          NextFixedUncounted(s, e, k, StartOf(init[k]));
        }
      }
    }
  }

  lemma {:induction false} RunKept(s: State, events: seq<Event>)
    requires Initial(s) && Periodic(s.limits) && Run(s, events).Some?
    ensures Kept(Run(s, events).value, s.limits)
  {
    if events == [] {
      assert forall k :: 0 <= k < |s.limits| ==> s.limits[k] in s.limits;
      forall k | 0 <= k < |s.limits|
        ensures SlidingKept(s, k) && FixedKept(s, k, StartOf(s.limits[k]))
      {
        assert CountedAt([], k) == [];
      }
    } else {
      var init, last := events[..|events| - 1], events[|events| - 1];
      RunKept(s, init);
      NextKept(Run(s, init).value, last, s.limits);
    }
  }

  /** Sliding window: over every run, every half-open interval as long as the period holds at
      most perPeriod admissions, if the limits that follow in the list block, or are generous. */
  lemma SlidingBound(s: State, events: seq<Event>, k: nat)
    requires Initial(s) && Periodic(s.limits) && Run(s, events).Some?
    requires k < |s.limits| && s.limits[k].window.Sliding? && Guarded(s.limits, k)
    ensures var t, l := Run(s, events).value, s.limits[k];
            && (forall i :: 0 <= i < |t.log| ==> k < |t.log[i].at|)
            && Spaced(CountedAt(t.log, k), l.perPeriod, l.period)
            && AtMost(l.perPeriod, CountedAt(t.log, k), l.period)
  {
    var t := Run(s, events).value;
    RunKept(s, events);
    SlidingKeptBound(t, k);
  }

  lemma SlidingKeptBound(t: State, k: nat)
    requires Serial(t) && k < |t.limits| && t.limits[k].window.Sliding? && Guarded(t.limits, k)
    requires SlidingKept(t, k) && Configured(t.limits[k])
    ensures var l := t.limits[k];
            && Spaced(CountedAt(t.log, k), l.perPeriod, l.period)
            && AtMost(l.perPeriod, CountedAt(t.log, k), l.period)
  {
    SerialOrdered(t, k);
    SpacedAtMost(CountedAt(t.log, k), t.limits[k].perPeriod, t.limits[k].period);
  }

  // ---------- Bounds for fixed windows ----------

  /** Admissions counted in period p that were checked in it. */
  ghost function InTime(log: seq<Admission>, k: nat, start: int, period: int, p: int): nat
    requires period > 0 && forall i :: 0 <= i < |log| ==> k < |log[i].at|
  {
    if log == [] then 0
    else
      var a := log[|log| - 1];
      InTime(log[..|log| - 1], k, start, period, p) +
      if Slot(start, period, a.at[k]) == p && Slot(start, period, a.check) == p then 1 else 0
  }

  /** Admissions counted in period p that were checked in an earlier one. */
  ghost function CarriedOver(log: seq<Admission>, k: nat, start: int, period: int, p: int): nat
    requires period > 0 && forall i :: 0 <= i < |log| ==> k < |log[i].at|
  {
    if log == [] then 0
    else
      var a := log[|log| - 1];
      CarriedOver(log[..|log| - 1], k, start, period, p) +
      if Slot(start, period, a.at[k]) == p && Slot(start, period, a.check) < p then 1 else 0
  }

  /** All admissions counted in period p. */
  ghost function CountedIn(log: seq<Admission>, k: nat, start: int, period: int, p: int): nat
    requires period > 0 && forall i :: 0 <= i < |log| ==> k < |log[i].at|
  {
    if log == [] then 0
    else
      CountedIn(log[..|log| - 1], k, start, period, p) +
      if Slot(start, period, log[|log| - 1].at[k]) == p then 1 else 0
  }

  ghost predicate SerialLog(log: seq<Admission>, k: nat) {
    && (forall i :: 0 <= i < |log| ==> k < |log[i].at| && log[i].check <= log[i].at[k])
    && (forall i, j :: 0 <= i < j < |log| ==> log[i].at[k] <= log[j].check)
  }

  lemma {:induction false} CountedSplit(log: seq<Admission>, k: nat, start: int, period: int, p: int)
    requires period > 0 && SerialLog(log, k)
    ensures CountedIn(log, k, start, period, p)
            == InTime(log, k, start, period, p) + CarriedOver(log, k, start, period, p)
  {
    if log != [] {
      CountedSplit(log[..|log| - 1], k, start, period, p);
      SlotMonotone(start, period, log[|log| - 1].check, log[|log| - 1].at[k]);
    }
  }

  lemma {:induction false} InTimeChecks(log: seq<Admission>, k: nat, start: int, period: int, p: int)
    requires period > 0 && SerialLog(log, k)
    ensures InTime(log, k, start, period, p) <= Checks(log, start, period, p)
  {
    if log != [] {
      InTimeChecks(log[..|log| - 1], k, start, period, p);
    }
  }

  ghost predicate Room(log: seq<Admission>, k: nat, start: int, period: int, n: nat, i: nat)
    requires period > 0 && i < |log| && k < |log[i].at|
  {
    Slot(start, period, log[i].at[k]) == Slot(start, period, log[i].check) ==> RoomAt(log, start, period, n, i)
  }

  lemma {:induction false} InTimeBound(log: seq<Admission>, k: nat, start: int, period: int, n: nat, p: int)
    requires period > 0 && SerialLog(log, k) && forall i :: 0 <= i < |log| ==> Room(log, k, start, period, n, i)
    ensures InTime(log, k, start, period, p) <= n
  {
    if log != [] {
      var init, last := log[..|log| - 1], log[|log| - 1];
      forall i | 0 <= i < |init|
        ensures Room(init, k, start, period, n, i)
      {
        assert Room(log, k, start, period, n, i);
        assert init[..i] == log[..i];
      }
      InTimeBound(init, k, start, period, n, p);
      assert Room(log, k, start, period, n, |log| - 1);
      InTimeChecks(init, k, start, period, p);
    }
  }

  lemma {:induction false} NoneEarly(log: seq<Admission>, k: nat, start: int, period: int, p: int)
    requires period > 0 && SerialLog(log, k) && forall i :: 0 <= i < |log| ==> Slot(start, period, log[i].at[k]) < p
    ensures CarriedOver(log, k, start, period, p) == 0
  {
    if log != [] {
      NoneEarly(log[..|log| - 1], k, start, period, p);
    }
  }

  lemma {:induction false} CarriedOverBound(log: seq<Admission>, k: nat, start: int, period: int, p: int)
    requires period > 0 && SerialLog(log, k)
    ensures CarriedOver(log, k, start, period, p) <= 1
  {
    if log != [] {
      var init, last := log[..|log| - 1], log[|log| - 1];
      if Slot(start, period, last.check) < p {
        forall i | 0 <= i < |init|
          ensures Slot(start, period, init[i].at[k]) < p
        {
          SlotMonotone(start, period, init[i].at[k], last.check);
        }
        NoneEarly(init, k, start, period, p);
      } else {
        CarriedOverBound(init, k, start, period, p);
      }
    }
  }

  lemma {:induction false} ChecksBound(log: seq<Admission>, start: int, period: int, n: nat, p: int)
    requires period > 0 && forall i :: 0 <= i < |log| ==> RoomAt(log, start, period, n, i)
    ensures Checks(log, start, period, p) <= n
  {
    if log != [] {
      var init := log[..|log| - 1];
      forall i | 0 <= i < |init|
        ensures RoomAt(init, start, period, n, i)
      {
        assert RoomAt(log, start, period, n, i);
        assert init[..i] == log[..i];
      }
      ChecksBound(init, start, period, n, p);
      assert RoomAt(log, start, period, n, |log| - 1);
    }
  }

  lemma SerialAt(s: State, k: nat)
    requires Serial(s) && k < |s.limits|
    ensures SerialLog(s.log, k)
  {
    forall i | 0 <= i < |s.log|
      ensures s.log[i].check <= s.log[i].at[k] <= s.log[i].at[|s.limits| - 1]
    {
      assert s.log[i].at[0] <= s.log[i].at[k];
    }
  }

  /** Fixed window: over every run, at most perPeriod requests are counted in a period in which
      they were checked, and at most one that was checked before. A blocking limit admits at most
      perPeriod of the requests checked in one period. */
  lemma FixedBound(s: State, events: seq<Event>, k: nat, p: int)
    requires Initial(s) && Periodic(s.limits) && Run(s, events).Some?
    requires k < |s.limits| && s.limits[k].window.Fixed? && BlockAfter(s.limits, k)
    ensures var t, l := Run(s, events).value, s.limits[k];
            && (forall i :: 0 <= i < |t.log| ==> k < |t.log[i].at|) && l.period > 0
            && InTime(t.log, k, StartOf(l), l.period, p) <= l.perPeriod
            && CarriedOver(t.log, k, StartOf(l), l.period, p) <= 1
            && CountedIn(t.log, k, StartOf(l), l.period, p) <= l.perPeriod + 1
            && (l.mode == Block ==> Checks(t.log, StartOf(l), l.period, p) <= l.perPeriod)
  {
    var t := Run(s, events).value;
    RunKept(s, events);
    FixedKeptBound(t, k, StartOf(s.limits[k]), p);
  }

  lemma FixedKeptBound(t: State, k: nat, start: int, p: int)
    requires Serial(t) && k < |t.limits| && t.limits[k].window.Fixed? && BlockAfter(t.limits, k)
    requires t.limits[k].period > 0 && FixedKept(t, k, start)
    ensures var l := t.limits[k];
            && (forall i :: 0 <= i < |t.log| ==> k < |t.log[i].at|)
            && InTime(t.log, k, start, l.period, p) <= l.perPeriod
            && CarriedOver(t.log, k, start, l.period, p) <= 1
            && CountedIn(t.log, k, start, l.period, p) <= l.perPeriod + 1
            && (l.mode == Block ==> Checks(t.log, start, l.period, p) <= l.perPeriod)
  {
    var l := t.limits[k];
    SerialAt(t, k);
    forall i | 0 <= i < |t.log|
      ensures Room(t.log, k, start, l.period, l.perPeriod, i)
      ensures l.mode == Block ==> RoomAt(t.log, start, l.period, l.perPeriod, i)
    {
      assert FoundRoom(t, k, start, i);
    }
    InTimeBound(t.log, k, start, l.period, l.perPeriod, p);
    CarriedOverBound(t.log, k, start, l.period, p);
    CountedSplit(t.log, k, start, l.period, p);
    if l.mode == Block {
      ChecksBound(t.log, start, l.period, l.perPeriod, p);
    }
  }

  // ---------- Requests that are not admitted ----------

  /** Rolling to a check in between does not change what is rolled to later. */
  lemma RolledOver(l: Limit, check: int, now: int)
    requires Configured(l) && check <= now && (l.window.Fixed? ==> l.window.start <= check)
    ensures Rolled(Rolled(l, check), now) == Rolled(l, now)
  {
    if l.window.Fixed? {
      var start, p := l.window.start, l.period;
      var i, j := (check - start) / p, (now - start) / p;
      RollGrid(start, p, check);
      RollGrid(start, p, now);
      if i > 0 {
        RolledRest(start, p, i, j, now);
      }
    }
  }

  lemma RolledRest(start: int, p: int, i: int, j: int, now: int)
    requires p > 0 && start + p * j <= now < start + p * j + p && start + p * i <= now && i > 0
    ensures (now - (start + p * i)) / p == j - i && p * i + p * (j - i) == p * j && i <= j
  {
    assert p * (j - i) == p * j - p * i && p * (i - j) == p * i - p * j;
    Quotient(now - (start + p * i), p, j - i);
    if i > j {
      AtLeastOne(p, i - j);
    }
  }

  /** A request that is blocked or cancelled uses no capacity: from then on, every limit demands
      the same wait as it would without that request. */
  lemma UncountedUseNothing(s: State, events: seq<Event>, e: Event, k: nat, now: int)
    requires Initial(s) && Periodic(s.limits) && Run(s, events + [e]).Some? && !(e.Trip? && e.fate.Admitted?)
    requires k < |s.limits| && now >= Run(s, events + [e]).value.clock
    ensures Run(s, events).Some? && Run(s, events + [e]).value.log == Run(s, events).value.log
    ensures var before, after := Run(s, events).value.limits[k], Run(s, events + [e]).value.limits[k];
            WaitFor(Rolled(after, now), now) == WaitFor(Rolled(before, now), now)
  {
    assert (events + [e])[..|events|] == events;
    RunKept(s, events);
    var before := Run(s, events).value;
    assert FixedKept(before, k, StartOf(s.limits[k])) && Configured(before.limits[k]);
    if e.Trip? {
      RolledOver(before.limits[k], e.check, now);
    }
  }

  ghost predicate GaveUp(events: seq<Event>) {
    exists i :: 0 <= i < |events| && events[i].Trip? && events[i].fate.Abandoned?
  }

  /** The mutex stays locked exactly after a request was cancelled while it was waiting. */
  lemma {:induction false} LockedIff(s: State, events: seq<Event>)
    requires Initial(s) && Periodic(s.limits) && Run(s, events).Some?
    ensures Run(s, events).value.locked <==> GaveUp(events)
  {
    if events != [] {
      var init, last := events[..|events| - 1], events[|events| - 1];
      LockedIff(s, init);
      assert events == init + [last];
      GaveUpMore(init, last);
    }
  }

  lemma GaveUpMore(events: seq<Event>, e: Event)
    ensures GaveUp(events + [e]) <==> GaveUp(events) || (e.Trip? && e.fate.Abandoned?)
  {
    if GaveUp(events) {
      var i :| 0 <= i < |events| && events[i].Trip? && events[i].fate.Abandoned?;
      assert (events + [e])[i] == events[i];
    }
    assert (events + [e])[|events|] == e;
  }

  /** A period after the last admission, a limit has capacity. */
  lemma CapacityAfterPause(t: State, init: seq<Limit>, k: nat, check: int)
    requires Kept(t, init) && k < |t.limits| && check >= t.clock + t.limits[k].period
    ensures t.limits[k].period > 0 && !Exhausted(Rolled(t.limits[k], check), check)
  {
    var l := t.limits[k];
    assert Configured(l) && SlidingKept(t, k) && FixedKept(t, k, StartOf(init[k]));
    match l.window {
      case Fixed(start, _) => OnePeriodOn(check - start, l.period);
      case Sliding(puts) =>
        if Latest(puts, l.perPeriod).Some? {
          var i := |puts| - l.perPeriod;
          assert t.log[i].at[k] <= t.log[i].at[|t.limits| - 1];
        }
    }
  }

  lemma OnePeriodOn(time: int, period: int)
    requires time >= period > 0
    ensures time / period > 0
  {
  }

  function LongestPeriod(limits: seq<Limit>): (r: int)
    ensures forall l <- limits :: l.period <= r
  {
    if limits == [] then 0
    else
      var last, rest := limits[|limits| - 1], LongestPeriod(limits[..|limits| - 1]);
      assert limits == limits[..|limits| - 1] + [last];
      if last.period > rest then last.period else rest
  }

  /** All limits count a request as soon as it is checked. */
  function AtOnce(limits: seq<Limit>, check: int): seq<int> {
    seq(|limits|, k => check)
  }

  lemma AllAfterPause(t: State, init: seq<Limit>, check: int)
    requires Kept(t, init) && check >= t.clock + LongestPeriod(t.limits)
    ensures HasCapacity(t, check)
  {
    forall k | 0 <= k < |t.limits|
      ensures !Exhausted(Rolled(t.limits[k], check), check)
    {
      assert t.limits[k] in t.limits;
      CapacityAfterPause(t, init, k, check);
    }
  }

  lemma AtOnceFits(t: State, check: int)
    requires AllConfigured(t.limits) && HasCapacity(t, check) && !t.locked && check >= t.clock
    ensures Periodic(t.limits) && Next(t, Trip(check, Admitted(AtOnce(t.limits, check)))).Some?
  {
    CapacityIsNoWait(t, check);
  }

  /** While nobody has given up, a pause of the longest period makes every request admitted at
      once, whatever happened before. */
  lemma AdmittedAfterPause(s: State, events: seq<Event>, check: int)
    requires Initial(s) && Periodic(s.limits) && Run(s, events).Some? && !GaveUp(events)
    requires var t := Run(s, events).value; check >= t.clock + LongestPeriod(t.limits) && check >= t.clock
    ensures var t := Run(s, events).value;
            Periodic(t.limits) && Next(t, Trip(check, Admitted(AtOnce(t.limits, check)))).Some?
  {
    var t := Run(s, events).value;
    RunKept(s, events);
    LockedIff(s, events);
    AllAfterPause(t, s.limits, check);
    AtOnceFits(t, check);
  }

  /** A request can be admitted after a run exactly if none was cancelled while it was waiting.
      If one was, no request is handled in any way. */
  lemma HandledIff(s: State, events: seq<Event>)
    requires Initial(s) && Periodic(s.limits) && Run(s, events).Some?
    ensures (exists check, at :: Next(Run(s, events).value, Trip(check, Admitted(at))).Some?) <==> !GaveUp(events)
    ensures GaveUp(events) ==> forall check, fate :: Next(Run(s, events).value, Trip(check, fate)).None?
  {
    var t := Run(s, events).value;
    LockedIff(s, events);
    if !GaveUp(events) {
      var pause := LongestPeriod(t.limits);
      var check := t.clock + if pause < 0 then 0 else pause;
      AdmittedAfterPause(s, events, check);
      assert Next(t, Trip(check, Admitted(AtOnce(t.limits, check)))).Some?;
    }
  }

  lemma RunConfigured(s: State, events: seq<Event>)
    requires Initial(s) && Periodic(s.limits) && Run(s, events).Some?
    ensures AllConfigured(Run(s, events).value.limits)
  {
    RunKept(s, events);
  }

  /** After that, no run changes anything any more. */
  lemma {:induction false} LockedForever(s: State, events: seq<Event>)
    requires AllConfigured(s.limits) && s.locked && Run(s, events).Some?
    ensures Run(s, events).value == s
  {
    if events != [] {
      LockedForever(s, events[..|events| - 1]);
    }
  }

  lemma AbandonFirst(s: State, when: int)
    requires Initial(s) && AllConfigured(s.limits) && when >= s.clock
    ensures Periodic(s.limits) && Next(s, Trip(s.clock, Abandoned(when))).Some?
    ensures Next(s, Trip(s.clock, Abandoned(when))).value.locked
  {
    assert forall k :: 0 <= k < |s.limits| ==> s.limits[k] in s.limits;
    forall k | 0 <= k < |s.limits|
      ensures !Exhausted(Rolled(s.limits[k], s.clock), s.clock)
    {
      assert Configured(s.limits[k]);
    }
    CapacityIsNoWait(s, s.clock);
  }

  /** In every new limiter the first request can end like this. */
  lemma FirstGivesUp(s: State, when: int)
    requires Initial(s) && Periodic(s.limits) && when >= s.clock
    ensures var t := Run(s, [Trip(s.clock, Abandoned(when))]);
            t.Some? && t.value.locked && forall check, fate :: Next(t.value, Trip(check, fate)).None?
  {
    RunConfigured(s, []);
    AbandonFirst(s, when);
    assert Run(s, []) == Some(s);
    RunMore(s, [], Trip(s.clock, Abandoned(when)));
    assert [] + [Trip(s.clock, Abandoned(when))] == [Trip(s.clock, Abandoned(when))];
  }

  // ---------- When a limit has capacity ----------

  /** At least n of the times are within the period that ends now. */
  ghost predicate Full(times: seq<int>, n: nat, period: int, now: int) {
    Within(times, now - period + 1, now + 1) >= n
  }

  /** A sliding limit is exhausted exactly if it has counted perPeriod requests within the period
      that ends now. */
  lemma SlidingExhaustedIff(s: State, events: seq<Event>, k: nat, now: int)
    requires Initial(s) && Periodic(s.limits) && Run(s, events).Some? && now >= Run(s, events).value.clock
    requires k < |s.limits| && s.limits[k].window.Sliding?
    ensures var t, l := Run(s, events).value, s.limits[k];
            && (forall i :: 0 <= i < |t.log| ==> k < |t.log[i].at|)
            && (Exhausted(t.limits[k], now) <==> Full(CountedAt(t.log, k), l.perPeriod, l.period, now))
  {
    RunKept(s, events);
    SlidingKeptExhausted(Run(s, events).value, k, now);
  }

  lemma SlidingKeptExhausted(t: State, k: nat, now: int)
    requires AllConfigured(t.limits) && Serial(t) && k < |t.limits| && t.limits[k].window.Sliding? && SlidingKept(t, k)
    requires now >= t.clock
    ensures var l := t.limits[k];
            Exhausted(l, now) <==> Full(CountedAt(t.log, k), l.perPeriod, l.period, now)
  {
    SerialOrdered(t, k);
    forall i | 0 <= i < |t.log|
      ensures t.log[i].at[k] <= now
    {
      assert t.log[i].at[k] <= t.log[i].at[|t.limits| - 1] <= t.clock;
    }
    LatestExhausted(t.limits[k], CountedAt(t.log, k), now);
  }

  lemma LatestExhausted(l: Limit, times: seq<int>, now: int)
    requires Configured(l) && l.window == Sliding(times) && Ordered(times)
    requires forall i :: 0 <= i < |times| ==> times[i] <= now
    ensures Exhausted(l, now) <==> Full(times, l.perPeriod, l.period, now)
  {
    var from, i := now - l.period + 1, |times| - l.perPeriod;
    if i < 0 {
      WithinIsShort(times, from, now + 1, 0);
    } else if times[i] >= from {
      WithinMany(times, from, now + 1, i);
    } else {
      WithinIsShort(times, from, now + 1, i + 1);
    }
  }

  /** A fixed limit is exhausted exactly if it has admitted perPeriod requests that were checked in
      the period of now. */
  lemma FixedExhaustedIff(s: State, events: seq<Event>, k: nat, now: int)
    requires Initial(s) && Periodic(s.limits) && Run(s, events).Some? && now >= Run(s, events).value.clock
    requires k < |s.limits| && s.limits[k].window.Fixed?
    ensures var t, l := Run(s, events).value, s.limits[k];
            && l.period > 0 && t.limits[k].period > 0
            && (Exhausted(Rolled(t.limits[k], now), now) <==>
                  Checks(t.log, StartOf(l), l.period, Slot(StartOf(l), l.period, now)) >= l.perPeriod)
  {
    RunKept(s, events);
    FixedKeptExhausted(Run(s, events).value, k, StartOf(s.limits[k]), now);
  }

  lemma FixedKeptExhausted(t: State, k: nat, start: int, now: int)
    requires AllConfigured(t.limits) && Serial(t) && k < |t.limits| && t.limits[k].window.Fixed?
    requires FixedKept(t, k, start) && now >= t.clock
    ensures var l := t.limits[k];
            && l.period > 0
            && (Exhausted(Rolled(l, now), now) <==>
                  Checks(t.log, start, l.period, Slot(start, l.period, now)) >= l.perPeriod)
  {
    RolledCount(t, k, start, now);
    SlotOnGrid(start, t.limits[k].period, Rolled(t.limits[k], now).window.start, now);
  }

  /** The last exhausted limit decides: a request is rejected exactly if that limit blocks;
      otherwise it waits, and may give up, or is admitted after the wait that this limit demands. */
  lemma LastExhaustedDecides(s: State, check: int, k: nat, at: seq<int>, when: int)
    requires AllConfigured(s.limits) && !s.locked && check >= s.clock && k < |s.limits|
    requires Exhausted(Rolled(s.limits[k], check), check)
    requires forall j :: k < j < |s.limits| ==> !Exhausted(Rolled(s.limits[j], check), check)
    ensures Next(s, Trip(check, Rejected)).Some? <==> s.limits[k].mode == Block
    ensures Next(s, Trip(check, Abandoned(when))).Some? <==> s.limits[k].mode == Wait && when >= check
    ensures |at| == |s.limits| && Ordered(at) ==>
      (Next(s, Trip(check, Admitted(at))).Some? <==>
         s.limits[k].mode == Wait && at[0] >= check + WaitFor(Rolled(s.limits[k], check), check))
  {
    LastExhausted(AllRolled(s.limits, check), check, k);
    assert Configured(s.limits[k]);
    WaitIsPositive(s.limits[k], check);
  }

  // ---------- Blocking limits only ----------

  ghost predicate HasCapacity(s: State, now: int)
    requires AllConfigured(s.limits)
  {
    forall k :: 0 <= k < |s.limits| ==> !Exhausted(Rolled(s.limits[k], now), now)
  }

  lemma CapacityIsNoWait(s: State, now: int)
    requires AllConfigured(s.limits)
    ensures Verdict(AllRolled(s.limits, now), now).1 >= 0
    ensures Verdict(AllRolled(s.limits, now), now).1 == 0 <==> HasCapacity(s, now)
  {
    var limits := AllRolled(s.limits, now);
    forall k | 0 <= k < |limits|
      ensures WaitFor(limits[k], now) >= 0 && limits[k] in limits
    {
      WaitIsPositive(s.limits[k], now);
    }
    NoWaitIff(limits, now);
  }

  lemma {:induction false} OnlyBlocks(limits: seq<Limit>, now: int)
    requires forall k :: 0 <= k < |limits| ==> limits[k].mode == Block
    ensures Verdict(limits, now).1 != 0 ==> Verdict(limits, now).0 == Block
  {
    if limits != [] {
      OnlyBlocks(limits[..|limits| - 1], now);
    }
  }

  /** With blocking limits only, a request that is checked can be admitted, without any wait,
      exactly if every limit has capacity, and is rejected exactly otherwise. */
  lemma AllBlockAdmitsIff(s: State, check: int, at: seq<int>)
    requires AllConfigured(s.limits) && (forall k :: 0 <= k < |s.limits| ==> s.limits[k].mode == Block)
    requires !s.locked && check >= s.clock && |at| == |s.limits| && Ordered(at) && at[0] >= check
    ensures Next(s, Trip(check, Admitted(at))).Some? <==> HasCapacity(s, check)
    ensures Next(s, Trip(check, Rejected)).Some? <==> !HasCapacity(s, check)
  {
    CapacityIsNoWait(s, check);
    OnlyBlocks(AllRolled(s.limits, check), check);
  }

  // ---------- Several limits that let requests wait ----------

  /** After some time without admissions, a limit has capacity exactly if it did not demand a
      longer wait. */
  lemma CapacityLaterIff(l: Limit, now: int, wait: int)
    requires Configured(l) && wait >= 0 && (l.window.Fixed? ==> l.window.start <= now)
    ensures !Exhausted(Rolled(l, now + wait), now + wait) <==> WaitFor(Rolled(l, now), now) <= wait
  {
    var r := Rolled(l, now);
    if l.window.Fixed? {
      RollGrid(l.window.start, l.period, now);
      RollGrid(l.window.start, l.period, now + wait);
      RolledTwice(l, now, wait);
    }
  }

  lemma RolledTwice(l: Limit, now: int, wait: int)
    requires Configured(l) && l.window.Fixed? && l.window.start <= now && wait >= 0
    ensures var r, t := Rolled(l, now), Rolled(l, now + wait);
            if now + wait < r.window.start + l.period then t == r else t.window.Fixed? && t.window.count == 0
  {
    var p := l.period;
    var i, j := (now - l.window.start) / p, (now + wait - l.window.start) / p;
    SlotMonotone(l.window.start, p, now, now + wait);
    RollGrid(l.window.start, p, now);
    RollGrid(l.window.start, p, now + wait);
    if now + wait < l.window.start + p * i + p {
      Quotient(now + wait - l.window.start, p, i);
    } else if i == j {
      assert false;
    }
  }
}
