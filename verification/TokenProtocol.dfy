/** handler/transport/oauth2_req_auth.go: many callers share one token in the store. Each step of
    a caller is a move; moves of different callers interleave in any way. */
module TokenProtocol {
  import opened Options
  import opened MemoryStores

  /** Where a caller is. The mutex is held from Rereading to Unlocking. */
  datatype Pc =
    | Idle
    | Reading
    | Locking
    | Rereading
    | Preparing
    | Requesting
    | Storing(token: string, expiresIn: Option<real>)
    | Unlocking(result: Option<string>)
    | Returned(result: Option<string>)

  datatype Move =
    | Call
    | Read(now: int)
    | Lock
    | Issue(now: int)         // the token request goes out
    | NoAssertion             // it cannot be built
    | Respond(token: string, expiresIn: Option<real>)
    | Fail
    | Store(now: int)
    | Unlock
    | Unauthorized            // the backend answers with status 401
    | Collect(tick: int)      // by the store's collector

  /** What has happened to tokens so far. */
  datatype Happened = Issued(at: int) | Failed | Stored(token: string, ttl: int, at: int) | Deleted

  datatype State = State(
    pcs: map<nat, Pc>, retries: map<nat, nat>, owner: Option<nat>, store: Option<Entry>, clock: int, log: seq<Happened>)

  // ---------- Lifetimes ----------

  /** Conversion from a float to an integer truncates. */
  function Truncated(x: real): int {
    if x >= 0.0 then x.Floor else -(-x).Floor
  }

  /** Nine tenths of what the response says, or nothing. */
  function Ttl(expiresIn: Option<real>): int {
    if expiresIn.Some? then Truncated(expiresIn.value * 0.9) else 0
  }

  /** A token never lives longer than nine tenths of what the response allows, nor longer than a
      day; and it lives as long as that, in whole seconds. */
  lemma TokenOutlivedByPermit(expiresIn: real)
    ensures 0 <= Clamped(Ttl(Some(expiresIn))) <= MAX_EXPIRES_IN
    ensures expiresIn >= 0.0 ==> (Clamped(Ttl(Some(expiresIn))) as real) <= expiresIn * 0.9
    ensures expiresIn < 0.0 ==> Clamped(Ttl(Some(expiresIn))) == 0
    ensures 0.0 <= expiresIn * 0.9 <= 86400.0 ==> (Clamped(Ttl(Some(expiresIn))) as real) > expiresIn * 0.9 - 1.0
    ensures expiresIn * 0.9 >= 86400.0 ==> Clamped(Ttl(Some(expiresIn))) == 86400
  {
    var x := expiresIn * 0.9;
    if x < 0.0 {
      assert (-x).Floor >= 0;
    }
  }

  function ReadToken(store: Option<Entry>, now: int): string {
    if store.Some? && now < store.value.expAt then store.value.value else ""
  }

  // ---------- Steps ----------

  predicate Critical(pc: Pc) {
    pc.Rereading? || pc.Preparing? || pc.Requesting? || pc.Storing? || pc.Unlocking?
  }

  function Goes(s: State, a: nat, pc: Pc): State
    requires a in s.pcs
  {
    s.(pcs := s.pcs[a := pc])
  }

  /** The state after caller a makes the move, or None if it cannot. */
  function Next(max: nat, s: State, a: nat, m: Move): Option<State> {
    if a !in s.pcs || a !in s.retries then None
    else
      match (s.pcs[a], m)
      case (Idle, Call) => Some(Goes(s, a, Reading).(retries := s.retries[a := 0]))
      case (Returned(_), Call) => Some(Goes(s, a, Reading).(retries := s.retries[a := 0]))
      case (Reading, Read(now)) =>
        if now < s.clock then None
        else
          var token := ReadToken(s.store, now);
          Some(Goes(s, a, if token != "" then Returned(Some(token)) else Locking).(clock := now))
      case (Locking, Lock) =>
        if s.owner.Some? then None else Some(Goes(s, a, Rereading).(owner := Some(a)))
      case (Rereading, Read(now)) =>
        if now < s.clock then None
        else
          var token := ReadToken(s.store, now);
          Some(Goes(s, a, if token != "" then Unlocking(Some(token)) else Preparing).(clock := now))
      case (Preparing, NoAssertion) => Some(Goes(s, a, Unlocking(None)))
      case (Preparing, Issue(now)) =>
        if now < s.clock then None
        else Some(Goes(s, a, Requesting).(clock := now, log := s.log + [Issued(now)]))
      case (Requesting, Fail) => Some(Goes(s, a, Unlocking(None)).(log := s.log + [Failed]))
      case (Requesting, Respond(token, expiresIn)) => Some(Goes(s, a, Storing(token, expiresIn)))
      case (Storing(token, expiresIn), Store(now)) =>
        if now < s.clock then None
        else
          var ttl := Ttl(expiresIn);
          Some(Goes(s, a, Unlocking(Some(token))).(
               clock := now, store := Some(Entry(token, now + Clamped(ttl))), log := s.log + [Stored(token, ttl, now)]))
      case (Unlocking(result), Unlock) => Some(Goes(s, a, Returned(result)).(owner := None))
      case (Returned(Some(_)), Unauthorized) =>
        var deleted := s.(store := None, log := s.log + [Deleted]);
        if s.retries[a] < max then Some(Goes(deleted, a, Reading).(retries := s.retries[a := s.retries[a] + 1]))
        else Some(Goes(deleted, a, Idle))
      case (_, Collect(tick)) =>
        if tick <= s.clock && s.store.Some? && tick >= s.store.value.expAt then Some(s.(store := None)) else None
      case _ => None
  }

  ghost predicate Initial(s: State) {
    && (forall a :: a in s.pcs ==> s.pcs[a] == Idle) && s.retries.Keys == s.pcs.Keys
    && (forall a :: a in s.retries ==> s.retries[a] == 0)
    && s.owner == None && s.store == None && s.log == []
  }

  function Run(max: nat, s: State, moves: seq<(nat, Move)>): Option<State> {
    if moves == [] then Some(s)
    else
      var before := Run(max, s, moves[..|moves| - 1]);
      var last := moves[|moves| - 1];
      if before.None? then None else Next(max, before.value, last.0, last.1)
  }

  // ---------- What every step keeps ----------

  /** Exactly the owner of the mutex is between Lock and Unlock. */
  ghost predicate Exclusive(s: State) {
    && (forall a :: a in s.pcs ==> (Critical(s.pcs[a]) <==> s.owner == Some(a)))
    && (s.owner.Some? ==> s.owner.value in s.pcs)
  }

  predicate InFlight(pc: Pc) {
    pc.Requesting? || pc.Storing?
  }

  ghost predicate AnyInFlight(s: State) {
    exists a :: a in s.pcs && InFlight(s.pcs[a])
  }

  /** From now on, nothing that could be used is in the store. */
  ghost predicate NothingLive(s: State) {
    s.store.Some? ==> s.store.value.value == "" || s.store.value.expAt <= s.clock
  }

  ghost predicate NeedsToken(s: State) {
    forall a :: a in s.pcs && (s.pcs[a].Preparing? || InFlight(s.pcs[a])) ==> NothingLive(s)
  }

  /** This is a reason to request another token at this time. */
  predicate Excuse(h: Happened, now: int) {
    h.Failed? || h.Deleted? || (h.Stored? && (h.token == "" || h.at + Clamped(h.ttl) <= now))
  }

  ghost predicate ExcusedBetween(log: seq<Happened>, i: nat, j: nat, now: int) {
    exists k :: i < k < j <= |log| && Excuse(log[k], now)
  }

  /** The store holds what a later request has got. */
  ghost predicate CoveredAfter(s: State, i: nat) {
    exists k :: i < k < |s.log| && s.log[k].Stored?
      && s.store == Some(Entry(s.log[k].token, s.log[k].at + Clamped(s.log[k].ttl)))
  }

  /** Every request has been answered, unless one is in flight; what it got is in the store, or
      there is a reason why it is not. */
  ghost predicate Accounted(s: State, i: nat) {
    i < |s.log| && s.log[i].Issued? ==>
      AnyInFlight(s) || ExcusedBetween(s.log, i, |s.log|, s.clock) || CoveredAfter(s, i)
  }

  /** Between any two requests there is a reason for the second. */
  ghost predicate Justified(log: seq<Happened>, i: nat, j: nat) {
    i < j < |log| && log[i].Issued? && log[j].Issued? ==> ExcusedBetween(log, i, j, log[j].at)
  }

  predicate TokenOf(pc: Pc, token: string) {
    (pc.Unlocking? || pc.Returned?) && pc.result == Some(token)
  }

  ghost predicate WasStored(log: seq<Happened>, token: string) {
    exists k :: 0 <= k < |log| && log[k].Stored? && log[k].token == token
  }

  /** Tokens in the store and with callers come from responses. */
  ghost predicate Genuine(s: State) {
    && (s.store.Some? ==> WasStored(s.log, s.store.value.value))
    && (forall a, token :: a in s.pcs && TokenOf(s.pcs[a], token) ==> WasStored(s.log, token))
  }

  ghost predicate RetriesBounded(max: nat, s: State) {
    s.retries.Keys == s.pcs.Keys && forall a :: a in s.retries ==> s.retries[a] <= max
  }

  ghost predicate Inv(max: nat, s: State) {
    && Exclusive(s) && NeedsToken(s) && Genuine(s) && RetriesBounded(max, s)
    && (forall i: nat {:trigger Accounted(s, i)} :: Accounted(s, i))
    && (forall i: nat, j: nat {:trigger Justified(s.log, i, j)} :: Justified(s.log, i, j))
  }

  lemma NextExclusive(max: nat, s: State, a: nat, m: Move)
    requires Exclusive(s) && Next(max, s, a, m).Some?
    ensures Exclusive(Next(max, s, a, m).value)
  {
  }

  lemma NextNeedsToken(max: nat, s: State, a: nat, m: Move)
    requires Exclusive(s) && NeedsToken(s) && Next(max, s, a, m).Some?
    ensures NeedsToken(Next(max, s, a, m).value)
  {
  }

  lemma NextRetries(max: nat, s: State, a: nat, m: Move)
    requires RetriesBounded(max, s) && Next(max, s, a, m).Some?
    ensures RetriesBounded(max, Next(max, s, a, m).value)
  {
  }

  lemma StoredStays(log: seq<Happened>, more: seq<Happened>, token: string)
    requires WasStored(log, token) && log <= more
    ensures WasStored(more, token)
  {
    var k :| 0 <= k < |log| && log[k].Stored? && log[k].token == token;
    assert more[k] == log[k];
  }

  lemma NextGenuine(max: nat, s: State, a: nat, m: Move)
    requires Genuine(s) && Next(max, s, a, m).Some?
    ensures Genuine(Next(max, s, a, m).value)
  {
    var t := Next(max, s, a, m).value;
    assert m.Store? && s.pcs[a].Storing? ==> t.log[|s.log|].token == s.pcs[a].token;
    forall token | WasStored(s.log, token)
      ensures WasStored(t.log, token)
    {
      StoredStays(s.log, t.log, token);
    }
  }

  lemma ExcusedLater(log: seq<Happened>, more: seq<Happened>, i: nat, j: nat, now: int, later: int)
    requires ExcusedBetween(log, i, j, now) && log <= more && now <= later
    ensures ExcusedBetween(more, i, j, later) && ExcusedBetween(more, i, |more|, later)
  {
    var k :| i < k < j <= |log| && Excuse(log[k], now);
    assert Excuse(more[k], later);
  }

  lemma CoveredLater(s: State, t: State, i: nat)
    requires CoveredAfter(s, i) && s.log <= t.log && s.store == t.store
    ensures CoveredAfter(t, i)
  {
    var k :| i < k < |s.log| && s.log[k].Stored?
      && s.store == Some(Entry(s.log[k].token, s.log[k].at + Clamped(s.log[k].ttl)));
    assert t.log[k] == s.log[k];
  }

  /** What a request got is of no use any more: that is a reason for another one. */
  lemma UselessIsExcuse(s: State, i: nat, now: int)
    requires CoveredAfter(s, i) && s.clock <= now
    requires s.store.Some? && (s.store.value.value == "" || s.store.value.expAt <= now)
    ensures ExcusedBetween(s.log, i, |s.log|, now)
  {
    var k :| i < k < |s.log| && s.log[k].Stored?
      && s.store == Some(Entry(s.log[k].token, s.log[k].at + Clamped(s.log[k].ttl)));
    assert Excuse(s.log[k], now);
  }

  lemma FlightGoesOn(max: nat, s: State, a: nat, m: Move)
    requires Next(max, s, a, m).Some? && AnyInFlight(s) && !m.Fail? && !m.Store?
    ensures AnyInFlight(Next(max, s, a, m).value)
  {
    var t := Next(max, s, a, m).value;
    var b :| b in s.pcs && InFlight(s.pcs[b]);
    assert b in t.pcs && InFlight(t.pcs[b]);
  }

  /** A move that ends the flight or empties the store leaves a trace in the log. */
  lemma TraceAccounts(s: State, t: State, i: nat)
    requires |t.log| == |s.log| + 1 && s.log <= t.log && i < |s.log|
    requires var h := t.log[|s.log|];
             Excuse(h, t.clock) || (h.Stored? && t.store == Some(Entry(h.token, h.at + Clamped(h.ttl))))
    ensures Accounted(t, i)
  {
  }

  lemma NextAccounted(max: nat, s: State, a: nat, m: Move, i: nat)
    requires Next(max, s, a, m).Some? && Accounted(s, i)
    ensures Accounted(Next(max, s, a, m).value, i)
  {
    var t := Next(max, s, a, m).value;
    if i < |t.log| && t.log[i].Issued? {
      if m.Issue? {
        assert a in t.pcs && InFlight(t.pcs[a]);
      } else if m.Fail? || m.Store? || m.Unauthorized? {
        TraceAccounts(s, t, i);
      } else if AnyInFlight(s) {
        FlightGoesOn(max, s, a, m);
      } else if ExcusedBetween(s.log, i, |s.log|, s.clock) {
        ExcusedLater(s.log, t.log, i, |s.log|, s.clock, t.clock);
      } else if m.Collect? {
        UselessIsExcuse(s, i, s.clock);
      } else {
        CoveredLater(s, t, i);
      }
    }
  }

  /** Before a request goes out, there is a reason for it. */
  lemma IssueIsJustified(max: nat, s: State, a: nat, now: int, i: nat)
    requires Next(max, s, a, Issue(now)).Some? && Exclusive(s) && NeedsToken(s) && Accounted(s, i)
    requires i < |s.log| && s.log[i].Issued?
    ensures ExcusedBetween(s.log, i, |s.log|, now)
  {
    forall b | b in s.pcs
      ensures !InFlight(s.pcs[b])
    {
      assert Critical(s.pcs[a]);
    }
    if ExcusedBetween(s.log, i, |s.log|, s.clock) {
      ExcusedLater(s.log, s.log, i, |s.log|, s.clock, now);
    } else {
      UselessIsExcuse(s, i, now);
    }
  }

  lemma NextJustified(max: nat, s: State, a: nat, m: Move, i: nat, j: nat)
    requires Next(max, s, a, m).Some? && Exclusive(s) && NeedsToken(s) && Accounted(s, i) && Justified(s.log, i, j)
    ensures Justified(Next(max, s, a, m).value.log, i, j)
  {
    var t := Next(max, s, a, m).value;
    if i < j < |t.log| && t.log[i].Issued? && t.log[j].Issued? {
      if j == |s.log| {
        IssueIsJustified(max, s, a, m.now, i);
        ExcusedLater(s.log, t.log, i, j, m.now, m.now);
      } else {
        ExcusedLater(s.log, t.log, i, j, s.log[j].at, s.log[j].at);
      }
    }
  }

  lemma NextInv(max: nat, s: State, a: nat, m: Move)
    requires Inv(max, s) && Next(max, s, a, m).Some?
    ensures Inv(max, Next(max, s, a, m).value)
  {
    NextExclusive(max, s, a, m);
    NextNeedsToken(max, s, a, m);
    NextGenuine(max, s, a, m);
    NextRetries(max, s, a, m);
    forall i: nat
      ensures Accounted(Next(max, s, a, m).value, i)
    {
      assert Accounted(s, i);
      NextAccounted(max, s, a, m, i);
    }
    forall i: nat, j: nat
      ensures Justified(Next(max, s, a, m).value.log, i, j)
    {
      assert Accounted(s, i) && Justified(s.log, i, j);
      NextJustified(max, s, a, m, i, j);
    }
  }

  lemma {:induction false} RunInv(max: nat, s: State, moves: seq<(nat, Move)>)
    requires Initial(s) && Run(max, s, moves).Some?
    ensures Inv(max, Run(max, s, moves).value)
  {
    if moves != [] {
      var init, last := moves[..|moves| - 1], moves[|moves| - 1];
      RunInv(max, s, init);
      NextInv(max, Run(max, s, init).value, last.0, last.1);
    }
  }

  // ---------- Over every run ----------

  /** At most one token request is in flight. */
  lemma OneRequestInFlight(max: nat, s: State, moves: seq<(nat, Move)>, a: nat, b: nat)
    requires Initial(s) && Run(max, s, moves).Some?
    requires var t := Run(max, s, moves).value; a in t.pcs && b in t.pcs && InFlight(t.pcs[a]) && InFlight(t.pcs[b])
    ensures a == b
  {
    RunInv(max, s, moves);
  }

  /** A token request goes out only when the store holds nothing of use. Between any two of them
      the earlier one or a later one failed, or got something that was empty or has expired, or
      the token was deleted. */
  lemma RequestsAreNeeded(max: nat, s: State, moves: seq<(nat, Move)>, a: nat, now: int)
    requires Initial(s) && Run(max, s, moves + [(a, Issue(now))]).Some?
    ensures Run(max, s, moves).Some?
    ensures forall later :: later >= now ==> ReadToken(Run(max, s, moves).value.store, later) == ""
    ensures var log := Run(max, s, moves + [(a, Issue(now))]).value.log;
            forall i: nat, j: nat {:trigger Justified(log, i, j)} :: Justified(log, i, j)
  {
    var all := moves + [(a, Issue(now))];
    assert all[..|all| - 1] == moves;
    RunInv(max, s, moves);
    RunInv(max, s, all);
  }

  /** A token that a caller gets, by itself or from the store, comes from a response. Retries
      are bounded. */
  lemma TokensAreGenuine(max: nat, s: State, moves: seq<(nat, Move)>, a: nat, token: string)
    requires Initial(s) && Run(max, s, moves).Some? && a in Run(max, s, moves).value.pcs
    ensures var t := Run(max, s, moves).value;
            && (t.pcs[a] == Returned(Some(token)) ==> WasStored(t.log, token))
            && a in t.retries && t.retries[a] <= max
  {
    RunInv(max, s, moves);
    var t := Run(max, s, moves).value;
    assert t.pcs[a] == Returned(Some(token)) ==> TokenOf(t.pcs[a], token);
  }

  // ---------- Where a result comes from ----------

  /** Moves that a caller makes after its result is known, and those of the collector. */
  predicate Trailing(m: Move) {
    m.Unlock? || m.Collect?
  }

  /** The i-th move is the last one of a, but for such moves. */
  ghost predicate LastOf(moves: seq<(nat, Move)>, a: nat, i: nat) {
    && i < |moves| && moves[i].0 == a && !Trailing(moves[i].1)
    && forall j :: i < j < |moves| && moves[j].0 == a ==> Trailing(moves[j].1)
  }

  /** The i-th move gave this result: it read a live token from the store, or its request failed or
      was not made, or it stored the token of the response that it had got just before. */
  ghost predicate Gives(max: nat, s: State, moves: seq<(nat, Move)>, a: nat, i: nat, result: Option<string>)
    requires i < |moves|
  {
    var u := Run(max, s, moves[..i]);
    match moves[i].1
    case Read(now) => u.Some? && ReadToken(u.value.store, now) != "" && result == Some(ReadToken(u.value.store, now))
    case NoAssertion => result == None
    case Fail => result == None
    case Store(_) => result.Some? && exists h: nat :: LastOf(moves[..i], a, h) && Answers(moves[h].1, result.value)
    case _ => false
  }

  predicate Answers(m: Move, token: string) {
    m.Respond? && m.token == token
  }

  ghost predicate Explained(max: nat, s: State, moves: seq<(nat, Move)>, a: nat, result: Option<string>) {
    exists i: nat :: LastOf(moves, a, i) && Gives(max, s, moves, a, i, result)
  }

  ghost predicate AwaitsStore(moves: seq<(nat, Move)>, a: nat, token: string) {
    exists h: nat :: LastOf(moves, a, h) && Answers(moves[h].1, token)
  }

  /** What the moves say about a caller. */
  ghost predicate Traced(max: nat, s: State, moves: seq<(nat, Move)>, a: nat, pc: Pc) {
    match pc
    case Storing(token, _) => AwaitsStore(moves, a, token)
    case Unlocking(result) => Explained(max, s, moves, a, result)
    case Returned(result) => Explained(max, s, moves, a, result)
    case _ => true
  }

  lemma LastOfMore(moves: seq<(nat, Move)>, a: nat, i: nat, b: nat, m: Move)
    requires LastOf(moves, a, i) && (b != a || Trailing(m))
    ensures LastOf(moves + [(b, m)], a, i)
  {
  }

  lemma GivesMore(max: nat, s: State, moves: seq<(nat, Move)>, a: nat, i: nat, result: Option<string>,
                  last: (nat, Move))
    requires i < |moves| && Gives(max, s, moves, a, i, result)
    ensures Gives(max, s, moves + [last], a, i, result)
  {
    assert (moves + [last])[..i] == moves[..i];
    if moves[i].1.Store? {
      var h: nat :| LastOf(moves[..i], a, h) && Answers(moves[h].1, result.value);
      assert (moves + [last])[h] == moves[h];
    }
  }

  lemma TracedMore(max: nat, s: State, moves: seq<(nat, Move)>, a: nat, pc: Pc, b: nat, m: Move)
    requires Traced(max, s, moves, a, pc) && (b != a || Trailing(m))
    ensures Traced(max, s, moves + [(b, m)], a, pc)
  {
    if pc.Storing? {
      var h: nat :| LastOf(moves, a, h) && Answers(moves[h].1, pc.token);
      LastOfMore(moves, a, h, b, m);
      assert (moves + [(b, m)])[h] == moves[h];
    } else if pc.Unlocking? || pc.Returned? {
      var i: nat :| LastOf(moves, a, i) && Gives(max, s, moves, a, i, pc.result);
      LastOfMore(moves, a, i, b, m);
      GivesMore(max, s, moves, a, i, pc.result, (b, m));
    }
  }

  /** A move of a itself. */
  lemma TracedOwn(max: nat, s: State, moves: seq<(nat, Move)>, a: nat, m: Move)
    requires Run(max, s, moves).Some? && a in Run(max, s, moves).value.pcs && !Trailing(m)
    requires Traced(max, s, moves, a, Run(max, s, moves).value.pcs[a])
    requires Next(max, Run(max, s, moves).value, a, m).Some?
    ensures var t := Next(max, Run(max, s, moves).value, a, m).value;
            a in t.pcs && Traced(max, s, moves + [(a, m)], a, t.pcs[a])
  {
    var all, i := moves + [(a, m)], |moves|;
    assert all[..i] == moves && LastOf(all, a, i);
    if m.Store? {
      var pc := Run(max, s, moves).value.pcs[a];
      var h: nat :| LastOf(moves, a, h) && Answers(moves[h].1, pc.token);
      assert all[h] == moves[h];
    }
    var result := Next(max, Run(max, s, moves).value, a, m).value.pcs[a];
    if result.Unlocking? || result.Returned? {
      assert Gives(max, s, all, a, i, result.result);
    }
  }

  lemma TracedNext(max: nat, s: State, moves: seq<(nat, Move)>, a: nat, b: nat, m: Move)
    requires Run(max, s, moves).Some? && a in Run(max, s, moves).value.pcs
    requires Traced(max, s, moves, a, Run(max, s, moves).value.pcs[a])
    requires Next(max, Run(max, s, moves).value, b, m).Some?
    ensures var t := Next(max, Run(max, s, moves).value, b, m).value;
            a in t.pcs && Traced(max, s, moves + [(b, m)], a, t.pcs[a])
  {
    var u := Run(max, s, moves).value;
    if b == a && !Trailing(m) {
      TracedOwn(max, s, moves, a, m);
    } else {
      TracedMore(max, s, moves, a, u.pcs[a], b, m);
    }
  }

  lemma {:induction false} RunTraced(max: nat, s: State, moves: seq<(nat, Move)>, a: nat)
    requires Initial(s) && Run(max, s, moves).Some? && a in s.pcs
    ensures a in Run(max, s, moves).value.pcs && Traced(max, s, moves, a, Run(max, s, moves).value.pcs[a])
  {
    if moves != [] {
      var init, last := moves[..|moves| - 1], moves[|moves| - 1];
      RunTraced(max, s, init, a);
      assert moves == init + [last];
      TracedNext(max, s, init, a, last.0, last.1);
    }
  }

  /** In every run: a caller that got a token has read it from the store while it lived, or has
      stored it, as its own response; a caller without one has seen its request fail, or could not
      build its assertion. */
  lemma ResultIsExplained(max: nat, s: State, moves: seq<(nat, Move)>, a: nat)
    requires Initial(s) && Run(max, s, moves).Some? && a in s.pcs
    ensures a in Run(max, s, moves).value.pcs
    ensures var pc := Run(max, s, moves).value.pcs[a];
            pc.Unlocking? || pc.Returned? ==> Explained(max, s, moves, a, pc.result)
  {
    RunTraced(max, s, moves, a);
  }

  /** So nobody fails who finds a live token at the last look. */
  lemma FailedHasReason(max: nat, s: State, moves: seq<(nat, Move)>, a: nat)
    requires Initial(s) && Run(max, s, moves).Some? && a in s.pcs
    requires a in Run(max, s, moves).value.pcs && Run(max, s, moves).value.pcs[a] == Returned(None)
    ensures exists i: nat :: LastOf(moves, a, i) && (moves[i].1.Fail? || moves[i].1.NoAssertion?)
  {
    RunTraced(max, s, moves, a);
    var i: nat :| LastOf(moves, a, i) && Gives(max, s, moves, a, i, None);
  }

  /** A live token is returned at once, without the mutex and without a request. */
  lemma LiveTokenAtOnce(max: nat, s: State, moves: seq<(nat, Move)>, a: nat, now: int)
    requires Initial(s) && Run(max, s, moves).Some? && a in Run(max, s, moves).value.pcs
    requires var t := Run(max, s, moves).value;
             t.pcs[a].Reading? && now >= t.clock && ReadToken(t.store, now) != ""
    ensures var t, u := Run(max, s, moves).value, Run(max, s, moves + [(a, Read(now))]);
            && u.Some? && u.value.pcs == t.pcs[a := Returned(Some(ReadToken(t.store, now)))]
            && u.value.owner == t.owner && u.value.store == t.store && u.value.log == t.log
  {
    RunInv(max, s, moves);
    RunNext(max, s, moves, a, Read(now));
  }

  /** What others decide on is never excluded: whether an assertion can be built, how a request
      ends, whether a backend rejects a token, and when the collector finds an expired one. */
  lemma EnvironmentDecides(max: nat, s: State, a: nat, token: string, expiresIn: Option<real>, tick: int)
    requires a in s.pcs && a in s.retries
    ensures s.pcs[a].Preparing? ==> Next(max, s, a, NoAssertion).Some?
    ensures s.pcs[a].Requesting? ==> Next(max, s, a, Respond(token, expiresIn)).Some? && Next(max, s, a, Fail).Some?
    ensures s.pcs[a].Returned? && s.pcs[a].result.Some? ==> Next(max, s, a, Unauthorized).Some?
    ensures tick <= s.clock && s.store.Some? && s.store.value.expAt <= tick ==>
      Next(max, s, a, Collect(tick)) == Some(s.(store := None))
  {
  }

  // ---------- Retries ----------

  /** How often a backend has rejected a token of a since its latest call. */
  function Rejections(moves: seq<(nat, Move)>, a: nat): nat {
    if moves == [] then 0
    else
      var init, last := moves[..|moves| - 1], moves[|moves| - 1];
      if last.0 != a then Rejections(init, a)
      else if last.1.Call? then 0
      else Rejections(init, a) + if last.1.Unauthorized? then 1 else 0
  }

  lemma {:induction false} RetriesAre(max: nat, s: State, moves: seq<(nat, Move)>, a: nat)
    requires Initial(s) && Run(max, s, moves).Some? && a in s.pcs
    ensures var t := Run(max, s, moves).value;
            a in t.pcs && a in t.retries && (!t.pcs[a].Idle? ==> t.retries[a] == Rejections(moves, a))
  {
    if moves != [] {
      RetriesAre(max, s, moves[..|moves| - 1], a);
    }
  }

  /** A caller whose token is rejected tries again exactly while it has retries left. */
  lemma RetriesWhileLeft(max: nat, s: State, moves: seq<(nat, Move)>, a: nat)
    requires Initial(s) && Run(max, s, moves).Some? && a in s.pcs
    requires a in Run(max, s, moves).value.pcs
    requires var pc := Run(max, s, moves).value.pcs[a]; pc.Returned? && pc.result.Some?
    ensures var t := Next(max, Run(max, s, moves).value, a, Unauthorized);
            t.Some? && t.value.pcs[a] == if Rejections(moves, a) < max then Reading else Idle
  {
    RetriesAre(max, s, moves, a);
  }

  /** A response without a lifetime, or with an empty token, is of no use to anyone else. */
  lemma UselessResponse(max: nat, s: State, a: nat, now: int)
    requires a in s.pcs && s.pcs[a].Storing? && Next(max, s, a, Store(now)).Some?
    ensures (forall later :: later >= now ==> ReadToken(Next(max, s, a, Store(now)).value.store, later) == "")
            <==> s.pcs[a].token == "" || Clamped(Ttl(s.pcs[a].expiresIn)) == 0
  {
    var t := Next(max, s, a, Store(now)).value;
    if forall later :: later >= now ==> ReadToken(t.store, later) == "" {
      assert ReadToken(t.store, now) == "";
    }
  }

  // ---------- Deadlock freedom ----------

  predicate AtRest(pc: Pc) {
    pc.Idle? || pc.Returned?
  }

  /** How many moves a caller can make at most until it is at rest. */
  function MovesLeft(pc: Pc): nat {
    match pc
    case Reading => 7
    case Locking => 6
    case Rereading => 5
    case Preparing => 4
    case Requesting => 3
    case Storing(_, _) => 2
    case Unlocking(_) => 1
    case _ => 0
  }

  /** The next move of a caller that can be left to itself; a request fails. */
  function OwnMove(s: State, pc: Pc): Move {
    match pc
    case Locking => Lock
    case Preparing => Issue(s.clock)
    case Requesting => Fail
    case Storing(_, _) => Store(s.clock)
    case Unlocking(_) => Unlock
    case _ => Read(s.clock)
  }

  /** While some caller is on its way, there is one that can make a move. */
  lemma SomeCallerMoves(max: nat, s: State, moves: seq<(nat, Move)>, a: nat) returns (b: nat)
    requires Initial(s) && Run(max, s, moves).Some?
    requires var t := Run(max, s, moves).value; a in t.pcs && !AtRest(t.pcs[a])
    ensures var t := Run(max, s, moves).value;
            && b in t.pcs && !AtRest(t.pcs[b]) && Next(max, t, b, OwnMove(t, t.pcs[b])).Some?
  {
    RunInv(max, s, moves);
    var t := Run(max, s, moves).value;
    b := if t.owner.Some? then t.owner.value else a;
  }

  function AllMovesLeft(pcs: map<nat, Pc>, callers: seq<nat>): nat {
    if callers == [] then 0
    else (if callers[0] in pcs then MovesLeft(pcs[callers[0]]) else 0) + AllMovesLeft(pcs, callers[1..])
  }

  lemma {:induction false} MovesDrop(pcs: map<nat, Pc>, b: nat, pc: Pc, callers: seq<nat>)
    requires b in pcs && MovesLeft(pc) < MovesLeft(pcs[b])
    ensures AllMovesLeft(pcs[b := pc], callers) <= AllMovesLeft(pcs, callers)
    ensures b in callers ==> AllMovesLeft(pcs[b := pc], callers) < AllMovesLeft(pcs, callers)
  {
    if callers != [] {
      MovesDrop(pcs, b, pc, callers[1..]);
    }
  }

  lemma OwnMoveDrops(max: nat, s: State, b: nat)
    requires b in s.pcs && !AtRest(s.pcs[b]) && Next(max, s, b, OwnMove(s, s.pcs[b])).Some?
    ensures var t := Next(max, s, b, OwnMove(s, s.pcs[b])).value;
            b in t.pcs && t.pcs == s.pcs[b := t.pcs[b]] && MovesLeft(t.pcs[b]) < MovesLeft(s.pcs[b])
  {
  }

  lemma RunNext(max: nat, s: State, moves: seq<(nat, Move)>, a: nat, m: Move)
    requires Run(max, s, moves).Some?
    ensures Run(max, s, moves + [(a, m)]) == Next(max, Run(max, s, moves).value, a, m)
  {
    var all := moves + [(a, m)];
    assert all[..|all| - 1] == moves;
  }

  /** Every run is the beginning of one after which no caller is on its way, even if no more
      requests succeed. The mutex is free then. */
  lemma {:induction false} ComesToRest(max: nat, s: State, moves: seq<(nat, Move)>, callers: seq<nat>)
    returns (longer: seq<(nat, Move)>)
    requires Initial(s) && Run(max, s, moves).Some? && forall a :: a in Run(max, s, moves).value.pcs ==> a in callers
    ensures moves <= longer && Run(max, s, longer).Some?
    ensures forall a :: a in Run(max, s, longer).value.pcs ==> AtRest(Run(max, s, longer).value.pcs[a])
    ensures Run(max, s, longer).value.owner.None?
    decreases AllMovesLeft(Run(max, s, moves).value.pcs, callers)
  {
    var t := Run(max, s, moves).value;
    if a :| a in t.pcs && !AtRest(t.pcs[a]) {
      var b := SomeCallerMoves(max, s, moves, a);
      var m := OwnMove(t, t.pcs[b]);
      RunNext(max, s, moves, b, m);
      OwnMoveDrops(max, t, b);
      MovesDrop(t.pcs, b, Next(max, t, b, m).value.pcs[b], callers);
      longer := ComesToRest(max, s, moves + [(b, m)], callers);
    } else {
      RunInv(max, s, moves);
      longer := moves;
    }
  }

  // ---------- A rejected token takes a newer one with it ----------

  /** The moves of a caller that gets this token from a response, for ten seconds. */
  function GetToken(a: nat, token: string, now: int): seq<(nat, Move)> {
    [(a, Call), (a, Read(now)), (a, Lock), (a, Read(now)), (a, Issue(now)), (a, Respond(token, Some(10.0))),
     (a, Store(now)), (a, Unlock)]
  }

  function Steps(max: nat, s: State, moves: seq<(nat, Move)>): Option<State>
    decreases |moves|
  {
    if moves == [] then Some(s)
    else
      var t := Next(max, s, moves[0].0, moves[0].1);
      if t.None? then None else Steps(max, t.value, moves[1..])
  }

  lemma {:induction false} RunSteps(max: nat, s: State, moves: seq<(nat, Move)>, more: seq<(nat, Move)>)
    requires Run(max, s, moves).Some?
    ensures Run(max, s, moves + more) == Steps(max, Run(max, s, moves).value, more)
    decreases |more|
  {
    if more == [] {
      assert moves + more == moves;
    } else {
      RunNext(max, s, moves, more[0].0, more[0].1);
      var next := moves + [more[0]];
      assert next + more[1..] == moves + more;
      if Run(max, s, next).Some? {
        RunSteps(max, s, next, more[1..]);
      } else {
        StuckStays(max, s, next, more[1..]);
      }
    }
  }

  lemma {:induction false} StuckStays(max: nat, s: State, moves: seq<(nat, Move)>, more: seq<(nat, Move)>)
    requires Run(max, s, moves).None?
    ensures Run(max, s, moves + more).None?
    decreases |more|
  {
    if more == [] {
      assert moves + more == moves;
    } else {
      var all := moves + more;
      assert all[..|all| - 1] == moves + more[..|more| - 1];
      StuckStays(max, s, moves, more[..|more| - 1]);
    }
  }

  lemma OneStep(max: nat, s: State, moves: seq<(nat, Move)>, k: nat) returns (t: State)
    requires k < |moves| && Next(max, s, moves[k].0, moves[k].1).Some?
    ensures Next(max, s, moves[k].0, moves[k].1) == Some(t)
    ensures Steps(max, s, moves[k..]) == Steps(max, t, moves[k + 1..])
  {
    t := Next(max, s, moves[k].0, moves[k].1).value;
    assert moves[k..][1..] == moves[k + 1..];
  }

  /** A caller that finds nothing of use prepares a request. */
  lemma Prepares(max: nat, s: State, moves: seq<(nat, Move)>, a: nat, token: string, now: int) returns (t: State)
    requires a in s.pcs && a in s.retries && s.pcs[a].Idle? && s.owner.None? && moves == GetToken(a, token, now)
    requires now >= s.clock && ReadToken(s.store, now) == ""
    ensures Steps(max, s, moves) == Steps(max, t, moves[4..])
    ensures t == State(s.pcs[a := Preparing], s.retries[a := 0], Some(a), s.store, now, s.log)
  {
    assert moves[0..] == moves;
    t := OneStep(max, s, moves, 0);
    t := OneStep(max, t, moves, 1);
    t := OneStep(max, t, moves, 2);
    t := OneStep(max, t, moves, 3);
    assert t.pcs == s.pcs[a := Preparing];
  }

  /** The request is answered, and the token is stored. */
  lemma Receives(max: nat, s: State, moves: seq<(nat, Move)>, a: nat, token: string, now: int) returns (t: State)
    requires a in s.pcs && a in s.retries && s.pcs[a].Preparing? && s.clock == now && moves == GetToken(a, token, now)
    ensures Steps(max, s, moves[4..]) == Steps(max, t, moves[7..])
    ensures t == State(s.pcs[a := Unlocking(Some(token))], s.retries, s.owner, Some(Entry(token, now + 9)), now,
                       s.log + [Issued(now)] + [Stored(token, 9, now)])
  {
    assert Ttl(Some(10.0)) == 9;
    t := OneStep(max, s, moves, 4);
    t := OneStep(max, t, moves, 5);
    t := OneStep(max, t, moves, 6);
    assert t.pcs == s.pcs[a := Unlocking(Some(token))];
  }

  /** A caller that finds nothing of use gets a token like this. */
  lemma Gets(max: nat, s: State, a: nat, token: string, now: int)
    requires a in s.pcs && a in s.retries && s.pcs[a].Idle? && s.owner.None?
    requires now >= s.clock && ReadToken(s.store, now) == ""
    ensures Steps(max, s, GetToken(a, token, now)) ==
            Some(State(s.pcs[a := Returned(Some(token))], s.retries[a := 0], None, Some(Entry(token, now + 9)), now,
                       s.log + [Issued(now)] + [Stored(token, 9, now)]))
  {
    var moves := GetToken(a, token, now);
    var t := Prepares(max, s, moves, a, token, now);
    t := Receives(max, t, moves, a, token, now);
    t := OneStep(max, t, moves, 7);
    assert t.pcs == s.pcs[a := Returned(Some(token))];
  }

  lemma GetsNext(max: nat, s: State, moves: seq<(nat, Move)>, a: nat, token: string, now: int) returns (t: State)
    requires Run(max, s, moves).Some?
    requires var u := Run(max, s, moves).value;
             && a in u.pcs && a in u.retries && u.pcs[a].Idle? && u.owner.None?
             && now >= u.clock && ReadToken(u.store, now) == ""
    ensures Run(max, s, moves + GetToken(a, token, now)) == Some(t)
    ensures t.pcs == Run(max, s, moves).value.pcs[a := Returned(Some(token))] && t.owner.None?
    ensures t.retries == Run(max, s, moves).value.retries[a := 0]
    ensures t.store == Some(Entry(token, now + 9)) && t.clock == now
  {
    Gets(max, Run(max, s, moves).value, a, token, now);
    RunSteps(max, s, moves, GetToken(a, token, now));
    t := Run(max, s, moves + GetToken(a, token, now)).value;
  }

  /** A first token, and another one when the first has expired. */
  lemma TwoTokens(max: nat, s: State, first: seq<(nat, Move)>, a: nat, b: nat, x: string, y: string)
    returns (t: State)
    requires Initial(s) && a in s.pcs && b in s.pcs && a != b && first == GetToken(a, x, s.clock)
    ensures Run(max, s, first + GetToken(b, y, s.clock + 9)) == Some(t)
    ensures a in t.pcs && a in t.retries && t.pcs[a] == Returned(Some(x))
    ensures t.store == Some(Entry(y, s.clock + 18)) && t.clock == s.clock + 9
  {
    assert [] + first == first;
    t := GetsNext(max, s, [], a, x, s.clock);
    t := GetsNext(max, s, first, b, y, s.clock + 9);
  }

  lemma RejectedDeletes(max: nat, s: State, a: nat)
    requires a in s.pcs && a in s.retries && s.pcs[a].Returned? && s.pcs[a].result.Some?
    ensures Next(max, s, a, Unauthorized).Some?
    ensures forall now :: ReadToken(Next(max, s, a, Unauthorized).value.store, now) == ""
  {
  }

  /** Caller a gets token x; after it has expired, b gets y. Then a is told that x is not valid
      any more, which takes y away from all callers. */
  lemma NewerTokenDeleted(max: nat, s: State, a: nat, b: nat, x: string, y: string)
    requires Initial(s) && a in s.pcs && b in s.pcs && a != b && y != ""
    ensures var moves := GetToken(a, x, s.clock) + GetToken(b, y, s.clock + 9);
            var t := Run(max, s, moves);
            && t.Some? && a in t.value.pcs && t.value.pcs[a] == Returned(Some(x))
            && ReadToken(t.value.store, t.value.clock) == y
            && Next(max, t.value, a, Unauthorized).Some?
            && forall now :: ReadToken(Next(max, t.value, a, Unauthorized).value.store, now) == ""
  {
    var t := TwoTokens(max, s, GetToken(a, x, s.clock), a, b, x, y);
    RejectedDeletes(max, t, a);
  }
}
