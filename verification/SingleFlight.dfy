/**
 Coordinated year fetches (internal/scheduler/scheduler.go): one leader per year
 fetches and stores, everyone else who arrives meanwhile waits for its outcome,
 and recorded failures hold the next attempt back.
 */
module SingleFlight {
  import opened Basics
  import opened Backoff

  /** A stored year: which write it came from, and whether it decodes. */
  datatype Row = Row(version: int, decodable: bool)

  datatype Outcome = Outcome(ok: bool, fetched: bool)

  datatype Flight = Flight(year: int, leader: int, closed: bool, outcome: Outcome)

  /** What a leader has found out or done by the time it finishes. */
  datatype Basis = NothingDone | SawFreshRow | WroteRow

  datatype Phase =
    | Arrived
    | Waiting(flight: nat)
    | Abandoned
    | Released(flight: nat, outcome: Outcome)
    | Leading(flight: nat)
    | MustFetch(flight: nat)
    | Cleared(flight: nat)
    | Fetching(flight: nat)
    | Writing(flight: nat)
    | Finishing(flight: nat, ok: bool, attempted: bool, basis: Basis)
    | Settled(flight: nat, outcome: Outcome, basis: Basis)
    | Announced(flight: nat, outcome: Outcome, basis: Basis)
    | Returned(flight: nat, outcome: Outcome, basis: Basis)

  datatype Caller = Caller(year: int, phase: Phase)

  datatype State = State(
    clock: int,
    rows: map<int, Row>,
    inflight: map<int, nat>,
    flights: map<nat, Flight>,
    callers: map<int, Caller>,
    failures: map<int, Failure>)

  /** A caller's own moves; `Panics` is a panic recovered by its deferred function. */
  datatype Move =
    | Join(flight: nat)
    | Abandon
    | TakeOutcome
    | Peek(failed: bool, isFresh: bool)
    | CheckCooldown
    | StartUpstream
    | EndUpstream(ok: bool)
    | Store(ok: bool, version: int, decodable: bool)
    | Panics
    | Settle(cancelled: bool, victim: int)
    | Announce
    | Free

  datatype Step =
    | Tick(now: int)
    | Arrive(c: int, year: int)
    | Advance(c: int, move: Move)
    | OtherWrite(year: int, row: Option<Row>)

  predicate InBody(p: Phase) {
    p.Leading? || p.MustFetch? || p.Cleared? || p.Fetching? || p.Writing?
  }

  predicate CanMove(s: State, year: int, p: Phase, move: Move) {
    match move
    case Join(flight) => p.Arrived? && flight !in s.flights
    case Abandon => p.Waiting?
    case TakeOutcome => p.Waiting? && p.flight in s.flights && s.flights[p.flight].closed
    case Peek(_, _) => p.Leading?
    case CheckCooldown => p.MustFetch?
    case StartUpstream => p.Cleared?
    case EndUpstream(_) => p.Fetching?
    case Store(_, _, _) => p.Writing?
    case Panics => InBody(p)
    case Settle(cancelled, victim) => p.Finishing?
    case Announce => p.Settled? && p.flight in s.flights
    case Free => p.Announced?
  }

  predicate Enabled(b: Bounds, s: State, step: Step) {
    match step
    case Tick(now) => s.clock <= now
    case Arrive(c, _) => c !in s.callers
    case Advance(c, move) =>
      && c in s.callers && CanMove(s, s.callers[c].year, s.callers[c].phase, move)
      && (move.Settle? ==> MayEvict(s.failures, b, s.callers[c].year, s.clock, move.victim))
    case OtherWrite(_, _) => true
  }

  function NextPhase(s: State, year: int, p: Phase, move: Move): Phase
    requires CanMove(s, year, p, move)
  {
    match move
    case Join(flight) => if year in s.inflight then Waiting(s.inflight[year]) else Leading(flight)
    case Abandon => Abandoned
    case TakeOutcome => Released(p.flight, s.flights[p.flight].outcome)
    case Peek(failed, isFresh) =>
      if failed then Finishing(p.flight, false, false, NothingDone)
      else if year in s.rows && isFresh && s.rows[year].decodable then Finishing(p.flight, true, false, SawFreshRow)
      else MustFetch(p.flight)
    case CheckCooldown =>
      if Remaining(s.failures, year, s.clock) > 0 then Finishing(p.flight, false, false, NothingDone) else Cleared(p.flight)
    case StartUpstream => Fetching(p.flight)
    case EndUpstream(ok) => if ok then Writing(p.flight) else Finishing(p.flight, false, true, NothingDone)
    case Store(ok, _, _) => Finishing(p.flight, ok, true, if ok then WroteRow else NothingDone)
    case Panics => Finishing(p.flight, false, p.Fetching? || p.Writing?, NothingDone)
    case Settle(_, _) => Settled(p.flight, Outcome(p.ok, p.ok && p.attempted), p.basis)
    case Announce => Announced(p.flight, p.outcome, p.basis)
    case Free => Returned(p.flight, p.outcome, p.basis)
  }

  function NextFailures(b: Bounds, s: State, year: int, p: Phase, move: Move): map<int, Failure> {
    if !move.Settle? || !p.Finishing? then s.failures
    else if p.ok then s.failures - {year}
    else if p.attempted && !move.cancelled then Recorded(s.failures, b, year, s.clock, move.victim)
    else s.failures
  }

  function NextFlights(s: State, c: int, year: int, p: Phase, move: Move): map<nat, Flight>
    requires CanMove(s, year, p, move)
  {
    match move
    case Join(flight) =>
      if year in s.inflight then s.flights else s.flights[flight := Flight(year, c, false, Outcome(false, false))]
    case Announce => s.flights[p.flight := s.flights[p.flight].(closed := true, outcome := p.outcome)]
    case _ => s.flights
  }

  function NextInflight(s: State, year: int, move: Move): map<int, nat> {
    match move
    case Join(flight) => if year in s.inflight then s.inflight else s.inflight[year := flight]
    case Free => s.inflight - {year}
    case _ => s.inflight
  }

  function NextRows(s: State, year: int, move: Move): map<int, Row> {
    if move.Store? && move.ok then s.rows[year := Row(move.version, move.decodable)] else s.rows
  }

  function MoveNext(b: Bounds, s: State, c: int, move: Move): State
    requires c in s.callers && CanMove(s, s.callers[c].year, s.callers[c].phase, move)
  {
    var year, p := s.callers[c].year, s.callers[c].phase;
    State(
      s.clock, NextRows(s, year, move), NextInflight(s, year, move), NextFlights(s, c, year, p, move),
      s.callers[c := Caller(year, NextPhase(s, year, p, move))], NextFailures(b, s, year, p, move))
  }

  function Next(b: Bounds, s: State, step: Step): State
    requires Enabled(b, s, step)
  {
    match step
    case Tick(now) => s.(clock := now)
    case Arrive(c, year) => s.(callers := s.callers[c := Caller(year, Arrived)])
    case Advance(c, move) => MoveNext(b, s, c, move)
    case OtherWrite(year, row) => s.(rows := if row.Some? then s.rows[year := row.value] else s.rows - {year})
  }

  function Initial(clock: int, rows: map<int, Row>): State {
    State(clock, rows, map[], map[], map[], map[])
  }

  predicate Runs(b: Bounds, s: State, steps: seq<Step>)
    decreases |steps|
  {
    steps == [] || (Enabled(b, s, steps[0]) && Runs(b, Next(b, s, steps[0]), steps[1..]))
  }

  function After(b: Bounds, s: State, steps: seq<Step>): State
    requires Runs(b, s, steps)
    decreases |steps|
  {
    if steps == [] then s else After(b, Next(b, s, steps[0]), steps[1..])
  }

  // ------------------------------------------------------------------ the invariant

  /** The caller owns its flight's slot: from storing it to deleting it. */
  predicate Leads(p: Phase) {
    InBody(p) || p.Finishing? || p.Settled? || p.Announced?
  }

  predicate CallerSound(s: State, c: int)
    requires c in s.callers
  {
    var year, p := s.callers[c].year, s.callers[c].phase;
    && (Leads(p) ==>
          && p.flight in s.flights && s.flights[p.flight].leader == c && s.flights[p.flight].year == year
          && year in s.inflight && s.inflight[year] == p.flight
          && (s.flights[p.flight].closed <==> p.Announced?))
    && (p.Announced? || p.Returned? ==>
          && p.flight in s.flights && s.flights[p.flight].leader == c && s.flights[p.flight].year == year
          && s.flights[p.flight].closed && s.flights[p.flight].outcome == p.outcome)
    && (p.Returned? ==> !(year in s.inflight && s.inflight[year] == p.flight))
    && (p.Waiting? ==> p.flight in s.flights && s.flights[p.flight].year == year)
    && (p.Released? ==> p.flight in s.flights && s.flights[p.flight].year == year
                        && s.flights[p.flight].closed && s.flights[p.flight].outcome == p.outcome)
    && (p.Finishing? ==> (p.ok <==> p.basis != NothingDone) && (p.ok && p.attempted <==> p.basis == WroteRow))
    && (p.Settled? || p.Announced? || p.Returned? ==>
          (p.outcome.ok <==> p.basis != NothingDone) && (p.outcome.fetched <==> p.basis == WroteRow))
    && (p.Cleared? ==> Remaining(s.failures, year, s.clock) == 0)
  }

  /** A year's slot holds a flight whose leader still owns it. */
  predicate SlotSound(s: State, year: int)
    requires year in s.inflight
  {
    && s.inflight[year] in s.flights
    && s.flights[s.inflight[year]].year == year
    && s.flights[s.inflight[year]].leader in s.callers
    && var leader := s.callers[s.flights[s.inflight[year]].leader];
       leader.year == year && Leads(leader.phase) && leader.phase.flight == s.inflight[year]
  }

  ghost predicate Coordinated(s: State) {
    && |s.failures| <= MAX_TRACKED
    && (forall c :: c in s.callers ==> CallerSound(s, c))
    && (forall y :: y in s.inflight ==> SlotSound(s, y))
  }

  /** Two callers that lead the same year are the same caller. */
  lemma OneLeader(s: State, c: int, d: int)
    requires Coordinated(s) && c in s.callers && d in s.callers
    requires Leads(s.callers[c].phase) && Leads(s.callers[d].phase) && s.callers[c].year == s.callers[d].year
    ensures c == d
  {
    assert CallerSound(s, c) && CallerSound(s, d);
  }

  /** A leader's own failure record aside, failures only expire or are evicted. */
  lemma FailuresOfOthers(b: Bounds, s: State, year: int, p: Phase, move: Move, other: int)
    requires |s.failures| <= MAX_TRACKED && other != year
    requires move.Settle? ==> MayEvict(s.failures, b, year, s.clock, move.victim)
    ensures |NextFailures(b, s, year, p, move)| <= MAX_TRACKED
    ensures other in NextFailures(b, s, year, p, move) ==>
              other in s.failures && NextFailures(b, s, year, p, move)[other] == s.failures[other]
  {
    if move.Settle? {
      RecordedStaysBounded(s.failures, b, year, s.clock, move.victim);
    }
    assert (s.failures - {year}).Keys <= s.failures.Keys;
    SubsetSize((s.failures - {year}).Keys, s.failures.Keys);
    assert |s.failures - {year}| == |(s.failures - {year}).Keys| && |s.failures| == |s.failures.Keys|;
  }

  lemma JoinerSound(b: Bounds, s: State, c: int, move: Move)
    requires Coordinated(s) && Enabled(b, s, Advance(c, move)) && move.Join?
    ensures CallerSound(MoveNext(b, s, c, move), c)
  {
    var year := s.callers[c].year;
    if year in s.inflight {
      assert SlotSound(s, year);
    }
  }

  /** Inside the leader's body no move touches its flight or its slot. */
  lemma BodySound(b: Bounds, s: State, c: int, move: Move)
    requires Coordinated(s) && Enabled(b, s, Advance(c, move)) && InBody(s.callers[c].phase)
    ensures CallerSound(MoveNext(b, s, c, move), c)
  {
    assert CallerSound(s, c);
    var s' := MoveNext(b, s, c, move);
    assert s'.flights == s.flights && s'.inflight == s.inflight && s'.failures == s.failures;
  }

  lemma ReleaseSound(b: Bounds, s: State, c: int, move: Move)
    requires Coordinated(s) && Enabled(b, s, Advance(c, move)) && !InBody(s.callers[c].phase) && !move.Join?
    ensures CallerSound(MoveNext(b, s, c, move), c)
  {
    assert CallerSound(s, c);
  }

  lemma OwnSound(b: Bounds, s: State, c: int, move: Move)
    requires Coordinated(s) && Enabled(b, s, Advance(c, move))
    ensures CallerSound(MoveNext(b, s, c, move), c)
  {
    if move.Join? {
      JoinerSound(b, s, c, move);
    } else if InBody(s.callers[c].phase) {
      BodySound(b, s, c, move);
    } else {
      ReleaseSound(b, s, c, move);
    }
  }

  lemma OtherSound(b: Bounds, s: State, c: int, move: Move, d: int)
    requires Coordinated(s) && Enabled(b, s, Advance(c, move))
    requires d in s.callers && d != c
    ensures CallerSound(MoveNext(b, s, c, move), d)
  {
    assert CallerSound(s, c) && CallerSound(s, d);
    if Leads(s.callers[c].phase) && Leads(s.callers[d].phase) && s.callers[c].year == s.callers[d].year {
      OneLeader(s, c, d);
    }
    if s.callers[c].year != s.callers[d].year {
      FailuresOfOthers(b, s, s.callers[c].year, s.callers[c].phase, move, s.callers[d].year);
    }
  }

  lemma MoveKeepsSlot(b: Bounds, s: State, c: int, move: Move, y: int)
    requires Coordinated(s) && Enabled(b, s, Advance(c, move))
    requires y in MoveNext(b, s, c, move).inflight
    ensures SlotSound(MoveNext(b, s, c, move), y)
  {
    assert CallerSound(s, c);
    if y in s.inflight {
      assert SlotSound(s, y);
    }
  }

  lemma MoveKeepsFailures(b: Bounds, s: State, c: int, move: Move)
    requires Coordinated(s) && Enabled(b, s, Advance(c, move))
    ensures |MoveNext(b, s, c, move).failures| <= MAX_TRACKED
  {
    var year := s.callers[c].year;
    FailuresOfOthers(b, s, year, s.callers[c].phase, move, year + 1);
  }

  lemma CoordinatedStep(b: Bounds, s: State, step: Step)
    requires Coordinated(s) && Enabled(b, s, step)
    ensures Coordinated(Next(b, s, step))
  {
    var s' := Next(b, s, step);
    if step.Advance? {
      var c, move := step.c, step.move;
      MoveKeepsFailures(b, s, c, move);
      forall d | d in s'.callers ensures CallerSound(s', d) {
        if d == c { OwnSound(b, s, c, move); } else { OtherSound(b, s, c, move, d); }
      }
      forall y | y in s'.inflight ensures SlotSound(s', y) {
        MoveKeepsSlot(b, s, c, move, y);
      }
    } else {
      forall d | d in s'.callers ensures CallerSound(s', d) {
        if d in s.callers { assert CallerSound(s, d); }
      }
      forall y | y in s'.inflight ensures SlotSound(s', y) {
        assert SlotSound(s, y);
      }
    }
  }

  lemma {:induction false} CoordinatedRun(b: Bounds, s: State, steps: seq<Step>)
    requires Coordinated(s) && Runs(b, s, steps)
    ensures Coordinated(After(b, s, steps))
    decreases |steps|
  {
    if steps != [] {
      CoordinatedStep(b, s, steps[0]);
      CoordinatedRun(b, Next(b, s, steps[0]), steps[1..]);
    }
  }

  // ------------------------------------------------------------------ what every run keeps

  /** At most one caller of a year is between storing its slot and deleting it, so at most one fetches. */
  lemma OneFetchPerYear(b: Bounds, clock: int, rows: map<int, Row>, steps: seq<Step>, c: int, d: int)
    requires Runs(b, Initial(clock, rows), steps)
    requires var s := After(b, Initial(clock, rows), steps);
             && c in s.callers && d in s.callers && s.callers[c].year == s.callers[d].year
             && Leads(s.callers[c].phase) && Leads(s.callers[d].phase)
    ensures c == d
  {
    CoordinatedRun(b, Initial(clock, rows), steps);
    OneLeader(After(b, Initial(clock, rows), steps), c, d);
  }

  /**
   However the leader left, its flight is closed with its outcome and its slot is free; it succeeded
   exactly if it saw a fresh decodable row or wrote one, and reports a fetch exactly if it wrote.
   */
  lemma LeaderPublishes(b: Bounds, clock: int, rows: map<int, Row>, steps: seq<Step>, c: int)
    requires Runs(b, Initial(clock, rows), steps)
    requires c in After(b, Initial(clock, rows), steps).callers
    requires After(b, Initial(clock, rows), steps).callers[c].phase.Returned?
    ensures var s := After(b, Initial(clock, rows), steps);
            var year, p := s.callers[c].year, s.callers[c].phase;
            && p.flight in s.flights && s.flights[p.flight].closed && s.flights[p.flight].outcome == p.outcome
            && !(year in s.inflight && s.inflight[year] == p.flight)
    ensures var p := After(b, Initial(clock, rows), steps).callers[c].phase;
            && (p.outcome.ok <==> SawFresh(b, Initial(clock, rows), steps, c) || WritesBy(steps, c) == 1)
            && (p.outcome.fetched <==> WritesBy(steps, c) == 1)
  {
    CoordinatedRun(b, Initial(clock, rows), steps);
    assert CallerSound(After(b, Initial(clock, rows), steps), c);
    SightsAreTheSkips(b, Initial(clock, rows), steps, c);
    WritesAreTheSuccesses(b, Initial(clock, rows), steps, c);
  }

  /** A released waiter has exactly its leader's outcome, for its own year. */
  lemma WaiterGetsLeaderOutcome(b: Bounds, clock: int, rows: map<int, Row>, steps: seq<Step>, c: int)
    requires Runs(b, Initial(clock, rows), steps)
    requires c in After(b, Initial(clock, rows), steps).callers
    requires After(b, Initial(clock, rows), steps).callers[c].phase.Released?
    ensures var s := After(b, Initial(clock, rows), steps);
            var p := s.callers[c].phase;
            && p.flight in s.flights && s.flights[p.flight].year == s.callers[c].year
            && s.flights[p.flight].closed && p.outcome == s.flights[p.flight].outcome
            && LeaderHas(s, p.flight, p.outcome)
  {
    CoordinatedRun(b, Initial(clock, rows), steps);
    ClosedRun(b, Initial(clock, rows), steps);
    assert CallerSound(After(b, Initial(clock, rows), steps), c);
  }

  /** The leader of a flight has announced this outcome. */
  predicate LeaderHas(s: State, f: nat, outcome: Outcome)
    requires f in s.flights
  {
    && s.flights[f].leader in s.callers
    && var p := s.callers[s.flights[f].leader].phase;
       (p.Announced? || p.Returned?) && p.flight == f && p.outcome == outcome
  }

  predicate ClosedFlightsHold(s: State) {
    forall f :: f in s.flights && s.flights[f].closed ==> LeaderHas(s, f, s.flights[f].outcome)
  }

  lemma ClosedStep(b: Bounds, s: State, step: Step)
    requires Coordinated(s) && ClosedFlightsHold(s) && Enabled(b, s, step)
    ensures ClosedFlightsHold(Next(b, s, step))
  {
    if step.Advance? {
      assert CallerSound(s, step.c);
    }
  }

  lemma {:induction false} ClosedRun(b: Bounds, s: State, steps: seq<Step>)
    requires Coordinated(s) && ClosedFlightsHold(s) && Runs(b, s, steps)
    ensures ClosedFlightsHold(After(b, s, steps))
    decreases |steps|
  {
    if steps != [] {
      CoordinatedStep(b, s, steps[0]);
      ClosedStep(b, s, steps[0]);
      ClosedRun(b, Next(b, s, steps[0]), steps[1..]);
    }
  }

  /** No upstream attempt starts before the recorded retry time while the entry stays. */
  lemma AttemptWaitsForRetryTime(b: Bounds, clock: int, rows: map<int, Row>, steps: seq<Step>, c: int)
    requires Runs(b, Initial(clock, rows), steps)
    requires Enabled(b, After(b, Initial(clock, rows), steps), Advance(c, StartUpstream))
    ensures var s := After(b, Initial(clock, rows), steps);
            s.callers[c].year in s.failures ==> s.failures[s.callers[c].year].retryAt <= s.clock
  {
    CoordinatedRun(b, Initial(clock, rows), steps);
    assert CallerSound(After(b, Initial(clock, rows), steps), c);
  }

  /** The table of failures never exceeds its bound. */
  lemma FailureTableIsBounded(b: Bounds, clock: int, rows: map<int, Row>, steps: seq<Step>)
    requires Runs(b, Initial(clock, rows), steps)
    ensures |After(b, Initial(clock, rows), steps).failures| <= MAX_TRACKED
  {
    CoordinatedRun(b, Initial(clock, rows), steps);
  }

  // ------------------------------------------------------------------ sights and writes

  /** Somewhere in the run the caller's check of the cache found a fresh row that decodes. */
  predicate SawFresh(b: Bounds, s: State, steps: seq<Step>, c: int)
    requires Runs(b, s, steps)
    decreases |steps|
  {
    steps != [] &&
    ((steps[0] == Advance(c, Peek(false, true)) && s.callers[c].year in s.rows && s.rows[s.callers[c].year].decodable)
     || SawFresh(b, Next(b, s, steps[0]), steps[1..], c))
  }

  predicate HasSeen(s: State, c: int) {
    c in s.callers &&
    var p := s.callers[c].phase;
    (p.Finishing? || p.Settled? || p.Announced? || p.Returned?) && p.basis == SawFreshRow
  }

  /** A caller skips the fetch exactly when it saw such a row. */
  lemma {:induction false} SightsAreTheSkips(b: Bounds, s: State, steps: seq<Step>, c: int)
    requires Runs(b, s, steps)
    ensures HasSeen(After(b, s, steps), c) <==> HasSeen(s, c) || SawFresh(b, s, steps, c)
    decreases |steps|
  {
    if steps != [] {
      SightsAreTheSkips(b, Next(b, s, steps[0]), steps[1..], c);
    }
  }

  /** How many rows a caller wrote in a run. */
  function WritesBy(steps: seq<Step>, c: int): nat {
    if steps == [] then 0
    else
      (if steps[0].Advance? && steps[0].c == c && steps[0].move.Store? && steps[0].move.ok then 1 else 0)
      + WritesBy(steps[1..], c)
  }

  function HasWritten(s: State, c: int): nat {
    if c !in s.callers then 0
    else
      var p := s.callers[c].phase;
      if (p.Finishing? || p.Settled? || p.Announced? || p.Returned?) && p.basis == WroteRow then 1 else 0
  }

  lemma {:induction false} WritesAreTheSuccesses(b: Bounds, s: State, steps: seq<Step>, c: int)
    requires Runs(b, s, steps)
    ensures HasWritten(s, c) + WritesBy(steps, c) == HasWritten(After(b, s, steps), c)
    decreases |steps|
  {
    if steps != [] {
      WritesAreTheSuccesses(b, Next(b, s, steps[0]), steps[1..], c);
    }
  }

  /**
   Over its whole call a leader writes one row when it reports a fetch and none
   otherwise; a failed attempt, like a waiter, leaves the stored rows as they were.
   */
  lemma FailedAttemptWritesNothing(b: Bounds, clock: int, rows: map<int, Row>, steps: seq<Step>, c: int)
    requires Runs(b, Initial(clock, rows), steps)
    requires c in After(b, Initial(clock, rows), steps).callers
    ensures var p := After(b, Initial(clock, rows), steps).callers[c].phase;
            && (p.Returned? ==> WritesBy(steps, c) == if p.outcome.fetched then 1 else 0)
            && (p.Waiting? || p.Abandoned? || p.Released? ==> WritesBy(steps, c) == 0)
  {
    CoordinatedRun(b, Initial(clock, rows), steps);
    assert CallerSound(After(b, Initial(clock, rows), steps), c);
    WritesAreTheSuccesses(b, Initial(clock, rows), steps, c);
  }

  // ------------------------------------------------------------------ what a failure leaves behind

  predicate Attempted(steps: seq<Step>, c: int) {
    Advance(c, StartUpstream) in steps
  }

  /** Whether an upstream attempt was made, as the caller's own state has it. */
  predicate HasAttempted(s: State, c: int) {
    c in s.callers &&
    var p := s.callers[c].phase;
    p.Fetching? || p.Writing? || (p.Finishing? && p.attempted)
  }

  predicate StillLeading(s: State, c: int) {
    c in s.callers && (InBody(s.callers[c].phase) || s.callers[c].phase.Finishing?)
  }

  lemma AttemptStep(b: Bounds, s: State, step: Step, c: int)
    requires Enabled(b, s, step) && StillLeading(Next(b, s, step), c)
    ensures step != Advance(c, StartUpstream) ==> (HasAttempted(Next(b, s, step), c) <==> HasAttempted(s, c))
    ensures step == Advance(c, StartUpstream) ==> HasAttempted(Next(b, s, step), c)
    ensures !StillLeading(s, c) ==> !HasAttempted(s, c) && !HasAttempted(Next(b, s, step), c)
  {
  }

  lemma {:induction false} AttemptsAreRemembered(b: Bounds, s: State, steps: seq<Step>, c: int)
    requires Runs(b, s, steps) && StillLeading(After(b, s, steps), c)
    ensures HasAttempted(After(b, s, steps), c) <==> HasAttempted(s, c) || Attempted(steps, c)
    decreases |steps|
  {
    if steps != [] {
      var s' := Next(b, s, steps[0]);
      assert steps == [steps[0]] + steps[1..];
      AttemptsAreRemembered(b, s', steps[1..], c);
      NotFinishedYet(b, s', steps[1..], c);
      if c in s'.callers && StillLeading(s', c) {
        AttemptStep(b, s, steps[0], c);
      }
    }
  }

  /** A caller that still leads at the end has not left the lead before. */
  lemma {:induction false} NotFinishedYet(b: Bounds, s: State, steps: seq<Step>, c: int)
    requires Runs(b, s, steps) && StillLeading(After(b, s, steps), c)
    ensures StillLeading(s, c) || c !in s.callers || s.callers[c].phase.Arrived?
    decreases |steps|
  {
    if steps != [] {
      NotFinishedYet(b, Next(b, s, steps[0]), steps[1..], c);
    }
  }

  /**
   When a leader settles, a success clears its year; a failed, uncancelled attempt is recorded, to be
   retried its delay from now; anything else leaves the table as it was.
   */
  lemma SettleTellsTheTable(b: Bounds, clock: int, rows: map<int, Row>, steps: seq<Step>, c: int, cancelled: bool, victim: int)
    requires Runs(b, Initial(clock, rows), steps)
    requires Enabled(b, After(b, Initial(clock, rows), steps), Advance(c, Settle(cancelled, victim)))
    ensures var start := Initial(clock, rows);
      var s := After(b, start, steps);
      var year, after := s.callers[c].year, Next(b, s, Advance(c, Settle(cancelled, victim))).failures;
      if SawFresh(b, start, steps, c) || WritesBy(steps, c) == 1 then after == s.failures - {year}
      else if Attempted(steps, c) && !cancelled then
        && year in after && after[year].retryAt == s.clock + after[year].delay
        && after[year].delay == NextDelay(FailureOf(s.failures, year), Effective(b))
      else after == s.failures
  {
    var start := Initial(clock, rows);
    CoordinatedRun(b, start, steps);
    var s := After(b, start, steps);
    assert CallerSound(s, c);
    SightsAreTheSkips(b, start, steps, c);
    WritesAreTheSuccesses(b, start, steps, c);
    AttemptsAreRemembered(b, start, steps, c);
  }

  /** Nothing else touches the table. */
  lemma OnlySettlingTellsTheTable(b: Bounds, s: State, step: Step)
    requires Enabled(b, s, step) && !(step.Advance? && step.move.Settle?)
    ensures Next(b, s, step).failures == s.failures
  {
  }

  /** How a leader goes on: what its check saw, the cooldown, the upstream answer and the write each decide. */
  lemma LeaderGoesOn(b: Bounds, s: State, c: int, move: Move)
    requires Enabled(b, s, Advance(c, move)) && InBody(s.callers[c].phase) && !move.Panics?
    ensures var year, p, p' := s.callers[c].year, s.callers[c].phase, MoveNext(b, s, c, move).callers[c].phase;
      match move
      case Peek(failed, isFresh) =>
        p'.MustFetch? <==> !failed && !(isFresh && year in s.rows && s.rows[year].decodable)
      case CheckCooldown => p'.Cleared? <==> year !in s.failures || s.failures[year].retryAt <= s.clock
      case StartUpstream => p'.Fetching?
      case EndUpstream(ok) => p'.Writing? <==> ok
      case Store(ok, version, decodable) =>
        && p'.Finishing? && (p'.ok <==> ok)
        && MoveNext(b, s, c, move).rows == if ok then s.rows[year := Row(version, decodable)] else s.rows
      case _ => true
  {
  }

  /** Who arrives joins the flight of its year, if there is one, and otherwise leads. */
  lemma JoinsIffInFlight(b: Bounds, s: State, c: int, flight: nat)
    requires Enabled(b, s, Advance(c, Join(flight)))
    ensures var s', year := MoveNext(b, s, c, Join(flight)), s.callers[c].year;
      && year in s'.inflight
      && (year in s.inflight ==> s'.callers[c].phase == Waiting(s.inflight[year]) && s'.inflight == s.inflight)
      && (year !in s.inflight ==> s'.callers[c].phase == Leading(flight) && s'.flights[flight].leader == c)
  {
  }
}
