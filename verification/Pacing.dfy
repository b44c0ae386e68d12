/**
 Shared pacing of AniList requests (internal/anilist/anilist.go): one admission
 gate, an interval set by the advertised allowance, and a cooldown deadline.
 Times are nanoseconds since the Unix epoch.
 */
module Pacing {
  import opened Basics

  const SECOND: int := 1_000_000_000
  const MINUTE: int := 60 * SECOND
  const RATE_LIMIT_DELAY: int := 2_300_000_000
  const MAX_RETRY_AFTER: int := 2 * MINUTE

  /** The zero time.Time, long before any clock reading. */
  const ZERO_TIME: int := -62_135_596_800 * SECOND

  const MAX_HEADER_SECONDS: int := MAX_INT64 / SECOND

  function Later(a: int, b: int): (r: int)
    ensures a <= r && b <= r && (r == a || r == b)
  {
    if a < b then b else a
  }

  datatype Pace = Pace(interval: int, lastAdmission: int, cooldownUntil: int)

  const INITIAL_PACE := Pace(RATE_LIMIT_DELAY, ZERO_TIME, ZERO_TIME)

  // ------------------------------------------------------------------ admission

  function Ready(p: Pace, retryAt: int): int {
    Later(Later(p.lastAdmission + p.interval, p.cooldownUntil), retryAt)
  }

  datatype Verdict = Admitted | MustWait(delay: int) | Refused

  function Judge(p: Pace, retryAt: int, now: int): Verdict {
    var delay := Ready(p, retryAt) - now;
    if delay <= 0 then Admitted else if delay > MAX_RETRY_AFTER then Refused else MustWait(delay)
  }

  function Polled(p: Pace, retryAt: int, now: int): Pace {
    if Judge(p, retryAt, now).Admitted? then p.(lastAdmission := now) else p
  }

  /**
   A poll is admitted exactly when the interval since the last admission, the cooldown and the caller's
   own retry time are all over; otherwise it is told to wait until they are, unless that is more than
   two minutes away.
   */
  lemma PollAdmitsIff(p: Pace, retryAt: int, now: int)
    ensures Judge(p, retryAt, now).Admitted? <==>
      p.lastAdmission + p.interval <= now && p.cooldownUntil <= now && retryAt <= now
    ensures Judge(p, retryAt, now).Refused? <==>
      var limit := now + 120 * SECOND;
      p.lastAdmission + p.interval > limit || p.cooldownUntil > limit || retryAt > limit
    ensures var v := Judge(p, retryAt, now);
      v.MustWait? ==>
        && 0 < v.delay
        && Judge(p, retryAt, now + v.delay).Admitted? && !Judge(p, retryAt, now + v.delay - 1).Admitted?
    ensures Polled(p, retryAt, now) == if Judge(p, retryAt, now).Admitted? then p.(lastAdmission := now) else p
  {
  }

  // ------------------------------------------------------------------ what a response says

  /** The headers after parsing: None when absent or not a number. */
  datatype Response = Response(
    tooManyRequests: bool,
    limit: Option<int>,
    remaining: Option<int>,
    reset: Option<int>,
    retryAfter: Option<int>)

  /**
   The interval for a limit, one minute over nine tenths of it, truncated to a
   nanosecond; `rounding` is the nanosecond floating point may be off by.
   */
  function AllowanceInterval(limit: int, rounding: int): int
    requires 0 < limit
  {
    Later(RATE_LIMIT_DELAY, 10 * MINUTE / (9 * limit) + rounding)
  }

  /** The interval is no shorter than 2.3 seconds, and otherwise within two nanoseconds of its quotient. */
  lemma AllowanceIsNotWasted(limit: int, rounding: int)
    requires 0 < limit && -1 <= rounding <= 1
    ensures var n := AllowanceInterval(limit, rounding);
      && 2_300_000_000 <= n
      && (n == 2_300_000_000 || (600 * SECOND - 18 * limit < 9 * limit * n < 600 * SECOND + 18 * limit))
  {
    var q := 10 * MINUTE / (9 * limit);
    assert q * (9 * limit) <= 10 * MINUTE < (q + 1) * (9 * limit);
    assert (q + 1) * (9 * limit) == q * (9 * limit) + 9 * limit;
    var n := AllowanceInterval(limit, rounding);
    if n != RATE_LIMIT_DELAY {
      assert n == q + rounding;
      assert 9 * limit * n == q * (9 * limit) + 9 * limit * rounding;
    }
  }

  function HeaderDuration(seconds: int): int {
    if seconds > MAX_HEADER_SECONDS then MAX_INT64 else seconds * SECOND
  }

  predicate Limits(r: Response) {
    r.tooManyRequests || r.remaining == Some(0)
  }

  function Unix(now: int): int {
    now / SECOND
  }

  /** The cooldown deadline a limiting response sets. */
  function DeadlineOf(now: nat, r: Response): int {
    var fromReset :=
      if r.reset.Some? && r.reset.value > Unix(now) then
        (if r.reset.value - Unix(now) <= MAX_HEADER_SECONDS then r.reset.value * SECOND
         else now + HeaderDuration(r.reset.value - Unix(now)))
      else ZERO_TIME;
    var deadline :=
      if r.tooManyRequests && r.retryAfter.Some? && r.retryAfter.value > 0
      then Later(fromReset, now + HeaderDuration(r.retryAfter.value))
      else fromReset;
    if deadline == ZERO_TIME then now + MINUTE else deadline
  }

  function Observed(p: Pace, now: nat, r: Response, rounding: int): Pace {
    var interval := if r.limit.Some? && r.limit.value > 0 then AllowanceInterval(r.limit.value, rounding) else p.interval;
    Pace(interval, p.lastAdmission, if Limits(r) then Later(p.cooldownUntil, DeadlineOf(now, r)) else p.cooldownUntil)
  }

  predicate ExceedsBound(p: Pace, now: nat, r: Response) {
    r.tooManyRequests && p.cooldownUntil > now + MAX_RETRY_AFTER
  }

  /** The deadlines a response advertises that are still ahead and in a form the client reads. */
  predicate AdvertisesReset(now: nat, r: Response) {
    r.reset.Some? && r.reset.value > Unix(now)
  }

  predicate AdvertisesRetry(r: Response) {
    r.tooManyRequests && r.retryAfter.Some? && r.retryAfter.value > 0
  }

  /** The later of the advertised deadlines, uncapped; one minute from now when there is none. */
  function Advertised(now: nat, r: Response): int {
    if AdvertisesReset(now, r) && AdvertisesRetry(r)
    then Later(r.reset.value * SECOND, now + r.retryAfter.value * SECOND)
    else if AdvertisesReset(now, r) then r.reset.value * SECOND
    else if AdvertisesRetry(r) then now + r.retryAfter.value * SECOND
    else now + MINUTE
  }

  /** Every advertised wait fits in a time.Duration. */
  predicate WaitsFit(now: nat, r: Response) {
    && (AdvertisesReset(now, r) ==> r.reset.value - Unix(now) <= MAX_HEADER_SECONDS)
    && (AdvertisesRetry(r) ==> r.retryAfter.value <= MAX_HEADER_SECONDS)
  }

  /**
   The deadline is the advertised one when every advertised wait fits in a
   time.Duration and the largest duration from now otherwise, so it is no
   earlier than advertised exactly when the advertised one is within that reach.
   */
  lemma DeadlineIsAdvertisedWithinReach(now: nat, r: Response)
    ensures DeadlineOf(now, r) == if WaitsFit(now, r) then Advertised(now, r) else now + MAX_INT64
    ensures Advertised(now, r) <= DeadlineOf(now, r) <==> Advertised(now, r) <= now + MAX_INT64
    ensures now < DeadlineOf(now, r)
  {
    var q := Unix(now);
    assert q * SECOND <= now < (q + 1) * SECOND;
    assert MAX_HEADER_SECONDS == 9_223_372_036;
  }

  /** Only a 429 or an exhausted allowance moves the cooldown, and only forward; only a limit moves the interval. */
  lemma ObservationTouchesWhatItSays(p: Pace, now: nat, r: Response, rounding: int)
    ensures var p', limiting := Observed(p, now, r, rounding), r.tooManyRequests || r.remaining == Some(0);
      && p'.lastAdmission == p.lastAdmission
      && (!limiting ==> p'.cooldownUntil == p.cooldownUntil)
      && (limiting ==>
            && p.cooldownUntil <= p'.cooldownUntil && DeadlineOf(now, r) <= p'.cooldownUntil
            && (p'.cooldownUntil == p.cooldownUntil || p'.cooldownUntil == DeadlineOf(now, r)))
      && (r.limit.None? || r.limit.value <= 0 ==> p'.interval == p.interval)
      && (r.limit.Some? && 0 < r.limit.value ==> p'.interval == AllowanceInterval(r.limit.value, rounding))
    ensures ExceedsBound(p, now, r) <==> r.tooManyRequests && now + 120 * SECOND < p.cooldownUntil
  {
  }

  // ------------------------------------------------------------------ the client

  class Client {
    var interval: int
    var lastAdmission: int
    var cooldownUntil: int

    function View(): Pace
      reads this
    {
      Pace(interval, lastAdmission, cooldownUntil)
    }

    constructor ()
      ensures View() == INITIAL_PACE
    {
      interval, lastAdmission, cooldownUntil := RATE_LIMIT_DELAY, ZERO_TIME, ZERO_TIME;
    }

    /** One turn of throttle's loop, under the lock. */
    method Poll(retryAt: int, now: int) returns (v: Verdict)
      modifies this
      ensures View() == Polled(old(View()), retryAt, now)
      ensures v == Judge(old(View()), retryAt, now)
    {
      var ready := lastAdmission + interval;
      if cooldownUntil > ready {
        ready := cooldownUntil;
      }
      if retryAt > ready {
        ready := retryAt;
      }
      if ready <= now {
        lastAdmission := now;
        return Admitted;
      }
      var delay := ready - now;
      return if delay > MAX_RETRY_AFTER then Refused else MustWait(delay);
    }

    method ObserveAllowance(now: nat, r: Response, rounding: int) returns (exceeds: bool)
      modifies this
      ensures View() == Observed(old(View()), now, r, rounding)
      ensures exceeds <==> ExceedsBound(View(), now, r)
    {
      if r.limit.Some? && r.limit.value > 0 {
        interval := AllowanceInterval(r.limit.value, rounding);
      }
      if !r.tooManyRequests && r.remaining != Some(0) {
        return false;
      }
      var deadline := ZERO_TIME;
      if r.reset.Some? && r.reset.value > Unix(now) {
        deadline := now + HeaderDuration(r.reset.value - Unix(now));
        if r.reset.value - Unix(now) <= MAX_HEADER_SECONDS {
          deadline := r.reset.value * SECOND;
        }
      }
      if r.tooManyRequests && r.retryAfter.Some? && r.retryAfter.value > 0 {
        var retry := now + HeaderDuration(r.retryAfter.value);
        if retry > deadline {
          deadline := retry;
        }
      }
      if deadline == ZERO_TIME {
        deadline := now + MINUTE;
      }
      if deadline > cooldownUntil {
        cooldownUntil := deadline;
      }
      return r.tooManyRequests && cooldownUntil > now + MAX_RETRY_AFTER;
    }
  }

  // ------------------------------------------------------------------ concurrent runs

  /** An admission, with the interval and the cooldown in force when it was granted. */
  datatype Admission = Admission(at: int, interval: int, caller: int)

  /** A limiting response: its deadline, and how many admissions came before it. */
  datatype Limit = Limit(deadline: int, before: nat)

  datatype CallPhase = Polling | Sleeping | Granted | Failed

  datatype Call = Call(retryAt: int, phase: CallPhase)

  datatype State = State(pace: Pace, admitted: seq<Admission>, limits: seq<Limit>, calls: map<int, Call>)

  datatype Step =
    | Throttle(c: int, retryAt: int)
    | PollOnce(c: int, now: nat)
    | Wake(c: int)
    | Cancel(c: int)
    | Observe(now: nat, r: Response, rounding: int)

  predicate Enabled(s: State, step: Step) {
    match step
    case Throttle(c, _) => c !in s.calls
    case PollOnce(c, _) => c in s.calls && s.calls[c].phase.Polling?
    case Wake(c) => c in s.calls && s.calls[c].phase.Sleeping?
    case Cancel(c) => c in s.calls && (s.calls[c].phase.Polling? || s.calls[c].phase.Sleeping?)
    case Observe(_, _, rounding) => -1 <= rounding <= 1
  }

  function Next(s: State, step: Step): State
    requires Enabled(s, step)
  {
    match step
    case Throttle(c, retryAt) => s.(calls := s.calls[c := Call(retryAt, Polling)])
    case PollOnce(c, now) =>
      var call := s.calls[c];
      var v := Judge(s.pace, call.retryAt, now);
      s.(pace := Polled(s.pace, call.retryAt, now),
         admitted := if v.Admitted? then s.admitted + [Admission(now, s.pace.interval, c)] else s.admitted,
         calls := s.calls[c := call.(phase := if v.Admitted? then Granted else if v.Refused? then Failed else Sleeping)])
    case Wake(c) => s.(calls := s.calls[c := s.calls[c].(phase := Polling)])
    case Cancel(c) => s.(calls := s.calls[c := s.calls[c].(phase := Failed)])
    case Observe(now, r, rounding) =>
      s.(pace := Observed(s.pace, now, r, rounding),
         limits := if Limits(r) then s.limits + [Limit(DeadlineOf(now, r), |s.admitted|)] else s.limits)
  }

  predicate Runs(s: State, steps: seq<Step>)
    decreases |steps|
  {
    steps == [] || (Enabled(s, steps[0]) && Runs(Next(s, steps[0]), steps[1..]))
  }

  function After(s: State, steps: seq<Step>): State
    requires Runs(s, steps)
    decreases |steps|
  {
    if steps == [] then s else After(Next(s, steps[0]), steps[1..])
  }

  function Initial(): State {
    State(INITIAL_PACE, [], [], map[])
  }

  ghost predicate Paced(s: State) {
    && RATE_LIMIT_DELAY <= s.pace.interval
    && (s.admitted != [] ==> s.pace.lastAdmission == s.admitted[|s.admitted| - 1].at)
    && (forall i :: 0 <= i < |s.admitted| ==> RATE_LIMIT_DELAY <= s.admitted[i].interval)
    && (forall i :: 0 < i < |s.admitted| ==>
          s.admitted[i - 1].at + s.admitted[i].interval <= s.admitted[i].at)
    && (forall k :: 0 <= k < |s.limits| ==> s.limits[k].deadline <= s.pace.cooldownUntil)
    && (forall k, i :: 0 <= k < |s.limits| && s.limits[k].before <= i < |s.admitted| ==>
          s.limits[k].deadline <= s.admitted[i].at)
    && (forall k :: 0 <= k < |s.limits| ==> s.limits[k].before <= |s.admitted|)
    && (forall i :: 0 <= i < |s.admitted| ==>
          s.admitted[i].caller in s.calls && s.calls[s.admitted[i].caller].phase.Granted?
          && s.calls[s.admitted[i].caller].retryAt <= s.admitted[i].at)
  }

  /** A granted poll comes no earlier than any deadline set before it. */
  lemma AdmissionIsCooled(s: State, c: int, now: nat)
    requires Paced(s) && Enabled(s, PollOnce(c, now)) && Judge(s.pace, s.calls[c].retryAt, now).Admitted?
    ensures var s' := Next(s, PollOnce(c, now));
      forall k, i :: 0 <= k < |s'.limits| && s'.limits[k].before <= i < |s'.admitted| ==>
        s'.limits[k].deadline <= s'.admitted[i].at
  {
    var s' := Next(s, PollOnce(c, now));
    var n := |s.admitted|;
    forall k, i | 0 <= k < |s'.limits| && s'.limits[k].before <= i < |s'.admitted|
      ensures s'.limits[k].deadline <= s'.admitted[i].at
    {
      if i < n {
        assert s'.admitted[i] == s.admitted[i] && s.limits[k].deadline <= s.admitted[i].at;
      } else {
        assert s'.admitted[n].at == now && s.limits[k].deadline <= s.pace.cooldownUntil <= now;
      }
    }
  }

  /** It waits out the interval in force. */
  lemma AdmissionIsSpaced(s: State, c: int, now: nat)
    requires Paced(s) && Enabled(s, PollOnce(c, now)) && Judge(s.pace, s.calls[c].retryAt, now).Admitted?
    ensures var s' := Next(s, PollOnce(c, now));
      forall i :: 0 < i < |s'.admitted| ==> s'.admitted[i - 1].at + s'.admitted[i].interval <= s'.admitted[i].at
  {
    var s' := Next(s, PollOnce(c, now));
    var n := |s.admitted|;
    assert s'.admitted[n] == Admission(now, s.pace.interval, c) && s.pace.lastAdmission + s.pace.interval <= now;
    assert forall i :: 0 <= i < n ==> s'.admitted[i] == s.admitted[i];
  }

  lemma AdmissionIsPaced(s: State, c: int, now: nat)
    requires Paced(s) && Enabled(s, PollOnce(c, now)) && Judge(s.pace, s.calls[c].retryAt, now).Admitted?
    ensures Paced(Next(s, PollOnce(c, now)))
  {
    AdmissionIsCooled(s, c, now);
    AdmissionIsSpaced(s, c, now);
  }

  lemma ObservationIsPaced(s: State, now: nat, r: Response, rounding: int)
    requires Paced(s) && Enabled(s, Observe(now, r, rounding))
    ensures Paced(Next(s, Observe(now, r, rounding)))
  {
    var s' := Next(s, Observe(now, r, rounding));
    var n := |s.limits|;
    assert forall k :: 0 <= k < n ==> s'.limits[k] == s.limits[k];
    assert s.pace.cooldownUntil <= s'.pace.cooldownUntil;
  }

  lemma PacedStep(s: State, step: Step)
    requires Paced(s) && Enabled(s, step)
    ensures Paced(Next(s, step))
    ensures s.pace.cooldownUntil <= Next(s, step).pace.cooldownUntil
  {
    match step
    case PollOnce(c, now) =>
      if Judge(s.pace, s.calls[c].retryAt, now).Admitted? {
        AdmissionIsPaced(s, c, now);
      }
    case Observe(now, r, rounding) => ObservationIsPaced(s, now, r, rounding);
    case _ =>
  }

  lemma {:induction false} PacedRun(s: State, steps: seq<Step>)
    requires Paced(s) && Runs(s, steps)
    ensures Paced(After(s, steps))
    ensures s.pace.cooldownUntil <= After(s, steps).pace.cooldownUntil
    decreases |steps|
  {
    if steps != [] {
      PacedStep(s, steps[0]);
      PacedRun(Next(s, steps[0]), steps[1..]);
    }
  }

  /** Spacing adds up: with every interval at least `gap`, n admissions span n - 1 gaps. */
  lemma {:induction false} SpacingAddsUp(s: State, i: nat, j: nat, gap: int)
    requires Paced(s) && i < j <= |s.admitted|
    requires forall k :: i < k < j ==> gap <= s.admitted[k].interval
    ensures s.admitted[i].at + (j - 1 - i) * gap <= s.admitted[j - 1].at
    decreases j
  {
    if i + 1 < j {
      SpacingAddsUp(s, i, j - 1, gap);
      assert (j - 1 - i) * gap == (j - 2 - i) * gap + gap;
    }
  }

  /** Any window of sixty seconds, both ends included, holds at most 27 admissions. */
  lemma WindowHoldsAtMost27(steps: seq<Step>, i: nat, j: nat)
    requires Runs(Initial(), steps) && i < j <= |After(Initial(), steps).admitted|
    requires After(Initial(), steps).admitted[j - 1].at - After(Initial(), steps).admitted[i].at <= MINUTE
    ensures j - i <= 27
  {
    PacedRun(Initial(), steps);
    SpacingAddsUp(After(Initial(), steps), i, j, RATE_LIMIT_DELAY);
  }

  /** L intervals of an advertised limit L cover a minute. */
  lemma IntervalsCoverMinute(limit: int, rounding: int)
    requires 0 < limit && -1 <= rounding <= 1
    ensures MINUTE <= limit * AllowanceInterval(limit, rounding)
  {
    var n := AllowanceInterval(limit, rounding);
    if limit >= 27 {
      assert limit * RATE_LIMIT_DELAY >= 27 * RATE_LIMIT_DELAY;
      assert limit * n >= limit * RATE_LIMIT_DELAY;
    } else {
      var q := 10 * MINUTE / (9 * limit);
      assert 10 * MINUTE < (q + 1) * (9 * limit);
      assert (q + 1) * (9 * limit) == 9 * (limit * q) + 9 * limit;
      assert limit * n >= limit * (q - 1);
      assert limit * (q - 1) == limit * q - limit;
    }
  }

  lemma FewerGaps(m: int, limit: int, gap: int)
    requires m * gap < limit * gap && 0 < gap
    ensures m < limit
  {
    ProductSign(m - limit, gap);
    assert (m - limit) * gap == m * gap - limit * gap;
  }

  lemma ProductSign(a: int, b: int)
    requires 0 < b
    ensures 0 <= a ==> 0 <= a * b
  {
  }

  /** While an advertised limit L sets the interval, a half-open minute holds at most L admissions. */
  lemma WindowHoldsAtMostLimit(steps: seq<Step>, i: nat, j: nat, limit: int, rounding: int)
    requires Runs(Initial(), steps) && i < j <= |After(Initial(), steps).admitted|
    requires 0 < limit && -1 <= rounding <= 1
    requires forall k :: i < k < j ==> After(Initial(), steps).admitted[k].interval == AllowanceInterval(limit, rounding)
    requires After(Initial(), steps).admitted[j - 1].at - After(Initial(), steps).admitted[i].at < MINUTE
    ensures j - i <= limit
  {
    PacedRun(Initial(), steps);
    var n := AllowanceInterval(limit, rounding);
    SpacingAddsUp(After(Initial(), steps), i, j, n);
    IntervalsCoverMinute(limit, rounding);
    FewerGaps(j - 1 - i, limit, n);
  }

  /** Every admission after a limiting response comes no earlier than the deadline it set. */
  lemma CooldownIsRespected(steps: seq<Step>, k: nat, i: nat)
    requires Runs(Initial(), steps)
    requires k < |After(Initial(), steps).limits|
    requires After(Initial(), steps).limits[k].before <= i < |After(Initial(), steps).admitted|
    ensures After(Initial(), steps).limits[k].deadline <= After(Initial(), steps).admitted[i].at
  {
    PacedRun(Initial(), steps);
  }

  /** No call is admitted before the retry time it came with. */
  lemma RetryTimeIsRespected(steps: seq<Step>, i: nat)
    requires Runs(Initial(), steps) && i < |After(Initial(), steps).admitted|
    ensures var s := After(Initial(), steps);
      s.admitted[i].caller in s.calls && s.calls[s.admitted[i].caller].retryAt <= s.admitted[i].at
  {
    PacedRun(Initial(), steps);
  }

  /** The cooldown deadline never moves back, from any reachable state on. */
  lemma CooldownNeverDecreases(steps: seq<Step>, more: seq<Step>)
    requires Runs(Initial(), steps) && Runs(After(Initial(), steps), more)
    ensures After(Initial(), steps).pace.cooldownUntil <= After(After(Initial(), steps), more).pace.cooldownUntil
  {
    PacedRun(Initial(), steps);
    PacedRun(After(Initial(), steps), more);
  }

  /** A throttle call that failed or was cancelled admitted nothing and changed no pacing state. */
  lemma FailedCallAdmitsNothing(steps: seq<Step>, c: int, step: Step)
    requires Runs(Initial(), steps) && Enabled(After(Initial(), steps), step)
    requires (step.PollOnce? || step.Cancel?) && step.c == c
    requires Next(After(Initial(), steps), step).calls[c].phase.Failed?
    ensures Next(After(Initial(), steps), step).pace == After(Initial(), steps).pace
    ensures forall a :: a in Next(After(Initial(), steps), step).admitted ==> a.caller != c
  {
    PacedRun(Initial(), steps);
    PacedStep(After(Initial(), steps), step);
  }
}
