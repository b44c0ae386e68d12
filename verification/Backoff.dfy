/**
 Exponential backoff of failed year fetches in a bounded table
 (internal/scheduler/scheduler.go). Delays are int64 nanoseconds, so doubling
 wraps as it does in Go.
 */
module Backoff {
  import opened Basics

  const SECOND: int := 1_000_000_000
  const FETCH_RETRY_BASE: int := 15 * SECOND
  const FETCH_RETRY_MAX: int := 300 * SECOND
  const MAX_TRACKED: nat := 256

  datatype Failure = Failure(retryAt: int, delay: int)

  /** The configured bounds, with the defaults for an unusable base or ceiling. */
  datatype Bounds = Bounds(base: int, ceiling: int)

  function Effective(b: Bounds): Bounds {
    var base := if b.base <= 0 then FETCH_RETRY_BASE else b.base;
    Bounds(base, if b.ceiling < base then FETCH_RETRY_MAX else b.ceiling)
  }

  function NextDelay(previous: Option<Failure>, b: Bounds): int {
    var delay := if previous.Some? && previous.value.delay > 0 then Wrap64(previous.value.delay * 2) else b.base;
    if delay > b.ceiling then b.ceiling else delay
  }

  function FailureOf(t: map<int, Failure>, year: int): Option<Failure> {
    if year in t then Some(t[year]) else None
  }

  /** The entries a new failure keeps: those not expired for longer than the ceiling. */
  function Kept(t: map<int, Failure>, ceiling: int, now: int): map<int, Failure> {
    map y | y in t && now - t[y].retryAt <= ceiling :: t[y]
  }

  predicate Oldest(t: map<int, Failure>, victim: int) {
    victim in t && forall y :: y in t ==> t[victim].retryAt <= t[y].retryAt
  }

  predicate NeedsRoom(t: map<int, Failure>, year: int) {
    year !in t && |t| >= MAX_TRACKED
  }

  /** Recording a failure; `victim` is the entry evicted when the table is full. */
  function Recorded(t: map<int, Failure>, b: Bounds, year: int, now: int, victim: int): map<int, Failure> {
    var e := Effective(b);
    var delay := NextDelay(FailureOf(t, year), e);
    var kept := Kept(t, e.ceiling, now);
    var room := if NeedsRoom(kept, year) then kept - {victim} else kept;
    room[year := Failure(now + delay, delay)]
  }

  predicate MayEvict(t: map<int, Failure>, b: Bounds, year: int, now: int, victim: int) {
    var kept := Kept(t, Effective(b).ceiling, now);
    NeedsRoom(kept, year) ==> Oldest(kept, victim)
  }

  function Remaining(t: map<int, Failure>, year: int, now: int): int {
    if year in t && t[year].retryAt - now > 0 then t[year].retryAt - now else 0
  }

  /**
   The table never outgrows its bound, the failed year is there, to be retried its delay from now, and
   no other year's surviving entry changes.
   */
  lemma RecordedStaysBounded(t: map<int, Failure>, b: Bounds, year: int, now: int, victim: int)
    requires |t| <= MAX_TRACKED && MayEvict(t, b, year, now, victim)
    ensures |Recorded(t, b, year, now, victim)| <= MAX_TRACKED
    ensures forall y :: y in Recorded(t, b, year, now, victim) && y != year ==>
              y in t && Recorded(t, b, year, now, victim)[y] == t[y]
    ensures var t' := Recorded(t, b, year, now, victim);
      year in t' && t'[year].retryAt == now + t'[year].delay
  {
    var kept := Kept(t, Effective(b).ceiling, now);
    assert kept.Keys <= t.Keys;
    SubsetSize(kept.Keys, t.Keys);
    assert |kept| == |kept.Keys| && |t| == |t.Keys|;
    var room := if NeedsRoom(kept, year) then kept - {victim} else kept;
    var t' := Recorded(t, b, year, now, victim);
    assert t'.Keys == room.Keys + {year};
    assert |t'| == |t'.Keys| && |room| == |room.Keys|;
    if NeedsRoom(kept, year) {
      assert room.Keys == kept.Keys - {victim};
    }
  }

  /** Another entry leaves only when it expired a ceiling ago, or as an oldest live one of a full table. */
  lemma OnlyOldEntriesLeave(t: map<int, Failure>, b: Bounds, year: int, now: int, victim: int)
    requires |t| <= MAX_TRACKED && MayEvict(t, b, year, now, victim)
    ensures forall y :: y in t && y !in Recorded(t, b, year, now, victim) ==>
      || Effective(b).ceiling < now - t[y].retryAt
      || (y == victim && |t| == 256
          && forall z :: z in t && now - t[z].retryAt <= Effective(b).ceiling ==> t[victim].retryAt <= t[z].retryAt)
  {
    var kept := Kept(t, Effective(b).ceiling, now);
    if NeedsRoom(kept, year) {
      assert kept.Keys <= t.Keys;
      SubsetSize(kept.Keys, t.Keys);
      assert |kept| == |kept.Keys| && |t| == |t.Keys|;
      assert |t| == MAX_TRACKED;
    }
    forall y | y in t && y !in Recorded(t, b, year, now, victim) && now - t[y].retryAt <= Effective(b).ceiling
      ensures y == victim && NeedsRoom(kept, year)
    {
      assert y in kept;
    }
  }

  /** And whatever expired that long ago does leave. */
  lemma ExpiredEntriesLeave(t: map<int, Failure>, b: Bounds, year: int, now: int, victim: int, y: int)
    requires y in t && y != year && Effective(b).ceiling < now - t[y].retryAt
    ensures y !in Recorded(t, b, year, now, victim)
  {
  }

  /** An unusable base is fifteen seconds, an unusable ceiling five minutes. */
  lemma DefaultBounds(b: Bounds)
    ensures Effective(b).base == if 0 < b.base then b.base else 15 * SECOND
    ensures Effective(b).ceiling == if Effective(b).base <= b.ceiling then b.ceiling else 300 * SECOND
  {
  }

  /** A year is held back exactly until its recorded retry time. */
  lemma HeldBackUntilRetry(t: map<int, Failure>, year: int, now: int)
    ensures Remaining(t, year, now) == 0 <==> year !in t || t[year].retryAt <= now
    ensures 0 < Remaining(t, year, now) ==> now + Remaining(t, year, now) == t[year].retryAt
  {
  }

  class FailureTable {
    var failures: map<int, Failure>
    const bounds: Bounds

    constructor (bounds: Bounds)
      ensures failures == map[] && this.bounds == bounds
    {
      failures := map[];
      this.bounds := bounds;
    }

    method FetchCooldownRemaining(year: int, now: int) returns (remaining: int)
      ensures remaining == Remaining(failures, year, now)
    {
      if year in failures {
        remaining := failures[year].retryAt - now;
        if remaining > 0 {
          return;
        }
      }
      return 0;
    }

    method ClearFetchFailure(year: int)
      modifies this
      ensures failures == old(failures) - {year}
    {
      failures := failures - {year};
    }

    method RecordFetchFailure(year: int, now: int) returns (ghost victim: int)
      requires |failures| <= MAX_TRACKED
      modifies this
      ensures MayEvict(old(failures), bounds, year, now, victim)
      ensures failures == Recorded(old(failures), bounds, year, now, victim)
    {
      var base := bounds.base;
      if base <= 0 {
        base := FETCH_RETRY_BASE;
      }
      var maxDelay := bounds.ceiling;
      if maxDelay < base {
        maxDelay := FETCH_RETRY_MAX;
      }
      var delay := base;
      if year in failures && failures[year].delay > 0 {
        delay := Wrap64(failures[year].delay * 2);
      }
      if delay > maxDelay {
        delay := maxDelay;
      }
      Expire(maxDelay, now);
      victim := 0;
      if year !in failures && |failures| >= MAX_TRACKED {
        var oldestYear := FindOldest();
        victim := oldestYear;
        failures := failures - {oldestYear};
      }
      failures := failures[year := Failure(now + delay, delay)];
    }

    method Expire(maxDelay: int, now: int)
      modifies this
      ensures failures == Kept(old(failures), maxDelay, now)
    {
      var todo := failures.Keys;
      while todo != {}
        invariant todo <= old(failures).Keys
        invariant failures == map y | y in old(failures)
                    && (y in todo || now - old(failures)[y].retryAt <= maxDelay) :: old(failures)[y]
        decreases |todo|
      {
        var trackedYear := Pick(todo);
        if now - failures[trackedYear].retryAt > maxDelay {
          failures := failures - {trackedYear};
        }
        todo := todo - {trackedYear};
      }
      assert failures == Kept(old(failures), maxDelay, now);
    }

    method FindOldest() returns (oldestYear: int)
      requires failures != map[]
      ensures Oldest(failures, oldestYear)
    {
      var todo := failures.Keys;
      oldestYear := Pick(todo);
      todo := todo - {oldestYear};
      while todo != {}
        invariant todo <= failures.Keys && oldestYear in failures
        invariant forall y :: y in failures && y !in todo ==> failures[oldestYear].retryAt <= failures[y].retryAt
        decreases |todo|
      {
        var trackedYear := Pick(todo);
        if failures[trackedYear].retryAt < failures[oldestYear].retryAt {
          oldestYear := trackedYear;
        }
        todo := todo - {trackedYear};
      }
    }
  }

  // ------------------------------------------------------------------ consecutive failures

  function Pow2(n: nat): nat {
    if n == 0 then 1 else 2 * Pow2(n - 1)
  }

  /** The delay after `n` consecutive recorded failures while the entry stays in the table. */
  function DelayAfter(n: nat, b: Bounds): int
    requires 1 <= n
  {
    if n == 1 then NextDelay(None, b) else NextDelay(Some(Failure(0, DelayAfter(n - 1, b))), b)
  }

  function CappedDoubling(n: nat, b: Bounds): int
    requires 1 <= n
  {
    if b.base * Pow2(n - 1) < b.ceiling then b.base * Pow2(n - 1) else b.ceiling
  }

  ghost predicate BacksOff(b: Bounds) {
    forall n: nat :: 1 <= n ==> DelayAfter(n, b) == CappedDoubling(n, b)
  }

  lemma CappedStep(n: nat, b: Bounds)
    requires 1 <= n && 0 < b.base && 0 < b.ceiling
    ensures 0 < CappedDoubling(n, b) <= b.ceiling
    ensures CappedDoubling(n + 1, b) ==
            if 2 * CappedDoubling(n, b) < b.ceiling then 2 * CappedDoubling(n, b) else b.ceiling
  {
    var p := b.base * Pow2(n - 1);
    Pow2Grows(n - 1);
    ProductAtLeast(b.base, Pow2(n - 1));
    DoubledProduct(b.base, Pow2(n - 1));
  }

  lemma ProductAtLeast(a: int, p: int)
    requires 1 <= a && 0 <= p
    ensures p <= a * p
  {
    assert (a - 1) * p >= 0;
    assert a * p == (a - 1) * p + p;
  }

  lemma DoubledProduct(a: int, p: int)
    ensures a * (2 * p) == 2 * (a * p)
  {
  }

  /** Below half the range of int64 doubling does not wrap. */
  lemma DoubledDelay(d: int, b: Bounds)
    requires 0 < d <= b.ceiling && 2 * b.ceiling <= MAX_INT64
    ensures NextDelay(Some(Failure(0, d)), b) == if 2 * d < b.ceiling then 2 * d else b.ceiling
  {
  }

  lemma {:induction false} DelayIsCappedDoubling(n: nat, b: Bounds)
    requires 1 <= n && 0 < b.base && 0 < b.ceiling && 2 * b.ceiling <= MAX_INT64
    ensures DelayAfter(n, b) == CappedDoubling(n, b)
  {
    if n == 1 {
      assert Pow2(0) == 1;
    } else {
      DelayIsCappedDoubling(n - 1, b);
      CappedStep(n - 1, b);
      DoubledDelay(CappedDoubling(n - 1, b), b);
    }
  }

  lemma {:induction false} Pow2Grows(n: nat)
    ensures n < Pow2(n)
  {
    if n > 0 {
      Pow2Grows(n - 1);
    }
  }

  /** With positive base and ceiling, n failures give min(base * 2^(n-1), ceiling) for every n exactly when twice the ceiling fits in 64 bits. */
  lemma BackoffIff(b: Bounds)
    requires 0 < b.base && 0 < b.ceiling <= MAX_INT64
    ensures BacksOff(b) <==> 2 * b.ceiling <= MAX_INT64
  {
    if 2 * b.ceiling <= MAX_INT64 {
      forall n: nat | 1 <= n ensures DelayAfter(n, b) == CappedDoubling(n, b) {
        DelayIsCappedDoubling(n, b);
      }
    } else {
      CeilingWraps(b);
    }
  }

  lemma ReachesCeiling(n: nat, b: Bounds)
    requires 0 < b.base && 0 < b.ceiling < n
    ensures CappedDoubling(n, b) == b.ceiling
  {
    Pow2Grows(n - 1);
    ProductAtLeast(b.base, Pow2(n - 1));
  }

  lemma CeilingWraps(b: Bounds)
    requires 0 < b.base && 0 < b.ceiling <= MAX_INT64 && MAX_INT64 < 2 * b.ceiling
    ensures !BacksOff(b)
  {
    var n: nat := b.ceiling + 1;
    ReachesCeiling(n, b);
    ReachesCeiling(n + 1, b);
    assert DelayAfter(n + 1, b) == NextDelay(Some(Failure(0, DelayAfter(n, b))), b);
    assert DelayAfter(n, b) == b.ceiling ==> DelayAfter(n + 1, b) < 0;
    assert DelayAfter(n, b) != CappedDoubling(n, b) || DelayAfter(n + 1, b) != CappedDoubling(n + 1, b);
  }

  // ------------------------------------------------------------------ in the table

  datatype Event = FailureRecorded(year: int, now: int, victim: int) | FailureCleared(year: int)

  function Apply(t: map<int, Failure>, b: Bounds, e: Event): map<int, Failure> {
    match e
    case FailureRecorded(year, now, victim) => Recorded(t, b, year, now, victim)
    case FailureCleared(year) => t - {year}
  }

  function ApplyAll(t: map<int, Failure>, b: Bounds, events: seq<Event>): map<int, Failure>
    decreases |events|
  {
    if events == [] then t else ApplyAll(Apply(t, b, events[0]), b, events[1..])
  }

  /** The entry of `year` is there after every one of the events. */
  predicate StaysTracked(t: map<int, Failure>, b: Bounds, events: seq<Event>, year: int)
    decreases |events|
  {
    events == [] ||
    (var t' := Apply(t, b, events[0]); year in t' && StaysTracked(t', b, events[1..], year))
  }

  function FailuresOf(events: seq<Event>, year: int): nat {
    if events == [] then 0
    else (if events[0].FailureRecorded? && events[0].year == year then 1 else 0) + FailuresOf(events[1..], year)
  }

  /**
   Whatever other years' failures interleave, the delay of a year whose entry
   stays in the table is the one its own number of failures gives.
   */
  lemma {:induction false} TrackedDelay(t: map<int, Failure>, b: Bounds, events: seq<Event>, year: int, n: nat)
    requires 1 <= n && year in t && t[year].delay == DelayAfter(n, Effective(b))
    requires StaysTracked(t, b, events, year)
    ensures year in ApplyAll(t, b, events)
    ensures ApplyAll(t, b, events)[year].delay == DelayAfter(n + FailuresOf(events, year), Effective(b))
    decreases |events|
  {
    if events != [] {
      var t' := Apply(t, b, events[0]);
      var own := events[0].FailureRecorded? && events[0].year == year;
      var n' := if own then n + 1 else n;
      assert own ==> t'[year].delay == NextDelay(Some(t[year]), Effective(b));
      assert DelayAfter(n + 1, Effective(b)) == NextDelay(Some(Failure(0, DelayAfter(n, Effective(b)))), Effective(b));
      TrackedDelay(t', b, events[1..], year, n');
    }
  }

  /**
   A year that stays in the table from its first failure on has the capped doubling of its
   number of failures, for every history, when twice the effective ceiling fits in 64 bits.
   */
  lemma TrackedYearBacksOff(t: map<int, Failure>, b: Bounds, events: seq<Event>, year: int)
    requires year !in t && events != [] && events[0].FailureRecorded? && events[0].year == year
    requires StaysTracked(t, b, events, year)
    requires 2 * Effective(b).ceiling <= MAX_INT64
    ensures year in ApplyAll(t, b, events)
    ensures ApplyAll(t, b, events)[year].delay == CappedDoubling(FailuresOf(events, year), Effective(b))
  {
    var t' := Apply(t, b, events[0]);
    assert t'[year].delay == DelayAfter(1, Effective(b));
    TrackedDelay(t', b, events[1..], year, 1);
    DelayIsCappedDoubling(FailuresOf(events, year), Effective(b));
  }
}
