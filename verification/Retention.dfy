/**
 Access times and retention (internal/cache/cache.go): debounced hits wait in a
 pending map, a worker flushes them, and pruning snapshots the pending map
 before a separate DELETE. Times are Unix seconds.
 */
module Retention {
  import opened Basics

  /** The columns of `year_cache` that retention reads; `lastHit` 0 falls back to `fetchedAt`. */
  datatype Row = Row(fetchedAt: int, lastHit: int)

  function Stamp(row: Row): int {
    if row.lastHit > 0 then row.lastHit else row.fetchedAt
  }

  function Max(a: int, b: int): (r: int)
    ensures a <= r && b <= r && (r == a || r == b)
  {
    if a < b then b else a
  }

  /** The in-memory side: the last scheduled write per year and the writes still pending. */
  datatype Times = Times(scheduled: map<int, int>, pending: map<int, int>)

  function QueueState(t: Times, debounce: nat, year: int, persisted: int, now: int): Times {
    var last := if year in t.scheduled then t.scheduled[year] else persisted;
    if now - last < debounce then t.(scheduled := t.scheduled[year := last])
    else Times(t.scheduled[year := now], t.pending[year := now])
  }

  /** UPDATE year_cache SET last_hit = MAX(last_hit, ...) for the years of a batch. */
  function Updated(rows: map<int, Row>, batch: map<int, int>): map<int, Row> {
    map y | y in rows ::
      if y in batch then rows[y].(lastHit := Max(rows[y].lastHit, batch[y])) else rows[y]
  }

  /** The pending writes a successful flush of `batch` leaves behind. */
  function Acknowledged(pending: map<int, int>, batch: map<int, int>): map<int, int> {
    map y | y in pending && !(y in batch && pending[y] <= batch[y]) :: pending[y]
  }

  /** INSERT ... ON CONFLICT(year) DO UPDATE. */
  function Upserted(rows: map<int, Row>, year: int, now: int): map<int, Row> {
    rows[year := if year in rows then Row(now, Stamp(rows[year])) else Row(now, now)]
  }

  /** The years a prune must not delete because a recent hit is still unwritten. */
  function Protected(pending: map<int, int>, cutoff: int): set<int> {
    set y | y in pending && cutoff <= pending[y]
  }

  /** DELETE FROM year_cache WHERE stamp < cutoff AND year NOT IN (kept). */
  function Pruned(rows: map<int, Row>, cutoff: int, kept: set<int>): map<int, Row> {
    map y | y in rows && (cutoff <= Stamp(rows[y]) || y in kept) :: rows[y]
  }

  // ------------------------------------------------------------------ the object

  class AccessTimes {
    var lastHitTimes: map<int, int>
    var pendingLastHits: map<int, int>
    const debounce: nat

    function View(): Times
      reads this
    {
      Times(lastHitTimes, pendingLastHits)
    }

    constructor (debounce: nat)
      ensures View() == Times(map[], map[]) && this.debounce == debounce
    {
      lastHitTimes, pendingLastHits := map[], map[];
      this.debounce := debounce;
    }

    method QueueLastHit(year: int, persisted: int, now: int)
      modifies this
      ensures View() == QueueState(old(View()), debounce, year, persisted, now)
    {
      var last := persisted;
      if year in lastHitTimes {
        last := lastHitTimes[year];
      } else {
        lastHitTimes := lastHitTimes[year := persisted];
      }
      if now - last < debounce {
        return;
      }
      lastHitTimes := lastHitTimes[year := now];
      pendingLastHits := pendingLastHits[year := now];
    }

    /** Drops each flushed hit, unless a newer one arrived during the write. */
    method Acknowledge(batch: map<int, int>)
      modifies this
      ensures View() == old(View()).(pending := Acknowledged(old(pendingLastHits), batch))
    {
      var todo := batch.Keys;
      while todo != {}
        invariant todo <= batch.Keys
        invariant lastHitTimes == old(lastHitTimes)
        invariant pendingLastHits == map y | y in old(pendingLastHits)
                    && !(y in batch && y !in todo && old(pendingLastHits)[y] <= batch[y]) :: old(pendingLastHits)[y]
        decreases |todo|
      {
        var year := Pick(todo);
        if year in pendingLastHits && pendingLastHits[year] <= batch[year] {
          pendingLastHits := pendingLastHits - {year};
        }
        todo := todo - {year};
      }
      assert pendingLastHits == Acknowledged(old(pendingLastHits), batch);
    }

    method Clear()
      modifies this
      ensures View() == Times(map[], map[])
    {
      lastHitTimes, pendingLastHits := map[], map[];
    }

    /** The loop that collects the years a prune excludes. */
    method ProtectedYears(cutoff: int) returns (years: set<int>)
      ensures years == Protected(pendingLastHits, cutoff)
    {
      years := {};
      var todo := pendingLastHits.Keys;
      while todo != {}
        invariant todo <= pendingLastHits.Keys
        invariant years == set y | y in pendingLastHits && y !in todo && cutoff <= pendingLastHits[y]
        decreases |todo|
      {
        var year := Pick(todo);
        if pendingLastHits[year] >= cutoff {
          years := years + {year};
        }
        todo := todo - {year};
      }
    }
  }

  // ------------------------------------------------------------------ the protocol

  datatype Hit =
    | HitRead(year: int, persisted: int)
    | HitStamped(year: int, persisted: int, now: int)

  datatype Flush =
    | Snapshotted(batch: map<int, int>)
    | Written(batch: map<int, int>)

  /** `seen`: the newest queued hit of each year when the prune took its snapshot. */
  datatype Prune =
    | Started(cutoff: int)
    | Ready(cutoff: int, kept: set<int>, seen: map<int, int>)

  /** `served` records, per year, the newest hit queued since the maps were last cleared. */
  datatype State = State(
    clock: int,
    rows: map<int, Row>,
    times: Times,
    served: map<int, int>,
    hits: map<int, Hit>,
    flushes: map<int, Flush>,
    prunes: map<int, Prune>)

  datatype Step =
    | Tick(now: int)
    | ReadHit(h: int, year: int)
    | StampHit(h: int)
    | QueueHit(h: int)
    | SetYear(year: int)
    | FlushStart(f: int)
    | FlushUpdate(f: int)
    | FlushFail(f: int)
    | FlushAcknowledge(f: int)
    | PruneStart(p: int, days: nat)
    | PruneSnapshot(p: int)
    | PruneDelete(p: int)
    | PruneFail(p: int)
    | ClearRows
    | ClearTimes

  predicate Enabled(s: State, step: Step) {
    match step
    case Tick(now) => s.clock <= now
    case ReadHit(h, year) => h !in s.hits && year in s.rows
    case StampHit(h) => h in s.hits && s.hits[h].HitRead?
    case QueueHit(h) => h in s.hits && s.hits[h].HitStamped?
    case SetYear(_) => true
    case FlushStart(f) => f !in s.flushes
    case FlushUpdate(f) => f in s.flushes && s.flushes[f].Snapshotted?
    case FlushFail(f) => f in s.flushes
    case FlushAcknowledge(f) => f in s.flushes && s.flushes[f].Written?
    case PruneStart(p, _) => p !in s.prunes
    case PruneSnapshot(p) => p in s.prunes && s.prunes[p].Started?
    case PruneDelete(p) => p in s.prunes && s.prunes[p].Ready?
    case PruneFail(p) => p in s.prunes
    case ClearRows => true
    case ClearTimes => true
  }

  const SECONDS_A_DAY := 86400

  function Next(debounce: nat, s: State, step: Step): State
    requires Enabled(s, step)
  {
    match step
    case Tick(now) => s.(clock := now)
    case ReadHit(h, year) => s.(hits := s.hits[h := HitRead(year, s.rows[year].lastHit)])
    case StampHit(h) => s.(hits := s.hits[h := HitStamped(s.hits[h].year, s.hits[h].persisted, s.clock)])
    case QueueHit(h) =>
      var hit := s.hits[h];
      s.(times := QueueState(s.times, debounce, hit.year, hit.persisted, hit.now),
         served := s.served[hit.year := if hit.year in s.served then Max(s.served[hit.year], hit.now) else hit.now],
         hits := s.hits - {h})
    case SetYear(year) => s.(rows := Upserted(s.rows, year, s.clock))
    case FlushStart(f) => s.(flushes := s.flushes[f := Snapshotted(s.times.pending)])
    case FlushUpdate(f) =>
      s.(rows := Updated(s.rows, s.flushes[f].batch), flushes := s.flushes[f := Written(s.flushes[f].batch)])
    case FlushFail(f) => s.(flushes := s.flushes - {f})
    case FlushAcknowledge(f) =>
      s.(times := s.times.(pending := Acknowledged(s.times.pending, s.flushes[f].batch)), flushes := s.flushes - {f})
    case PruneStart(p, days) => s.(prunes := s.prunes[p := Started(s.clock - days * SECONDS_A_DAY)])
    case PruneSnapshot(p) =>
      var cutoff := s.prunes[p].cutoff;
      s.(prunes := s.prunes[p := Ready(cutoff, Protected(s.times.pending, cutoff), s.served)])
    case PruneDelete(p) =>
      s.(rows := Pruned(s.rows, s.prunes[p].cutoff, s.prunes[p].kept), prunes := s.prunes - {p})
    case PruneFail(p) => s.(prunes := s.prunes - {p})
    case ClearRows => s.(rows := map[])
    case ClearTimes => s.(times := Times(map[], map[]), served := map[])
  }

  predicate Runs(debounce: nat, s: State, steps: seq<Step>)
    decreases |steps|
  {
    steps == [] || (Enabled(s, steps[0]) && Runs(debounce, Next(debounce, s, steps[0]), steps[1..]))
  }

  function After(debounce: nat, s: State, steps: seq<Step>): State
    requires Runs(debounce, s, steps)
    decreases |steps|
  {
    if steps == [] then s else After(debounce, Next(debounce, s, steps[0]), steps[1..])
  }

  /** A start with no requests under way and no row stamped in the future. */
  predicate Start(s: State) {
    && s.times == Times(map[], map[]) && s.served == map[]
    && s.hits == map[] && s.flushes == map[] && s.prunes == map[]
    && 0 <= s.clock
    && (forall y :: y in s.rows ==> 0 <= s.rows[y].lastHit <= s.clock && 0 <= s.rows[y].fetchedAt <= s.clock)
  }

  // ------------------------------------------------------------------ the invariant

  /** The row, if there is one, records a hit at `time` or later. */
  predicate Recorded(s: State, year: int, time: int) {
    year in s.rows ==> time <= s.rows[year].lastHit
  }

  /** The row records it, or a pending write of it is protected from the prune. */
  predicate Covered(s: State, year: int, time: int) {
    Recorded(s, year, time) || (year in s.times.pending && time <= s.times.pending[year])
  }

  predicate HitSound(s: State, hit: Hit) {
    && hit.persisted <= s.clock && Recorded(s, hit.year, hit.persisted)
    && (hit.HitStamped? ==> hit.now <= s.clock)
  }

  predicate FlushSound(s: State, flush: Flush) {
    && (forall y :: y in flush.batch ==> flush.batch[y] <= s.clock)
    && (flush.Written? ==> forall y :: y in flush.batch ==> Recorded(s, y, flush.batch[y]))
  }

  /** How many seconds after the cutoff a hit must be for the debounce not to matter. */
  function Margin(debounce: nat): nat {
    if debounce == 0 then 0 else debounce - 1
  }

  predicate PruneSound(s: State, debounce: nat, prune: Prune) {
    && prune.cutoff <= s.clock
    && (prune.Ready? ==>
          forall y :: y in prune.seen && prune.cutoff + Margin(debounce) <= prune.seen[y] && y !in prune.kept ==>
            Recorded(s, y, prune.cutoff))
  }

  predicate TimesSound(s: State, debounce: nat) {
    && (forall y :: y in s.times.scheduled ==> s.times.scheduled[y] <= s.clock && Covered(s, y, s.times.scheduled[y]))
    && (forall y :: y in s.times.pending ==> s.times.pending[y] <= s.clock)
    && (forall y :: y in s.served ==>
          y in s.times.scheduled && (s.served[y] - s.times.scheduled[y] < debounce || s.served[y] <= s.times.scheduled[y]))
  }

  ghost predicate Safe(s: State, debounce: nat) {
    && 0 <= s.clock
    && (forall y :: y in s.rows ==> 0 <= s.rows[y].lastHit <= s.clock && 0 <= s.rows[y].fetchedAt <= s.clock)
    && TimesSound(s, debounce)
    && (forall h :: h in s.hits ==> HitSound(s, s.hits[h]))
    && (forall f :: f in s.flushes ==> FlushSound(s, s.flushes[f]))
    && (forall p :: p in s.prunes ==> PruneSound(s, debounce, s.prunes[p]))
  }

  /** Stored hits only move forward: a later hit on the same row, or a new row stamped now. */
  predicate RowsAdvance(s: State, s': State) {
    && s.clock <= s'.clock
    && (forall y :: y in s'.rows ==>
          && 0 <= s'.rows[y].lastHit <= s'.clock && 0 <= s'.rows[y].fetchedAt <= s'.clock
          && (if y in s.rows then s.rows[y].lastHit <= s'.rows[y].lastHit else s'.rows[y].lastHit == s.clock))
  }

  lemma RowsAlwaysAdvance(s: State, debounce: nat, step: Step)
    requires Safe(s, debounce) && Enabled(s, step)
    ensures RowsAdvance(s, Next(debounce, s, step))
  {
    match step
    case FlushUpdate(f) => assert FlushSound(s, s.flushes[f]);
    case _ =>
  }

  /** So whatever a past step found recorded stays recorded. */
  lemma RecordedStays(s: State, s': State)
    requires RowsAdvance(s, s')
    ensures forall y, t :: t <= s.clock && Recorded(s, y, t) ==> Recorded(s', y, t)
  {
  }

  lemma QueueKeepsTimes(s: State, debounce: nat, h: int)
    requires Safe(s, debounce) && Enabled(s, QueueHit(h))
    ensures TimesSound(Next(debounce, s, QueueHit(h)), debounce)
  {
    assert HitSound(s, s.hits[h]);
  }

  lemma AcknowledgeKeepsTimes(s: State, debounce: nat, f: int)
    requires Safe(s, debounce) && Enabled(s, FlushAcknowledge(f))
    ensures TimesSound(Next(debounce, s, FlushAcknowledge(f)), debounce)
  {
    assert FlushSound(s, s.flushes[f]);
  }

  lemma TimesStep(s: State, debounce: nat, step: Step)
    requires Safe(s, debounce) && Enabled(s, step)
    ensures TimesSound(Next(debounce, s, step), debounce)
  {
    RowsAlwaysAdvance(s, debounce, step);
    RecordedStays(s, Next(debounce, s, step));
    match step
    case QueueHit(h) => QueueKeepsTimes(s, debounce, h);
    case FlushAcknowledge(f) => AcknowledgeKeepsTimes(s, debounce, f);
    case _ =>
  }

  lemma PruneSnapshotIsSound(s: State, debounce: nat, p: int)
    requires Safe(s, debounce) && Enabled(s, PruneSnapshot(p))
    ensures PruneSound(Next(debounce, s, PruneSnapshot(p)), debounce, Next(debounce, s, PruneSnapshot(p)).prunes[p])
  {
    var s' := Next(debounce, s, PruneSnapshot(p));
    var cutoff := s.prunes[p].cutoff;
    assert PruneSound(s, debounce, s.prunes[p]);
    forall y | y in s.served && cutoff + Margin(debounce) <= s.served[y] && y !in s'.prunes[p].kept
      ensures Recorded(s', y, cutoff)
    {
      assert cutoff <= s.times.scheduled[y] && Covered(s, y, s.times.scheduled[y]);
    }
  }

  lemma SafeStep(s: State, debounce: nat, step: Step)
    requires Safe(s, debounce) && Enabled(s, step)
    ensures Safe(Next(debounce, s, step), debounce)
  {
    var s' := Next(debounce, s, step);
    RowsAlwaysAdvance(s, debounce, step);
    RecordedStays(s, s');
    TimesStep(s, debounce, step);
    forall h | h in s'.hits ensures HitSound(s', s'.hits[h]) {
      if h in s.hits { assert HitSound(s, s.hits[h]); }
    }
    forall f | f in s'.flushes ensures FlushSound(s', s'.flushes[f]) {
      if f in s.flushes { assert FlushSound(s, s.flushes[f]); }
    }
    forall p | p in s'.prunes ensures PruneSound(s', debounce, s'.prunes[p]) {
      if p in s.prunes { assert PruneSound(s, debounce, s.prunes[p]); }
      if step == PruneSnapshot(p) { PruneSnapshotIsSound(s, debounce, p); }
    }
  }

  lemma {:induction false} SafeRun(s: State, debounce: nat, steps: seq<Step>)
    requires Safe(s, debounce) && Runs(debounce, s, steps)
    ensures Safe(After(debounce, s, steps), debounce)
    decreases |steps|
  {
    if steps != [] {
      SafeStep(s, debounce, steps[0]);
      SafeRun(Next(debounce, s, steps[0]), debounce, steps[1..]);
    }
  }

  /** In every run an existing row, with its pending write, is never behind the last scheduled time. */
  lemma ScheduledIsNeverLost(s: State, debounce: nat, steps: seq<Step>, year: int)
    requires Start(s) && Runs(debounce, s, steps)
    requires year in After(debounce, s, steps).rows && year in After(debounce, s, steps).times.scheduled
    ensures var t := After(debounce, s, steps);
            t.times.scheduled[year] <=
            (if year in t.times.pending then Max(t.rows[year].lastHit, t.times.pending[year]) else t.rows[year].lastHit)
  {
    SafeRun(s, debounce, steps);
    assert Covered(After(debounce, s, steps), year, After(debounce, s, steps).times.scheduled[year]);
  }

  /** Each row whose newest hit at the prune's snapshot was `k` seconds newer than its cutoff outlives its DELETE. */
  predicate SparesNow(debounce: nat, t: State, k: nat) {
    forall p, y | p in t.prunes && t.prunes[p].Ready? && y in t.prunes[p].seen && y in t.rows ::
      t.prunes[p].cutoff + k <= t.prunes[p].seen[y] ==> y in Next(debounce, t, PruneDelete(p)).rows
  }

  /** Every prune of the run keeps this many days. */
  predicate Retains(days: nat, steps: seq<Step>) {
    forall i | 0 <= i < |steps| && steps[i].PruneStart? :: steps[i].days == days
  }

  /** In every run with that retention, whatever flushes ran, failed or overlapped. */
  ghost predicate Spares(days: nat, debounce: nat, k: nat) {
    forall s, steps | Start(s) && Runs(debounce, s, steps) && Retains(days, steps) ::
      SparesNow(debounce, After(debounce, s, steps), k)
  }

  /** A hit that far past the cutoff is recorded in its row, or pending and protected. */
  lemma PruneSparesRecentHits(s: State, debounce: nat, steps: seq<Step>, k: nat)
    requires Start(s) && Runs(debounce, s, steps) && debounce <= k + 1
    ensures SparesNow(debounce, After(debounce, s, steps), k)
  {
    SafeRun(s, debounce, steps);
    var t := After(debounce, s, steps);
    forall p, y | p in t.prunes && t.prunes[p].Ready? && y in t.prunes[p].seen && y in t.rows
      ensures t.prunes[p].cutoff + k <= t.prunes[p].seen[y] ==> y in Next(debounce, t, PruneDelete(p)).rows
    {
      assert PruneSound(t, debounce, t.prunes[p]);
    }
  }

  lemma RunsCons(debounce: nat, s: State, a: Step, rest: seq<Step>)
    requires Enabled(s, a) && Runs(debounce, Next(debounce, s, a), rest)
    ensures Runs(debounce, s, [a] + rest)
    ensures After(debounce, s, [a] + rest) == After(debounce, Next(debounce, s, a), rest)
  {
    assert ([a] + rest)[1..] == rest;
  }

  /** A row last hit `debounce - 1` seconds before `hit`, at a given time and with a given prune under way. */
  function Stored(debounce: nat, hit: int, clock: int, prunes: map<int, Prune>): State {
    var stored := hit - debounce + 1;
    State(clock, map[0 := Row(stored, stored)], Times(map[], map[]), map[], map[], map[], prunes)
  }

  /** The hit has been queued and debounced: nothing is pending. */
  function Debounced(debounce: nat, hit: int, clock: int, prunes: map<int, Prune>): State {
    var stored := hit - debounce + 1;
    State(clock, map[0 := Row(stored, stored)], Times(map[0 := stored], map[]), map[0 := hit], map[], map[], prunes)
  }

  lemma HitIsDebounced(debounce: nat, hit: int, clock: int, prunes: map<int, Prune>, rest: seq<Step>) returns (steps: seq<Step>)
    requires 1 <= debounce <= hit && clock <= hit
    requires Runs(debounce, Debounced(debounce, hit, hit, prunes), rest)
    ensures steps == [Tick(hit), ReadHit(0, 0), StampHit(0), QueueHit(0)] + rest
    ensures Runs(debounce, Stored(debounce, hit, clock, prunes), steps)
    ensures After(debounce, Stored(debounce, hit, clock, prunes), steps)
         == After(debounce, Debounced(debounce, hit, hit, prunes), rest)
  {
    var s := Stored(debounce, hit, clock, prunes);
    var s1 := Next(debounce, s, Tick(hit));
    var s2 := Next(debounce, s1, ReadHit(0, 0));
    var s3 := Next(debounce, s2, StampHit(0));
    var s4 := Next(debounce, s3, QueueHit(0));
    assert s4.times == Times(map[0 := hit - debounce + 1], map[]) && s4.served == map[0 := hit] && s4.hits == map[];
    assert s4 == Debounced(debounce, hit, hit, prunes);
    RunsCons(debounce, s3, QueueHit(0), rest);
    RunsCons(debounce, s2, StampHit(0), [QueueHit(0)] + rest);
    RunsCons(debounce, s1, ReadHit(0, 0), [StampHit(0)] + ([QueueHit(0)] + rest));
    RunsCons(debounce, s, Tick(hit), [ReadHit(0, 0)] + ([StampHit(0)] + ([QueueHit(0)] + rest)));
    steps := [Tick(hit)] + ([ReadHit(0, 0)] + ([StampHit(0)] + ([QueueHit(0)] + rest)));
  }

  /** The prune's snapshot finds nothing pending to protect. */
  lemma SnapshotProtectsNothing(debounce: nat, hit: int, clock: int, cutoff: int)
    requires 1 <= debounce
    ensures var s := Debounced(debounce, hit, clock, map[0 := Started(cutoff)]);
      && Runs(debounce, s, [PruneSnapshot(0)])
      && After(debounce, s, [PruneSnapshot(0)]) == Debounced(debounce, hit, clock, map[0 := Ready(cutoff, {}, map[0 := hit])])
  {
    var s := Debounced(debounce, hit, clock, map[0 := Started(cutoff)]);
    assert Protected(s.times.pending, cutoff) == {};
    var s' := Next(debounce, s, PruneSnapshot(0));
    assert s'.prunes == map[0 := Ready(cutoff, {}, map[0 := hit])];
    RunsCons(debounce, s, PruneSnapshot(0), []);
  }

  /** The days pass with no further hit, and a prune comes whose cutoff is `k` seconds before the hit. */
  lemma LaterPrune(debounce: nat, days: nat, k: nat, hit: int) returns (steps: seq<Step>)
    requires k + 2 <= debounce <= hit && k <= days * SECONDS_A_DAY
    ensures var s, now := Stored(debounce, hit, hit - debounce + 1, map[]), hit - k + days * SECONDS_A_DAY;
      && Runs(debounce, s, steps) && Retains(days, steps)
      && After(debounce, s, steps) == Debounced(debounce, hit, now, map[0 := Ready(hit - k, {}, map[0 := hit])])
  {
    var now := hit - k + days * SECONDS_A_DAY;
    var s := Debounced(debounce, hit, hit, map[]);
    var s1 := Next(debounce, s, Tick(now));
    var s2 := Next(debounce, s1, PruneStart(0, days));
    assert s2 == Debounced(debounce, hit, now, map[0 := Started(hit - k)]);
    SnapshotProtectsNothing(debounce, hit, now, hit - k);
    RunsCons(debounce, s1, PruneStart(0, days), [PruneSnapshot(0)]);
    RunsCons(debounce, s, Tick(now), [PruneStart(0, days)] + [PruneSnapshot(0)]);
    steps := HitIsDebounced(debounce, hit, hit - debounce + 1, map[], [Tick(now)] + ([PruneStart(0, days)] + [PruneSnapshot(0)]));
  }

  /** Beyond the retention itself, the hit comes while the prune is under way. */
  lemma RacingPrune(debounce: nat, days: nat, k: nat, hit: int) returns (steps: seq<Step>)
    requires k + 2 <= debounce <= hit && days * SECONDS_A_DAY < k
    ensures var s := Stored(debounce, hit, hit - debounce + 1, map[]);
      && Runs(debounce, s, steps) && Retains(days, steps)
      && After(debounce, s, steps) == Debounced(debounce, hit, hit, map[0 := Ready(hit - k, {}, map[0 := hit])])
  {
    var now := hit - k + days * SECONDS_A_DAY;
    var s := Stored(debounce, hit, hit - debounce + 1, map[]);
    var s1 := Next(debounce, s, Tick(now));
    var s2 := Next(debounce, s1, PruneStart(0, days));
    assert s2 == Stored(debounce, hit, now, map[0 := Started(hit - k)]);
    SnapshotProtectsNothing(debounce, hit, hit, hit - k);
    var rest := HitIsDebounced(debounce, hit, now, map[0 := Started(hit - k)], [PruneSnapshot(0)]);
    RunsCons(debounce, s1, PruneStart(0, days), rest);
    RunsCons(debounce, s, Tick(now), [PruneStart(0, days)] + rest);
    steps := [Tick(now)] + ([PruneStart(0, days)] + rest);
  }

  /**
   Any shorter margin fails at every retention: a hit `k` seconds newer than the cutoff is debounced,
   because the stored one is less than an interval older, and the stored one is behind the cutoff.
   */
  lemma DebouncedHitIsNotSpared(debounce: nat, days: nat, k: nat, hit: int) returns (s: State, steps: seq<Step>)
    requires k + 2 <= debounce <= hit
    ensures Start(s) && Runs(debounce, s, steps) && Retains(days, steps)
    ensures var t := After(debounce, s, steps);
            && 0 in t.rows
            && 0 in t.prunes && t.prunes[0] == Ready(hit - k, {}, map[0 := hit])
            && 0 !in Next(debounce, t, PruneDelete(0)).rows
  {
    s := Stored(debounce, hit, hit - debounce + 1, map[]);
    if k <= days * SECONDS_A_DAY {
      steps := LaterPrune(debounce, days, k, hit);
    } else {
      steps := RacingPrune(debounce, days, k, hit);
    }
  }

  /**
   Retention safety, exactly: with any number of days kept, every prune of every run spares each row
   hit at least `k` seconds after its cutoff if and only if the debounce interval is at most `k + 1`
   seconds.
   */
  lemma PruneSparesIff(days: nat, debounce: nat, k: nat)
    ensures Spares(days, debounce, k) <==> debounce <= k + 1
  {
    if debounce <= k + 1 {
      forall s, steps | Start(s) && Runs(debounce, s, steps) && Retains(days, steps)
        ensures SparesNow(debounce, After(debounce, s, steps), k)
      {
        PruneSparesRecentHits(s, debounce, steps, k);
      }
    } else {
      var s, steps := DebouncedHitIsNotSpared(debounce, days, k, debounce);
      var t := After(debounce, s, steps);
      assert t.prunes[0].cutoff + k <= t.prunes[0].seen[0];
      assert !SparesNow(debounce, t, k);
    }
  }

  // ------------------------------------------------------------------ what a prune does delete

  /** In this step the year is hit, or its row inserted, at `bound` or later. */
  predicate TouchesLate(s: State, step: Step, year: int, bound: int) {
    match step
    case QueueHit(h) => h in s.hits && s.hits[h].year == year && s.hits[h].HitStamped? && bound <= s.hits[h].now
    case SetYear(y) => y == year && year !in s.rows && bound <= s.clock
    case _ => false
  }

  predicate TouchedLate(debounce: nat, s: State, steps: seq<Step>, year: int, bound: int)
    requires Runs(debounce, s, steps)
    decreases |steps|
  {
    steps != [] &&
    (TouchesLate(s, steps[0], year, bound) || TouchedLate(debounce, Next(debounce, s, steps[0]), steps[1..], year, bound))
  }

  /** Every trace of the year is earlier than `bound`, and no stored time is zero. */
  ghost predicate Stale(s: State, year: int, bound: int) {
    && 0 < s.clock
    && (year in s.rows ==> 0 < s.rows[year].fetchedAt && 0 <= s.rows[year].lastHit)
    && (year in s.rows ==> (if s.rows[year].lastHit > 0 then s.rows[year].lastHit else s.rows[year].fetchedAt) < bound)
    && (year in s.times.pending ==> s.times.pending[year] < bound)
    && (forall f :: f in s.flushes && year in s.flushes[f].batch ==> s.flushes[f].batch[year] < bound)
    && (forall p :: p in s.prunes && s.prunes[p].Ready? && bound <= s.prunes[p].cutoff ==> year !in s.prunes[p].kept)
  }

  lemma StaleStep(debounce: nat, s: State, step: Step, year: int, bound: int)
    requires Stale(s, year, bound) && Enabled(s, step) && !TouchesLate(s, step, year, bound)
    ensures Stale(Next(debounce, s, step), year, bound)
  {
  }

  lemma {:induction false} StaleRun(debounce: nat, s: State, steps: seq<Step>, year: int, bound: int)
    requires Stale(s, year, bound) && Runs(debounce, s, steps) && !TouchedLate(debounce, s, steps, year, bound)
    ensures Stale(After(debounce, s, steps), year, bound)
    decreases |steps|
  {
    if steps != [] {
      StaleStep(debounce, s, steps[0], year, bound);
      StaleRun(debounce, Next(debounce, s, steps[0]), steps[1..], year, bound);
    }
  }

  /**
   A stored hit is never later than the latest of the row's initial time, its insertion and the hits
   served for it, however often the row is stored again.
   */
  lemma StoringIsNoHit(debounce: nat, s: State, steps: seq<Step>, year: int, bound: int)
    requires Start(s) && 0 < s.clock && Runs(debounce, s, steps)
    requires year in s.rows ==> 0 < s.rows[year].fetchedAt && Stamp(s.rows[year]) < bound
    requires !TouchedLate(debounce, s, steps, year, bound)
    requires year in After(debounce, s, steps).rows
    ensures After(debounce, s, steps).rows[year].lastHit < bound
  {
    StaleRun(debounce, s, steps, year, bound);
  }

  /**
   The other half of retention: a prune deletes every row that was inserted and last hit before its
   cutoff, whatever stores, flushes and other prunes came in between.
   */
  lemma PruneDeletesStaleRows(debounce: nat, s: State, steps: seq<Step>, p: int, year: int)
    requires Start(s) && 0 < s.clock && Runs(debounce, s, steps)
    requires p in After(debounce, s, steps).prunes && After(debounce, s, steps).prunes[p].Ready?
    requires var cutoff := After(debounce, s, steps).prunes[p].cutoff;
      && (year in s.rows ==> 0 < s.rows[year].fetchedAt && Stamp(s.rows[year]) < cutoff)
      && !TouchedLate(debounce, s, steps, year, cutoff)
    ensures year !in Next(debounce, After(debounce, s, steps), PruneDelete(p)).rows
  {
    StaleRun(debounce, s, steps, year, After(debounce, s, steps).prunes[p].cutoff);
  }

  /** A row stored at time zero has no last hit to keep, so storing it again counts as its first. */
  lemma ZeroTimeIsNoHit(now: int)
    requires 0 < now
    ensures Stamp(Row(0, 0)) == 0 && Stamp(Upserted(map[0 := Row(0, 0)], 0, now)[0]) == now
  {
  }

  // ------------------------------------------------------------------ step by step

  /** A hit is pending with its own time exactly when the debounce interval is over. */
  lemma HitIsPendingIff(t: Times, debounce: nat, year: int, persisted: int, now: int)
    ensures var last, t' := if year in t.scheduled then t.scheduled[year] else persisted, QueueState(t, debounce, year, persisted, now);
      && year in t'.scheduled && t'.scheduled[year] == (if debounce <= now - last then now else last)
      && (debounce <= now - last ==> t'.pending == t.pending[year := now])
      && (now - last < debounce ==> t'.pending == t.pending)
  {
  }

  /** A flush stores the later of the two times, for the rows there are, and then forgets what it wrote. */
  lemma FlushSettlesItsBatch(rows: map<int, Row>, pending: map<int, int>, batch: map<int, int>, year: int)
    requires year in batch
    ensures year in Updated(rows, batch) <==> year in rows
    ensures year in rows ==>
      var row := Updated(rows, batch)[year];
      row.fetchedAt == rows[year].fetchedAt && row.lastHit == Max(rows[year].lastHit, batch[year])
    ensures year in Acknowledged(pending, batch) <==> year in pending && batch[year] < pending[year]
    ensures year in Acknowledged(pending, batch) ==> Acknowledged(pending, batch)[year] == pending[year]
  {
  }

  /** Storing a year makes its row fresh now and leaves every other row. */
  lemma StoringIsFresh(rows: map<int, Row>, year: int, now: int, other: int)
    ensures year in Upserted(rows, year, now) && Upserted(rows, year, now)[year].fetchedAt == now
    ensures other != year ==>
      (other in Upserted(rows, year, now) <==> other in rows)
      && (other in rows ==> Upserted(rows, year, now)[other] == rows[other])
  {
  }

  /** A prune's cutoff is its days back from when it started; a clear leaves neither rows nor times. */
  lemma CutoffAndClear(debounce: nat, s: State, p: int, days: nat)
    ensures Enabled(s, PruneStart(p, days)) ==>
      Next(debounce, s, PruneStart(p, days)).prunes[p] == Started(s.clock - 86400 * days)
    ensures Next(debounce, s, ClearRows).rows == map[] && Next(debounce, s, ClearTimes).times == Times(map[], map[])
  {
  }

  /** A flush on its own writes everything pending and leaves nothing pending. */
  lemma FlushEmptiesPending(debounce: nat, s: State, f: int)
    requires f !in s.flushes
    ensures Runs(debounce, s, [FlushStart(f), FlushUpdate(f), FlushAcknowledge(f)])
    ensures var t := After(debounce, s, [FlushStart(f), FlushUpdate(f), FlushAcknowledge(f)]);
      && t.times.pending == map[] && t.times.scheduled == s.times.scheduled
      && t.rows == Updated(s.rows, s.times.pending)
  {
    var s1 := Next(debounce, s, FlushStart(f));
    var s2 := Next(debounce, s1, FlushUpdate(f));
    var s3 := Next(debounce, s2, FlushAcknowledge(f));
    assert Acknowledged(s.times.pending, s.times.pending) == map[];
    RunsCons(debounce, s2, FlushAcknowledge(f), []);
    RunsCons(debounce, s1, FlushUpdate(f), [FlushAcknowledge(f)]);
    RunsCons(debounce, s, FlushStart(f), [FlushUpdate(f)] + [FlushAcknowledge(f)]);
    assert [FlushStart(f), FlushUpdate(f), FlushAcknowledge(f)] == [FlushStart(f)] + ([FlushUpdate(f)] + [FlushAcknowledge(f)]);
  }
}
