/**
 Concurrent readers of decoded years (internal/cache/decoded_year.go) beside the
 mutations that commit to SQLite and then invalidate (internal/cache/cache.go).
 Each step is one critical section, one SQL statement or one local check; any
 interleaving of steps is a run.
 */
module DecodedYearProtocol {
  import opened Basics
  import opened Shows
  import opened DecodedYears

  datatype Env = Env(decode: Bytes -> Option<seq<Show>>, size: (Bytes, seq<Show>) -> int, limits: Limits)

  ghost predicate PositiveSizes(env: Env) {
    forall raw, shows :: 0 < env.size(raw, shows)
  }

  /** What one read reports: an error, a missing row, a corrupt row, or the decoded shows. */
  datatype Answer = Failed | Absent | Corrupt(isFresh: bool) | Decoded(isFresh: bool, shows: seq<Show>)

  /** The reference: read the row and decode it, with no cache in between. */
  function PlainRead(env: Env, row: Option<Bytes>, isFresh: bool): Answer {
    match row
    case None => Absent
    case Some(raw) =>
      match env.decode(raw)
      case None => Corrupt(isFresh)
      case Some(shows) => Decoded(isFresh, shows)
  }

  datatype Phase =
    | Entered
    | Fenced(generation: nat)
    | HasRow(generation: nat, row: Option<Bytes>, isFresh: bool)
    | Missed(generation: nat, raw: Bytes, isFresh: bool)
    | Waiting(generation: nat, raw: Bytes, isFresh: bool, gate: nat)
    | Holding(generation: nat, raw: Bytes, isFresh: bool, gate: nat)
    | Decoding(generation: nat, raw: Bytes, isFresh: bool, gate: nat)
    | Parsed(generation: nat, raw: Bytes, isFresh: bool, gate: nat, result: Option<seq<Show>>)
    | Returning(raw: Bytes, isFresh: bool, gate: nat, answer: Answer)
    | Leaving(raw: Bytes, isFresh: bool, gate: nat, answer: Answer)
    | Done(row: Option<Bytes>, isFresh: bool, answer: Answer)

  datatype Reader = Reader(year: int, phase: Phase)

  datatype Gate = Gate(year: int, token: bool, refs: int)

  /** A committed mutation that has not yet invalidated; `years` is None when it touched every row. */
  datatype Mutation = Mutation(year: int, all: bool, years: Option<set<int>>)

  datatype State = State(
    db: map<int, Bytes>,
    cache: Resident,
    pending: map<int, Mutation>,
    current: map<int, nat>,
    gates: map<nat, Gate>,
    readers: map<int, Reader>)

  /** One reader's own steps; `cancelled` is what its context check reports. */
  datatype Move =
    | Capture
    | ReadRow(isFresh: bool)
    | ReadFails
    | FirstLookup(cancelled: bool)
    | EnterGate(serial: nat)
    | TakeToken
    | AbandonWait
    | SecondLookup(cancelled: bool, late: bool)
    | Decode(cancelled: bool)
    | AdmitResult(cancelled: bool)
    | ReturnToken
    | DropRef

  datatype Step =
    | Enter(r: int, year: int)
    | Advance(r: int, move: Move)
    | CommitSet(m: int, year: int, data: Bytes)
    | CommitClear(m: int)
    | CommitPrune(m: int, years: set<int>, countFailed: bool)
    | Publish(m: int)
    | CloseCache
    | EditRow(year: int, row: Option<Bytes>)

  function RowOf(s: State, year: int): Option<Bytes> {
    if year in s.db then Some(s.db[year]) else None
  }

  predicate CanMove(s: State, phase: Phase, move: Move) {
    match move
    case Capture => phase.Entered?
    case ReadRow(_) => phase.Fenced?
    case ReadFails => phase.Fenced?
    case FirstLookup(_) => phase.HasRow?
    case EnterGate(serial) => phase.Missed? && serial !in s.gates
    case TakeToken => phase.Waiting? && phase.gate in s.gates && s.gates[phase.gate].token
    case AbandonWait => phase.Waiting?
    case SecondLookup(_, _) => phase.Holding?
    case Decode(_) => phase.Decoding?
    case AdmitResult(_) => phase.Parsed?
    case ReturnToken => phase.Returning? && phase.gate in s.gates
    case DropRef => phase.Leaving? && phase.gate in s.gates
  }

  predicate Enabled(s: State, step: Step) {
    match step
    case Enter(r, _) => r !in s.readers
    case Advance(r, move) => r in s.readers && CanMove(s, s.readers[r].phase, move)
    case CommitSet(m, _, _) => m !in s.pending
    case CommitClear(m) => m !in s.pending
    case CommitPrune(m, years, _) => m !in s.pending && years <= s.db.Keys
    case Publish(m) => m in s.pending
    case CloseCache => true
    case EditRow(_, _) => true
  }

  /** The answer built from resident or freshly decoded shows, after the last context check. */
  function Checked(cancelled: bool, answer: Answer): Answer {
    if cancelled then Failed else answer
  }

  /** What a reader's move does to its own control state. */
  function NextPhase(env: Env, s: State, year: int, p: Phase, move: Move): Phase
    requires CanMove(s, p, move)
  {
    match move
    case Capture => Fenced(s.cache.generation)
    case ReadRow(isFresh) => HasRow(p.generation, RowOf(s, year), isFresh)
    case ReadFails => Done(None, false, Failed)
    case FirstLookup(cancelled) =>
      if p.row.None? then Done(None, p.isFresh, Checked(cancelled, Absent))
      else (
        match LookupHit(s.cache, year, p.row.value, true)
        case Some(shows) => Done(p.row, p.isFresh, Checked(cancelled, Decoded(p.isFresh, shows)))
        case None => Missed(p.generation, p.row.value, p.isFresh))
    case EnterGate(serial) => Waiting(p.generation, p.raw, p.isFresh, GateFor(s, year, serial))
    case TakeToken => Holding(p.generation, p.raw, p.isFresh, p.gate)
    case AbandonWait => Leaving(p.raw, p.isFresh, p.gate, Failed)
    case SecondLookup(cancelled, late) =>
      if cancelled then Returning(p.raw, p.isFresh, p.gate, Failed)
      else (
        match LookupHit(s.cache, year, p.raw, true)
        case Some(shows) => Returning(p.raw, p.isFresh, p.gate, Checked(late, Decoded(p.isFresh, shows)))
        case None => Decoding(p.generation, p.raw, p.isFresh, p.gate))
    case Decode(cancelled) =>
      if cancelled then Returning(p.raw, p.isFresh, p.gate, Failed)
      else Parsed(p.generation, p.raw, p.isFresh, p.gate, env.decode(p.raw))
    case AdmitResult(cancelled) =>
      Returning(p.raw, p.isFresh, p.gate,
        Checked(cancelled, if p.result.None? then Corrupt(p.isFresh) else Decoded(p.isFresh, p.result.value)))
    case ReturnToken => Leaving(p.raw, p.isFresh, p.gate, p.answer)
    case DropRef => Done(Some(p.raw), p.isFresh, p.answer)
  }

  /** What a reader's move does to the resident entries: only the two lookups and the admission touch them. */
  function NextCache(env: Env, c: Resident, year: int, p: Phase, move: Move): Resident {
    match move
    case FirstLookup(_) =>
      if !p.HasRow? then c
      else LookupState(c, year, if p.row.Some? then p.row.value else [], p.row.Some?, p.generation)
    case SecondLookup(cancelled, _) =>
      if cancelled || !p.Holding? then c else LookupState(c, year, p.raw, true, p.generation)
    case AdmitResult(_) =>
      if !p.Parsed? || p.result.None? then c
      else AdmitState(c, EntryOf(env, year, p.raw, p.result.value), p.generation, env.limits)
    case _ => c
  }

  function EntryOf(env: Env, year: int, raw: Bytes, shows: seq<Show>): Entry {
    Entry(year, raw, shows, env.size(raw, shows))
  }

  function GateFor(s: State, year: int, serial: nat): nat {
    if year in s.current then s.current[year] else serial
  }

  /** What a reader's move does to the gate objects. */
  function NextGates(s: State, year: int, p: Phase, move: Move): map<nat, Gate>
    requires CanMove(s, p, move)
  {
    match move
    case EnterGate(serial) =>
      var g := GateFor(s, year, serial);
      var gate := if g in s.gates then s.gates[g] else Gate(year, true, 0);
      s.gates[g := gate.(refs := gate.refs + 1)]
    case TakeToken => s.gates[p.gate := s.gates[p.gate].(token := false)]
    case ReturnToken => s.gates[p.gate := s.gates[p.gate].(token := true)]
    case DropRef => s.gates[p.gate := s.gates[p.gate].(refs := s.gates[p.gate].refs - 1)]
    case _ => s.gates
  }

  /** What a reader's move does to the table from years to gates. */
  function NextCurrent(s: State, year: int, p: Phase, move: Move): map<int, nat>
    requires CanMove(s, p, move)
  {
    match move
    case EnterGate(serial) => s.current[year := GateFor(s, year, serial)]
    case DropRef => if s.gates[p.gate].refs == 1 then s.current - {year} else s.current
    case _ => s.current
  }

  function MoveNext(env: Env, s: State, r: int, move: Move): State
    requires r in s.readers && CanMove(s, s.readers[r].phase, move)
  {
    var year, p := s.readers[r].year, s.readers[r].phase;
    State(
      s.db, NextCache(env, s.cache, year, p, move), s.pending,
      NextCurrent(s, year, p, move), NextGates(s, year, p, move),
      s.readers[r := Reader(year, NextPhase(env, s, year, p, move))])
  }

  function Next(env: Env, s: State, step: Step): State
    requires Enabled(s, step)
  {
    match step
    case Enter(r, year) => s.(readers := s.readers[r := Reader(year, Entered)])
    case CommitSet(m, year, data) =>
      s.(db := s.db[year := data], pending := s.pending[m := Mutation(year, false, Some({year}))])
    case CommitClear(m) => s.(db := map[], pending := s.pending[m := Mutation(0, true, None)])
    case CommitPrune(m, years, countFailed) =>
      var s' := s.(db := s.db - years);
      if countFailed || years != {} then s'.(pending := s.pending[m := Mutation(0, true, Some(years))]) else s'
    case Publish(m) =>
      s.(cache := InvalidateState(s.cache, s.pending[m].year, s.pending[m].all, false), pending := s.pending - {m})
    case CloseCache => s.(cache := InvalidateState(s.cache, 0, true, true))
    case EditRow(year, row) => s.(db := if row.Some? then s.db[year := row.value] else s.db - {year})
    case Advance(r, move) => MoveNext(env, s, r, move)
  }

  function Initial(db: map<int, Bytes>): State {
    State(db, Resident(0, false, []), map[], map[], map[], map[])
  }

  predicate Runs(env: Env, s: State, steps: seq<Step>)
    decreases |steps|
  {
    steps == [] || (Enabled(s, steps[0]) && Runs(env, Next(env, s, steps[0]), steps[1..]))
  }

  function After(env: Env, s: State, steps: seq<Step>): State
    requires Runs(env, s, steps)
    decreases |steps|
  {
    if steps == [] then s else After(env, Next(env, s, steps[0]), steps[1..])
  }

  // ------------------------------------------------------------------ transparency

  predicate Honest(env: Env, p: Phase) {
    match p
    case Parsed(_, raw, _, _, result) => result == env.decode(raw)
    case Returning(raw, isFresh, _, answer) => answer.Failed? || answer == PlainRead(env, Some(raw), isFresh)
    case Leaving(raw, isFresh, _, answer) => answer.Failed? || answer == PlainRead(env, Some(raw), isFresh)
    case Done(row, isFresh, answer) => answer.Failed? || answer == PlainRead(env, row, isFresh)
    case _ => true
  }

  predicate Faithful(env: Env, c: Resident) {
    forall e :: e in c.lru ==> env.decode(e.raw) == Some(e.shows)
  }

  ghost predicate Transparent(env: Env, s: State) {
    && Bounded(s.cache, env.limits)
    && Faithful(env, s.cache)
    && forall r :: r in s.readers ==> Honest(env, s.readers[r].phase)
  }

  lemma AdmitKeepsFaithful(env: Env, c: Resident, e: Entry, generation: nat)
    requires Bounded(c, env.limits) && Faithful(env, c) && env.decode(e.raw) == Some(e.shows)
    ensures Faithful(env, AdmitState(c, e, generation, env.limits))
  {
    if Admits(c, e.size, generation, env.limits) {
      AdmittedIsNew(c, e, generation, env.limits);
    }
  }

  lemma MoveKeepsCache(env: Env, c: Resident, year: int, p: Phase, move: Move)
    requires PositiveSizes(env) && Bounded(c, env.limits) && Faithful(env, c) && Honest(env, p)
    ensures Bounded(NextCache(env, c, year, p, move), env.limits)
    ensures Faithful(env, NextCache(env, c, year, p, move))
  {
    match move
    case FirstLookup(_) =>
      if p.HasRow? {
        var raw := if p.row.Some? then p.row.value else [];
        LookupKeepsBounded(c, year, raw, p.row.Some?, p.generation, env.limits);
      }
    case SecondLookup(_, _) =>
      if p.Holding? {
        LookupKeepsBounded(c, year, p.raw, true, p.generation, env.limits);
      }
    case AdmitResult(_) =>
      if p.Parsed? && p.result.Some? {
        var e := EntryOf(env, year, p.raw, p.result.value);
        AdmitKeepsBounded(c, e, p.generation, env.limits);
        AdmitKeepsFaithful(env, c, e, p.generation);
      }
    case _ =>
  }

  lemma MoveStaysHonest(env: Env, s: State, year: int, p: Phase, move: Move)
    requires Faithful(env, s.cache) && Honest(env, p) && CanMove(s, p, move)
    ensures Honest(env, NextPhase(env, s, year, p, move))
  {
  }

  lemma TransparentStep(env: Env, s: State, step: Step)
    requires PositiveSizes(env) && Enabled(s, step) && Transparent(env, s)
    ensures Transparent(env, Next(env, s, step))
  {
    match step
    case Advance(r, move) =>
      MoveKeepsCache(env, s.cache, s.readers[r].year, s.readers[r].phase, move);
      MoveStaysHonest(env, s, s.readers[r].year, s.readers[r].phase, move);
    case Publish(m) =>
      InvalidateKeepsBounded(s.cache, s.pending[m].year, s.pending[m].all, false, env.limits);
    case CloseCache =>
      InvalidateKeepsBounded(s.cache, 0, true, true, env.limits);
    case _ =>
  }

  lemma {:induction false} TransparentRun(env: Env, s: State, steps: seq<Step>)
    requires PositiveSizes(env) && Transparent(env, s) && Runs(env, s, steps)
    ensures Transparent(env, After(env, s, steps))
    decreases |steps|
  {
    if steps != [] {
      TransparentStep(env, s, steps[0]);
      TransparentRun(env, Next(env, s, steps[0]), steps[1..]);
    }
  }

  /** Some step of the run is the reader's read, and found this row and this freshness for its year. */
  predicate SawRow(env: Env, s: State, steps: seq<Step>, r: int, year: int, row: Option<Bytes>, isFresh: bool)
    requires Runs(env, s, steps)
    decreases |steps|
  {
    steps != [] &&
    ((steps[0] == Advance(r, ReadRow(isFresh)) && s.readers[r].year == year && RowOf(s, year) == row)
     || SawRow(env, Next(env, s, steps[0]), steps[1..], r, year, row, isFresh))
  }

  /** The reader has read this row; a failed answer does not say what was read. */
  predicate Carries(p: Phase, row: Option<Bytes>, isFresh: bool) {
    match p
    case Entered => false
    case Fenced(_) => false
    case HasRow(_, got, f) => got == row && f == isFresh
    case Done(got, f, answer) => !answer.Failed? && got == row && f == isFresh
    case _ => Some(p.raw) == row && p.isFresh == isFresh
  }

  predicate ReaderCarries(s: State, r: int, year: int, row: Option<Bytes>, isFresh: bool) {
    r in s.readers && s.readers[r].year == year && Carries(s.readers[r].phase, row, isFresh)
  }

  lemma CarriedStep(env: Env, s: State, step: Step, r: int, year: int, row: Option<Bytes>, isFresh: bool)
    requires Enabled(s, step) && ReaderCarries(Next(env, s, step), r, year, row, isFresh)
    ensures ReaderCarries(s, r, year, row, isFresh)
         || (step == Advance(r, ReadRow(isFresh)) && s.readers[r].year == year && RowOf(s, year) == row)
  {
  }

  /** What a reader carries it read in the run, unless it carried it from the start. */
  lemma {:induction false} CarriedWasRead(env: Env, s: State, steps: seq<Step>, r: int, year: int, row: Option<Bytes>, isFresh: bool)
    requires Runs(env, s, steps) && ReaderCarries(After(env, s, steps), r, year, row, isFresh)
    ensures ReaderCarries(s, r, year, row, isFresh) || SawRow(env, s, steps, r, year, row, isFresh)
    decreases |steps|
  {
    if steps != [] {
      var s' := Next(env, s, steps[0]);
      CarriedWasRead(env, s', steps[1..], r, year, row, isFresh);
      if ReaderCarries(s', r, year, row, isFresh) {
        CarriedStep(env, s, steps[0], r, year, row, isFresh);
      }
    }
  }

  /** An entry of that year with exactly these bytes is resident. */
  ghost predicate Holds(c: Resident, year: int, raw: Bytes) {
    exists e :: e in c.lru && e.year == year && e.raw == raw
  }

  /**
   The step at which a read fails: its query fails, it gives up at the gate, or the context is
   reported cancelled where the source looks at it (after an absent row or a hit, before the second
   lookup, after the decode, and before the answer).
   */
  ghost predicate FailsAt(s: State, step: Step, r: int) {
    step.Advance? && step.r == r && r in s.readers &&
    var year, p := s.readers[r].year, s.readers[r].phase;
    match step.move
    case ReadFails => true
    case AbandonWait => true
    case FirstLookup(cancelled) => cancelled && p.HasRow? && (p.row.Some? ==> Holds(s.cache, year, p.row.value))
    case SecondLookup(cancelled, late) => cancelled || (late && p.Holding? && Holds(s.cache, year, p.raw))
    case Decode(cancelled) => cancelled
    case AdmitResult(cancelled) => cancelled
    case _ => false
  }

  ghost predicate FailedIn(env: Env, s: State, steps: seq<Step>, r: int)
    requires Runs(env, s, steps)
    decreases |steps|
  {
    steps != [] && (FailsAt(s, steps[0], r) || FailedIn(env, Next(env, s, steps[0]), steps[1..], r))
  }

  predicate HasFailed(s: State, r: int) {
    r in s.readers &&
    var p := s.readers[r].phase;
    (p.Returning? || p.Leaving? || p.Done?) && p.answer.Failed?
  }

  lemma HitIffHolds(c: Resident, year: int, raw: Bytes, limits: Limits)
    requires Bounded(c, limits)
    ensures LookupHit(c, year, raw, true).Some? <==> Holds(c, year, raw)
  {
    if Holds(c, year, raw) {
      var e :| e in c.lru && e.year == year && e.raw == raw;
      SameYearSameEntry(c.lru, e);
    }
  }

  lemma OwnFailureStep(env: Env, s: State, step: Step, r: int)
    requires Transparent(env, s) && Enabled(s, step) && step.Advance? && step.r == r
    ensures HasFailed(Next(env, s, step), r) <==> HasFailed(s, r) || FailsAt(s, step, r)
  {
    var year, p := s.readers[r].year, s.readers[r].phase;
    assert Honest(env, p);
    if p.HasRow? && p.row.Some? {
      HitIffHolds(s.cache, year, p.row.value, env.limits);
    } else if p.Holding? {
      HitIffHolds(s.cache, year, p.raw, env.limits);
    }
  }

  lemma FailureStep(env: Env, s: State, step: Step, r: int)
    requires Transparent(env, s) && Enabled(s, step)
    ensures HasFailed(Next(env, s, step), r) <==> HasFailed(s, r) || FailsAt(s, step, r)
  {
    if step.Advance? && step.r == r {
      OwnFailureStep(env, s, step, r);
    }
  }

  lemma {:induction false} FailureRun(env: Env, s: State, steps: seq<Step>, r: int)
    requires PositiveSizes(env) && Transparent(env, s) && Runs(env, s, steps)
    ensures HasFailed(After(env, s, steps), r) <==> HasFailed(s, r) || FailedIn(env, s, steps, r)
    decreases |steps|
  {
    if steps != [] {
      FailureStep(env, s, steps[0], r);
      TransparentStep(env, s, steps[0]);
      FailureRun(env, Next(env, s, steps[0]), steps[1..], r);
    }
  }

  /**
   The cache never changes an answer, whatever interleaves, external edits included: a finished read
   failed exactly if one of its own steps did, and otherwise answers what decoding gives for the row
   its own read step of the run found.
   */
  lemma CacheIsTransparent(env: Env, db: map<int, Bytes>, steps: seq<Step>, r: int)
    requires PositiveSizes(env) && Runs(env, Initial(db), steps)
    requires r in After(env, Initial(db), steps).readers
    requires After(env, Initial(db), steps).readers[r].phase.Done?
    ensures var rd := After(env, Initial(db), steps).readers[r];
            var p := rd.phase;
            && (p.answer.Failed? <==> FailedIn(env, Initial(db), steps, r))
            && (!p.answer.Failed? ==>
                  && SawRow(env, Initial(db), steps, r, rd.year, p.row, p.isFresh)
                  && p.answer ==
                     if p.row.None? then Absent
                     else if env.decode(p.row.value).None? then Corrupt(p.isFresh)
                     else Decoded(p.isFresh, env.decode(p.row.value).value))
  {
    TransparentRun(env, Initial(db), steps);
    FailureRun(env, Initial(db), steps, r);
    var rd := After(env, Initial(db), steps).readers[r];
    assert Honest(env, rd.phase);
    if !rd.phase.answer.Failed? {
      CarriedWasRead(env, Initial(db), steps, r, rd.year, rd.phase.row, rd.phase.isFresh);
    }
  }

  /** What the cache is for: a reader decodes only if no resident entry has its row, at both lookups. */
  lemma HitSkipsDecode(env: Env, s: State, r: int, move: Move)
    requires Transparent(env, s) && r in s.readers && CanMove(s, s.readers[r].phase, move)
    ensures var p, p' := s.readers[r].phase, MoveNext(env, s, r, move).readers[r].phase;
            var year := s.readers[r].year;
            && (p.HasRow? ==> (p'.Missed? <==> p.row.Some? && !Holds(s.cache, year, p.row.value)))
            && (p.Holding? ==> (p'.Decoding? <==> move == SecondLookup(false, move.late) && !Holds(s.cache, year, p.raw)))
            && (p'.Decoding? ==> p.Holding?)
            && (p'.Parsed? ==> p.Decoding? && p'.result == env.decode(p'.raw) && p'.raw == p.raw)
  {
    var p, year := s.readers[r].phase, s.readers[r].year;
    if p.HasRow? && p.row.Some? {
      HitIffHolds(s.cache, year, p.row.value, env.limits);
    } else if p.Holding? {
      HitIffHolds(s.cache, year, p.raw, env.limits);
    }
  }

  // ---------------------------------------------------------------- generation fence

  predicate Touches(m: Mutation, year: int) {
    m.years.None? || year in m.years.value
  }

  /** Some mutation of `year` has committed and not yet invalidated. */
  predicate InFlight(s: State, year: int) {
    exists m :: m in s.pending && Touches(s.pending[m], year)
  }

  predicate HasGeneration(p: Phase) {
    p.Fenced? || p.HasRow? || p.Missed? || p.Waiting? || p.Holding? || p.Decoding? || p.Parsed?
  }

  predicate HasRead(p: Phase) {
    HasGeneration(p) && !p.Fenced?
  }

  function RowRead(p: Phase): Option<Bytes>
    requires HasRead(p)
  {
    if p.HasRow? then p.row else Some(p.raw)
  }

  predicate UpToDate(s: State, year: int, row: Option<Bytes>) {
    RowOf(s, year) == row || InFlight(s, year)
  }

  ghost predicate ReaderFenced(s: State, rd: Reader) {
    HasGeneration(rd.phase) ==>
      && rd.phase.generation <= s.cache.generation
      && (HasRead(rd.phase) && rd.phase.generation == s.cache.generation ==>
            UpToDate(s, rd.year, RowRead(rd.phase)))
  }

  ghost predicate FenceHolds(s: State) {
    && (forall e :: e in s.cache.lru ==> UpToDate(s, e.year, Some(e.raw)))
    && (forall r :: r in s.readers ==> ReaderFenced(s, s.readers[r]))
    && (forall m :: m in s.pending ==> s.pending[m].all || s.pending[m].years == Some({s.pending[m].year}))
  }

  lemma MoveKeepsFence(env: Env, s: State, r: int, move: Move)
    requires Bounded(s.cache, env.limits) && FenceHolds(s)
    requires r in s.readers && CanMove(s, s.readers[r].phase, move)
    ensures FenceHolds(MoveNext(env, s, r, move))
  {
    var s' := MoveNext(env, s, r, move);
    var year, p := s.readers[r].year, s.readers[r].phase;
    assert ReaderFenced(s, s.readers[r]);
    assert forall y, row :: UpToDate(s, y, row) ==> UpToDate(s', y, row);
    forall e | e in s'.cache.lru ensures UpToDate(s', e.year, Some(e.raw)) {
      if e !in s.cache.lru {
        assert move.AdmitResult?;
        AdmitOnlyAdds(s.cache, EntryOf(env, year, p.raw, p.result.value), p.generation, env.limits);
      }
    }
    assert s'.cache.generation == s.cache.generation;
    forall q | q in s'.readers ensures ReaderFenced(s', s'.readers[q]) {
      if q != r { assert ReaderFenced(s, s.readers[q]); }
    }
  }

  lemma AdmitOnlyAdds(c: Resident, e: Entry, generation: nat, limits: Limits)
    requires Bounded(c, limits)
    ensures forall x :: x in AdmitState(c, e, generation, limits).lru ==> x in c.lru || (x == e && generation == c.generation)
  {
    if Admits(c, e.size, generation, limits) {
      AdmittedIsNew(c, e, generation, limits);
    }
  }

  /** A commit leaves every older reading in flight; it is the invalidation that must leave nothing stale. */
  lemma CommitKeepsFence(s: State, s': State, m: int, change: Mutation)
    requires FenceHolds(s) && m !in s.pending
    requires s' == s.(db := s'.db, pending := s.pending[m := change])
    requires change.all || change.years == Some({change.year})
    requires forall y :: !Touches(change, y) ==> RowOf(s', y) == RowOf(s, y)
    ensures FenceHolds(s')
  {
    forall y, row | UpToDate(s, y, row) ensures UpToDate(s', y, row) {
      if Touches(change, y) {
        assert s'.pending[m] == change;
      } else if InFlight(s, y) {
        var k :| k in s.pending && Touches(s.pending[k], y);
        assert s'.pending[k] == s.pending[k];
      }
    }
    forall r | r in s'.readers ensures ReaderFenced(s', s'.readers[r]) {
      assert ReaderFenced(s, s.readers[r]);
    }
  }

  lemma PublishKeepsFence(env: Env, s: State, m: int)
    requires Bounded(s.cache, env.limits) && FenceHolds(s) && m in s.pending
    ensures FenceHolds(Next(env, s, Publish(m)))
  {
    var s' := Next(env, s, Publish(m));
    var change := s.pending[m];
    InvalidateKeepsBounded(s.cache, change.year, change.all, false, env.limits);
    forall e | e in s'.cache.lru ensures UpToDate(s', e.year, Some(e.raw)) {
      assert e in s.cache.lru && !Touches(change, e.year);
      if InFlight(s, e.year) {
        var k :| k in s.pending && Touches(s.pending[k], e.year);
        assert s'.pending[k] == s.pending[k];
      }
    }
    forall r | r in s'.readers ensures ReaderFenced(s', s'.readers[r]) {
      assert ReaderFenced(s, s.readers[r]);
    }
  }

  lemma FenceStep(env: Env, s: State, step: Step)
    requires Bounded(s.cache, env.limits) && FenceHolds(s)
    requires Enabled(s, step) && !step.EditRow?
    ensures FenceHolds(Next(env, s, step))
  {
    var s' := Next(env, s, step);
    match step
    case Advance(r, move) => MoveKeepsFence(env, s, r, move);
    case CommitSet(m, year, data) => CommitKeepsFence(s, s', m, s'.pending[m]);
    case CommitClear(m) => CommitKeepsFence(s, s', m, s'.pending[m]);
    case CommitPrune(m, years, countFailed) =>
      if countFailed || years != {} {
        CommitKeepsFence(s, s', m, s'.pending[m]);
      } else {
        assert s' == s;
      }
    case Publish(m) => PublishKeepsFence(env, s, m);
    case Enter(r, year) =>
      assert forall y, row :: UpToDate(s, y, row) ==> UpToDate(s', y, row);
      forall q | q in s'.readers ensures ReaderFenced(s', s'.readers[q]) {
        if q != r { assert ReaderFenced(s, s.readers[q]); }
      }
    case CloseCache =>
      forall r | r in s'.readers ensures ReaderFenced(s', s'.readers[r]) {
        assert ReaderFenced(s, s.readers[r]);
      }
  }

  predicate NoExternalEdits(steps: seq<Step>) {
    forall i :: 0 <= i < |steps| ==> !steps[i].EditRow?
  }

  lemma {:induction false} FenceRun(env: Env, s: State, steps: seq<Step>)
    requires PositiveSizes(env) && Transparent(env, s) && FenceHolds(s)
    requires Runs(env, s, steps) && NoExternalEdits(steps)
    ensures FenceHolds(After(env, s, steps))
    decreases |steps|
  {
    if steps != [] {
      FenceStep(env, s, steps[0]);
      TransparentStep(env, s, steps[0]);
      FenceRun(env, Next(env, s, steps[0]), steps[1..]);
    }
  }

  /**
   The generation fence: a resident entry differs from the row now stored only
   while a mutation of that year has committed and not yet invalidated.
   */
  lemma ResidentEntriesAreCurrent(env: Env, db: map<int, Bytes>, steps: seq<Step>, e: Entry)
    requires PositiveSizes(env) && Runs(env, Initial(db), steps) && NoExternalEdits(steps)
    requires e in After(env, Initial(db), steps).cache.lru
    ensures var s := After(env, Initial(db), steps);
            (e.year in s.db && s.db[e.year] == e.raw) || InFlight(s, e.year)
  {
    FenceRun(env, Initial(db), steps);
    assert UpToDate(After(env, Initial(db), steps), e.year, Some(e.raw));
  }

  /** A reader holding an outdated generation never inserts or removes an entry. */
  lemma StaleReaderIsInert(env: Env, s: State, r: int, move: Move, e: Entry)
    requires Bounded(s.cache, env.limits)
    requires r in s.readers && CanMove(s, s.readers[r].phase, move)
    requires HasGeneration(s.readers[r].phase) && s.readers[r].phase.generation != s.cache.generation
    ensures e in MoveNext(env, s, r, move).cache.lru <==> e in s.cache.lru
  {
    var year, p := s.readers[r].year, s.readers[r].phase;
    var raw := if HasRead(p) && RowRead(p).Some? then RowRead(p).value else [];
    LookupKeepsBounded(s.cache, year, raw, true, p.generation, env.limits);
  }

  lemma {:induction false} ClosedRun(env: Env, s: State, steps: seq<Step>)
    requires PositiveSizes(env) && Transparent(env, s) && Runs(env, s, steps)
    requires s.cache.closed || CloseCache in steps
    ensures After(env, s, steps).cache.closed && After(env, s, steps).cache.lru == []
    decreases |steps|
  {
    if steps != [] {
      var s' := Next(env, s, steps[0]);
      TransparentStep(env, s, steps[0]);
      assert steps == [steps[0]] + steps[1..];
      assert s'.cache.closed || CloseCache in steps[1..];
      ClosedRun(env, s', steps[1..]);
    }
  }

  /** After Close, in every run, nothing is ever resident again. */
  lemma ClosedStaysEmpty(env: Env, db: map<int, Bytes>, steps: seq<Step>)
    requires PositiveSizes(env) && Runs(env, Initial(db), steps) && CloseCache in steps
    ensures After(env, Initial(db), steps).cache.closed && After(env, Initial(db), steps).cache.lru == []
  {
    ClosedRun(env, Initial(db), steps);
  }

  /** What each mutation commits, before it invalidates anything. */
  lemma CommitsTakeEffect(env: Env, s: State, step: Step, year: int)
    requires Enabled(s, step)
    ensures var row := RowOf(Next(env, s, step), year);
            match step
            case CommitSet(_, y, data) => row == if y == year then Some(data) else RowOf(s, year)
            case CommitClear(_) => row == None
            case CommitPrune(_, years, _) => row == if year in years then None else RowOf(s, year)
            case EditRow(y, edited) => row == if y == year then edited else RowOf(s, year)
            case _ => row == RowOf(s, year)
  {
  }

  /** A reader takes the generation it finds before its read, and keeps it, its row and its gate until it answers. */
  lemma ReaderKeepsWhatItHas(env: Env, s: State, r: int, move: Move)
    requires r in s.readers && CanMove(s, s.readers[r].phase, move)
    ensures var p, p' := s.readers[r].phase, MoveNext(env, s, r, move).readers[r].phase;
            && (move.Capture? ==> p' == Fenced(s.cache.generation))
            && (HasGeneration(p) && HasGeneration(p') ==> p'.generation == p.generation)
            && (HasRead(p) && HasRead(p') ==> RowRead(p') == RowRead(p))
            && (p.Waiting? && p'.Holding? ==> p'.gate == p.gate)
            && MoveNext(env, s, r, move).readers[r].year == s.readers[r].year
  {
  }
}
