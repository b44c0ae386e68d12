/**
 What "most recently used" means for the cache of decoded years
 (internal/cache/decoded_year.go), over every history of its critical sections.
 */
module DecodedYearHistory {
  import opened Basics
  import opened Shows
  import opened DecodedYears
  import Protocol = DecodedYearProtocol

  datatype Use =
    | Lookup(year: int, raw: Bytes, present: bool, generation: nat)
    | Admit(entry: Entry, generation: nat)
    | Invalidate(year: int, all: bool, closing: bool)

  /** Sizes are positive, and closing empties the cache. */
  predicate Legal(use: Use) {
    (use.Admit? ==> 0 < use.entry.size) && (use.Invalidate? && use.closing ==> use.all)
  }

  function Apply(c: Resident, use: Use, limits: Limits): Resident {
    match use
    case Lookup(year, raw, present, generation) => LookupState(c, year, raw, present, generation)
    case Admit(entry, generation) => AdmitState(c, entry, generation, limits)
    case Invalidate(year, all, closing) => InvalidateState(c, year, all, closing)
  }

  function Replay(limits: Limits, uses: seq<Use>): Resident {
    if uses == [] then Resident(0, false, [])
    else Apply(Replay(limits, uses[..|uses| - 1]), uses[|uses| - 1], limits)
  }

  /** A hit on the year, or an admission of it. */
  ghost predicate Touches(c: Resident, use: Use, year: int, limits: Limits) {
    match use
    case Lookup(y, raw, present, _) => y == year && present && exists e :: e in c.lru && e.year == year && e.raw == raw
    case Admit(entry, generation) =>
      && entry.year == year
      && !c.closed && generation == c.generation && 0 < limits.maxYears && entry.size <= limits.maxBytes
    case Invalidate(_, _, _) => false
  }

  /** When the year was last hit or admitted; -1 if never. */
  ghost function LastUse(limits: Limits, uses: seq<Use>, year: int): int {
    if uses == [] then -1
    else
      var front := uses[..|uses| - 1];
      if Touches(Replay(limits, front), uses[|uses| - 1], year, limits) then |uses| - 1 else LastUse(limits, front, year)
  }

  ghost function Clock(limits: Limits, uses: seq<Use>): int -> int {
    y => LastUse(limits, uses, y)
  }

  // ------------------------------------------------------------------ falling sequences

  predicate Falling(s: seq<Entry>, stamp: int -> int) {
    forall i, j | 0 <= i < j < |s| :: stamp(s[j].year) < stamp(s[i].year)
  }

  lemma FallingFront(e: Entry, s: seq<Entry>, stamp: int -> int)
    requires Falling(s, stamp) && forall x :: x in s ==> stamp(x.year) < stamp(e.year)
    ensures Falling([e] + s, stamp)
  {
    assert forall i | 0 <= i < |s| :: s[i] in s;
  }

  lemma {:induction false} FallingDrop(s: seq<Entry>, year: int, stamp: int -> int)
    requires Falling(s, stamp)
    ensures Falling(Drop(s, year), stamp)
  {
    if s != [] && s[0].year != year {
      assert forall x :: x in s[1..] ==> stamp(x.year) < stamp(s[0].year);
      FallingDrop(s[1..], year, stamp);
      FallingFront(s[0], Drop(s[1..], year), stamp);
    }
  }

  lemma FallingElsewhere(s: seq<Entry>, before: int -> int, stamp: int -> int)
    requires Falling(s, before) && forall e :: e in s ==> stamp(e.year) == before(e.year)
    ensures Falling(s, stamp)
  {
    assert forall i | 0 <= i < |s| :: s[i] in s;
  }

  // ------------------------------------------------------------------ the order is recency

  ghost predicate Recency(limits: Limits, uses: seq<Use>) {
    var c := Replay(limits, uses);
    && Bounded(c, limits)
    && Falling(c.lru, Clock(limits, uses))
    && forall e :: e in c.lru ==> 0 <= LastUse(limits, uses, e.year)
  }

  lemma {:induction false} LastUseInPast(limits: Limits, uses: seq<Use>, year: int)
    ensures -1 <= LastUse(limits, uses, year) < |uses|
  {
    if uses != [] {
      LastUseInPast(limits, uses[..|uses| - 1], year);
    }
  }

  /** One more use: the year it touches, if any, is now the latest, and no other year's last use changes. */
  lemma LastUseNext(limits: Limits, uses: seq<Use>, use: Use, year: int)
    ensures LastUse(limits, uses + [use], year) ==
      if Touches(Replay(limits, uses), use, year, limits) then |uses| else LastUse(limits, uses, year)
  {
    assert (uses + [use])[..|uses|] == uses;
  }

  /** Nothing touched: what stays keeps its order. */
  lemma KeptInOrder(limits: Limits, uses: seq<Use>, use: Use, kept: seq<Entry>)
    requires Falling(kept, Clock(limits, uses))
    requires forall e :: e in kept ==> 0 <= LastUse(limits, uses, e.year) && !Touches(Replay(limits, uses), use, e.year, limits)
    ensures Falling(kept, Clock(limits, uses + [use]))
    ensures forall e :: e in kept ==> 0 <= LastUse(limits, uses + [use], e.year) < |uses|
  {
    forall e | e in kept
      ensures LastUse(limits, uses + [use], e.year) == LastUse(limits, uses, e.year) < |uses|
    {
      LastUseNext(limits, uses, use, e.year);
      LastUseInPast(limits, uses, e.year);
    }
    FallingElsewhere(kept, Clock(limits, uses), Clock(limits, uses + [use]));
  }

  /** The touched entry goes in front of what stays. */
  lemma TouchedInFront(limits: Limits, uses: seq<Use>, use: Use, e: Entry, kept: seq<Entry>)
    requires Touches(Replay(limits, uses), use, e.year, limits)
    requires Falling(kept, Clock(limits, uses))
    requires forall x :: x in kept ==> 0 <= LastUse(limits, uses, x.year) && !Touches(Replay(limits, uses), use, x.year, limits)
    ensures Falling([e] + kept, Clock(limits, uses + [use]))
    ensures forall x :: x in [e] + kept ==> 0 <= LastUse(limits, uses + [use], x.year)
  {
    KeptInOrder(limits, uses, use, kept);
    LastUseNext(limits, uses, use, e.year);
    FallingFront(e, kept, Clock(limits, uses + [use]));
  }

  lemma LookupIsRecency(limits: Limits, uses: seq<Use>, use: Use)
    requires Recency(limits, uses) && use.Lookup?
    ensures Recency(limits, uses + [use])
  {
    var c := Replay(limits, uses);
    assert (uses + [use])[..|uses|] == uses;
    LookupKeepsBounded(c, use.year, use.raw, use.present, use.generation, limits);
    var kept := Drop(c.lru, use.year);
    DropKeepsDistinct(c.lru, use.year);
    FallingDrop(c.lru, use.year, Clock(limits, uses));
    var found := Find(c.lru, use.year);
    if found.Some? {
      SameYearSameEntry(c.lru, found.value);
    }
    if found.Some? && use.present && use.raw == found.value.raw {
      TouchedInFront(limits, uses, use, found.value, kept);
    } else if found.Some? && use.generation == c.generation {
      KeptInOrder(limits, uses, use, kept);
    } else {
      KeptInOrder(limits, uses, use, c.lru);
    }
  }

  lemma AdmitIsRecency(limits: Limits, uses: seq<Use>, use: Use)
    requires Recency(limits, uses) && use.Admit? && 0 < use.entry.size
    ensures Recency(limits, uses + [use])
  {
    var c, e := Replay(limits, uses), use.entry;
    assert (uses + [use])[..|uses|] == uses;
    AdmitKeepsBounded(c, e, use.generation, limits);
    if Touches(c, use, e.year, limits) {
      AdmittedStaysFalling(c, e, Clock(limits, uses), limits);
      TouchedInFront(limits, uses, use, e, Evicted(Drop(c.lru, e.year), e.size, limits));
    } else {
      KeptInOrder(limits, uses, use, c.lru);
    }
  }

  /** What an admission leaves of the list keeps its order. */
  lemma AdmittedStaysFalling(c: Resident, e: Entry, stamp: int -> int, limits: Limits)
    requires Bounded(c, limits) && Falling(c.lru, stamp) && 0 < limits.maxYears && e.size <= limits.maxBytes
    ensures var kept := Evicted(Drop(c.lru, e.year), e.size, limits);
      Falling(kept, stamp) && forall x :: x in kept ==> x in c.lru && x.year != e.year
  {
    var rest := Drop(c.lru, e.year);
    DropKeepsDistinct(c.lru, e.year);
    FallingDrop(c.lru, e.year, stamp);
    EvictedIsLongestFit(rest, e.size, limits);
    PrefixStaysFalling(Evicted(rest, e.size, limits), rest, stamp);
  }

  lemma PrefixStaysFalling(kept: seq<Entry>, rest: seq<Entry>, stamp: int -> int)
    requires kept <= rest && Falling(rest, stamp)
    ensures Falling(kept, stamp) && forall x :: x in kept ==> x in rest
  {
  }

  lemma InvalidateIsRecency(limits: Limits, uses: seq<Use>, use: Use)
    requires Recency(limits, uses) && use.Invalidate? && (use.closing ==> use.all)
    ensures Recency(limits, uses + [use])
  {
    var c := Replay(limits, uses);
    assert (uses + [use])[..|uses|] == uses;
    InvalidateKeepsBounded(c, use.year, use.all, use.closing, limits);
    if use.all {
      KeptInOrder(limits, uses, use, []);
    } else {
      FallingDrop(c.lru, use.year, Clock(limits, uses));
      KeptInOrder(limits, uses, use, Drop(c.lru, use.year));
    }
  }

  lemma {:induction false} HistoryIsRecency(limits: Limits, uses: seq<Use>)
    requires forall i | 0 <= i < |uses| :: Legal(uses[i])
    ensures Recency(limits, uses)
  {
    if uses != [] {
      var front, use := uses[..|uses| - 1], uses[|uses| - 1];
      assert uses == front + [use];
      HistoryIsRecency(limits, front);
      match use
      case Lookup(_, _, _, _) => LookupIsRecency(limits, front, use);
      case Admit(_, _) => AdmitIsRecency(limits, front, use);
      case Invalidate(_, _, _) => InvalidateIsRecency(limits, front, use);
    }
  }

  /**
   Over every history: a resident year stands before another exactly when its last hit or admission
   came later.
   */
  lemma StandsBeforeIffUsedLater(limits: Limits, uses: seq<Use>, i: nat, j: nat)
    requires forall k | 0 <= k < |uses| :: Legal(uses[k])
    requires i < |Replay(limits, uses).lru| && j < |Replay(limits, uses).lru|
    ensures var lru := Replay(limits, uses).lru;
      && 0 <= LastUse(limits, uses, lru[i].year)
      && (i < j <==> LastUse(limits, uses, lru[j].year) < LastUse(limits, uses, lru[i].year))
  {
    HistoryIsRecency(limits, uses);
    FallingOrder(Replay(limits, uses).lru, Clock(limits, uses), i, j);
  }

  lemma FallingOrder(s: seq<Entry>, stamp: int -> int, i: nat, j: nat)
    requires Falling(s, stamp) && i < |s| && j < |s|
    ensures i < j <==> stamp(s[j].year) < stamp(s[i].year)
  {
    if j < i {
      assert stamp(s[i].year) < stamp(s[j].year);
    }
  }

  /** What a prefix leaves out comes after everything in it. */
  lemma BeyondPrefix(kept: seq<Entry>, rest: seq<Entry>, out: Entry, stays: Entry, stamp: int -> int)
    requires kept <= rest && Falling(rest, stamp) && out in rest && out !in kept && stays in kept
    ensures stamp(out.year) < stamp(stays.year)
  {
    var i :| 0 <= i < |kept| && kept[i] == stays;
    var j :| 0 <= j < |rest| && rest[j] == out;
    assert rest[i] == stays && |kept| <= j;
  }

  /** So what an admission evicts had been used before everything it leaves. */
  lemma EvictionTakesTheLeastRecent(limits: Limits, uses: seq<Use>, e: Entry, generation: nat, out: Entry, stays: Entry)
    requires (forall k | 0 <= k < |uses| :: Legal(uses[k])) && 0 < e.size
    requires var c, c' := Replay(limits, uses), Replay(limits, uses + [Admit(e, generation)]);
      && out in c.lru && out !in c'.lru && out.year != e.year
      && stays in c'.lru && stays.year != e.year
    ensures stays in Replay(limits, uses).lru
    ensures LastUse(limits, uses, out.year) < LastUse(limits, uses, stays.year)
  {
    HistoryIsRecency(limits, uses);
    var c := Replay(limits, uses);
    assert (uses + [Admit(e, generation)])[..|uses|] == uses;
    var rest := Drop(c.lru, e.year);
    FallingDrop(c.lru, e.year, Clock(limits, uses));
    EvictedIsLongestFit(rest, e.size, limits);
    var kept := Evicted(rest, e.size, limits);
    assert out in kept ==> out in [e] + kept;
    PrefixStaysFalling(kept, rest, Clock(limits, uses));
    BeyondPrefix(kept, rest, out, stays, Clock(limits, uses));
  }

  // ------------------------------------------------------------------ the protocol is such a history

  /** The critical section a step of the protocol enters, if any. */
  function UseOf(env: Protocol.Env, s: Protocol.State, step: Protocol.Step): (r: seq<Use>)
    requires Protocol.Enabled(s, step)
    ensures |r| <= 1
  {
    match step
    case Advance(r, FirstLookup(_)) =>
      var rd := s.readers[r];
      [Lookup(rd.year, if rd.phase.row.Some? then rd.phase.row.value else [], rd.phase.row.Some?, rd.phase.generation)]
    case Advance(r, SecondLookup(false, _)) =>
      var rd := s.readers[r];
      [Lookup(rd.year, rd.phase.raw, true, rd.phase.generation)]
    case Advance(r, AdmitResult(_)) =>
      var rd := s.readers[r];
      if rd.phase.result.None? then []
      else
        var shows := rd.phase.result.value;
        [Admit(Entry(rd.year, rd.phase.raw, shows, env.size(rd.phase.raw, shows)), rd.phase.generation)]
    case Publish(m) => [Invalidate(s.pending[m].year, s.pending[m].all, false)]
    case CloseCache => [Invalidate(0, true, true)]
    case _ => []
  }

  function UsesOf(env: Protocol.Env, s: Protocol.State, steps: seq<Protocol.Step>): seq<Use>
    requires Protocol.Runs(env, s, steps)
    decreases |steps|
  {
    if steps == [] then [] else UseOf(env, s, steps[0]) + UsesOf(env, Protocol.Next(env, s, steps[0]), steps[1..])
  }

  lemma StepIsUse(env: Protocol.Env, s: Protocol.State, step: Protocol.Step)
    requires Protocol.Enabled(s, step)
    ensures var uses := UseOf(env, s, step);
      Protocol.Next(env, s, step).cache == if uses == [] then s.cache else Apply(s.cache, uses[0], env.limits)
  {
  }

  lemma ReplayUses(limits: Limits, before: seq<Use>, uses: seq<Use>)
    requires |uses| <= 1
    ensures Replay(limits, before + uses) ==
      if uses == [] then Replay(limits, before) else Apply(Replay(limits, before), uses[0], limits)
  {
    if uses == [] {
      assert before + uses == before;
    } else {
      assert (before + uses)[..|before|] == before;
    }
  }

  /** What the readers and mutations of a run leave resident is the replay of their critical sections. */
  lemma {:induction false} RunIsHistory(env: Protocol.Env, s: Protocol.State, steps: seq<Protocol.Step>, before: seq<Use>)
    requires Protocol.Runs(env, s, steps) && s.cache == Replay(env.limits, before)
    ensures Protocol.After(env, s, steps).cache == Replay(env.limits, before + UsesOf(env, s, steps))
    decreases |steps|
  {
    if steps == [] {
      assert before + [] == before;
    } else {
      var uses, s' := UseOf(env, s, steps[0]), Protocol.Next(env, s, steps[0]);
      StepIsUse(env, s, steps[0]);
      ReplayUses(env.limits, before, uses);
      RunIsHistory(env, s', steps[1..], before + uses);
      UsesAddUp(before, uses, UsesOf(env, s', steps[1..]));
    }
  }

  lemma UsesAddUp(a: seq<Use>, b: seq<Use>, c: seq<Use>)
    ensures a + b + c == a + (b + c)
  {
  }

  lemma {:induction false} UsesAreLegal(env: Protocol.Env, s: Protocol.State, steps: seq<Protocol.Step>)
    requires Protocol.PositiveSizes(env) && Protocol.Runs(env, s, steps)
    ensures forall use :: use in UsesOf(env, s, steps) ==> Legal(use)
    decreases |steps|
  {
    if steps != [] {
      UsesAreLegal(env, Protocol.Next(env, s, steps[0]), steps[1..]);
      assert forall use :: use in UseOf(env, s, steps[0]) ==> Legal(use);
    }
  }

  /** In every run of the protocol too, what is used later stands before. */
  lemma RunKeepsRecency(env: Protocol.Env, db: map<int, Bytes>, steps: seq<Protocol.Step>, i: nat, j: nat)
    requires Protocol.PositiveSizes(env) && Protocol.Runs(env, Protocol.Initial(db), steps)
    requires var lru := Protocol.After(env, Protocol.Initial(db), steps).cache.lru; i < |lru| && j < |lru|
    ensures var lru, uses := Protocol.After(env, Protocol.Initial(db), steps).cache.lru, UsesOf(env, Protocol.Initial(db), steps);
      i < j <==> LastUse(env.limits, uses, lru[j].year) < LastUse(env.limits, uses, lru[i].year)
  {
    var start := Protocol.Initial(db);
    var uses := UsesOf(env, start, steps);
    UsesAreLegal(env, start, steps);
    RunIsHistory(env, start, steps, []);
    assert [] + uses == uses;
    assert forall k | 0 <= k < |uses| :: uses[k] in uses;
    StandsBeforeIffUsedLater(env.limits, uses, i, j);
  }
}
