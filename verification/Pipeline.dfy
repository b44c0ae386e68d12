/**
 The list pipeline of one request (internal/scheduler/scheduler.go, internal/mapping/resolve.go):
 winter overflow from the prior year, the in-place filters, and resolution against one
 mapping snapshot. `Process` is proved equal to a description that never mutates anything.
 */
module Pipeline {
  import opened Basics
  import opened GoStrings
  import opened Shows
  import opened Filters
  import opened MappingMeaning

  datatype Response = Response(tvdbId: int, title: string)
  datatype Lookup = Lookup(tvdbId: Option<int>, title: string)

  datatype Request = Request(season: string, category: string, cfg: Config)

  datatype Stats = Stats(
    input: nat, afterWinterOverflow: nat, afterSeason: nat, afterFormat: nat,
    skippedDuration: nat, skippedTags: nat, skippedFuture: nat, skippedFirstSeason: nat,
    resolved: nat, unresolved: nat)

  // ------------------------------------------------------------------ which shows

  /** The first filter a show fails, if any. */
  datatype Verdict = WrongSeason | WrongFormat | Short | ExcludedTag | TooFarAhead | Sequel | Eligible

  function Judge(s: Show, rq: Request): Verdict {
    if !InSeason(s, rq.season) then WrongSeason
    else if s.format !in rq.cfg.includeTypes then WrongFormat
    else if SkipByDuration(s) then Short
    else if HasExcludedTag(s, rq.cfg) then ExcludedTag
    else if rq.cfg.futureEnabled && !WithinHorizon(s, rq.cfg) then TooFarAhead
    else if rq.category == "series-new" && !IsNew(s) then Sequel
    else Eligible
  }

  function Judged(v: Verdict, rq: Request): Show -> bool { s => Judge(s, rq) == v }

  function PastSeason(rq: Request): Show -> bool { OfSeason(rq.season) }
  function PastFormat(rq: Request): Show -> bool { s => Judge(s, rq) !in {WrongSeason, WrongFormat} }
  function PastStats(rq: Request): Show -> bool { s => Judge(s, rq) in {TooFarAhead, Sequel, Eligible} }
  function PastFuture(rq: Request): Show -> bool { s => Judge(s, rq) in {Sequel, Eligible} }

  function Ids(shows: seq<Show>): set<int> {
    set s | s in shows :: s.id
  }

  predicate FromDecember(s: Show) {
    InSeason(s, "WINTER") && s.startMonth == Some(12)
  }

  function Decembers(): Show -> bool { s => FromDecember(s) }

  /** The shows whose ID is neither in `seen` nor carried by an earlier one. */
  function Unseen(shows: seq<Show>, seen: set<int>): seq<Show> {
    if shows == [] then []
    else
      var front, last := shows[..|shows| - 1], shows[|shows| - 1];
      Unseen(front, seen) + (if last.id in seen || last.id in Ids(front) then [] else [last])
  }

  /** The year's shows and, for winter, last year's December shows with new IDs. */
  function Candidates(shows: seq<Show>, prev: seq<Show>, season: string): seq<Show> {
    if season == "WINTER" then shows + Unseen(Filter(prev, Decembers()), Ids(shows)) else shows
  }

  // ------------------------------------------------------------------ which answers

  function DisplayTitle(s: Show): string {
    if s.english.Some? && s.english.value != "" then s.english.value
    else if s.romaji.Some? then s.romaji.value
    else "Anime #" + (if s.id < 0 then "-" + Decimal(-s.id) else Decimal(s.id))
  }

  /** MAL first; AniList when the show has no MAL ID or the MAL lookup misses. */
  function ResolveShow(m: Option<Mapping>, s: Show): Option<int> {
    if m.None? then None
    else if s.idMal.Some? && s.idMal.value > 0 && s.idMal.value in m.value.byMAL then Some(m.value.byMAL[s.idMal.value])
    else if s.id > 0 && s.id in m.value.byAniList then Some(m.value.byAniList[s.id])
    else None
  }

  function LookupOf(m: Option<Mapping>, s: Show): Lookup {
    Lookup(ResolveShow(m, s), DisplayTitle(s))
  }

  function LastWith(shows: seq<Show>, id: int): (r: Option<Show>) {
    if shows == [] then None
    else if shows[|shows| - 1].id == id then Some(shows[|shows| - 1])
    else LastWith(shows[..|shows| - 1], id)
  }

  /** What one row answers: nothing, or what the last row with its ID resolves to. */
  function AnswerFor(m: Option<Mapping>, shows: seq<Show>, id: int): seq<Response> {
    match LastWith(shows, id)
    case None => []
    case Some(s) =>
      if ResolveShow(m, s).None? then [] else [Response(ResolveShow(m, s).value, DisplayTitle(s))]
  }

  /** The answers of the first `n` rows, in their order. */
  function Answers(m: Option<Mapping>, shows: seq<Show>, n: nat): (r: seq<Response>)
    requires n <= |shows|
    ensures |r| <= n
  {
    if n == 0 then [] else Answers(m, shows, n - 1) + AnswerFor(m, shows, shows[n - 1].id)
  }

  // ------------------------------------------------------------------ winter overflow

  /** Go's append to a slice: in place within the capacity, a fresh copy beyond it. */
  method Append(a: array<Show>, n: nat, s: Show) returns (b: array<Show>)
    requires n <= a.Length
    modifies a
    ensures n < b.Length && b[..n + 1] == old(a[..n]) + [s]
    ensures b == a || fresh(b)
    ensures forall j | 0 <= j < a.Length && j != n :: a[j] == old(a[j])
  {
    if n < a.Length {
      Put(a, n, s);
      return a;
    }
    b := new Show[2 * n + 1];
    forall i | 0 <= i < n {
      b[i] := a[i];
    }
    b[n] := s;
    assert b[..n] == a[..n];
  }

  lemma UnseenNext(d: seq<Show>, s: Show, seen: set<int>)
    ensures Unseen(d + [s], seen) == Unseen(d, seen) + (if s.id in seen || s.id in Ids(d) then [] else [s])
    ensures Ids(d + [s]) == Ids(d) + {s.id}
  {
    var all := d + [s];
    assert all[..|all| - 1] == d;
    IdsOfConcat(d, [s]);
  }

  lemma IdsOfConcat(a: seq<Show>, b: seq<Show>)
    ensures Ids(a + b) == Ids(a) + Ids(b)
  {
    forall id | id in Ids(a) + Ids(b) ensures id in Ids(a + b) {
      var s :| s in a + b && s.id == id;
    }
  }

  method CollectIds(a: array<Show>, n: nat) returns (seen: set<int>)
    requires n <= a.Length
    ensures seen == Ids(a[..n])
  {
    seen := {};
    for i := 0 to n
      invariant seen == Ids(a[..i])
    {
      seen := seen + {a[i].id};
      assert a[..i + 1] == a[..i] + [a[i]];
      IdsOfConcat(a[..i], [a[i]]);
    }
  }

  function December(): Show -> bool { (s: Show) => s.startMonth == Some(12) }

  /** The rows appended, and the IDs they add, after the first `i` winter rows of last year. */
  function NewDecembers(winter: seq<Show>, i: nat, ids: set<int>): seq<Show>
    requires i <= |winter|
  {
    Unseen(Filter(winter[..i], December()), ids)
  }

  lemma NewDecembersNext(winter: seq<Show>, i: nat, ids: set<int>)
    requires i < |winter|
    ensures var seen := ids + Ids(Filter(winter[..i], December()));
      var add := winter[i].id !in seen && winter[i].startMonth == Some(12);
      && NewDecembers(winter, i + 1, ids) == NewDecembers(winter, i, ids) + (if add then [winter[i]] else [])
      && ids + Ids(Filter(winter[..i + 1], December())) == (if add then seen + {winter[i].id} else seen)
  {
    var d, x := Filter(winter[..i], December()), winter[i];
    FilterNext(winter, i, December());
    UnseenNext(d, x, ids);
    if x.startMonth == Some(12) {
      assert Filter(winter[..i + 1], December()) == d + [x];
      assert x.id in ids + Ids(d) ==> ids + (Ids(d) + {x.id}) == ids + Ids(d);
      assert x.id !in ids + Ids(d) ==> ids + (Ids(d) + {x.id}) == ids + Ids(d) + {x.id};
    } else {
      assert Filter(winter[..i + 1], December()) == d;
    }
  }

  /** One turn of the loop below. */
  method AppendIfNew(a: array<Show>, n: nat, sh: Show, seen: set<int>) returns (b: array<Show>, k: nat, now: set<int>)
    requires n <= a.Length
    modifies a
    ensures b == a || fresh(b)
    ensures var add := sh.id !in seen && sh.startMonth == Some(12);
      && now == (if add then seen + {sh.id} else seen)
      && k == (if add then n + 1 else n)
      && k <= b.Length && b[..k] == old(a[..n]) + (if add then [sh] else [])
      && forall j | 0 <= j < a.Length && (!add || j != n) :: a[j] == old(a[j])
  {
    b, k, now := a, n, seen;
    if sh.id !in seen && sh.startMonth.Some? && sh.startMonth.value == 12 {
      b := Append(a, n, sh);
      k := n + 1;
      now := seen + {sh.id};
    }
  }

  /** What one row of last year does to the appended rows and to the IDs seen. */
  predicate Turn(sh: Show, added: seq<Show>, seen: set<int>, addedNext: seq<Show>, seenNext: set<int>) {
    var add := sh.id !in seen && sh.startMonth == Some(12);
    && addedNext == added + (if add then [sh] else [])
    && seenNext == (if add then seen + {sh.id} else seen)
  }

  lemma NothingNew(winter: seq<Show>, i: nat, ids: set<int>)
    requires i <= |winter| && Ids(winter[..i]) <= ids
    ensures NewDecembers(winter, i, ids) == []
  {
    var d := Filter(winter[..i], December());
    forall s | s in d ensures s.id in ids {
      FilterHas(winter[..i], December(), s);
      assert s.id in Ids(winter[..i]);
    }
    UnseenIds(d, ids);
    var rest := Unseen(d, ids);
    assert |rest| > 0 ==> rest[0] in rest && rest[0].id in Ids(rest);
  }

  /**
   The loop over last year's winter rows; `added` and `seen` say what it has done before each. In a
   shared array it never overwrites a row it has yet to read: it adds nothing before row `n`, and
   from there on it writes no further than it has read.
   */
  method AppendTurns(a: array<Show>, n: nat, prev: array<Show>, kept: nat, ids: set<int>,
                     ghost winter: seq<Show>, ghost added: nat -> seq<Show>, ghost seen: nat -> set<int>)
    returns (b: array<Show>, k: nat)
    requires n <= a.Length && kept <= prev.Length
    requires winter == prev[..kept] && added(0) == [] && seen(0) == ids
    requires forall i: nat | i < kept :: Turn(winter[i], added(i), seen(i), added(i + 1), seen(i + 1))
    requires a == prev && n < kept ==> forall i: nat | i <= n :: added(i) == []
    modifies a
    ensures b == a || fresh(b)
    ensures k <= b.Length && b[..k] == old(a[..n]) + added(kept)
  {
    ghost var shows := a[..n];
    var now := ids;
    b, k := a, n;
    for i := 0 to kept
      invariant b == a || fresh(b)
      invariant forall j | i <= j < kept :: prev[j] == winter[j]
      invariant b == prev ==> kept <= k || k <= i || (i <= n && k == n)
      invariant k <= b.Length && b[..k] == shows + added(i)
      invariant now == seen(i)
    {
      assert Turn(winter[i], added(i), seen(i), added(i + 1), seen(i + 1));
      b, k, now := AppendIfNew(b, k, prev[i], now);
    }
  }

  method AppendUnseen(a: array<Show>, n: nat, prev: array<Show>, kept: nat, ids: set<int>)
    returns (b: array<Show>, k: nat)
    requires n <= a.Length && kept <= prev.Length
    requires a == prev && n < kept ==> Ids(prev[..n]) <= ids
    modifies a
    ensures b == a || fresh(b)
    ensures k <= b.Length && b[..k] == old(a[..n]) + NewDecembers(old(prev[..kept]), kept, ids)
  {
    ghost var winter := prev[..kept];
    ghost var added := (i: nat) => if i <= |winter| then NewDecembers(winter, i, ids) else [];
    ghost var seen := (i: nat) => if i <= |winter| then ids + Ids(Filter(winter[..i], December())) else {};
    forall i: nat | i < kept ensures Turn(winter[i], added(i), seen(i), added(i + 1), seen(i + 1)) {
      NewDecembersNext(winter, i, ids);
    }
    if a == prev && n < kept {
      forall i: nat | i <= n ensures added(i) == [] {
        assert winter[..i] == prev[..n][..i];
        NothingNew(winter, i, ids);
      }
    }
    b, k := AppendTurns(a, n, prev, kept, ids, winter, added, seen);
  }

  /**
   The year's rows as the loop finds them. When both slices start at the same array, filtering
   last year's has moved its winter rows to the front.
   */
  function Found(shows: seq<Show>, prev: seq<Show>, shared: bool): seq<Show> {
    var winter := Filter(prev, OfSeason("WINTER"));
    if !shared then shows
    else if |winter| <= |shows| then winter + shows[|winter|..]
    else winter[..|shows|]
  }

  method WinterOverflow(a: array<Show>, n: nat, prev: array<Show>, np: nat) returns (b: array<Show>, k: nat)
    requires n <= a.Length && np <= prev.Length
    modifies a, prev
    ensures b == a || fresh(b)
    ensures k <= b.Length
    ensures b[..k] == Candidates(Found(old(a[..n]), old(prev[..np]), a == prev), old(prev[..np]), "WINTER")
  {
    ghost var shows, before := a[..n], prev[..np];
    var kept := FilterBySeason(prev, np, "WINTER");
    ghost var winter := prev[..kept];
    if a == prev && kept <= n {
      ghost var was := old(a[..]);
      assert a[kept..] == was[kept..] && shows == was[..n];
      assert a[..n] == a[..kept] + a[kept..][..n - kept];
      assert was[kept..][..n - kept] == shows[kept..];
    }
    if a == prev && n < kept {
      assert a[..n] == winter[..n];
    }
    assert a[..n] == Found(shows, before, a == prev);
    var seen := CollectIds(a, n);
    FilterTwice(before, OfSeason("WINTER"), December(), Decembers());
    assert winter[..kept] == winter;
    b, k := AppendUnseen(a, n, prev, kept, seen);
  }

  // ------------------------------------------------------------------ resolution

  method ResolveBatch(m: Mapping, a: array<Show>, n: nat) returns (batch: map<int, Lookup>)
    requires n <= a.Length
    ensures forall id :: id in batch <==> LastWith(a[..n], id).Some?
    ensures forall id | id in batch :: batch[id] == LookupOf(Some(m), LastWith(a[..n], id).value)
  {
    batch := map[];
    for i := 0 to n
      invariant forall id :: id in batch <==> LastWith(a[..i], id).Some?
      invariant forall id | id in batch :: batch[id] == LookupOf(Some(m), LastWith(a[..i], id).value)
    {
      assert a[..i + 1][..i] == a[..i];
      batch := batch[a[i].id := LookupOf(Some(m), a[i])];
    }
  }

  /** Without a mapping the batch is Go's nil map, which answers every lookup with a miss. */
  method ResponseShows(ghost m: Option<Mapping>, a: array<Show>, n: nat, batch: map<int, Lookup>) returns (out: seq<Response>)
    requires n <= a.Length
    requires m.None? ==> batch == map[]
    requires m.Some? ==> forall id :: id in batch <==> LastWith(a[..n], id).Some?
    requires m.Some? ==> forall id | id in batch :: batch[id] == LookupOf(m, LastWith(a[..n], id).value)
    ensures out == Answers(m, a[..n], n)
  {
    out := [];
    for i := 0 to n
      invariant out == Answers(m, a[..n], i)
    {
      var id := a[i].id;
      if id in batch && batch[id].tvdbId.Some? {
        out := out + [Response(batch[id].tvdbId.value, batch[id].title)];
      }
    }
  }

  // ------------------------------------------------------------------ the whole request

  /** The drop counts of a run over `all`, each the number of shows with that verdict. */
  ghost predicate CountsDrops(st: Stats, all: seq<Show>, rq: Request) {
    && st.afterWinterOverflow == |all|
    && st.afterWinterOverflow - st.afterSeason == |Filter(all, Judged(WrongSeason, rq))|
    && st.afterSeason - st.afterFormat == |Filter(all, Judged(WrongFormat, rq))|
    && st.skippedDuration == |Filter(all, Judged(Short, rq))|
    && st.skippedTags == |Filter(all, Judged(ExcludedTag, rq))|
    && st.skippedFuture == |Filter(all, Judged(TooFarAhead, rq))|
    && st.skippedFirstSeason == |Filter(all, Judged(Sequel, rq))|
    && st.resolved + st.unresolved == |Filter(all, Judged(Eligible, rq))|
  }

  lemma SeasonStage(all: seq<Show>, rq: Request)
    ensures |Filter(all, PastSeason(rq))| + |Filter(all, Judged(WrongSeason, rq))| == |all|
  {
    var every := (s: Show) => true;
    FilterAll(all, every);
    FilterSplits(all, every, PastSeason(rq), Judged(WrongSeason, rq));
  }

  lemma FormatStage(all: seq<Show>, rq: Request)
    ensures Filter(Filter(all, PastSeason(rq)), OfFormat(rq.cfg.includeTypes)) == Filter(all, PastFormat(rq))
    ensures |Filter(all, PastSeason(rq))| == |Filter(all, PastFormat(rq))| + |Filter(all, Judged(WrongFormat, rq))|
  {
    FilterTwice(all, PastSeason(rq), OfFormat(rq.cfg.includeTypes), PastFormat(rq));
    FilterSplits(all, PastSeason(rq), PastFormat(rq), Judged(WrongFormat, rq));
  }

  lemma StatsStage(all: seq<Show>, rq: Request)
    ensures Filter(Filter(all, PastFormat(rq)), Watchable(rq.cfg)) == Filter(all, PastStats(rq))
    ensures Filter(Filter(all, PastFormat(rq)), TooShort()) == Filter(all, Judged(Short, rq))
    ensures Filter(Filter(all, PastFormat(rq)), Tagged(rq.cfg)) == Filter(all, Judged(ExcludedTag, rq))
  {
    FilterTwice(all, PastFormat(rq), Watchable(rq.cfg), PastStats(rq));
    FilterTwice(all, PastFormat(rq), TooShort(), Judged(Short, rq));
    FilterTwice(all, PastFormat(rq), Tagged(rq.cfg), Judged(ExcludedTag, rq));
  }

  lemma FutureStage(all: seq<Show>, rq: Request)
    ensures |Filter(all, PastStats(rq))| == |Filter(all, PastFuture(rq))| + |Filter(all, Judged(TooFarAhead, rq))|
    ensures rq.cfg.futureEnabled ==> Filter(Filter(all, PastStats(rq)), Near(rq.cfg)) == Filter(all, PastFuture(rq))
    ensures !rq.cfg.futureEnabled ==> Filter(all, PastStats(rq)) == Filter(all, PastFuture(rq))
  {
    FilterSplits(all, PastStats(rq), PastFuture(rq), Judged(TooFarAhead, rq));
    if rq.cfg.futureEnabled {
      FilterTwice(all, PastStats(rq), Near(rq.cfg), PastFuture(rq));
    } else {
      SameFilter(all, PastStats(rq), PastFuture(rq));
    }
  }

  lemma FirstSeasonStage(all: seq<Show>, rq: Request)
    ensures |Filter(all, PastFuture(rq))| == |Filter(all, Judged(Eligible, rq))| + |Filter(all, Judged(Sequel, rq))|
    ensures rq.category == "series-new" ==>
      Filter(Filter(all, PastFuture(rq)), FirstSeason()) == Filter(all, Judged(Eligible, rq))
    ensures rq.category != "series-new" ==> Filter(all, PastFuture(rq)) == Filter(all, Judged(Eligible, rq))
  {
    FilterSplits(all, PastFuture(rq), Judged(Eligible, rq), Judged(Sequel, rq));
    if rq.category == "series-new" {
      FilterTwice(all, PastFuture(rq), FirstSeason(), Judged(Eligible, rq));
    } else {
      SameFilter(all, PastFuture(rq), Judged(Eligible, rq));
    }
  }

  lemma {:induction false} SameFilter(s: seq<Show>, p: Show -> bool, q: Show -> bool)
    requires forall x :: p(x) <==> q(x)
    ensures Filter(s, p) == Filter(s, q)
  {
    if s != [] {
      SameFilter(s[..|s| - 1], p, q);
    }
  }

  /** The filters every request runs. */
  method ScreenAlways(a: array<Show>, n: nat, rq: Request) returns (k: nat, st: Stats)
    requires n <= a.Length
    modifies a
    ensures k <= n && a[..k] == Filter(old(a[..n]), PastStats(rq))
    ensures var all := old(a[..n]);
      && st.input == n && st.afterWinterOverflow == n && st.unresolved == 0
      && st.afterSeason == |Filter(all, PastSeason(rq))|
      && st.afterFormat == |Filter(all, PastFormat(rq))|
      && st.skippedDuration == |Filter(all, Judged(Short, rq))|
      && st.skippedTags == |Filter(all, Judged(ExcludedTag, rq))|
  {
    ghost var all := a[..n];
    FormatStage(all, rq);
    StatsStage(all, rq);
    k := FilterBySeason(a, n, rq.season);
    var afterSeason := k;
    k := Compact(a, k, OfFormat(rq.cfg.includeTypes));
    var afterFormat := k;
    var duration, tags;
    k, duration, tags := FilterWithStats(a, k, rq.cfg);
    st := Stats(n, n, afterSeason, afterFormat, duration, tags, 0, 0, 0, 0);
  }

  /** The two filters a request can leave out. */
  method ScreenOptional(a: array<Show>, n: nat, rq: Request, ghost all: seq<Show>) returns (k: nat, inReach: nat)
    requires n <= a.Length && a[..n] == Filter(all, PastStats(rq))
    modifies a
    ensures k <= inReach <= n && a[..k] == Filter(all, Judged(Eligible, rq)) && inReach == |Filter(all, PastFuture(rq))|
  {
    k := n;
    FutureStage(all, rq);
    if rq.cfg.futureEnabled {
      k := Compact(a, k, Near(rq.cfg));
    }
    inReach := k;
    assert a[..k] == Filter(all, PastFuture(rq));
    FirstSeasonStage(all, rq);
    if rq.category == "series-new" {
      k := Compact(a, k, FirstSeason());
    }
  }

  lemma DropsAreDifferences(all: seq<Show>, rq: Request)
    ensures |all| - |Filter(all, PastSeason(rq))| == |Filter(all, Judged(WrongSeason, rq))|
    ensures |Filter(all, PastSeason(rq))| - |Filter(all, PastFormat(rq))| == |Filter(all, Judged(WrongFormat, rq))|
    ensures |Filter(all, PastStats(rq))| - |Filter(all, PastFuture(rq))| == |Filter(all, Judged(TooFarAhead, rq))|
    ensures |Filter(all, PastFuture(rq))| - |Filter(all, Judged(Eligible, rq))| == |Filter(all, Judged(Sequel, rq))|
  {
    SeasonStage(all, rq);
    FormatStage(all, rq);
    FutureStage(all, rq);
    FirstSeasonStage(all, rq);
  }

  /** The filters of `Process`, one after another over the same array. */
  method Screen(a: array<Show>, n: nat, rq: Request) returns (k: nat, st: Stats)
    requires n <= a.Length
    modifies a
    ensures k <= n && a[..k] == Filter(old(a[..n]), Judged(Eligible, rq))
    ensures st.resolved == k && st.unresolved == 0 && st.input == n && CountsDrops(st, old(a[..n]), rq)
  {
    ghost var all := a[..n];
    DropsAreDifferences(all, rq);
    var beforeFuture, beforeFirstSeason;
    beforeFuture, st := ScreenAlways(a, n, rq);
    k, beforeFirstSeason := ScreenOptional(a, beforeFuture, rq, all);
    st := st.(skippedFuture := beforeFuture - beforeFirstSeason,
              skippedFirstSeason := beforeFirstSeason - k, resolved := k);
  }

  method Process(a: array<Show>, n: nat, prev: array<Show>, np: nat, rq: Request, m: Option<Mapping>)
    returns (out: seq<Response>, st: Stats)
    requires n <= a.Length && np <= prev.Length
    modifies a, prev
    ensures var shows, before := old(a[..n]), old(prev[..np]);
      var all := Candidates(Found(shows, before, a == prev && rq.season == "WINTER"), before, rq.season);
      var eligible := Filter(all, Judged(Eligible, rq));
      && out == Answers(m, eligible, |eligible|)
      && CountsDrops(st, all, rq)
      && st.input == n && st.resolved == |out|
  {
    ghost var shows, before := a[..n], prev[..np];
    var b, k := a, n;
    if rq.season == "WINTER" && np > 0 {
      b, k := WinterOverflow(a, n, prev, np);
    }
    assert b[..k] == Candidates(Found(shows, before, a == prev && rq.season == "WINTER"), before, rq.season);
    k, st := Screen(b, k, rq);
    var batch: map<int, Lookup> := map[];
    if m.Some? {
      batch := ResolveBatch(m.value, b, k);
    }
    out := ResponseShows(m, b, k, batch);
    st := st.(input := n, resolved := |out|, unresolved := k - |out|);
  }

  /** A decoded read hands the request its own copy of the resident row. */
  method CopyRows(resident: array<Show>) returns (own: array<Show>)
    ensures fresh(own) && own[..] == resident[..]
  {
    own := new Show[resident.Length];
    forall i | 0 <= i < own.Length {
      own[i] := resident[i];
    }
    assert own[..] == resident[..];
  }

  /** A whole request writes nothing that existed before it: no `modifies`, so the resident rows stay. */
  method Serve(resident: array<Show>, residentPrev: array<Show>, rq: Request, m: Option<Mapping>)
    returns (out: seq<Response>, st: Stats)
    ensures var eligible := Filter(Candidates(resident[..], residentPrev[..], rq.season), Judged(Eligible, rq));
      out == Answers(m, eligible, |eligible|)
  {
    var own := CopyRows(resident);
    var ownPrev := CopyRows(residentPrev);
    assert own[..own.Length] == resident[..] && ownPrev[..ownPrev.Length] == residentPrev[..];
    out, st := Process(own, own.Length, ownPrev, ownPrev.Length, rq, m);
  }

  // ------------------------------------------------------------------ what the description means

  /** Every show the request looked at is answered, unresolved, or dropped for one named reason. */
  lemma EveryShowIsCounted(st: Stats, all: seq<Show>, rq: Request)
    requires CountsDrops(st, all, rq)
    ensures |Filter(all, Judged(WrongSeason, rq))| + |Filter(all, Judged(WrongFormat, rq))|
      + st.skippedDuration + st.skippedTags + st.skippedFuture + st.skippedFirstSeason
      + st.resolved + st.unresolved == |all|
    ensures st.afterFormat ==
      st.skippedDuration + st.skippedTags + st.skippedFuture + st.skippedFirstSeason + st.resolved + st.unresolved
  {
    SeasonStage(all, rq);
    FormatStage(all, rq);
    StatsStage(all, rq);
    FilterSplits(Filter(all, PastFormat(rq)), (s: Show) => true, Watchable(rq.cfg), (s: Show) => !Watchable(rq.cfg)(s));
    FilterAll(Filter(all, PastFormat(rq)), (s: Show) => true);
    FilterSplits(Filter(all, PastFormat(rq)), (s: Show) => !Watchable(rq.cfg)(s), TooShort(), Tagged(rq.cfg));
    FutureStage(all, rq);
    FirstSeasonStage(all, rq);
  }

  /** The months of a season, for shows without one of their own. */
  function MonthsOf(season: string): set<int> {
    if season == "WINTER" then {12, 1, 2, 3}
    else if season == "SPRING" then {4, 5, 6}
    else if season == "SUMMER" then {7, 8, 9}
    else if season == "FALL" then {10, 11}
    else {}
  }

  /** A show survives exactly when it passes every filter the configuration turns on, field by field. */
  lemma EligibleIffEveryFilterPasses(all: seq<Show>, rq: Request, s: Show)
    ensures s in Filter(all, Judged(Eligible, rq)) <==>
      (&& s in all
       && (rq.season == "ALL" || s.season == rq.season
           || (s.season == "" && s.startMonth.Some? && s.startMonth.value in MonthsOf(rq.season)))
       && s.format in rq.cfg.includeTypes
       && (s.duration.Some? ==> 10 < s.duration.value)
       && (forall tag, excluded | tag in s.tags && excluded in rq.cfg.excludeTags && excluded != "" ::
             !rq.cfg.equalFold(tag, excluded))
       && (rq.cfg.futureEnabled && s.startYear.Some? && s.startMonth.Some? ==>
             12 * s.startYear.value + s.startMonth.value - 1 <= rq.cfg.horizon)
       && (rq.category == "series-new" && s.relations.Some? ==>
             forall kind | kind in s.relations.value :: kind != "PREQUEL" && kind != "PARENT"))
  {
    FilterHas(all, Judged(Eligible, rq), s);
  }

  predicate DistinctIds(s: seq<Show>) {
    forall i, j | 0 <= i < j < |s| :: s[i].id != s[j].id
  }

  /** Show `i` is the first one carrying its ID. */
  predicate FirstOfItsId(d: seq<Show>, i: int) {
    0 <= i < |d| && forall j | 0 <= j < i :: d[j].id != d[i].id
  }

  lemma {:induction false} UnseenIds(d: seq<Show>, seen: set<int>)
    ensures Ids(Unseen(d, seen)) == Ids(d) - seen
  {
    if d != [] {
      var front, last := d[..|d| - 1], d[|d| - 1];
      UnseenIds(front, seen);
      assert d == front + [last];
      UnseenNext(front, last, seen);
      IdsOfConcat(Unseen(front, seen), [last]);
      assert Ids([last]) == {last.id};
      if last.id in seen || last.id in Ids(front) {
        assert Ids(front) - seen == Ids(d) - seen;
      } else {
        assert (Ids(front) - seen) + {last.id} == Ids(d) - seen;
      }
    }
  }

  lemma {:induction false} UnseenIsDistinct(d: seq<Show>, seen: set<int>)
    ensures DistinctIds(Unseen(d, seen))
  {
    if d != [] {
      var front, last := d[..|d| - 1], d[|d| - 1];
      var u := Unseen(front, seen);
      UnseenIsDistinct(front, seen);
      UnseenIds(front, seen);
      assert forall i | 0 <= i < |u| :: u[i].id in Ids(u) by {
        assert forall i | 0 <= i < |u| :: u[i] in u;
      }
    }
  }

  /** The show is among them and carries an ID no earlier one does. */
  ghost predicate IsFirst(d: seq<Show>, s: Show) {
    exists i :: FirstOfItsId(d, i) && d[i] == s
  }

  lemma FirstInFront(front: seq<Show>, last: Show, i: nat)
    requires i < |front|
    ensures FirstOfItsId(front + [last], i) <==> FirstOfItsId(front, i)
  {
    var d := front + [last];
    assert forall j | 0 <= j <= i :: d[j] == front[j];
  }

  lemma FirstAtEnd(front: seq<Show>, last: Show)
    ensures FirstOfItsId(front + [last], |front|) <==> last.id !in Ids(front)
  {
    var d := front + [last];
    assert forall j | 0 <= j < |front| :: d[j] == front[j] && front[j] in front;
    if last.id in Ids(front) {
      var x :| x in front && x.id == last.id;
      var j :| 0 <= j < |front| && front[j] == x;
    }
  }

  lemma FirstsNext(front: seq<Show>, last: Show, s: Show)
    ensures IsFirst(front + [last], s) <==> IsFirst(front, s) || (s == last && last.id !in Ids(front))
  {
    var d, n := front + [last], |front|;
    FirstAtEnd(front, last);
    if IsFirst(front, s) {
      var i :| FirstOfItsId(front, i) && front[i] == s;
      FirstInFront(front, last, i);
      assert d[i] == s;
    }
    if s == last && last.id !in Ids(front) {
      assert d[n] == s;
    }
    if IsFirst(d, s) {
      var i :| FirstOfItsId(d, i) && d[i] == s;
      if i < n {
        FirstInFront(front, last, i);
      }
    }
  }

  lemma {:induction false} UnseenAreFirsts(d: seq<Show>, seen: set<int>, s: Show)
    ensures s in Unseen(d, seen) <==> s.id !in seen && IsFirst(d, s)
  {
    if d != [] {
      var front, last := d[..|d| - 1], d[|d| - 1];
      assert d == front + [last];
      UnseenAreFirsts(front, seen, s);
      UnseenNext(front, last, seen);
      FirstsNext(front, last, s);
    }
  }

  /**
   The winter overflow is exactly the first prior-year December winter show of every ID the
   year does not have: nothing else, nothing twice, and none of it is lost to the season filter
   that follows.
   */
  lemma OverflowIsEachNewDecemberOnce(shows: seq<Show>, prev: seq<Show>, s: Show)
    ensures forall season | season != "WINTER" :: Candidates(shows, prev, season) == shows
    ensures Candidates(shows, prev, "WINTER")[..|shows|] == shows
    ensures var extra := Candidates(shows, prev, "WINTER")[|shows|..];
      var december := Filter(prev, Decembers());
      && DistinctIds(extra)
      && Ids(extra) * Ids(shows) == {}
      && (s in prev && s.startMonth == Some(12) && (s.season == "WINTER" || s.season == "") ==>
            s.id in Ids(Candidates(shows, prev, "WINTER")))
      && (s in extra <==> IsFirst(december, s) && s.id !in Ids(shows))
      && (s in extra ==>
            && s in prev && s.startMonth == Some(12) && (s.season == "WINTER" || s.season == "")
            && InSeason(s, "WINTER"))
  {
    var december := Filter(prev, Decembers());
    var extra := Unseen(december, Ids(shows));
    assert Candidates(shows, prev, "WINTER")[|shows|..] == extra;
    UnseenIsDistinct(december, Ids(shows));
    UnseenIds(december, Ids(shows));
    UnseenAreFirsts(december, Ids(shows), s);
    IdsOfConcat(shows, extra);
    FilterHas(prev, Decembers(), s);
    assert s in extra ==> s in december;
  }

  /** Repeated IDs all take the resolution and the title of the last occurrence. */
  lemma {:induction false} LastOccurrenceDecides(shows: seq<Show>, i: nat)
    requires i < |shows| && forall j | i < j < |shows| :: shows[j].id != shows[i].id
    ensures LastWith(shows, shows[i].id) == Some(shows[i])
    decreases |shows|
  {
    if i < |shows| - 1 {
      LastOccurrenceDecides(shows[..|shows| - 1], i);
    }
  }

  /** MAL decides when it knows the show, AniList only otherwise, and neither without a mapping. */
  lemma MalBeforeAniList(m: Mapping, s: Show, tvdb: int)
    ensures ResolveShow(None, s) == None
    ensures ResolveShow(Some(m), s) == Some(tvdb) <==>
      || (s.idMal.Some? && 0 < s.idMal.value && s.idMal.value in m.byMAL && m.byMAL[s.idMal.value] == tvdb)
      || (!(s.idMal.Some? && 0 < s.idMal.value && s.idMal.value in m.byMAL)
          && 0 < s.id && s.id in m.byAniList && m.byAniList[s.id] == tvdb)
  {
  }

  /** English if there is any, romaji if it is there at all, and the number otherwise. */
  lemma EnglishBeforeRomaji(s: Show)
    ensures s.english.Some? && s.english.value != "" ==> DisplayTitle(s) == s.english.value
    ensures (s.english.None? || s.english.value == "") && s.romaji.Some? ==> DisplayTitle(s) == s.romaji.value
    ensures (s.english.None? || s.english.value == "") && s.romaji.None? && -MAX_INT64 <= s.id <= MAX_INT64 ==>
      "Anime #" <= DisplayTitle(s) && Atoi(DisplayTitle(s)[|"Anime #"|..]) == Some(s.id)
  {
    if (s.english.None? || s.english.value == "") && s.romaji.None? && -MAX_INT64 <= s.id <= MAX_INT64 {
      var number := if s.id < 0 then "-" + Decimal(-s.id) else Decimal(s.id);
      assert DisplayTitle(s)[|"Anime #"|..] == number;
      if s.id < 0 {
        SignedDecimal(-s.id);
      } else {
        DecimalRoundTrip(s.id);
      }
    }
  }

  /** Row by row: each answers what the last row with its ID resolves to, under that row's title. */
  lemma RowTakesItsLastOccurrence(m: Option<Mapping>, shows: seq<Show>, i: nat, j: nat)
    requires i <= j < |shows| && shows[j].id == shows[i].id
    requires forall l | j < l < |shows| :: shows[l].id != shows[j].id
    ensures Answers(m, shows, i + 1) == Answers(m, shows, i) +
      match ResolveShow(m, shows[j]) {
        case None => []
        case Some(tvdb) => [Response(tvdb, DisplayTitle(shows[j]))]
      }
  {
    LastOccurrenceDecides(shows, j);
  }
}
