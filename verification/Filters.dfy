/**
 The in-place filters over a request's own array (internal/filter/filter.go) and the
 show predicates they ask (internal/anilist/anilist.go).
 */
module Filters {
  import opened Basics
  import opened Shows

  /** `horizon` is the month that now plus three months falls in, counted in months. */
  datatype Config = Config(
    includeTypes: seq<string>,
    excludeTags: seq<string>,
    equalFold: (string, string) -> bool,
    futureEnabled: bool,
    horizon: int)

  // ------------------------------------------------------------------ one show

  predicate MonthInSeason(m: int, season: string) {
    || (season == "WINTER" && (m == 12 || m == 1 || m == 2 || m == 3))
    || (season == "SPRING" && 4 <= m <= 6)
    || (season == "SUMMER" && 7 <= m <= 9)
    || (season == "FALL" && (m == 10 || m == 11))
  }

  /** The show's own season decides; without one its start month does. */
  predicate InSeason(s: Show, season: string) {
    || season == "ALL"
    || s.season == season
    || (s.season == "" && s.startMonth.Some? && MonthInSeason(s.startMonth.value, season))
  }

  predicate SkipByDuration(s: Show) {
    s.duration.Some? && s.duration.value <= 10
  }

  predicate HasTag(s: Show, name: string, cfg: Config) {
    exists t :: t in s.tags && cfg.equalFold(t, name)
  }

  predicate HasExcludedTag(s: Show, cfg: Config) {
    exists x :: x in cfg.excludeTags && x != "" && HasTag(s, x, cfg)
  }

  predicate WithinHorizon(s: Show, cfg: Config) {
    s.startYear.Some? && s.startMonth.Some? ==> s.startYear.value * 12 + s.startMonth.value - 1 <= cfg.horizon
  }

  predicate IsNew(s: Show) {
    s.relations.Some? ==> "PREQUEL" !in s.relations.value && "PARENT" !in s.relations.value
  }

  function OfSeason(season: string): Show -> bool { s => InSeason(s, season) }
  function OfFormat(formats: seq<string>): Show -> bool { (s: Show) => s.format in formats }
  function TooShort(): Show -> bool { s => SkipByDuration(s) }
  function Tagged(cfg: Config): Show -> bool { s => !SkipByDuration(s) && HasExcludedTag(s, cfg) }
  function Watchable(cfg: Config): Show -> bool { s => !SkipByDuration(s) && !HasExcludedTag(s, cfg) }
  function Near(cfg: Config): Show -> bool { s => WithinHorizon(s, cfg) }
  function FirstSeason(): Show -> bool { s => IsNew(s) }

  method FindTag(s: Show, name: string, cfg: Config) returns (found: bool)
    ensures found == HasTag(s, name, cfg)
  {
    for i := 0 to |s.tags|
      invariant forall j | 0 <= j < i :: !cfg.equalFold(s.tags[j], name)
    {
      if cfg.equalFold(s.tags[i], name) {
        return true;
      }
    }
    return false;
  }

  method FindExcludedTag(s: Show, cfg: Config) returns (found: bool)
    ensures found == HasExcludedTag(s, cfg)
  {
    for i := 0 to |cfg.excludeTags|
      invariant forall j | 0 <= j < i :: cfg.excludeTags[j] == "" || !HasTag(s, cfg.excludeTags[j], cfg)
    {
      if cfg.excludeTags[i] == "" {
        continue;
      }
      var has := FindTag(s, cfg.excludeTags[i], cfg);
      if has {
        return true;
      }
    }
    return false;
  }

  // ------------------------------------------------------------------ order-preserving selection

  /** The subsequence of the shows that satisfy `keep`, in order. */
  function Filter(s: seq<Show>, keep: Show -> bool): (r: seq<Show>)
    ensures |r| <= |s|
  {
    if s == [] then []
    else
      var last := s[|s| - 1];
      Filter(s[..|s| - 1], keep) + (if keep(last) then [last] else [])
  }

  lemma FilterNext(s: seq<Show>, i: nat, keep: Show -> bool)
    requires i < |s|
    ensures Filter(s[..i + 1], keep) == Filter(s[..i], keep) + (if keep(s[i]) then [s[i]] else [])
  {
    assert s[..i + 1][..i] == s[..i];
  }

  lemma {:induction false} FilterTwice(s: seq<Show>, p: Show -> bool, q: Show -> bool, both: Show -> bool)
    requires forall x :: both(x) <==> p(x) && q(x)
    ensures Filter(Filter(s, p), q) == Filter(s, both)
  {
    if s != [] {
      var front, last := s[..|s| - 1], s[|s| - 1];
      FilterTwice(front, p, q, both);
      if p(last) {
        var kept := Filter(front, p);
        assert (kept + [last])[..|kept|] == kept;
        assert Filter(kept + [last], q) == Filter(kept, q) + (if q(last) then [last] else []);
      } else {
        assert Filter(s, p) == Filter(front, p);
      }
    }
  }

  /** What is kept and what is dropped make up the whole. */
  lemma {:induction false} FilterSplits(s: seq<Show>, p: Show -> bool, q: Show -> bool, r: Show -> bool)
    requires forall x :: (p(x) <==> q(x) || r(x)) && !(q(x) && r(x))
    ensures |Filter(s, p)| == |Filter(s, q)| + |Filter(s, r)|
  {
    if s != [] {
      FilterSplits(s[..|s| - 1], p, q, r);
    }
  }

  lemma {:induction false} FilterAll(s: seq<Show>, keep: Show -> bool)
    requires forall x :: x in s ==> keep(x)
    ensures Filter(s, keep) == s
  {
    if s != [] {
      FilterAll(s[..|s| - 1], keep);
      assert s[..|s| - 1] + [s[|s| - 1]] == s;
    }
  }

  lemma {:induction false} FilterHas(s: seq<Show>, keep: Show -> bool, x: Show)
    ensures x in Filter(s, keep) <==> x in s && keep(x)
  {
    if s != [] {
      FilterHas(s[..|s| - 1], keep, x);
      assert s == s[..|s| - 1] + [s[|s| - 1]];
    }
  }

  // ------------------------------------------------------------------ in-place compaction

  /** Go's append within the capacity: one row written, no other touched. */
  method Put(a: array<Show>, k: nat, show: Show)
    requires k < a.Length
    modifies a
    ensures a[..k + 1] == old(a[..k]) + [show]
    ensures forall j | k < j < a.Length :: a[j] == old(a[j])
  {
    a[k] := show;
  }

  /** The loop of the plain filters: kept shows move down over the dropped ones; the rest stays as it was. */
  method Compact(a: array<Show>, n: nat, keep: Show -> bool) returns (k: nat)
    requires n <= a.Length
    modifies a
    ensures k <= n && a[..k] == Filter(old(a[..n]), keep)
    ensures a[k..] == old(a[k..])
  {
    k := 0;
    ghost var shows := a[..n];
    for i := 0 to n
      invariant k <= i
      invariant a[..k] == Filter(shows[..i], keep)
      invariant forall j | k <= j < a.Length :: a[j] == old(a[j])
    {
      FilterNext(shows, i, keep);
      if keep(a[i]) {
        Put(a, k, a[i]);
        k := k + 1;
      }
    }
    assert shows[..n] == shows;
  }

  method FilterBySeason(a: array<Show>, n: nat, season: string) returns (k: nat)
    requires n <= a.Length
    modifies a
    ensures k <= n && a[..k] == Filter(old(a[..n]), OfSeason(season))
    ensures a[k..] == old(a[k..])
  {
    if season == "ALL" {
      FilterAll(a[..n], OfSeason(season));
      return n;
    }
    k := 0;
    ghost var shows := a[..n];
    for i := 0 to n
      invariant k <= i
      invariant a[..k] == Filter(shows[..i], OfSeason(season))
      invariant forall j | k <= j < a.Length :: a[j] == old(a[j])
    {
      FilterNext(shows, i, OfSeason(season));
      var sh := a[i];
      if sh.season == season {
        Put(a, k, sh);
        k := k + 1;
        continue;
      }
      if sh.season != "" || sh.startMonth.None? {
        continue;
      }
      var m := sh.startMonth.value;
      if m < 1 || m > 12 {
        continue;
      }
      if MonthInSeason(m, season) {
        Put(a, k, sh);
        k := k + 1;
      }
    }
    assert shows[..n] == shows;
  }

  /** Each show the loop meets joins exactly one of the three selections. */
  lemma Sorted(shows: seq<Show>, i: nat, cfg: Config)
    requires i < |shows|
    ensures var next := [shows[i]];
      && Filter(shows[..i + 1], TooShort())
        == Filter(shows[..i], TooShort()) + (if SkipByDuration(shows[i]) then next else [])
      && Filter(shows[..i + 1], Tagged(cfg))
        == Filter(shows[..i], Tagged(cfg)) + (if !SkipByDuration(shows[i]) && HasExcludedTag(shows[i], cfg) then next else [])
      && Filter(shows[..i + 1], Watchable(cfg))
        == Filter(shows[..i], Watchable(cfg)) + (if !SkipByDuration(shows[i]) && !HasExcludedTag(shows[i], cfg) then next else [])
  {
    FilterNext(shows, i, Watchable(cfg));
    FilterNext(shows, i, TooShort());
    FilterNext(shows, i, Tagged(cfg));
  }

  /** One pass drops the short shows first, then the tagged ones, and counts each. */
  method FilterWithStats(a: array<Show>, n: nat, cfg: Config) returns (k: nat, skippedDuration: nat, skippedTags: nat)
    requires n <= a.Length
    modifies a
    ensures k <= n && a[..k] == Filter(old(a[..n]), Watchable(cfg))
    ensures a[k..] == old(a[k..])
    ensures skippedDuration == |Filter(old(a[..n]), TooShort())|
    ensures skippedTags == |Filter(old(a[..n]), Tagged(cfg))|
  {
    k, skippedDuration, skippedTags := 0, 0, 0;
    ghost var shows := a[..n];
    for i := 0 to n
      invariant k <= i
      invariant a[..k] == Filter(shows[..i], Watchable(cfg))
      invariant forall j | k <= j < a.Length :: a[j] == old(a[j])
      invariant skippedDuration == |Filter(shows[..i], TooShort())|
      invariant skippedTags == |Filter(shows[..i], Tagged(cfg))|
    {
      var show := a[i];
      Sorted(shows, i, cfg);
      if SkipByDuration(show) {
        skippedDuration := skippedDuration + 1;
        continue;
      }
      var excluded := FindExcludedTag(show, cfg);
      if excluded {
        skippedTags := skippedTags + 1;
        continue;
      }
      Put(a, k, show);
      k := k + 1;
    }
    assert shows[..n] == shows;
  }
}
