/**
 The bounded, most-recently-used cache of decoded years
 (internal/cache/decoded_year.go). `Resident` is the value a critical section
 reads and replaces; the class performs the same update on its map, its list
 and its byte counter.
 */
module DecodedYears {
  import opened Basics
  import opened Shows

  datatype Entry = Entry(year: int, raw: Bytes, shows: seq<Show>, size: int)

  datatype Limits = Limits(maxYears: int, maxBytes: int)

  /** `lru` lists the resident entries, most recently used first. */
  datatype Resident = Resident(generation: nat, closed: bool, lru: seq<Entry>)

  function TotalSize(s: seq<Entry>): int {
    if s == [] then 0 else TotalSize(s[..|s| - 1]) + s[|s| - 1].size
  }

  function Find(s: seq<Entry>, year: int): (r: Option<Entry>)
    ensures r.Some? ==> r.value in s && r.value.year == year
    ensures r.None? ==> forall e :: e in s ==> e.year != year
  {
    if s == [] then None
    else if s[0].year == year then Some(s[0])
    else Find(s[1..], year)
  }

  /** Unlinks the element of `year`, if there is one. */
  function Drop(s: seq<Entry>, year: int): (r: seq<Entry>)
    ensures forall e :: e in r ==> e in s
    ensures forall e :: e in s && e.year != year ==> e in r
    ensures |s| - 1 <= |r| <= |s|
  {
    if s == [] then []
    else if s[0].year == year then s[1..]
    else [s[0]] + Drop(s[1..], year)
  }

  predicate DistinctYears(s: seq<Entry>) {
    forall i, j :: 0 <= i < j < |s| ==> s[i].year != s[j].year
  }

  predicate Fits(s: seq<Entry>, size: int, limits: Limits) {
    |s| < limits.maxYears && TotalSize(s) + size <= limits.maxBytes
  }

  /** The list the eviction loop leaves: it drops from the back until `size` more bytes fit. */
  function Evicted(s: seq<Entry>, size: int, limits: Limits): seq<Entry>
    requires 0 < limits.maxYears && size <= limits.maxBytes
  {
    if Fits(s, size, limits) then s
    else if s == [] then assert false; []
    else Evicted(s[..|s| - 1], size, limits)
  }

  function LookupState(c: Resident, year: int, raw: Bytes, present: bool, generation: nat): Resident {
    match Find(c.lru, year)
    case None => c
    case Some(e) =>
      if present && raw == e.raw then c.(lru := [e] + Drop(c.lru, year))
      else if generation == c.generation then c.(lru := Drop(c.lru, year))
      else c
  }

  function LookupHit(c: Resident, year: int, raw: Bytes, present: bool): Option<seq<Show>> {
    match Find(c.lru, year)
    case None => None
    case Some(e) => if present && raw == e.raw then Some(e.shows) else None
  }

  predicate Admits(c: Resident, size: int, generation: nat, limits: Limits) {
    !c.closed && generation == c.generation && 0 < limits.maxYears && size <= limits.maxBytes
  }

  function AdmitState(c: Resident, e: Entry, generation: nat, limits: Limits): Resident {
    if !Admits(c, e.size, generation, limits) then c
    else c.(lru := [e] + Evicted(Drop(c.lru, e.year), e.size, limits))
  }

  function InvalidateState(c: Resident, year: int, all: bool, closing: bool): Resident {
    Resident(c.generation + 1, c.closed || closing, if all then [] else Drop(c.lru, year))
  }

  /** What every critical section keeps: one entry a year, both bounds, and nothing after closing. */
  predicate Bounded(c: Resident, limits: Limits) {
    && DistinctYears(c.lru)
    && (c.lru != [] ==> |c.lru| <= limits.maxYears && TotalSize(c.lru) <= limits.maxBytes)
    && (forall e :: e in c.lru ==> 0 < e.size)
    && (c.closed ==> c.lru == [])
  }

  // Facts about the list

  lemma {:induction false} TotalSizeFront(e: Entry, s: seq<Entry>)
    ensures TotalSize([e] + s) == e.size + TotalSize(s)
  {
    if s == [] {
      assert [e] + s == [e] && [e][..0] == [];
    } else {
      var n := |s| - 1;
      assert ([e] + s)[..n + 1] == [e] + s[..n];
      TotalSizeFront(e, s[..n]);
    }
  }

  lemma {:induction false} TotalSizeNonNegative(s: seq<Entry>)
    requires forall e :: e in s ==> 0 < e.size
    ensures 0 <= TotalSize(s) && (s == [] <==> TotalSize(s) == 0)
  {
    if s != [] {
      TotalSizeNonNegative(s[..|s| - 1]);
      assert s[|s| - 1] in s;
    }
  }

  lemma {:induction false} DropSize(s: seq<Entry>, year: int)
    ensures TotalSize(Drop(s, year)) ==
            TotalSize(s) - (match Find(s, year) case None => 0 case Some(e) => e.size)
    ensures |Drop(s, year)| == |s| - (if Find(s, year).None? then 0 else 1)
  {
    if s != [] {
      assert s == [s[0]] + s[1..];
      TotalSizeFront(s[0], s[1..]);
      if s[0].year != year {
        DropSize(s[1..], year);
        TotalSizeFront(s[0], Drop(s[1..], year));
      }
    }
  }

  lemma DistinctTail(s: seq<Entry>)
    requires s != [] && DistinctYears(s)
    ensures DistinctYears(s[1..]) && forall e :: e in s[1..] ==> e.year != s[0].year
  {
  }

  lemma DistinctFront(e: Entry, s: seq<Entry>)
    requires DistinctYears(s) && forall x :: x in s ==> x.year != e.year
    ensures DistinctYears([e] + s)
  {
    assert forall i | 0 <= i < |s| :: s[i] in s;
  }

  lemma {:induction false} DropKeepsDistinct(s: seq<Entry>, year: int)
    requires DistinctYears(s)
    ensures DistinctYears(Drop(s, year))
    ensures forall e :: e in Drop(s, year) ==> e.year != year
  {
    if s != [] {
      DistinctTail(s);
      DropKeepsDistinct(s[1..], year);
      if s[0].year != year {
        DistinctFront(s[0], Drop(s[1..], year));
      }
    }
  }

  // The eviction loop

  /** What survives is the longest most-recently-used prefix that fits beside the new entry. */
  lemma {:induction false} EvictedIsLongestFit(s: seq<Entry>, size: int, limits: Limits)
    requires 0 < limits.maxYears && size <= limits.maxBytes
    ensures Evicted(s, size, limits) <= s
    ensures var kept := Evicted(s, size, limits);
      && |kept| < limits.maxYears && TotalSize(kept) + size <= limits.maxBytes
      && forall k | |kept| < k <= |s| :: limits.maxYears <= k || limits.maxBytes < TotalSize(s[..k]) + size
  {
    if !Fits(s, size, limits) {
      var n := |s| - 1;
      EvictedIsLongestFit(s[..n], size, limits);
      forall k | |Evicted(s, size, limits)| < k <= |s|
        ensures limits.maxYears <= k || limits.maxBytes < TotalSize(s[..k]) + size
      {
        if k == |s| {
          assert s[..k] == s;
        } else {
          assert s[..n][..k] == s[..k];
        }
      }
    } else {
      assert s[..|s|] == s;
    }
  }

  // Every critical section keeps `Bounded`

  lemma LookupKeepsBounded(c: Resident, year: int, raw: Bytes, present: bool, generation: nat, limits: Limits)
    requires Bounded(c, limits)
    ensures Bounded(LookupState(c, year, raw, present, generation), limits)
    ensures present && LookupHit(c, year, raw, present).Some? ==>
              forall e :: e in c.lru <==> e in LookupState(c, year, raw, present, generation).lru
    ensures forall e :: e in c.lru && e.year != year ==> e in LookupState(c, year, raw, present, generation).lru
    ensures generation == c.generation ==>
              forall e :: e in LookupState(c, year, raw, present, generation).lru && e.year == year ==> present && e.raw == raw
  {
    DropSize(c.lru, year);
    DropKeepsDistinct(c.lru, year);
    if Find(c.lru, year).Some? {
      var e := Find(c.lru, year).value;
      TotalSizeFront(e, Drop(c.lru, year));
      SameYearSameEntry(c.lru, e);
    }
  }

  lemma SameYearSameEntry(s: seq<Entry>, e: Entry)
    requires DistinctYears(s) && e in s
    ensures forall x :: x in s && x.year == e.year ==> x == e
  {
    var i :| 0 <= i < |s| && s[i] == e;
    forall x | x in s && x.year == e.year ensures x == e {
      var j :| 0 <= j < |s| && s[j] == x;
      assert i == j;
    }
  }

  lemma AdmitKeepsBounded(c: Resident, e: Entry, generation: nat, limits: Limits)
    requires Bounded(c, limits) && 0 < e.size
    ensures Bounded(AdmitState(c, e, generation, limits), limits)
    ensures var c' := AdmitState(c, e, generation, limits);
      if !c.closed && generation == c.generation && 0 < limits.maxYears && e.size <= limits.maxBytes
      then c'.lru != [] && c'.lru[0] == e && c'.generation == c.generation && !c'.closed
      else c' == c
  {
    if Admits(c, e.size, generation, limits) {
      var rest := Drop(c.lru, e.year);
      DropKeepsDistinct(c.lru, e.year);
      EvictedIsLongestFit(rest, e.size, limits);
      var kept := Evicted(rest, e.size, limits);
      TotalSizeFront(e, kept);
      forall j | 0 <= j < |kept| ensures kept[j].year != e.year && kept[j] in c.lru {
        assert kept[j] == rest[j] && rest[j] in rest;
      }
    }
  }

  lemma AdmittedIsNew(c: Resident, e: Entry, generation: nat, limits: Limits)
    requires Bounded(c, limits) && Admits(c, e.size, generation, limits)
    ensures forall x :: x in Evicted(Drop(c.lru, e.year), e.size, limits) ==> x in c.lru && x.year != e.year
  {
    var rest := Drop(c.lru, e.year);
    DropKeepsDistinct(c.lru, e.year);
    EvictedIsLongestFit(rest, e.size, limits);
    assert forall x :: x in Evicted(rest, e.size, limits) ==> x in rest;
  }

  lemma InvalidateKeepsBounded(c: Resident, year: int, all: bool, closing: bool, limits: Limits)
    requires Bounded(c, limits) && (closing ==> all)
    ensures Bounded(InvalidateState(c, year, all, closing), limits)
    ensures forall e :: e in InvalidateState(c, year, all, closing).lru <==> e in c.lru && !all && e.year != year
    ensures c.generation < InvalidateState(c, year, all, closing).generation
  {
    DropSize(c.lru, year);
    DropKeepsDistinct(c.lru, year);
    if !all && Drop(c.lru, year) != [] && Find(c.lru, year).Some? {
      assert Find(c.lru, year).value in c.lru;
    }
  }

  /** A map and a list over the same entries. */
  predicate Indexed(entries: map<int, Entry>, lru: seq<Entry>) {
    && |entries| == |lru|
    && (forall y :: y in entries ==> entries[y].year == y && entries[y] in lru)
    && (forall e :: e in lru ==> e.year in entries && entries[e.year] == e)
  }

  lemma IndexedFront(entries: map<int, Entry>, lru: seq<Entry>, entry: Entry)
    requires Indexed(entries, lru) && entry.year !in entries
    ensures Indexed(entries[entry.year := entry], [entry] + lru)
  {
    var list := [entry] + lru;
    assert forall e :: e in list <==> e == entry || e in lru;
  }

  /** The cache object: a map and a list over the same entries, and their byte total. */
  class DecodedYearCache {
    var generation: nat
    var closed: bool
    var entries: map<int, Entry>
    var lru: seq<Entry>
    var bytes: int
    const limits: Limits

    function View(): Resident
      reads this
    {
      Resident(generation, closed, lru)
    }

    /** Map and list hold the same entries and `bytes` is their total size. */
    ghost predicate Valid()
      reads this
    {
      && Bounded(View(), limits)
      && bytes == TotalSize(lru)
      && Indexed(entries, lru)
    }

    constructor (limits: Limits)
      ensures Valid() && View() == Resident(0, false, []) && this.limits == limits
    {
      generation, closed := 0, false;
      entries, lru, bytes := map[], [], 0;
      this.limits := limits;
    }

    lemma FindsByYear(year: int)
      requires Valid()
      ensures year in entries <==> Find(lru, year).Some?
      ensures year in entries ==> Find(lru, year).value == entries[year]
    {
      if Find(lru, year).Some? {
        assert Find(lru, year).value in lru;
      }
    }

    /** Unlinks one resident element from the map and from the list. */
    method Remove(entry: Entry)
      requires Valid() && entry in lru
      modifies this
      ensures Valid()
      ensures View() == old(View()).(lru := Drop(old(lru), entry.year))
    {
      FindsByYear(entry.year);
      DropSize(lru, entry.year);
      DropKeepsDistinct(lru, entry.year);
      ghost var before := lru;
      bytes := bytes - entry.size;
      entries := entries - {entry.year};
      lru := Drop(lru, entry.year);
      assert |entries| == |lru|;
    }

    method MoveToFront(entry: Entry)
      requires Valid() && entry in lru
      modifies this
      ensures Valid()
      ensures View() == old(View()).(lru := [entry] + Drop(old(lru), entry.year))
    {
      FindsByYear(entry.year);
      LookupKeepsBounded(View(), entry.year, entry.raw, true, generation, limits);
      DropSize(lru, entry.year);
      TotalSizeFront(entry, Drop(lru, entry.year));
      lru := [entry] + Drop(lru, entry.year);
    }

    method Lookup(year: int, raw: Bytes, present: bool, generation: nat) returns (shows: Option<seq<Show>>)
      requires Valid()
      modifies this
      ensures Valid()
      ensures View() == LookupState(old(View()), year, raw, present, generation)
      ensures shows == LookupHit(old(View()), year, raw, present)
    {
      FindsByYear(year);
      if year in entries {
        var entry := entries[year];
        if present && raw == entry.raw {
          MoveToFront(entry);
          return Some(entry.shows);
        }
        if generation == this.generation {
          Remove(entry);
        }
      }
      return None;
    }

    /** The eviction loop; the list is never empty when its back is asked for. */
    method MakeRoom(size: int)
      requires Valid() && 0 < limits.maxYears && size <= limits.maxBytes
      modifies this
      ensures Valid()
      ensures View() == old(View()).(lru := Evicted(old(lru), size, limits))
    {
      while |entries| >= limits.maxYears || bytes + size > limits.maxBytes
        invariant Valid()
        invariant View() == old(View()).(lru := lru)
        invariant Evicted(lru, size, limits) == Evicted(old(lru), size, limits)
        decreases |lru|
      {
        var back := lru[|lru| - 1];
        DropBack(lru);
        Remove(back);
      }
    }

    method PushFront(entry: Entry)
      requires Valid() && entry.year !in entries
      requires Bounded(View().(lru := [entry] + lru), limits)
      modifies this
      ensures Valid()
      ensures View() == old(View()).(lru := [entry] + old(lru))
    {
      TotalSizeFront(entry, lru);
      IndexedFront(entries, lru, entry);
      entries := entries[entry.year := entry];
      lru := [entry] + lru;
      bytes := bytes + entry.size;
    }

    method Admit(entry: Entry, generation: nat)
      requires Valid() && 0 < entry.size
      modifies this
      ensures Valid()
      ensures View() == AdmitState(old(View()), entry, generation, limits)
    {
      if closed || generation != this.generation || limits.maxYears <= 0 || entry.size > limits.maxBytes {
        return;
      }
      AdmitKeepsBounded(View(), entry, generation, limits);
      FindsByYear(entry.year);
      if entry.year in entries {
        Remove(entries[entry.year]);
      } else {
        DropAbsent(lru, entry.year);
      }
      MakeRoom(entry.size);
      AdmittedIsNew(old(View()), entry, generation, limits);
      PushFront(entry);
    }

    method Invalidate(year: int, all: bool, closing: bool)
      requires Valid() && (closing ==> all)
      modifies this
      ensures Valid()
      ensures View() == InvalidateState(old(View()), year, all, closing)
    {
      InvalidateKeepsBounded(View(), year, all, closing, limits);
      FindsByYear(year);
      if all {
        entries, lru, bytes := map[], [], 0;
      } else if year in entries {
        Remove(entries[year]);
      } else {
        DropAbsent(lru, year);
      }
      generation := generation + 1;
      closed := closed || closing;
    }
  }

  lemma {:induction false} DropAbsent(s: seq<Entry>, year: int)
    requires forall e :: e in s ==> e.year != year
    ensures Drop(s, year) == s
  {
    if s != [] {
      DropAbsent(s[1..], year);
      assert s == [s[0]] + s[1..];
    }
  }

  lemma {:induction false} DropBack(s: seq<Entry>)
    requires s != [] && DistinctYears(s)
    ensures Drop(s, s[|s| - 1].year) == s[..|s| - 1]
  {
    if |s| > 1 {
      DropBack(s[1..]);
      assert s[..|s| - 1] == [s[0]] + s[1..][..|s| - 2];
    }
  }
}
