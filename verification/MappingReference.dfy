/**
 The tree-decoding parser the streaming one replaced
 (internal/mapping/parse_reference_test.go). Decoding a value into a Go map is
 taken as the library does it: the value's depth is checked, then the last
 duplicate of each key is kept.
 */
module MappingReference {
  import opened Basics
  import opened GoStrings
  import opened JsonTokens
  import opened MappingMeaning

  method ReferenceCountSourceEpisodes(raw: Json) returns (count: Option<int>)
    ensures count == Episodes(raw)
  {
    if raw.Null? {
      return Some(0);
    }
    // Unmarshal into map[string]string: null leaves "", any other type is an error.
    if !raw.Object? || !WellTyped(raw.members) {
      return None;
    }
    count := TotalRanges(Keys(raw.members), ReferenceRangeCount);
    forall k | k in Keys(raw.members) ensures ReferenceRangeCount(k) == SourceRangeCount(k) {
      ReferenceRangeCountAgrees(k);
    }
    SameCountsSameTotal(Keys(raw.members), ReferenceRangeCount, SourceRangeCount);
  }

  /** The reference's own reading of one range, by splitting it in two. */
  function ReferenceRangeCount(srcRange: string): Option<int> {
    if srcRange == "" then None
    else
      var parts := SplitN(srcRange, '-', 2);
      match Atoi(parts[0])
      case None => None
      case Some(start) =>
        if start <= 0 then None
        else if |parts| == 1 || parts[1] == "" then Some(1)
        else
          match Atoi(parts[1])
          case None => None
          case Some(end) => if end < start then None else Some(end - start + 1)
  }

  lemma ReferenceRangeCountAgrees(srcRange: string)
    ensures ReferenceRangeCount(srcRange) == SourceRangeCount(srcRange)
  {
    CutIsSplitInTwo(srcRange, '-');
  }

  /** The reference's own reading of a descriptor, by splitting it in three. */
  method ReferenceTarget(descriptor: string) returns (t: Option<Target>)
    ensures t == TargetOf(descriptor)
  {
    if !("tvdb_show:" <= descriptor) {
      return None;
    }
    SplitAfterPrefix(descriptor);
    var parts := SplitN(descriptor, ':', 3);
    if |parts| < 3 {
      return None;
    }
    var id := Atoi(parts[1]);
    if id.None? || id.value <= 0 {
      return None;
    }
    return Some(Target(id.value, parts[2] == "s1"));
  }

  lemma SplitAfterPrefix(descriptor: string)
    requires "tvdb_show:" <= descriptor
    ensures var c := Cut(TrimPrefix(descriptor, "tvdb_show:"), ':');
            SplitN(descriptor, ':', 3) ==
            if c.found then ["tvdb_show", c.before, c.after] else ["tvdb_show", TrimPrefix(descriptor, "tvdb_show:")]
  {
    var tail := descriptor[|"tvdb_show:"|..];
    assert descriptor == "tvdb_show" + [':'] + tail;
    CutAfterPrefix("tvdb_show", tail, ':');
    CutIsSplitInTwo(tail, ':');
    assert SplitN(descriptor, ':', 3) == ["tvdb_show"] + SplitN(tail, ':', 2);
  }

  method ReferenceExtractTVDB(value: Json) returns (r: Chosen)
    ensures r == ChoiceOf(value)
  {
    if Depth(value) > MAX_VALUE_DEPTH || !(value.Object? || value.Null?) {
      return Failed;
    }
    var targets := if value.Object? then LastValues(value.members) else map[];
    r := ReferenceChoice(targets, Graded(targets));
  }

  /** The loop over the decoded targets, with its running best. */
  method ReferenceChoice(targets: map<string, Json>, ghost graded: map<string, Option<Candidate>>) returns (r: Chosen)
    requires graded.Keys <= targets.Keys
    requires forall d {:trigger GradedRight(graded, targets[d], d)} ::
               d in targets ==> GradedRight(graded, targets[d], d)
    ensures r == ChoiceAmong(graded)
  {
    var best := NOTHING;
    var todo := targets.Keys;
    ghost var done: set<string> := {};
    while todo != {}
      invariant done !! todo && done + todo == targets.Keys
      invariant NoneBad(graded, done)
      invariant IsBest(Candidates(graded, done), best)
      decreases |todo|
    {
      var descriptor := Pick(todo);
      todo := todo - {descriptor};
      var used, ok;
      used, ok, best := ReferenceTurn(descriptor, targets[descriptor], graded, done, best);
      if used && !ok {
        BadTargetFails(graded, descriptor);
        return Failed;
      }
      done := done + {descriptor};
    }
    RunningBestIsChoice(graded, done, best);
    return if best.id > 0 then Chosen(best.id) else NoTarget;
  }

  ghost predicate GradedRight(graded: map<string, Option<Candidate>>, raw: Json, d: string) {
    if TargetOf(d).None? then d !in graded
    else d in graded && graded[d] == Grade(TargetOf(d).value, Episodes(raw))
  }

  /** One turn of that loop. */
  method ReferenceTurn(descriptor: string, raw: Json, ghost graded: map<string, Option<Candidate>>,
                       ghost done: set<string>, before: Candidate)
    returns (used: bool, ok: bool, best: Candidate)
    requires GradedRight(graded, raw, descriptor) && NoneBad(graded, done)
    requires IsBest(Candidates(graded, done), before)
    ensures used <==> descriptor in graded
    ensures used ==> (ok <==> graded[descriptor].Some?)
    ensures !used || ok ==> NoneBad(graded, done + {descriptor}) && IsBest(Candidates(graded, done + {descriptor}), best)
  {
    best := before;
    var target := ReferenceTarget(descriptor);
    used := target.Some?;
    ok := !used;
    if !used {
      UnusableChangesNothing(graded, done, descriptor);
      return;
    }
    var epCount := ReferenceCountSourceEpisodes(raw);
    ok := epCount.Some?;
    if ok {
      BestWithOneMore(graded, done, descriptor, before);
      var tvdbID, isS1 := target.value.id, target.value.isS1;
      if isS1 != best.isS1 {
        if isS1 {
          best := Candidate(tvdbID, epCount.value, true);
        }
      } else if epCount.value > best.episodes || (epCount.value == best.episodes && tvdbID < best.id) {
        best := Candidate(tvdbID, epCount.value, best.isS1);
      }
    }
  }

  /** Depth is the only thing a skipped value, or the informational $meta value, is rejected for. */
  predicate ReferenceSkips(value: Json) {
    Depth(value) <= MAX_VALUE_DEPTH
  }

  method ReferenceParse(document: Json) returns (r: Option<Mapping>)
    ensures r == MeaningOf(document)
  {
    if !document.Object? {
      return None;
    }
    var byMAL, byAniList := map[], map[];
    var i := 0;
    while i < |document.members|
      invariant i <= |document.members|
      invariant MeaningOf(document) == WithMembers(Mapping(byMAL, byAniList), document.members[i..])
    {
      var m := document.members[i];
      assert document.members[i..][1..] == document.members[i + 1..];
      match EntryOf(m.key) {
        case Ignored =>
          if !ReferenceSkips(m.value) {
            return None;
          }
        case MalEntry(id) =>
          var chosen := ReferenceExtractTVDB(m.value);
          if chosen.Failed? {
            return None;
          }
          if chosen.Chosen? {
            byMAL := byMAL[id := chosen.id];
          }
        case AniListEntry(id) =>
          var chosen := ReferenceExtractTVDB(m.value);
          if chosen.Failed? {
            return None;
          }
          if chosen.Chosen? {
            byAniList := byAniList[id := chosen.id];
          }
      }
      i := i + 1;
    }
    return Some(Mapping(byMAL, byAniList));
  }
}
