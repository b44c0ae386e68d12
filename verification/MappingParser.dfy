/**
 The streaming mapping parser (internal/mapping/parse.go). It reads tokens and
 keeps no tree; the ghost parameters say which value of the document the
 decoder stands at.
 */
module MappingParser {
  import opened Basics
  import opened GoStrings
  import opened JsonTokens
  import opened MappingMeaning

  // ------------------------------------------------------------------ standing inside an object

  /** What is left when the decoder stands at member `i` of an object. */
  function Ahead(members: seq<Member>, i: nat, rest: seq<Token>): seq<Token>
    requires i <= |members|
  {
    MemberTokens(members[i..]) + ([Close(true)] + rest)
  }

  lemma EnterObject(members: seq<Member>, rest: seq<Token>)
    ensures var ts := Tokens(Object(members)) + rest;
            ts[0] == Open(true) && ts[1..] == Ahead(members, 0, rest)
  {
    assert members[0..] == members;
  }

  lemma AtMember(members: seq<Member>, i: nat, rest: seq<Token>)
    requires i <= |members|
    ensures var ts := Ahead(members, i, rest);
            && ts != []
            && (i == |members| ==> ts[0] == Close(true) && ts[1..] == rest)
            && (i < |members| ==> ts[0] == TextToken(members[i].key)
                                  && ts[1..] == Tokens(members[i].value) + Ahead(members, i + 1, rest))
  {
    if i < |members| {
      assert members[i..][1..] == members[i + 1..];
      FirstMember(members[i..], [Close(true)] + rest);
    }
  }

  lemma {:induction false} MembersDepthAtMost(members: seq<Member>, bound: nat)
    ensures MembersDepth(members) <= bound <==> forall m :: m in members ==> Depth(m.value) <= bound
  {
    if members != [] {
      MembersDepthAtMost(members[1..], bound);
      assert members == [members[0]] + members[1..];
    }
  }

  /** The decoder's first look at a value. */
  lemma FirstToken(j: Json, rest: seq<Token>)
    ensures var ts := Tokens(j) + rest;
            && ts != [] && !ts[0].Close?
            && (ts[0].NullToken? <==> j.Null?) && (ts[0].TextToken? <==> j.Text?)
            && (ts[0] == Open(true) <==> j.Object?)
            && (j.Null? ==> ts[1..] == rest)
  {
  }

  /** Every member before `i` was within the depth the enclosing values leave. */
  predicate Shallow(members: seq<Member>, i: nat, enclosing: nat)
    requires i <= |members|
  {
    forall m :: m in members[..i] ==> Depth(m.value) + enclosing <= MAX_VALUE_DEPTH
  }

  lemma ShallowNext(members: seq<Member>, i: nat, enclosing: nat)
    requires i < |members| && Shallow(members, i, enclosing)
    ensures Shallow(members, i + 1, enclosing) <==> Depth(members[i].value) + enclosing <= MAX_VALUE_DEPTH
  {
    assert members[..i + 1] == members[..i] + [members[i]];
    assert members[i] in members[..i + 1];
  }

  lemma ShallowIsDepth(members: seq<Member>, enclosing: nat)
    requires 1 <= enclosing <= MAX_VALUE_DEPTH
    ensures Shallow(members, |members|, enclosing) <==> Depth(Object(members)) + (enclosing - 1) <= MAX_VALUE_DEPTH
  {
    MembersDepthAtMost(members, MAX_VALUE_DEPTH - enclosing);
    assert members[..|members|] == members;
  }

  lemma DeepMember(members: seq<Member>, i: nat, enclosing: nat)
    requires i < |members| && 1 <= enclosing <= MAX_VALUE_DEPTH
    requires Depth(members[i].value) + enclosing > MAX_VALUE_DEPTH
    ensures Depth(Object(members)) + (enclosing - 1) > MAX_VALUE_DEPTH
  {
    MembersDepthAtMost(members, MAX_VALUE_DEPTH - enclosing);
    assert members[i] in members;
  }

  // ------------------------------------------------------------------ episode tables

  /** A fatal error stops the parse; a semantic one may be overwritten by a later duplicate. */
  datatype Scan = Fatal | Semantic | Total(episodes: int)

  method ScanEpisodeRanges(dec: Decoder, ghost j: Json, ghost rest: seq<Token>) returns (r: Scan)
    requires dec.rest == Tokens(j) + rest
    modifies dec
    ensures r.Fatal? <==> Depth(j) + 1 > MAX_VALUE_DEPTH
    ensures !r.Fatal? ==> dec.rest == rest
    ensures !r.Fatal? ==> Episodes(j) == if r.Total? then Some(r.episodes) else None
  {
    FirstToken(j, rest);
    var t := dec.Token();
    if t.value.NullToken? {
      return Total(0);
    }
    if t.value != Open(true) {
      SkipIsExact(j, rest, 1);
      var ok := SkipToken(dec, t.value, 1);
      return if ok then Semantic else Fatal;
    }
    EnterObject(j.members, rest);
    var ok, ranges, typesOk := ScanRangeMembers(dec, j.members, rest);
    ShallowIsDepth(j.members, 2);
    if !ok {
      return Fatal;
    }
    if !typesOk {
      return Semantic;
    }
    var total := TotalRanges(ranges, SourceRangeCount);
    return if total.Some? then Total(total.value) else Semantic;
  }

  lemma RangesNext(members: seq<Member>, i: nat)
    requires i < |members|
    ensures Keys(members[..i + 1]) == Keys(members[..i]) + {members[i].key}
    ensures WellTyped(members[..i + 1]) <==> WellTyped(members[..i]) && TextOrNull(members[i].value)
  {
    assert members[..i + 1] == members[..i] + [members[i]];
  }

  /** The token loop over one episode table, through its closing brace. */
  method ScanRangeMembers(dec: Decoder, ghost members: seq<Member>, ghost rest: seq<Token>)
    returns (ok: bool, ranges: set<string>, typesOk: bool)
    requires dec.rest == Ahead(members, 0, rest)
    modifies dec
    ensures ok <==> Shallow(members, |members|, 2)
    ensures ok ==> dec.rest == rest && ranges == Keys(members)
    ensures ok ==> (typesOk <==> WellTyped(members))
  {
    ranges, typesOk := {}, true;
    ghost var i := 0;
    AtMember(members, 0, rest);
    while dec.More()
      invariant i <= |members| && dec.rest == Ahead(members, i, rest)
      invariant dec.rest != [] && (dec.rest[0].Close? <==> i == |members|)
      invariant Shallow(members, i, 2)
      invariant ranges == Keys(members[..i])
      invariant typesOk <==> WellTyped(members[..i])
      decreases |members| - i
    {
      AtMember(members, i, rest);
      ShallowNext(members, i, 2);
      RangesNext(members, i);
      var key := dec.Token();
      ranges := ranges + {key.value.s};
      FirstToken(members[i].value, Ahead(members, i + 1, rest));
      SkipIsExact(members[i].value, Ahead(members, i + 1, rest), 2);
      var t := dec.Token();
      if !t.value.TextToken? && !t.value.NullToken? {
        typesOk := false;
      }
      ok := SkipToken(dec, t.value, 2);
      if !ok {
        DeepMember(members, i, 2);
        ShallowIsDepth(members, 2);
        return;
      }
      i := i + 1;
      AtMember(members, i, rest);
    }
    AtMember(members, i, rest);
    assert members[..i] == members;
    var brace := dec.Token();
    ok := true;
  }

  // ------------------------------------------------------------------ one entry's targets
  // A summary is a candidate, or None for a semantic error that a later duplicate may replace.

  method ExtractTVDB(dec: Decoder, ghost j: Json, ghost rest: seq<Token>) returns (r: Chosen)
    requires dec.rest == Tokens(j) + rest
    modifies dec
    ensures r == ChoiceOf(j)
    ensures !r.Failed? ==> dec.rest == rest
  {
    FirstToken(j, rest);
    var t := dec.Token();
    if t.value.NullToken? {
      return NoTarget;
    }
    if t.value != Open(true) {
      return Failed;
    }
    EnterObject(j.members, rest);
    var ok, summaries := SummarizeTargets(dec, j.members, rest);
    ShallowIsDepth(j.members, 1);
    if !ok {
      return Failed;
    }
    r := ChooseSummary(summaries);
  }

  /** The token loop over one entry's descriptors, through the closing brace. */
  method SummarizeTargets(dec: Decoder, ghost members: seq<Member>, ghost rest: seq<Token>)
    returns (ok: bool, summaries: map<string, Option<Candidate>>)
    requires dec.rest == Ahead(members, 0, rest)
    modifies dec
    ensures ok <==> Shallow(members, |members|, 1)
    ensures ok ==> dec.rest == rest && summaries == Graded(LastValues(members))
  {
    summaries := map[];
    ghost var i := 0;
    AtMember(members, 0, rest);
    while dec.More()
      invariant i <= |members| && dec.rest == Ahead(members, i, rest)
      invariant dec.rest != [] && (dec.rest[0].Close? <==> i == |members|)
      invariant Shallow(members, i, 1)
      invariant summaries == Graded(LastValues(members[..i]))
      decreases |members| - i
    {
      AtMember(members, i, rest);
      ShallowNext(members, i, 1);
      ghost var later := Ahead(members, i + 1, rest);
      LastValueNext(members, i);
      var key := dec.Token();
      ok, summaries := SummarizeMember(dec, key.value.s, summaries, members[i].value, later, LastValues(members[..i]));
      if !ok {
        DeepMember(members, i, 1);
        ShallowIsDepth(members, 1);
        return;
      }
      i := i + 1;
      AtMember(members, i, rest);
    }
    AtMember(members, i, rest);
    assert members[..i] == members;
    var brace := dec.Token();
    ok := true;
  }

  /** One descriptor and its value; a duplicate replaces the earlier summary. */
  method SummarizeMember(dec: Decoder, descriptor: string, before: map<string, Option<Candidate>>,
                         ghost value: Json, ghost later: seq<Token>, ghost targets: map<string, Json>)
    returns (ok: bool, summaries: map<string, Option<Candidate>>)
    requires dec.rest == Tokens(value) + later && before == Graded(targets)
    modifies dec
    ensures ok <==> Depth(value) + 1 <= MAX_VALUE_DEPTH
    ensures ok ==> dec.rest == later && summaries == Graded(targets[descriptor := value])
  {
    FirstToken(value, later);
    SkipIsExact(value, later, 1);
    GradedNext(targets, descriptor, value);
    var target := TargetOf(descriptor);
    if target.None? {
      ok := SkipValue(dec, 1);
      summaries := before;
      return;
    }
    var scan := ScanEpisodeRanges(dec, value, later);
    ok := !scan.Fatal?;
    summaries := before[descriptor := Grade(target.value, if scan.Total? then Some(scan.episodes) else None)];
  }

  lemma GradedNext(targets: map<string, Json>, d: string, value: Json)
    ensures Graded(targets[d := value]) ==
            if TargetOf(d).Some? then Graded(targets)[d := Grade(TargetOf(d).value, Episodes(value))]
            else Graded(targets)
  {
  }

  lemma LastValueNext(members: seq<Member>, i: nat)
    requires i < |members|
    ensures LastValues(members[..i + 1]) == LastValues(members[..i])[members[i].key := members[i].value]
  {
    assert members[..i + 1][..i] == members[..i];
  }

  /** The choice among the surviving summaries, in whatever order the map yields them. */
  method ChooseSummary(summaries: map<string, Option<Candidate>>) returns (r: Chosen)
    ensures r == ChoiceAmong(summaries)
  {
    var best := NOTHING;
    var todo := summaries.Keys;
    ghost var done: set<string> := {};
    while todo != {}
      invariant done !! todo && done + todo == summaries.Keys
      invariant NoneBad(summaries, done)
      invariant IsBest(Candidates(summaries, done), best)
      decreases |todo|
    {
      var descriptor := Pick(todo);
      todo := todo - {descriptor};
      var candidate := summaries[descriptor];
      if candidate.None? {
        BadTargetFails(summaries, descriptor);
        return Failed;
      }
      BestWithOneMore(summaries, done, descriptor, best);
      done := done + {descriptor};
      if candidate.value.isS1 != best.isS1 {
        if candidate.value.isS1 {
          best := candidate.value;
        }
        continue;
      }
      if candidate.value.episodes > best.episodes
         || (candidate.value.episodes == best.episodes && candidate.value.id < best.id) {
        best := candidate.value;
      }
    }
    RunningBestIsChoice(summaries, done, best);
    return if best.id > 0 then Chosen(best.id) else NoTarget;
  }

  // ------------------------------------------------------------------ the document

  lemma MetadataNext(members: seq<Member>, i: nat, fold: Folding)
    requires i < |members|
    ensures FieldTexts(members[..i + 1], fold) == FieldTexts(members[..i] + [members[i]], fold)
    ensures (forall m | m in members[..i + 1] :: FieldTyped(m, fold)) <==>
      && (forall m | m in members[..i] :: FieldTyped(m, fold))
      && FieldTyped(members[i], fold)
  {
    assert members[..i + 1] == members[..i] + [members[i]];
  }

  /** The informational value is read field by field; only its depth can reject it. */
  method ParseDatasetMetadata(dec: Decoder, fold: Folding, ghost j: Json, ghost rest: seq<Token>)
    returns (ok: bool, metadata: DatasetMetadata, typed: bool)
    requires dec.rest == Tokens(j) + rest
    modifies dec
    ensures ok <==> Depth(j) <= MAX_VALUE_DEPTH
    ensures ok ==> dec.rest == rest && metadata == MetadataOf(j, fold) && (typed <==> MetadataTyped(j, fold))
  {
    metadata, typed := DatasetMetadata("", ""), true;
    FirstToken(j, rest);
    SkipIsExact(j, rest, 0);
    var t := dec.Token();
    if t.value.NullToken? {
      return true, metadata, typed;
    }
    if t.value != Open(true) {
      ok := SkipToken(dec, t.value, 0);
      typed := false;
      return;
    }
    EnterObject(j.members, rest);
    ShallowIsDepth(j.members, 1);
    ok, metadata, typed := ParseMetadataMembers(dec, fold, j.members, rest);
  }

  /** The token loop over the fields, through the closing brace. */
  method ParseMetadataMembers(dec: Decoder, fold: Folding, ghost members: seq<Member>, ghost rest: seq<Token>)
    returns (ok: bool, metadata: DatasetMetadata, typed: bool)
    requires dec.rest == Ahead(members, 0, rest)
    modifies dec
    ensures ok <==> Shallow(members, |members|, 1)
    ensures ok ==> dec.rest == rest && metadata == FieldTexts(members, fold)
    ensures ok ==> (typed <==> forall m | m in members :: FieldTyped(m, fold))
  {
    metadata, typed := DatasetMetadata("", ""), true;
    ghost var i := 0;
    AtMember(members, 0, rest);
    while dec.More()
      invariant i <= |members| && dec.rest == Ahead(members, i, rest)
      invariant dec.rest != [] && (dec.rest[0].Close? <==> i == |members|)
      invariant Shallow(members, i, 1)
      invariant metadata == FieldTexts(members[..i], fold)
      invariant typed <==> forall m | m in members[..i] :: FieldTyped(m, fold)
      decreases |members| - i
    {
      AtMember(members, i, rest);
      ShallowNext(members, i, 1);
      MetadataNext(members, i, fold);
      ok, metadata, typed :=
        ParseMetadataField(dec, fold, metadata, typed, members[..i], members[i], Ahead(members, i + 1, rest));
      if !ok {
        DeepMember(members, i, 1);
        ShallowIsDepth(members, 1);
        return;
      }
      i := i + 1;
      AtMember(members, i, rest);
    }
    AtMember(members, i, rest);
    assert members[..i] == members;
    var brace := dec.Token();
    ok := true;
  }

  /** One turn of that loop: a key and its value. */
  method ParseMetadataField(dec: Decoder, fold: Folding, before: DatasetMetadata, typedBefore: bool,
                            ghost earlier: seq<Member>, ghost m: Member, ghost later: seq<Token>)
    returns (ok: bool, metadata: DatasetMetadata, typed: bool)
    requires before == FieldTexts(earlier, fold)
    requires dec.rest == [TextToken(m.key)] + (Tokens(m.value) + later)
    modifies dec
    ensures ok <==> Depth(m.value) + 1 <= MAX_VALUE_DEPTH
    ensures ok ==> dec.rest == later
    ensures metadata == FieldTexts(earlier + [m], fold)
    ensures typed <==> typedBefore && FieldTyped(m, fold)
  {
    metadata, typed := before, typedBefore;
    FirstToken(m.value, later);
    SkipIsExact(m.value, later, 1);
    assert (earlier + [m])[..|earlier|] == earlier;
    var key := dec.Token();
    var field := dec.Token();
    var isSchema := NamesSchema(key.value.s, fold);
    var isDate := NamesDate(key.value.s, fold);
    if (isSchema || isDate) && !field.value.NullToken? {
      if field.value.TextToken? {
        metadata := if isSchema then metadata.(schemaVersion := field.value.s) else metadata.(generatedOn := field.value.s);
      } else {
        typed := false;
      }
    }
    ok := SkipToken(dec, field.value, 1);
  }

  /** One root property's value, after its key. */
  method ParseEntry(dec: Decoder, fold: Folding, key: string, mal: map<int, int>, aniList: map<int, int>,
                    ghost value: Json, ghost later: seq<Token>)
    returns (ok: bool, byMAL: map<int, int>, byAniList: map<int, int>)
    requires dec.rest == Tokens(value) + later
    modifies dec
    ensures WithMember(Mapping(mal, aniList), Member(key, value)) ==
            if ok then Some(Mapping(byMAL, byAniList)) else None
    ensures ok ==> dec.rest == later
  {
    byMAL, byAniList := mal, aniList;
    FirstToken(value, later);
    SkipIsExact(value, later, 0);
    match EntryOf(key) {
      case MalEntry(id) =>
        var chosen := ExtractTVDB(dec, value, later);
        ok := !chosen.Failed?;
        if chosen.Chosen? {
          byMAL := byMAL[id := chosen.id];
        }
      case AniListEntry(id) =>
        var chosen := ExtractTVDB(dec, value, later);
        ok := !chosen.Failed?;
        if chosen.Chosen? {
          byAniList := byAniList[id := chosen.id];
        }
      case Ignored =>
        if key == "$meta" {
          var metadata, typed;
          ok, metadata, typed := ParseDatasetMetadata(dec, fold, value, later);
        } else {
          ok := SkipValue(dec, 0);
        }
    }
  }

  /** The whole document; whatever follows it is never read. */
  method ParseAnibridgeJSON(dec: Decoder, fold: Folding, ghost document: Json, ghost trailing: seq<Token>)
    returns (r: Option<Mapping>)
    requires dec.rest == Tokens(document) + trailing
    modifies dec
    ensures r == MeaningOf(document)
    ensures r.Some? ==> dec.rest == trailing
  {
    FirstToken(document, trailing);
    var t := dec.Token();
    if t.value != Open(true) {
      return None;
    }
    ghost var members := document.members;
    EnterObject(members, trailing);
    var byMAL, byAniList := map[], map[];
    ghost var i := 0;
    AtMember(members, 0, trailing);
    assert members[0..] == members;
    while dec.More()
      invariant i <= |members| && dec.rest == Ahead(members, i, trailing)
      invariant dec.rest != [] && (dec.rest[0].Close? <==> i == |members|)
      invariant MeaningOf(document) == WithMembers(Mapping(byMAL, byAniList), members[i..])
      decreases |members| - i
    {
      AtMember(members, i, trailing);
      ghost var value, later := members[i].value, Ahead(members, i + 1, trailing);
      assert members[i..][1..] == members[i + 1..];
      var t := dec.Token();
      var key := t.value.s;
      var ok;
      ok, byMAL, byAniList := ParseEntry(dec, fold, key, byMAL, byAniList, value, later);
      if !ok {
        return None;
      }
      i := i + 1;
      AtMember(members, i, trailing);
    }
    AtMember(members, i, trailing);
    var brace := dec.Token();
    return Some(Mapping(byMAL, byAniList));
  }
}
