/**
 What a mapping document means, stated on its tree with no order of map
 iteration: the last duplicate of a key wins, a surviving target descriptor
 with a bad episode table is an error, and otherwise the best target is chosen.
 */
module MappingMeaning {
  import opened Basics
  import opened GoStrings
  import opened JsonTokens

  datatype Mapping = Mapping(byMAL: map<int, int>, byAniList: map<int, int>)

  /** Last duplicate wins. */
  function LastValues(members: seq<Member>): map<string, Json> {
    if members == [] then map[]
    else
      var last := members[|members| - 1];
      LastValues(members[..|members| - 1])[last.key := last.value]
  }

  function Keys(members: seq<Member>): set<string> {
    set m | m in members :: m.key
  }

  // ------------------------------------------------------------------ episode tables

  /** How many source episodes one range key covers; None when it is malformed. */
  function SourceRangeCount(srcRange: string): Option<int> {
    if srcRange == "" then None
    else
      var c := Cut(srcRange, '-');
      match Atoi(c.before)
      case None => None
      case Some(start) =>
        if start <= 0 then None
        else if !c.found || c.after == "" then Some(1)
        else
          match Atoi(c.after)
          case None => None
          case Some(end) => if end < start then None else Some(end - start + 1)
  }

  /** The total of a set of ranges in 64-bit arithmetic; None when one of them has no count. */
  ghost function TotalOf(ranges: set<string>, count: string -> Option<int>): Option<int> {
    if forall k :: k in ranges ==> count(k).Some? then Some(Wrap64(SumOver(ranges, count))) else None
  }

  lemma TotalWithOneMore(ranges: set<string>, k: string, count: string -> Option<int>)
    requires k !in ranges && TotalOf(ranges, count).Some? && count(k).Some?
    ensures TotalOf(ranges + {k}, count) == Some(Wrap64(TotalOf(ranges, count).value + count(k).value))
  {
    SumWith(ranges, count, k);
    WrapAbsorbs(SumOver(ranges, count), count(k).value);
  }

  lemma SameCountsSameTotal(ranges: set<string>, f: string -> Option<int>, g: string -> Option<int>)
    requires forall k :: k in ranges ==> f(k) == g(k)
    ensures TotalOf(ranges, f) == TotalOf(ranges, g)
  {
    SameTermsSameSum(ranges, f, g);
  }

  lemma TotalTurn(ranges: set<string>, todo: set<string>, k: string, sum: int, count: string -> Option<int>)
    requires k in todo && todo <= ranges && TotalOf(ranges - todo, count) == Some(sum)
    ensures count(k).None? ==> TotalOf(ranges, count) == None
    ensures count(k).Some? ==> TotalOf(ranges - (todo - {k}), count) == Some(Wrap64(sum + count(k).value))
  {
    if count(k).Some? {
      TotalWithOneMore(ranges - todo, k, count);
      assert ranges - (todo - {k}) == (ranges - todo) + {k};
    }
  }

  /** The loop over the range keys of one table, in whatever order the map yields them. */
  method TotalRanges(ranges: set<string>, count: string -> Option<int>) returns (total: Option<int>)
    ensures total == TotalOf(ranges, count)
  {
    var sum := 0;
    var todo := ranges;
    assert ranges - todo == {};
    while todo != {}
      invariant todo <= ranges && TotalOf(ranges - todo, count) == Some(sum)
      decreases |todo|
    {
      var srcRange := Pick(todo);
      TotalTurn(ranges, todo, srcRange, sum, count);
      todo := todo - {srcRange};
      var n := count(srcRange);
      if n.None? {
        return None;
      }
      sum := Wrap64(sum + n.value);
    }
    assert ranges - todo == ranges;
    return Some(sum);
  }

  predicate TextOrNull(j: Json) {
    j.Text? || j.Null?
  }

  /** Every destination decodes into a Go string. */
  predicate WellTyped(members: seq<Member>) {
    forall m :: m in members ==> TextOrNull(m.value)
  }

  /** The episode total of a target's table; None for a semantic error. */
  ghost function Episodes(j: Json): Option<int> {
    match j
    case Null => Some(0)
    case Object(members) =>
      if WellTyped(members) then TotalOf(Keys(members), SourceRangeCount) else None
    case _ => None
  }

  /** A key without a dash is one episode. */
  lemma SingleEpisode(s: string)
    requires '-' !in s
    ensures SourceRangeCount(s) == if Atoi(s).Some? && 0 < Atoi(s).value then Some(1) else None
  {
  }

  /** A key with one spans both ends, or one episode when it ends in the dash. */
  lemma EpisodeRange(first: string, last: string)
    requires '-' !in first
    ensures SourceRangeCount(first + ['-'] + last) ==
      if Atoi(first).None? || Atoi(first).value <= 0 then None
      else if last == "" then Some(1)
      else if Atoi(last).None? || Atoi(last).value < Atoi(first).value then None
      else Some(Atoi(last).value - Atoi(first).value + 1)
  {
    CutAfterPrefix(first, last, '-');
  }

  // ------------------------------------------------------------------ duplicates

  lemma {:induction false} LastDuplicateWins(members: seq<Member>, i: nat)
    requires i < |members| && forall k | i < k < |members| :: members[k].key != members[i].key
    ensures members[i].key in LastValues(members) && LastValues(members)[members[i].key] == members[i].value
  {
    if i < |members| - 1 {
      LastDuplicateWins(members[..|members| - 1], i);
    }
  }

  lemma {:induction false} EveryKeySurvives(members: seq<Member>)
    ensures LastValues(members).Keys == Keys(members)
  {
    if members != [] {
      var n := |members| - 1;
      EveryKeySurvives(members[..n]);
      assert members == members[..n] + [members[n]];
    }
  }

  // ------------------------------------------------------------------ the choice

  datatype Target = Target(id: int, isS1: bool)

  datatype Candidate = Candidate(id: int, episodes: int, isS1: bool)

  /** A usable descriptor, tvdb_show:<id>:<scope> with a positive id. */
  function TargetOf(descriptor: string): (r: Option<Target>)
    ensures r.Some? ==> 0 < r.value.id
  {
    var c := Cut(TrimPrefix(descriptor, "tvdb_show:"), ':');
    var id := Atoi(c.before);
    if !("tvdb_show:" <= descriptor) || !c.found || id.None? || id.value <= 0 then None
    else Some(Target(id.value, c.after == "s1"))
  }

  /** A usable descriptor has this shape. */
  lemma TargetHasShape(d: string)
    requires TargetOf(d).Some?
    ensures var t, c := TargetOf(d).value, Cut(TrimPrefix(d, "tvdb_show:"), ':');
      && d == "tvdb_show:" + (c.before + [':'] + c.after) && ':' !in c.before
      && Atoi(c.before) == Some(t.id) && (t.isS1 <==> c.after == "s1")
  {
    assert d == "tvdb_show:" + d[|"tvdb_show:"|..];
  }

  /** And everything of this shape is usable if its number is positive. */
  lemma ShapeIsTarget(rawID: string, scope: string)
    requires ':' !in rawID
    ensures TargetOf("tvdb_show:" + (rawID + [':'] + scope)) ==
      if Atoi(rawID).Some? && 0 < Atoi(rawID).value then Some(Target(Atoi(rawID).value, scope == "s1")) else None
  {
    var d := "tvdb_show:" + (rawID + [':'] + scope);
    assert d[|"tvdb_show:"|..] == rawID + [':'] + scope;
    CutAfterPrefix(rawID, scope, ':');
  }

  /** Season one first, then more episodes, then the lower id. */
  predicate Beats(a: Candidate, b: Candidate) {
    if a.isS1 != b.isS1 then a.isS1
    else a.episodes > b.episodes || (a.episodes == b.episodes && a.id < b.id)
  }

  /** What both parsers start from. */
  const NOTHING := Candidate(0, -1, false)

  predicate IsBest(candidates: set<Candidate>, best: Candidate) {
    && best in candidates + {NOTHING}
    && (forall c :: c in candidates + {NOTHING} ==> !Beats(c, best))
  }

  lemma BestIsUnique(candidates: set<Candidate>, a: Candidate, b: Candidate)
    requires IsBest(candidates, a) && IsBest(candidates, b)
    ensures a == b
  {
    assert !Beats(a, b) && !Beats(b, a);
  }

  ghost function BestOf(candidates: set<Candidate>): (best: Candidate)
    ensures IsBest(candidates, best)
  {
    if candidates == {} then NOTHING
    else
      assert (forall x :: x in candidates ==> false) ==> candidates == {};
      var c :| c in candidates;
      var others := BestOf(candidates - {c});
      assert candidates == candidates - {c} + {c};
      if Beats(c, others) then c else others
  }

  /** What each usable descriptor contributes: a candidate, or None for a semantic error in its table. */
  ghost function Graded(targets: map<string, Json>): map<string, Option<Candidate>> {
    map d | d in targets && TargetOf(d).Some? :: Grade(TargetOf(d).value, Episodes(targets[d]))
  }

  function Grade(target: Target, episodes: Option<int>): Option<Candidate> {
    if episodes.Some? then Some(Candidate(target.id, episodes.value, target.isS1)) else None
  }

  predicate NoneBad(graded: map<string, Option<Candidate>>, among: set<string>) {
    forall d :: d in graded && d in among ==> graded[d].Some?
  }

  function Candidates(graded: map<string, Option<Candidate>>, among: set<string>): set<Candidate>
    requires NoneBad(graded, among)
  {
    set d | d in graded && d in among :: graded[d].value
  }

  /** The id chosen for one entry, if any. */
  datatype Chosen = Failed | NoTarget | Chosen(id: int)

  ghost function ChoiceAmong(graded: map<string, Option<Candidate>>): Chosen {
    if !NoneBad(graded, graded.Keys) then Failed
    else
      var best := BestOf(Candidates(graded, graded.Keys));
      if best.id > 0 then Chosen(best.id) else NoTarget
  }

  ghost function ChoiceOf(j: Json): Chosen {
    if Depth(j) > MAX_VALUE_DEPTH then Failed
    else
      match j
      case Null => NoTarget
      case Object(members) => ChoiceAmong(Graded(LastValues(members)))
      case _ => Failed
  }

  // ------------------------------------------------------------------ dataset metadata

  datatype DatasetMetadata = DatasetMetadata(schemaVersion: string, generatedOn: string)

  /** strings.EqualFold. */
  type Folding = (string, string) -> bool

  predicate NamesSchema(key: string, fold: Folding) {
    fold(key, "schema_version")
  }

  predicate NamesDate(key: string, fold: Folding) {
    !NamesSchema(key, fold) && fold(key, "generated_on")
  }

  /** The last text under each name; null leaves what was there. */
  function FieldTexts(members: seq<Member>, fold: Folding): DatasetMetadata {
    if members == [] then DatasetMetadata("", "")
    else
      var last := members[|members| - 1];
      var front := FieldTexts(members[..|members| - 1], fold);
      if !last.value.Text? then front
      else if NamesSchema(last.key, fold) then front.(schemaVersion := last.value.s)
      else if NamesDate(last.key, fold) then front.(generatedOn := last.value.s)
      else front
  }

  predicate FieldTyped(m: Member, fold: Folding) {
    NamesSchema(m.key, fold) || NamesDate(m.key, fold) ==> TextOrNull(m.value)
  }

  function MetadataOf(j: Json, fold: Folding): DatasetMetadata {
    if j.Object? then FieldTexts(j.members, fold) else DatasetMetadata("", "")
  }

  /** Null, or an object with no value of a foreign type under a known name. */
  predicate MetadataTyped(j: Json, fold: Folding) {
    j.Null? || (j.Object? && forall m | m in j.members :: FieldTyped(m, fold))
  }

  /** A field holds the text of the last member under its name that has one. */
  lemma {:induction false} LastTextWins(members: seq<Member>, i: nat, fold: Folding)
    requires i < |members| && members[i].value.Text?
    ensures fold(members[i].key, "schema_version")
      && (forall k | i < k < |members| :: fold(members[k].key, "schema_version") ==> !members[k].value.Text?)
      ==> FieldTexts(members, fold).schemaVersion == members[i].value.s
    ensures !fold(members[i].key, "schema_version") && fold(members[i].key, "generated_on")
      && (forall k | i < k < |members| ::
            !fold(members[k].key, "schema_version") && fold(members[k].key, "generated_on") ==> !members[k].value.Text?)
      ==> FieldTexts(members, fold).generatedOn == members[i].value.s
  {
    if i < |members| - 1 {
      LastTextWins(members[..|members| - 1], i, fold);
    }
  }

  // ------------------------------------------------------------------ the document

  datatype Entry = MalEntry(id: int) | AniListEntry(id: int) | Ignored

  function PositiveId(rawID: string): Option<int> {
    match Atoi(rawID)
    case Some(id) => if id > 0 then Some(id) else None
    case None => None
  }

  function EntryOf(key: string): Entry {
    if "mal:" <= key then (
      match PositiveId(key[4..]) case Some(id) => MalEntry(id) case None => Ignored)
    else if "anilist:" <= key then (
      match PositiveId(key[8..]) case Some(id) => AniListEntry(id) case None => Ignored)
    else Ignored
  }

  /** One root property's effect; None rejects the document. */
  ghost function WithMember(acc: Mapping, m: Member): Option<Mapping> {
    match EntryOf(m.key)
    case Ignored => if Depth(m.value) > MAX_VALUE_DEPTH then None else Some(acc)
    case MalEntry(id) => (
      match ChoiceOf(m.value)
      case Failed => None
      case NoTarget => Some(acc)
      case Chosen(tvdb) => Some(acc.(byMAL := acc.byMAL[id := tvdb])))
    case AniListEntry(id) => (
      match ChoiceOf(m.value)
      case Failed => None
      case NoTarget => Some(acc)
      case Chosen(tvdb) => Some(acc.(byAniList := acc.byAniList[id := tvdb])))
  }

  ghost function WithMembers(acc: Mapping, members: seq<Member>): Option<Mapping>
    decreases |members|
  {
    if members == [] then Some(acc)
    else
      match WithMember(acc, members[0])
      case None => None
      case Some(next) => WithMembers(next, members[1..])
  }

  ghost function MeaningOf(document: Json): Option<Mapping> {
    if document.Object? then WithMembers(Mapping(map[], map[]), document.members) else None
  }

  // ------------------------------------------------------------------ the document, member by member

  /** The key is the prefix and text that reads as this positive id. */
  predicate Names(key: string, prefix: string, id: int) {
    prefix <= key && 0 < id && Atoi(key[|prefix|..]) == Some(id)
  }

  /** What a member gives `id`, if its key names it and its value has a choice. */
  ghost function Given(prefix: string, id: int): Member -> Option<int> {
    (m: Member) => if Names(m.key, prefix, id) && ChoiceOf(m.value).Chosen? then Some(ChoiceOf(m.value).id) else None
  }

  /** What the last item that gives anything gives. */
  ghost function LastGiven<T, V>(items: seq<T>, gives: T -> Option<V>): Option<V> {
    if items == [] then None
    else if gives(items[|items| - 1]).Some? then gives(items[|items| - 1])
    else LastGiven(items[..|items| - 1], gives)
  }

  lemma {:induction false} LastGivenFirst<T, V>(items: seq<T>, gives: T -> Option<V>)
    requires items != []
    ensures LastGiven(items, gives) ==
      if LastGiven(items[1..], gives).Some? then LastGiven(items[1..], gives) else gives(items[0])
  {
    if |items| > 1 {
      var front := items[..|items| - 1];
      LastGivenFirst(front, gives);
      assert front[1..] == items[1..][..|items| - 2];
    }
  }

  function Lookup(m: map<int, int>, id: int): Option<int> {
    if id in m then Some(m[id]) else None
  }

  lemma MalIsNotAniList(key: string)
    ensures !("mal:" <= key && "anilist:" <= key)
  {
    if "mal:" <= key {
      assert key[0] == 'm';
    }
  }

  lemma EntryIffNames(key: string, id: int)
    ensures EntryOf(key) == MalEntry(id) <==> Names(key, "mal:", id)
    ensures EntryOf(key) == AniListEntry(id) <==> Names(key, "anilist:", id)
  {
    MalIsNotAniList(key);
  }

  lemma MemberByEntry(acc: Mapping, m: Member, id: int)
    requires WithMember(acc, m).Some?
    ensures var next, choice := WithMember(acc, m).value, ChoiceOf(m.value);
      && Lookup(next.byMAL, id) ==
        (if EntryOf(m.key) == MalEntry(id) && choice.Chosen? then Some(choice.id) else Lookup(acc.byMAL, id))
      && Lookup(next.byAniList, id) ==
        (if EntryOf(m.key) == AniListEntry(id) && choice.Chosen? then Some(choice.id) else Lookup(acc.byAniList, id))
  {
  }

  /** One member overwrites what it gives and leaves the rest. */
  lemma MemberGives(acc: Mapping, m: Member, id: int)
    requires WithMember(acc, m).Some?
    ensures var next, mal, aniList := WithMember(acc, m).value, Given("mal:", id)(m), Given("anilist:", id)(m);
      && Lookup(next.byMAL, id) == (if mal.Some? then mal else Lookup(acc.byMAL, id))
      && Lookup(next.byAniList, id) == (if aniList.Some? then aniList else Lookup(acc.byAniList, id))
  {
    EntryIffNames(m.key, id);
    MemberByEntry(acc, m, id);
  }

  lemma {:induction false} MembersGive(acc: Mapping, members: seq<Member>, id: int, mal: Member -> Option<int>, aniList: Member -> Option<int>)
    requires mal == Given("mal:", id) && aniList == Given("anilist:", id) && WithMembers(acc, members).Some?
    ensures var next := WithMembers(acc, members).value;
      && Lookup(next.byMAL, id) ==
        (if LastGiven(members, mal).Some? then LastGiven(members, mal) else Lookup(acc.byMAL, id))
      && Lookup(next.byAniList, id) ==
        (if LastGiven(members, aniList).Some? then LastGiven(members, aniList) else Lookup(acc.byAniList, id))
    decreases |members|
  {
    if members != [] {
      MemberGives(acc, members[0], id);
      MembersGive(WithMember(acc, members[0]).value, members[1..], id, mal, aniList);
      LastGivenFirst(members, mal);
      LastGivenFirst(members, aniList);
    }
  }

  /**
   For every accepted document and id, each map holds the choice of the last root member whose key is
   its prefix and the id and whose value has a choice, and nothing when there is no such member.
   */
  lemma MapsHoldTheLastChoices(document: Json, id: int)
    requires MeaningOf(document).Some?
    ensures var m := MeaningOf(document).value;
      && Lookup(m.byMAL, id) == LastGiven(document.members, Given("mal:", id))
      && Lookup(m.byAniList, id) == LastGiven(document.members, Given("anilist:", id))
  {
    MembersGive(Mapping(map[], map[]), document.members, id, Given("mal:", id), Given("anilist:", id));
  }

  /** A value under an id must have no failed choice; any other need only be shallow enough. */
  ghost predicate Acceptable(m: Member) {
    if exists id :: Names(m.key, "mal:", id) || Names(m.key, "anilist:", id)
    then ChoiceOf(m.value) != Failed else Depth(m.value) <= MAX_VALUE_DEPTH
  }

  lemma EntryIsNamed(key: string)
    ensures EntryOf(key) != Ignored <==> exists id :: Names(key, "mal:", id) || Names(key, "anilist:", id)
  {
    match EntryOf(key)
    case MalEntry(id) => EntryIffNames(key, id);
    case AniListEntry(id) => EntryIffNames(key, id);
    case Ignored =>
      forall id ensures !Names(key, "mal:", id) && !Names(key, "anilist:", id) {
        EntryIffNames(key, id);
      }
  }

  lemma MemberAccepted(acc: Mapping, m: Member)
    ensures WithMember(acc, m).Some? <==> Acceptable(m)
  {
    EntryIsNamed(m.key);
  }

  lemma {:induction false} MembersAccepted(acc: Mapping, members: seq<Member>)
    ensures WithMembers(acc, members).Some? <==> forall i | 0 <= i < |members| :: Acceptable(members[i])
    decreases |members|
  {
    if members != [] {
      MemberAccepted(acc, members[0]);
      assert forall i | 0 < i < |members| :: members[i] == members[1..][i - 1];
      if WithMember(acc, members[0]).Some? {
        MembersAccepted(WithMember(acc, members[0]).value, members[1..]);
      }
    }
  }

  /** A document is accepted exactly when it is an object of acceptable members. */
  lemma AcceptedIff(document: Json)
    ensures MeaningOf(document).Some? <==>
      document.Object? && forall i | 0 <= i < |document.members| :: Acceptable(document.members[i])
  {
    if document.Object? {
      MembersAccepted(Mapping(map[], map[]), document.members);
    }
  }

  // ------------------------------------------------------------------ the choice is a maximum, exactly when totals stay in range

  /** Adding one more candidate is one turn of the parsers' loop over the descriptors. */
  lemma BestWithOneMore(graded: map<string, Option<Candidate>>, done: set<string>, d: string, best: Candidate)
    requires NoneBad(graded, done) && IsBest(Candidates(graded, done), best)
    requires d in graded && graded[d].Some?
    ensures NoneBad(graded, done + {d})
    ensures IsBest(Candidates(graded, done + {d}), if Beats(graded[d].value, best) then graded[d].value else best)
  {
    assert Candidates(graded, done + {d}) == Candidates(graded, done) + {graded[d].value};
  }

  lemma UnusableChangesNothing(graded: map<string, Option<Candidate>>, done: set<string>, d: string)
    requires NoneBad(graded, done) && d !in graded
    ensures NoneBad(graded, done + {d}) && Candidates(graded, done + {d}) == Candidates(graded, done)
  {
  }

  /** A loop over at least the graded descriptors ends with the choice as its running best. */
  lemma RunningBestIsChoice(graded: map<string, Option<Candidate>>, done: set<string>, best: Candidate)
    requires graded.Keys <= done && NoneBad(graded, done) && IsBest(Candidates(graded, done), best)
    ensures ChoiceAmong(graded) == if best.id > 0 then Chosen(best.id) else NoTarget
  {
    assert Candidates(graded, done) == Candidates(graded, graded.Keys);
    BestIsUnique(Candidates(graded, done), best, BestOf(Candidates(graded, done)));
  }

  lemma BadTargetFails(graded: map<string, Option<Candidate>>, d: string)
    requires d in graded && graded[d].None?
    ensures ChoiceAmong(graded) == Failed
  {
  }

  /** At least as good on season one, then on episodes, then on the lower id. */
  predicate NoBetter(c: Candidate, m: Candidate) {
    && (c.isS1 ==> m.isS1)
    && (c.isS1 == m.isS1 ==> c.episodes < m.episodes || (c.episodes == m.episodes && m.id <= c.id))
  }

  predicate Maximal(candidates: set<Candidate>, m: Candidate) {
    m in candidates && forall c :: c in candidates ==> NoBetter(c, m)
  }

  /**
   With positive ids, the maximum of the int64 totals under (season one, more episodes, lower id) is
   chosen exactly when it is a season one or its wrapped episode total is not
   negative; otherwise nothing is chosen.
   */
  lemma ChoiceIsMaximumIff(candidates: set<Candidate>, m: Candidate)
    requires forall c :: c in candidates ==> 0 < c.id
    requires Maximal(candidates, m)
    ensures BestOf(candidates) == m <==> m.isS1 || 0 <= m.episodes
    ensures BestOf(candidates) != m ==> BestOf(candidates) == NOTHING
  {
    if m.isS1 || 0 <= m.episodes {
      assert IsBest(candidates, m);
      BestIsUnique(candidates, m, BestOf(candidates));
    } else {
      assert forall c :: c in candidates ==> !Beats(c, NOTHING);
      assert IsBest(candidates, NOTHING);
      BestIsUnique(candidates, NOTHING, BestOf(candidates));
    }
  }

  // ------------------------------------------------------------------ the true totals

  /** The number of episodes a table spans, with no wrap; None for a semantic error. */
  ghost function TrueEpisodes(j: Json): Option<int> {
    match j
    case Null => Some(0)
    case Object(members) =>
      if (forall m | m in members :: (m.value.Text? || m.value.Null?) && SourceRangeCount(m.key).Some?)
      then Some(SumOver(Keys(members), SourceRangeCount)) else None
    case _ => None
  }

  /** The candidates with their true totals. */
  ghost function TrueGraded(targets: map<string, Json>): map<string, Option<Candidate>> {
    map d | d in targets && TargetOf(d).Some? :: Grade(TargetOf(d).value, TrueEpisodes(targets[d]))
  }

  lemma {:induction false} CountsAddUp(ranges: set<string>, count: string -> Option<int>)
    requires forall k :: k in ranges && count(k).Some? ==> 0 < count(k).value
    ensures 0 <= SumOver(ranges, count)
    decreases ranges
  {
    if ranges != {} {
      var k := Basics.Member(ranges);
      SumWithout(ranges, count, k);
      CountsAddUp(ranges - {k}, count);
    }
  }

  lemma RangesCountUp(srcRange: string)
    ensures SourceRangeCount(srcRange).Some? ==> 0 < SourceRangeCount(srcRange).value
  {
  }

  lemma TrueTotalUnwraps(j: Json)
    requires TrueEpisodes(j).Some? ==> TrueEpisodes(j).value <= MAX_INT64
    ensures Episodes(j) == TrueEpisodes(j)
    ensures TrueEpisodes(j).Some? ==> 0 <= TrueEpisodes(j).value
  {
    if j.Object? {
      forall k | k in Keys(j.members) ensures SourceRangeCount(k).Some? ==> 0 < SourceRangeCount(k).value {
        RangesCountUp(k);
      }
      CountsAddUp(Keys(j.members), SourceRangeCount);
    }
  }

  /** Every surviving table spans at most the largest int64 of episodes. */
  ghost predicate InRange(targets: map<string, Json>) {
    forall d | d in targets && TargetOf(d).Some? ::
      TrueEpisodes(targets[d]).Some? ==> TrueEpisodes(targets[d]).value <= MAX_INT64
  }

  /** Null has no target; anything else that is not an object, or is too deep, is an error. */
  lemma OnlyObjectsChoose(j: Json)
    ensures Depth(j) <= MAX_VALUE_DEPTH && j.Null? ==> ChoiceOf(j) == NoTarget
    ensures MAX_VALUE_DEPTH < Depth(j) || j.Scalar? || j.Text? || j.Array? ==> ChoiceOf(j) == Failed
  {
  }

  lemma GradesAgree(targets: map<string, Json>)
    requires InRange(targets)
    ensures Graded(targets) == TrueGraded(targets)
    ensures Plain(TrueGraded(targets))
  {
    var graded := TrueGraded(targets);
    forall d | d in graded
      ensures Graded(targets)[d] == graded[d]
      ensures graded[d].Some? ==> 0 < graded[d].value.id && 0 <= graded[d].value.episodes
    {
      TrueTotalUnwraps(targets[d]);
    }
  }

  /** Positive ids, and no total below zero. */
  predicate Plain(graded: map<string, Option<Candidate>>) {
    forall d | d in graded :: graded[d].Some? ==> 0 < graded[d].value.id && 0 <= graded[d].value.episodes
  }

  lemma PlainChoice(graded: map<string, Option<Candidate>>, m: Candidate)
    requires Plain(graded) && NoneBad(graded, graded.Keys) && Maximal(Candidates(graded, graded.Keys), m)
    ensures ChoiceAmong(graded) == Chosen(m.id)
  {
    var candidates := Candidates(graded, graded.Keys);
    forall c | c in candidates ensures 0 < c.id && 0 <= c.episodes {
      var d :| d in graded && graded[d].value == c;
    }
    ChoiceIsMaximumIff(candidates, m);
  }

  lemma NothingToChoose()
    ensures ChoiceAmong(map[]) == NoTarget
  {
    var none: map<string, Option<Candidate>> := map[];
    assert Candidates(none, none.Keys) == {};
  }

  /**
   With every surviving table in range the choice is what the true totals say: an error exactly when
   one of them has a semantic error, otherwise their maximum, or nothing when there is none.
   */
  lemma ChoiceIsTrueMaximum(members: seq<Member>, m: Candidate)
    requires Depth(Object(members)) <= MAX_VALUE_DEPTH && InRange(LastValues(members))
    ensures var graded := TrueGraded(LastValues(members));
      && (ChoiceOf(Object(members)) == Failed <==> !NoneBad(graded, graded.Keys))
      && (NoneBad(graded, graded.Keys) && Maximal(Candidates(graded, graded.Keys), m) ==>
            ChoiceOf(Object(members)) == Chosen(m.id))
      && (graded == map[] ==> ChoiceOf(Object(members)) == NoTarget)
  {
    var targets := LastValues(members);
    GradesAgree(targets);
    var graded := TrueGraded(targets);
    assert ChoiceOf(Object(members)) == ChoiceAmong(graded);
    if NoneBad(graded, graded.Keys) && Maximal(Candidates(graded, graded.Keys), m) {
      PlainChoice(graded, m);
    }
    NothingToChoose();
  }
}
