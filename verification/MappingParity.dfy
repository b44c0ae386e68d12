/** The streaming parser against the reference, and where the choice of a target is not the maximum. */
module MappingParity {
  import opened Basics
  import opened GoStrings
  import opened JsonTokens
  import opened MappingMeaning
  import MappingParser
  import MappingReference

  /**
   For every document tree, duplicate keys included, both parsers accept or
   both reject, and what they accept gives the same two maps.
   */
  method CheckParserParity(document: Json, trailing: seq<Token>, fold: Folding)
    returns (reference: Option<Mapping>, streaming: Option<Mapping>)
    ensures reference == streaming == MeaningOf(document)
  {
    reference := MappingReference.ReferenceParse(document);
    var dec := new Decoder(Tokens(document) + trailing);
    streaming := MappingParser.ParseAnibridgeJSON(dec, fold, document, trailing);
  }

  // ------------------------------------------------------------------ a wrapped total hides a target

  /** A key that spans the episodes first to last. */
  function Span(first: nat, last: nat): string {
    Decimal(first) + ['-'] + Decimal(last)
  }

  lemma SpanCount(first: nat, last: nat)
    requires 1 <= first <= last <= MAX_INT64
    ensures SourceRangeCount(Span(first, last)) == Some(last - first + 1)
    ensures Atoi(Cut(Span(first, last), '-').before) == Some(first)
  {
    DecimalRoundTrip(first);
    DecimalRoundTrip(last);
    assert !IsDigit('-');
    CutAfterPrefix(Decimal(first), Decimal(last), '-');
  }

  /** A descriptor written for an id and a scope is read back as that id and scope. */
  lemma DescriptorRoundTrip(id: nat, scope: string)
    requires 1 <= id <= MAX_INT64
    ensures TargetOf("tvdb_show:" + (Decimal(id) + [':'] + scope)) == Some(Target(id, scope == "s1"))
  {
    DecimalRoundTrip(id);
    assert !IsDigit(':');
    CutAfterPrefix(Decimal(id), scope, ':');
    var d := "tvdb_show:" + (Decimal(id) + [':'] + scope);
    assert d[|"tvdb_show:"|..] == Decimal(id) + [':'] + scope;
  }

  lemma PairTotal(a: string, b: string, count: string -> Option<int>)
    requires a != b && count(a).Some? && count(b).Some?
    ensures TotalOf({a, b}, count) == Some(Wrap64(count(a).value + count(b).value))
  {
    TotalWithOneMore({}, a, count);
    TotalWithOneMore({} + {a}, b, count);
    WrapAbsorbs(count(a).value, count(b).value);
    assert {} + {a} + {b} == {a, b};
  }

  function Table(a: string, b: string): Json {
    Object([Member(a, Text("")), Member(b, Text(""))])
  }

  lemma TableTotal(a: string, b: string)
    requires a != b && SourceRangeCount(a).Some? && SourceRangeCount(b).Some?
    ensures Depth(Table(a, b)) == 1
    ensures Episodes(Table(a, b)) == Some(Wrap64(SourceRangeCount(a).value + SourceRangeCount(b).value))
  {
    PairTotal(a, b, SourceRangeCount);
    var first, second := Member(a, Text("")), Member(b, Text(""));
    assert [first, second][0] == first && [first, second][1] == second;
    assert Keys([first, second]) == {a, b};
    assert [first, second][1..] == [second] && MembersDepth([second]) == 0;
  }

  lemma OnlyMember(d: string, value: Json)
    ensures LastValues([Member(d, value)]) == map[d := value]
    ensures Depth(Object([Member(d, value)])) == 1 + Depth(value)
  {
    var members := [Member(d, value)];
    assert members[..0] == [] && members[1..] == [];
    assert LastValues([]) == map[] && MembersDepth([]) == 0;
  }

  lemma OnlyCandidate(d: string, c: Candidate)
    requires !c.isS1 && c.episodes < 0 < c.id
    ensures ChoiceAmong(map[d := Some(c)]) == NoTarget
  {
    var graded := map[d := Some(c)];
    assert d in graded && graded[d].value == c;
    assert Candidates(graded, graded.Keys) == {c};
    ChoiceIsMaximumIff({c}, c);
  }

  lemma WrapPast(n: int)
    requires MAX_INT64 < n < TWO_TO_64
    ensures Wrap64(n) == n - TWO_TO_64 < 0
  {
  }

  /** A wrapped total is below the starting best, so an entry whose only target is not a season one gets no target. */
  lemma NegativeTotalHidesTarget(d: string, value: Json, total: int)
    requires TargetOf(d).Some? && !TargetOf(d).value.isS1
    requires Depth(value) < MAX_VALUE_DEPTH && Episodes(value) == Some(total) && total < 0
    ensures ChoiceOf(Object([Member(d, value)])) == NoTarget
  {
    OnlyMember(d, value);
    GradedOnly(d, value, total);
    OnlyCandidate(d, Candidate(TargetOf(d).value.id, total, false));
  }

  lemma GradedOnly(d: string, value: Json, n: int)
    requires TargetOf(d).Some? && Episodes(value) == Some(n)
    ensures Graded(map[d := value]) == map[d := Some(Candidate(TargetOf(d).value.id, n, TargetOf(d).value.isS1))]
  {
  }

  /** Two spans whose lengths add up past the largest int64: the total wraps below zero. */
  lemma OverflowingTable() returns (value: Json)
    ensures Depth(value) == 1 && Episodes(value) == Some(-MAX_INT64)
  {
    var a, b := Span(1, MAX_INT64), Span(2, 3);
    SpanCount(1, MAX_INT64);
    SpanCount(2, 3);
    TableTotal(a, b);
    WrapPast(MAX_INT64 + 2);
    value := Table(a, b);
  }

  /** So for every id there is a document with one well-formed target that is not chosen. */
  lemma OverflowHidesTarget(id: nat) returns (d: string, value: Json)
    requires 1 <= id <= MAX_INT64
    ensures TargetOf(d) == Some(Target(id, false)) && Episodes(value) == Some(-MAX_INT64)
    ensures ChoiceOf(Object([Member(d, value)])) == NoTarget
  {
    d := "tvdb_show:" + (Decimal(id) + [':'] + "s0");
    DescriptorRoundTrip(id, "s0");
    value := OverflowingTable();
    NegativeTotalHidesTarget(d, value, -MAX_INT64);
  }

  /** A whole document: one MAL entry whose only target is well formed, accepted and mapped to nothing. */
  lemma OverflowHidesEntry(mal: nat, id: nat) returns (d: string, value: Json)
    requires 1 <= mal <= MAX_INT64 && 1 <= id <= MAX_INT64
    ensures TargetOf(d) == Some(Target(id, false)) && Episodes(value).Some?
    ensures MeaningOf(Object([Member("mal:" + Decimal(mal), Object([Member(d, value)]))])) == Some(Mapping(map[], map[]))
  {
    d, value := OverflowHidesTarget(id);
    var key := "mal:" + Decimal(mal);
    assert key[4..] == Decimal(mal);
    DecimalRoundTrip(mal);
    assert EntryOf(key) == MalEntry(mal);
    OneMember(Member(key, Object([Member(d, value)])));
  }

  lemma OneMember(m: Member)
    ensures MeaningOf(Object([m])) == WithMember(Mapping(map[], map[]), m)
  {
    var members := [m];
    assert members[0] == m && members[1..] == [];
    match WithMember(Mapping(map[], map[]), m)
    case None =>
    case Some(next) => assert WithMembers(next, []) == Some(next);
  }

  // ------------------------------------------------------------------ a wrapped total loses to a smaller one

  lemma TripleSum(a: string, b: string, c: string, count: string -> Option<int>)
    requires a != b && a != c && b != c && count(a).Some? && count(b).Some? && count(c).Some?
    ensures SumOver({a, b, c}, count) == count(a).value + count(b).value + count(c).value
  {
    assert SumOver({}, count) == 0;
    SumWith({}, count, a);
    SumWith({} + {a}, count, b);
    SumWith({} + {a} + {b}, count, c);
    assert {} + {a} + {b} + {c} == {a, b, c};
  }

  /** A table of well-formed keys: its true total, and the total the parsers compute. */
  lemma FlatTable(members: seq<Member>, total: int)
    requires forall i | 0 <= i < |members| :: members[i].value == Null && SourceRangeCount(members[i].key).Some?
    requires SumOver(Keys(members), SourceRangeCount) == total
    ensures Depth(Object(members)) == 1
    ensures TrueEpisodes(Object(members)) == Some(total) && Episodes(Object(members)) == Some(Wrap64(total))
  {
    MembersDepthFlat(members);
  }

  lemma SpanOf(first: nat, last: nat) returns (k: string)
    requires 1 <= first <= last <= MAX_INT64
    ensures SourceRangeCount(k) == Some(last - first + 1)
  {
    k := Span(first, last);
    SpanCount(first, last);
  }

  /** Keys from 1 to n, from 2 to n and from 1 to 4: 2n + 3 episodes in all. */
  lemma LongKeys(n: nat) returns (members: seq<Member>)
    requires 4 < n - 1 && n <= MAX_INT64
    ensures SumOver(Keys(members), SourceRangeCount) == 2 * n + 3
    ensures forall i | 0 <= i < |members| :: members[i].value == Null && SourceRangeCount(members[i].key).Some?
  {
    var a := SpanOf(1, n);
    var b := SpanOf(2, n);
    var c := SpanOf(1, 4);
    members := ThreeKeys(a, b, c, SourceRangeCount);
  }

  lemma ThreeKeys(a: string, b: string, c: string, count: string -> Option<int>) returns (members: seq<Member>)
    requires count(a).Some? && count(b).Some? && count(c).Some?
    requires count(a) != count(b) && count(a) != count(c) && count(b) != count(c)
    ensures SumOver(Keys(members), count) == count(a).value + count(b).value + count(c).value
    ensures forall i | 0 <= i < |members| :: members[i].value == Null && count(members[i].key).Some?
  {
    members := [Member(a, Null), Member(b, Null), Member(c, Null)];
    TripleSum(a, b, c, count);
    assert members[0].key == a && members[1].key == b && members[2].key == c;
    assert Keys(members) == {a, b, c};
  }

  /** With n the largest int64 the total is 2^64 + 1, which wraps to one. */
  lemma LongTable() returns (value: Json)
    ensures Depth(value) == 1 && TrueEpisodes(value) == Some(TWO_TO_64 + 1) && Episodes(value) == Some(1)
  {
    var members := LongKeys(MAX_INT64);
    value := LongTableOf(members, TWO_TO_64 + 1);
    WrapOnce();
  }

  lemma WrapOnce()
    ensures Wrap64(TWO_TO_64 + 1) == 1
  {
  }

  lemma LongTableOf(members: seq<Member>, total: int) returns (value: Json)
    requires forall i | 0 <= i < |members| :: members[i].value == Null && SourceRangeCount(members[i].key).Some?
    requires SumOver(Keys(members), SourceRangeCount) == total
    ensures Depth(value) == 1 && TrueEpisodes(value) == Some(total) && Episodes(value) == Some(Wrap64(total))
  {
    FlatTable(members, total);
    value := Object(members);
  }

  lemma ShortTable() returns (value: Json)
    ensures Depth(value) == 1 && TrueEpisodes(value) == Some(5) && Episodes(value) == Some(5)
  {
    var a := Span(1, 5);
    SpanCount(1, 5);
    assert SumOver({}, SourceRangeCount) == 0;
    SumWith({}, SourceRangeCount, a);
    assert {} + {a} == {a};
    var members := [Member(a, Null)];
    assert members[0].key == a;
    assert Keys(members) == {a};
    FlatTable(members, 5);
    value := Object(members);
  }

  lemma {:induction false} MembersDepthFlat(members: seq<Member>)
    requires forall i | 0 <= i < |members| :: Depth(members[i].value) == 0
    ensures MembersDepth(members) == 0
  {
    if members != [] {
      MembersDepthFlat(members[1..]);
    }
  }

  lemma TwoMembers(d: string, v: Json, e: string, w: Json)
    requires d != e && Depth(v) == 1 && Depth(w) == 1
    ensures LastValues([Member(d, v), Member(e, w)]) == map[d := v, e := w]
    ensures Depth(Object([Member(d, v), Member(e, w)])) == 2
  {
    var members := [Member(d, v), Member(e, w)];
    assert members[..1] == [Member(d, v)] && members[1..] == [Member(e, w)];
    OnlyMember(d, v);
    OnlyMember(e, w);
  }

  lemma GradedAdd(targets: map<string, Json>, d: string, value: Json, t: Target)
    requires TargetOf(d) == Some(t)
    ensures Graded(targets[d := value]) == Graded(targets)[d := Grade(t, Episodes(value))]
  {
  }

  lemma TrueGradedAdd(targets: map<string, Json>, d: string, value: Json, t: Target)
    requires TargetOf(d) == Some(t)
    ensures TrueGraded(targets[d := value]) == TrueGraded(targets)[d := Grade(t, TrueEpisodes(value))]
  {
  }

  lemma TwoGraded(d: string, v: Json, e: string, w: Json, t: Target, u: Target)
    requires TargetOf(d) == Some(t) && TargetOf(e) == Some(u)
    ensures Graded(map[d := v, e := w]) == map[d := Grade(t, Episodes(v)), e := Grade(u, Episodes(w))]
    ensures TrueGraded(map[d := v, e := w]) == map[d := Grade(t, TrueEpisodes(v)), e := Grade(u, TrueEpisodes(w))]
  {
    assert Graded(map[]) == map[] && TrueGraded(map[]) == map[];
    GradedAdd(map[], d, v, t);
    GradedAdd(map[d := v], e, w, u);
    TrueGradedAdd(map[], d, v, t);
    TrueGradedAdd(map[d := v], e, w, u);
  }

  lemma LargerWins(d: string, e: string, a: Candidate, b: Candidate)
    requires d != e && !a.isS1 && !b.isS1 && a.episodes > b.episodes
    ensures var graded := map[d := Some(a), e := Some(b)];
      && Candidates(graded, graded.Keys) == {a, b} && Maximal({a, b}, a)
  {
    var graded := map[d := Some(a), e := Some(b)];
    assert d in graded && graded[d].value == a && e in graded && graded[e].value == b;
  }

  /** For any two ids, an entry whose target with the most episodes by far loses to one with five. */
  lemma WrappedTotalLoses(a: nat, b: nat) returns (members: seq<Member>)
    requires 1 <= a <= MAX_INT64 && 1 <= b <= MAX_INT64 && a != b
    ensures ChoiceOf(Object(members)) == Chosen(b)
    ensures var graded := TrueGraded(LastValues(members));
      NoneBad(graded, graded.Keys) && Maximal(Candidates(graded, graded.Keys), Candidate(a, TWO_TO_64 + 1, false))
  {
    var d := DescriptorOf(a);
    var e := DescriptorOf(b);
    var v := LongTable();
    var w := ShortTable();
    TwoGraded(d, v, e, w, Target(a, false), Target(b, false));
    TwoMembers(d, v, e, w);
    members := [Member(d, v), Member(e, w)];
    LongEntryLoses(members, d, e, a, b);
  }

  lemma LongEntryLoses(members: seq<Member>, d: string, e: string, a: int, b: int)
    requires d != e && 0 < a && 0 < b && Depth(Object(members)) <= MAX_VALUE_DEPTH
    requires Graded(LastValues(members)) == map[d := Some(Candidate(a, 1, false)), e := Some(Candidate(b, 5, false))]
    requires TrueGraded(LastValues(members)) ==
      map[d := Some(Candidate(a, TWO_TO_64 + 1, false)), e := Some(Candidate(b, 5, false))]
    ensures ChoiceOf(Object(members)) == Chosen(b)
    ensures var graded := TrueGraded(LastValues(members));
      NoneBad(graded, graded.Keys) && Maximal(Candidates(graded, graded.Keys), Candidate(a, TWO_TO_64 + 1, false))
  {
    LongLoses(d, e, a, b);
    ChoiceIsAmongGraded(members);
  }

  lemma DescriptorOf(id: nat) returns (d: string)
    requires 1 <= id <= MAX_INT64
    ensures TargetOf(d) == Some(Target(id, false))
  {
    d := "tvdb_show:" + (Decimal(id) + [':'] + "s0");
    DescriptorRoundTrip(id, "s0");
  }

  lemma ChoiceIsAmongGraded(members: seq<Member>)
    requires Depth(Object(members)) <= MAX_VALUE_DEPTH
    ensures ChoiceOf(Object(members)) == ChoiceAmong(Graded(LastValues(members)))
  {
  }

  lemma LongLoses(d: string, e: string, a: int, b: int)
    requires d != e && 0 < a && 0 < b
    ensures ChoiceAmong(map[d := Some(Candidate(a, 1, false)), e := Some(Candidate(b, 5, false))]) == Chosen(b)
    ensures var graded := map[d := Some(Candidate(a, TWO_TO_64 + 1, false)), e := Some(Candidate(b, 5, false))];
      Maximal(Candidates(graded, graded.Keys), Candidate(a, TWO_TO_64 + 1, false))
  {
    LargerWins(d, e, Candidate(a, TWO_TO_64 + 1, false), Candidate(b, 5, false));
    LargerWins(e, d, Candidate(b, 5, false), Candidate(a, 1, false));
    var graded := map[e := Some(Candidate(b, 5, false)), d := Some(Candidate(a, 1, false))];
    assert map[d := Some(Candidate(a, 1, false)), e := Some(Candidate(b, 5, false))] == graded;
    PlainChoice(graded, Candidate(b, 5, false));
  }
}
