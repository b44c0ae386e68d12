/**
 Stable release tags (scripts/release_image.py): their textual form, the published list, and
 the aliases a tag may claim. Python integers are unbounded, and so are these.
 */
module ReleaseTags {
  import opened Basics
  import opened GoStrings

  datatype Version = Version(major: nat, minor: nat, patch: nat)

  /** Python's tuple order. */
  predicate AtMost(v: Version, w: Version) {
    || v.major < w.major
    || (v.major == w.major && (v.minor < w.minor || (v.minor == w.minor && v.patch <= w.patch)))
  }

  /** `0|[1-9][0-9]*` */
  predicate Numeral(s: string) {
    s != "" && (forall c :: c in s ==> IsDigit(c)) && (s[0] == '0' ==> s == "0")
  }

  datatype Parts = Parts(major: string, minor: string, patch: string)

  function Join(p: Parts): string {
    "v" + p.major + "." + p.minor + "." + p.patch
  }

  lemma JoinShape(a: string, b: string, c: string)
    ensures Join(Parts(a, b, c)) == "v" + (a + ['.'] + (b + ['.'] + c))
  {
  }

  /** The three parts around the first two dots, after the `v`. */
  function SplitTag(tag: string): (r: Option<Parts>)
    ensures r.Some? ==> Join(r.value) == tag
  {
    if tag == "" || tag[0] != 'v' then None
    else
      var first := Cut(tag[1..], '.');
      var second := Cut(first.after, '.');
      if first.found && second.found then
        JoinShape(first.before, second.before, second.after);
        Some(Parts(first.before, second.before, second.after))
      else None
  }

  lemma SplitJoin(p: Parts)
    requires '.' !in p.major && '.' !in p.minor
    ensures SplitTag(Join(p)) == Some(p)
  {
    JoinShape(p.major, p.minor, p.patch);
    assert Join(p)[1..] == p.major + ['.'] + (p.minor + ['.'] + p.patch);
    CutAfterPrefix(p.major, p.minor + ['.'] + p.patch, '.');
    CutAfterPrefix(p.minor, p.patch, '.');
  }

  /** `v(numeral).(numeral).(numeral)`, matched against the whole tag. */
  function ReadVersion(tag: string): Option<Version> {
    match SplitTag(tag)
    case None => None
    case Some(p) =>
      if Numeral(p.major) && Numeral(p.minor) && Numeral(p.patch) then
        Some(Version(DigitsValue(p.major), DigitsValue(p.minor), DigitsValue(p.patch)))
      else None
  }

  function Render(v: Version): string {
    Join(Parts(Decimal(v.major), Decimal(v.minor), Decimal(v.patch)))
  }

  lemma {:induction false} DecimalIsNumeral(n: nat)
    ensures Numeral(Decimal(n)) && '.' !in Decimal(n)
    ensures n > 0 ==> Decimal(n)[0] != '0'
  {
    if n >= 10 {
      DecimalIsNumeral(n / 10);
    }
  }

  /** Without leading zeros there is only one way to write a number. */
  lemma {:induction false} NumeralIsDecimal(s: string)
    requires Numeral(s)
    ensures Decimal(DigitsValue(s)) == s
    ensures s[0] != '0' ==> DigitsValue(s) > 0
  {
    var n := |s| - 1;
    assert IsDigit(s[n]);
    var d := s[n] as int - '0' as int;
    if n == 0 {
      assert DigitsValue(s[..0]) == 0;
      assert s == [s[0]];
    } else {
      assert s[0] != '0' && s[..n][0] == s[0];
      NumeralIsDecimal(s[..n]);
      assert DigitsValue(s) == DigitsValue(s[..n]) * 10 + d;
      assert s == s[..n] + [s[n]];
    }
  }

  lemma {:induction false} NoCut(s: string, sep: char)
    requires sep !in s
    ensures !Cut(s, sep).found
  {
  }

  lemma RenderThenRead(v: Version)
    ensures ReadVersion(Render(v)) == Some(v)
  {
    DecimalIsNumeral(v.major);
    DecimalIsNumeral(v.minor);
    DecimalIsNumeral(v.patch);
    DecimalRoundTrip(v.major);
    DecimalRoundTrip(v.minor);
    DecimalRoundTrip(v.patch);
    SplitJoin(Parts(Decimal(v.major), Decimal(v.minor), Decimal(v.patch)));
  }

  lemma ReadThenRender(tag: string)
    requires ReadVersion(tag).Some?
    ensures Render(ReadVersion(tag).value) == tag
  {
    var p := SplitTag(tag).value;
    NumeralIsDecimal(p.major);
    NumeralIsDecimal(p.minor);
    NumeralIsDecimal(p.patch);
  }

  /** A stable tag and its version determine each other. */
  lemma TagIsItsVersion(tag: string, v: Version)
    ensures ReadVersion(tag) == Some(v) <==> tag == Render(v)
  {
    RenderThenRead(v);
    if ReadVersion(tag) == Some(v) {
      ReadThenRender(tag);
    }
  }

  // ------------------------------------------------------------------ sorting by version

  /** Python's `sorted` over a set of tags with distinct versions: strictly rising. */
  predicate Ascending<T>(read: T -> Option<Version>, tags: seq<T>) {
    && (forall i | 0 <= i < |tags| :: read(tags[i]).Some?)
    && forall i, j | 0 <= i < j < |tags| :: !AtMost(read(tags[j]).value, read(tags[i]).value)
  }

  ghost predicate Injective<T(!new)>(read: T -> Option<Version>) {
    forall s, t | read(s).Some? && read(s) == read(t) :: s == t
  }

  /** Insertion into a rising sequence; a tag already there is not repeated. */
  function Insert<T(==,!new)>(read: T -> Option<Version>, tags: seq<T>, tag: T): (r: seq<T>)
    requires read(tag).Some? && forall i | 0 <= i < |tags| :: read(tags[i]).Some?
    ensures forall t :: t in r <==> t in tags || t == tag
  {
    if tags == [] then [tag]
    else
      var front, last := tags[..|tags| - 1], tags[|tags| - 1];
      assert tags == front + [last];
      if tag == last then tags
      else if AtMost(read(last).value, read(tag).value) then tags + [tag]
      else Insert(read, front, tag) + [last]
  }

  lemma {:induction false} InsertKeepsOrder<T(!new)>(read: T -> Option<Version>, tags: seq<T>, tag: T)
    requires Injective(read) && Ascending(read, tags) && read(tag).Some?
    ensures Ascending(read, Insert(read, tags, tag))
  {
    if tags != [] {
      var front, last := tags[..|tags| - 1], tags[|tags| - 1];
      if tag != last && !AtMost(read(last).value, read(tag).value) {
        InsertKeepsOrder(read, front, tag);
        LastStaysLast(read, front, last, tag, Insert(read, front, tag));
      }
    }
  }

  /** A tag below the last goes somewhere before it. */
  lemma LastStaysLast<T(!new)>(read: T -> Option<Version>, front: seq<T>, last: T, tag: T, r: seq<T>)
    requires read(last).Some? && read(tag).Some? && Ascending(read, front + [last])
    requires !AtMost(read(last).value, read(tag).value)
    requires Ascending(read, r) && forall t :: t in r <==> t in front || t == tag
    ensures Ascending(read, r + [last])
  {
    forall i | 0 <= i < |r| ensures !AtMost(read(last).value, read(r[i]).value) {
      assert r[i] in front || r[i] == tag;
      if r[i] in front {
        var j :| 0 <= j < |front| && front[j] == r[i];
        assert (front + [last])[j] == r[i] && (front + [last])[|front|] == last;
      }
    }
  }

  // ------------------------------------------------------------------ the published list

  datatype Release = Release(tagName: string, draft: Option<bool>, prerelease: Option<bool>, publishedAt: string)

  predicate Stable(tag: string) {
    ReadVersion(tag).Some?
  }

  predicate IsStable(r: Release) {
    r.draft == Some(false) && r.prerelease == Some(false) && r.publishedAt != "" && Stable(r.tagName)
  }

  function Reading(): string -> Option<Version> {
    tag => ReadVersion(tag)
  }

  lemma ReadingIsInjective()
    ensures Injective(Reading())
  {
    forall s, t | Reading()(s).Some? && Reading()(s) == Reading()(t) ensures s == t {
      ReadThenRender(s);
      ReadThenRender(t);
    }
  }

  /** Each stable published tag once, in version order, whatever order the releases came in. */
  function StableReleases(releases: seq<Release>): (r: seq<string>)
    ensures Ascending(Reading(), r)
    ensures forall t :: t in r <==>
      exists x :: x in releases && x.tagName == t
        && x.draft == Some(false) && x.prerelease == Some(false) && x.publishedAt != "" && ReadVersion(t).Some?
  {
    if releases == [] then []
    else
      var last := releases[|releases| - 1];
      assert releases == releases[..|releases| - 1] + [last];
      var r := StableReleases(releases[..|releases| - 1]);
      if IsStable(last) then
        ReadingIsInjective();
        InsertKeepsOrder(Reading(), r, last.tagName);
        Insert(Reading(), r, last.tagName)
      else r
  }

  /** Any release of a later number is later, whatever the numbers behind it. */
  lemma LaterNumbersAreLater(v: Version, w: Version)
    ensures v.major < w.major ==> AtMost(v, w) && !AtMost(w, v)
    ensures v.major == w.major && v.minor < w.minor ==> AtMost(v, w) && !AtMost(w, v)
    ensures v.major == w.major && v.minor == w.minor ==> (AtMost(v, w) <==> v.patch <= w.patch)
  {
  }
}
