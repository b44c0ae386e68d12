/**
 Promotion of a verified image to its release tags (scripts/release_image.py), as writes to a
 registry that may stop after any prefix. Promotions are serialised; a digest names its image.
 */
module Promotion {
  import opened Basics
  import opened GoStrings
  import opened ReleaseTags

  type Digest = string

  // ------------------------------------------------------------------ alias tracks

  datatype Track = MinorTrack | MajorTrack | LatestTrack

  const TRACKS := [MinorTrack, MajorTrack, LatestTrack]

  function AliasName(t: Track, v: Version): string {
    match t
    case MinorTrack => "v" + Decimal(v.major) + "." + Decimal(v.minor)
    case MajorTrack => "v" + Decimal(v.major)
    case LatestTrack => "latest"
  }

  predicate SameTrack(t: Track, v: Version, w: Version) {
    match t
    case MinorTrack => v.major == w.major && v.minor == w.minor
    case MajorTrack => v.major == w.major
    case LatestTrack => true
  }

  /** An alias never reads as a full version, so it cannot take a full tag's place. */
  lemma AliasIsNotStable(t: Track, v: Version)
    ensures !Stable(AliasName(t, v))
  {
    DecimalIsNumeral(v.major);
    DecimalIsNumeral(v.minor);
    var name := AliasName(t, v);
    match t
    case MinorTrack =>
      assert name[1..] == Decimal(v.major) + ['.'] + Decimal(v.minor);
      CutAfterPrefix(Decimal(v.major), Decimal(v.minor), '.');
      NoCut(Decimal(v.minor), '.');
    case MajorTrack =>
      assert name[1..] == Decimal(v.major);
      NoCut(Decimal(v.major), '.');
    case LatestTrack =>
  }

  /** The aliases of a version are its tag without the patch, without the minor as well, and `latest`. */
  lemma TagExtendsItsAliases(v: Version)
    ensures Render(v) == AliasName(MinorTrack, v) + "." + Decimal(v.patch)
    ensures AliasName(MinorTrack, v) == AliasName(MajorTrack, v) + "." + Decimal(v.minor)
    ensures AliasName(MajorTrack, v) == "v" + Decimal(v.major) && AliasName(LatestTrack, v) == "latest"
  {
  }

  lemma DecimalIsInjective(n: nat, m: nat)
    requires Decimal(n) == Decimal(m)
    ensures n == m
  {
    DecimalRoundTrip(n);
    DecimalRoundTrip(m);
  }

  /** An alias names one track, and the part of the version that track fixes. */
  lemma AliasNamesItsTrack(t: Track, v: Version, u: Track, w: Version)
    requires AliasName(t, v) == AliasName(u, w)
    ensures t == u && SameTrack(t, v, w)
  {
    var name := AliasName(t, v);
    if t == LatestTrack || u == LatestTrack {
      assert name[0] == 'l';
      return;
    }
    AliasCut(t, v);
    AliasCut(u, w);
    DecimalIsInjective(v.major, w.major);
    if t == MinorTrack {
      DecimalIsInjective(v.minor, w.minor);
    }
  }

  lemma AliasCut(t: Track, v: Version)
    requires t != LatestTrack
    ensures Cut(AliasName(t, v)[1..], '.') ==
      Cutting(Decimal(v.major), if t == MinorTrack then Decimal(v.minor) else "", t == MinorTrack)
  {
    DecimalIsNumeral(v.major);
    var rest := AliasName(t, v)[1..];
    if t == MinorTrack {
      assert rest == Decimal(v.major) + ['.'] + Decimal(v.minor);
      CutAfterPrefix(Decimal(v.major), Decimal(v.minor), '.');
    } else {
      assert rest == Decimal(v.major);
      NoCut(rest, '.');
    }
  }

  // ------------------------------------------------------------------ eligibility

  /** How a tag's version is read; the script's reader is `Reading()`. */
  type Reader = string -> Option<Version>

  /** What the rest needs of the reader: no two tags share a version, and no alias has one. */
  ghost predicate Faithful(read: Reader) {
    && Injective(read)
    && forall t, v :: read(AliasName(t, v)).None?
  }

  lemma ReadVersionIsFaithful()
    ensures Faithful(Reading())
  {
    ReadingIsInjective();
    forall t, v ensures Reading()(AliasName(t, v)).None? {
      AliasIsNotStable(t, v);
    }
  }

  predicate AllRead(read: Reader, tags: seq<string>) {
    forall x :: x in tags ==> read(x).Some?
  }

  /** The published tags of the candidate's track, in order. */
  function OnTrack(read: Reader, tags: seq<string>, t: Track, v: Version): (r: seq<string>)
    requires AllRead(read, tags)
    ensures forall x :: x in r <==> x in tags && SameTrack(t, read(x).value, v)
  {
    if tags == [] then []
    else
      var front, last := tags[..|tags| - 1], tags[|tags| - 1];
      assert tags == front + [last];
      OnTrack(read, front, t, v) + (if SameTrack(t, read(last).value, v) then [last] else [])
  }

  /** Python's `max(tags, key=version)`: the first of the highest. */
  function Highest(read: Reader, tags: seq<string>): (r: string)
    requires tags != [] && AllRead(read, tags)
    ensures r in tags
    ensures forall x :: x in tags ==> AtMost(read(x).value, read(r).value)
  {
    var front, last := tags[..|tags| - 1], tags[|tags| - 1];
    assert tags == front + [last];
    if front == [] then last
    else
      var best := Highest(read, front);
      if AtMost(read(last).value, read(best).value) then best else last
  }

  predicate Leads(read: Reader, tag: string, tags: seq<string>, t: Track)
    requires AllRead(read, tags) && tag in tags
  {
    Highest(read, OnTrack(read, tags, t, read(tag).value)) == tag
  }

  /** The tracks whose alias the tag may claim, or None where the script refuses. */
  function EligibleTracks(read: Reader, tag: string, tags: seq<string>): Option<seq<Track>> {
    if read(tag).None? || tag !in tags || !AllRead(read, tags) then None
    else
      Some(Claimed(Leads(read, tag, tags, MinorTrack), Leads(read, tag, tags, MajorTrack), Leads(read, tag, tags, LatestTrack)))
  }

  function Claimed(minor: bool, major: bool, latest: bool): (r: seq<Track>)
    ensures MinorTrack in r <==> minor
    ensures MajorTrack in r <==> major
    ensures LatestTrack in r <==> latest
    ensures minor && major && latest ==> r == TRACKS
  {
    (if minor then [MinorTrack] else []) + (if major then [MajorTrack] else []) + (if latest then [LatestTrack] else [])
  }

  /** No published version of the track is higher. */
  predicate TopsTrack(read: Reader, tags: seq<string>, t: Track, v: Version)
    requires AllRead(read, tags)
  {
    forall x | x in tags :: SameTrack(t, read(x).value, v) ==> AtMost(read(x).value, v)
  }

  lemma LeadsIffTops(read: Reader, tag: string, tags: seq<string>, t: Track)
    requires Faithful(read) && AllRead(read, tags) && tag in tags
    ensures Leads(read, tag, tags, t) <==> TopsTrack(read, tags, t, read(tag).value)
  {
    var track := OnTrack(read, tags, t, read(tag).value);
    var best := Highest(read, track);
    assert tag in track;
    if TopsTrack(read, tags, t, read(tag).value) {
      assert read(best) == read(tag);
    }
  }

  /** A tag may claim an alias exactly when it is published and tops that alias's track. */
  lemma EligibleIffHighestOfTrack(read: Reader, tag: string, tags: seq<string>, t: Track)
    requires Faithful(read)
    ensures EligibleTracks(read, tag, tags).Some? <==> tag in tags && AllRead(read, tags)
    ensures EligibleTracks(read, tag, tags).Some? ==>
      (t in EligibleTracks(read, tag, tags).value <==> TopsTrack(read, tags, t, read(tag).value))
  {
    if EligibleTracks(read, tag, tags).Some? {
      LeadsIffTops(read, tag, tags, t);
    }
  }

  /** Topping a track, number by number. */
  lemma TopsMeans(read: Reader, tags: seq<string>, v: Version)
    requires AllRead(read, tags)
    ensures TopsTrack(read, tags, MinorTrack, v) <==>
      forall x | x in tags && read(x).value.major == v.major && read(x).value.minor == v.minor :: read(x).value.patch <= v.patch
    ensures TopsTrack(read, tags, MajorTrack, v) <==>
      forall x | x in tags && read(x).value.major == v.major :: AtMost(read(x).value, v)
    ensures TopsTrack(read, tags, LatestTrack, v) <==> forall x | x in tags :: AtMost(read(x).value, v)
  {
  }

  /** Whoever may claim `latest` may claim its major and minor aliases. */
  lemma LatestImpliesMajorAndMinor(read: Reader, tag: string, tags: seq<string>)
    requires Faithful(read) && EligibleTracks(read, tag, tags).Some?
    requires LatestTrack in EligibleTracks(read, tag, tags).value
    ensures EligibleTracks(read, tag, tags) == Some(TRACKS)
  {
    LeadsIffTops(read, tag, tags, LatestTrack);
    LeadsIffTops(read, tag, tags, MajorTrack);
    LeadsIffTops(read, tag, tags, MinorTrack);
  }

  // ------------------------------------------------------------------ one promotion

  type Tags = map<string, Digest>

  /** `versionOf` is an image's version label; None when its platforms disagree or it is not stable. */
  type Labels = Digest -> Option<Version>

  /**
   One call: `attested` says the image passes every check but the version label's, `readable` that
   the registry answers, and `stop` after how many writes the call fails, if it does.
   */
  datatype Candidate = Candidate(digest: Digest, tag: string, published: seq<string>,
                                 attested: bool, readable: bool, stop: Option<nat>)

  datatype Preflight = Write | Preserve | Refuse

  /** What the alias points to now decides: nothing, an older or same version, or a newer one. */
  function Inspect(tags: Tags, versionOf: Labels, t: Track, v: Version): Preflight {
    var alias := AliasName(t, v);
    if alias !in tags then Write
    else if versionOf(tags[alias]).None? then Refuse
    else
      var current := versionOf(tags[alias]).value;
      if t != LatestTrack && !SameTrack(t, current, v) then Refuse
      else if !AtMost(current, v) then Preserve
      else Write
  }

  /** The names of the tracks found writable. */
  function Writable(tags: Tags, versionOf: Labels, v: Version, tracks: seq<Track>): (r: seq<string>)
    ensures forall n :: n in r <==> exists t :: t in tracks && AliasName(t, v) == n && Inspect(tags, versionOf, t, v) == Write
  {
    if tracks == [] then []
    else
      var front, last := tracks[..|tracks| - 1], tracks[|tracks| - 1];
      assert tracks == front + [last];
      Writable(tags, versionOf, v, front) + (if Inspect(tags, versionOf, last, v) == Write then [AliasName(last, v)] else [])
  }

  /** The aliases a promotion would write, decided before anything is visible. */
  function Aliases(tags: Tags, versionOf: Labels, read: Reader, c: Candidate): Option<seq<string>> {
    var tracks := EligibleTracks(read, c.tag, c.published);
    if !c.readable || !c.attested || tracks.None? || versionOf(c.digest) != read(c.tag) then None
    else if c.tag in tags && tags[c.tag] != c.digest then None
    else
      var v := read(c.tag).value;
      if exists t :: t in tracks.value && Inspect(tags, versionOf, t, v) == Refuse then None
      else Some(Writable(tags, versionOf, v, tracks.value))
  }

  /** All its writes, the full tag first. */
  function Plan(tags: Tags, versionOf: Labels, read: Reader, c: Candidate): seq<string> {
    match Aliases(tags, versionOf, read, c)
    case None => []
    case Some(aliases) => (if c.tag in tags then [] else [c.tag]) + aliases
  }

  /** How many of `n` writes take effect when `done` came before them. */
  function Reached(stop: Option<nat>, done: nat, n: nat): (k: nat)
    ensures k <= n
  {
    if stop.None? || stop.value >= done + n then n
    else if stop.value <= done then 0
    else stop.value - done
  }

  /** The same value written under each name in turn. */
  function Written<N, D>(tags: map<N, D>, names: seq<N>, digest: D): map<N, D> {
    if names == [] then tags else Written(tags, names[..|names| - 1], digest)[names[|names| - 1] := digest]
  }

  lemma {:induction false} WrittenHas<N, D>(tags: map<N, D>, names: seq<N>, digest: D, n: N)
    ensures n in names ==> n in Written(tags, names, digest) && Written(tags, names, digest)[n] == digest
    ensures n !in names ==> (n in Written(tags, names, digest) <==> n in tags)
    ensures n !in names && n in tags ==> Written(tags, names, digest)[n] == tags[n]
  {
    if names != [] {
      var front := names[..|names| - 1];
      WrittenHas(tags, front, digest, n);
      assert names == front + [names[|names| - 1]];
    }
  }

  lemma WrittenNext<N, D>(tags: map<N, D>, names: seq<N>, i: nat, digest: D)
    requires i < |names|
    ensures Written(tags, names[..i + 1], digest) == Written(tags, names[..i], digest)[names[i] := digest]
  {
    assert names[..i + 1][..i] == names[..i];
  }

  lemma {:induction false} WrittenFirst<N, D>(tags: map<N, D>, first: N, rest: seq<N>, digest: D)
    ensures Written(tags, [first] + rest, digest) == Written(tags[first := digest], rest, digest)
  {
    var all := [first] + rest;
    if rest == [] {
      assert all[..0] == [];
    } else {
      WrittenFirst(tags, first, rest[..|rest| - 1], digest);
      assert all[..|all| - 1] == [first] + rest[..|rest| - 1];
    }
  }

  /** The registry after a promotion that may have stopped early. */
  function After(tags: Tags, versionOf: Labels, read: Reader, c: Candidate): Tags {
    var plan := Plan(tags, versionOf, read, c);
    Written(tags, plan[..Reached(c.stop, 0, |plan|)], c.digest)
  }

  class Registry {
    var tags: Tags

    /** One copy; `done` counts the writes of this promotion that took effect before it. */
    method CopyIndex(name: string, digest: Digest, stop: Option<nat>, done: nat) returns (ok: bool)
      modifies this
      ensures tags == if stop == Some(done) then old(tags) else old(tags)[name := digest]
      ensures ok == (stop != Some(done) && stop != Some(done + 1))
    {
      if stop == Some(done) {
        return false;
      }
      tags := tags[name := digest];
      return stop != Some(done + 1);
    }

    /** The loop over the eligible aliases: reads only. */
    method InspectAliases(versionOf: Labels, v: Version, tracks: seq<Track>) returns (aliases: Option<seq<string>>)
      ensures aliases ==
        if exists t :: t in tracks && Inspect(tags, versionOf, t, v) == Refuse then None
        else Some(Writable(tags, versionOf, v, tracks))
    {
      var names := [];
      for i := 0 to |tracks|
        invariant names == Writable(tags, versionOf, v, tracks[..i])
        invariant forall t :: t in tracks[..i] ==> Inspect(tags, versionOf, t, v) != Refuse
      {
        assert tracks[..i + 1][..i] == tracks[..i];
        match Inspect(tags, versionOf, tracks[i], v) {
          case Refuse => return None;
          case Preserve =>
          case Write => names := names + [AliasName(tracks[i], v)];
        }
      }
      assert tracks[..|tracks|] == tracks;
      return Some(names);
    }

    method WriteAliases(names: seq<string>, digest: Digest, stop: Option<nat>, done: nat) returns (ok: bool)
      requires stop.None? || done == 0 || done < stop.value
      modifies this
      ensures tags == Written(old(tags), names[..Reached(stop, done, |names|)], digest)
      ensures ok <==> stop.None? || done + |names| < stop.value || names == []
    {
      for i := 0 to |names|
        invariant stop.None? || done + i == 0 || done + i < stop.value
        invariant tags == Written(old(tags), names[..i], digest)
      {
        WrittenNext(old(tags), names, i, digest);
        ok := CopyIndex(names[i], digest, stop, done + i);
        if !ok {
          return false;
        }
      }
      assert names[..|names|] == names;
      return true;
    }

    /** The writes of a promotion: the full tag unless it is there, then the aliases. */
    method WriteAll(tag: string, aliases: seq<string>, digest: Digest, stop: Option<nat>) returns (ok: bool)
      modifies this
      ensures var plan := (if tag in old(tags) then [] else [tag]) + aliases;
        && tags == Written(old(tags), plan[..Reached(stop, 0, |plan|)], digest)
        && (ok <==> stop.None? || stop.value > |plan| || plan == [])
    {
      if tag in tags {
        assert [] + aliases == aliases;
        ok := WriteAliases(aliases, digest, stop, 0);
        return;
      }
      ghost var k := Reached(stop, 0, 1 + |aliases|);
      ok := CopyIndex(tag, digest, stop, 0);
      if stop == Some(0) {
        assert ([tag] + aliases)[..k] == [];
        return;
      }
      assert ([tag] + aliases)[..k] == [tag] + aliases[..k - 1];
      WrittenFirst(old(tags), tag, aliases[..k - 1], digest);
      if !ok {
        return;
      }
      ok := WriteAliases(aliases, digest, stop, 1);
    }

    /** Every check and every read comes before the first write. */
    method Prepare(versionOf: Labels, read: Reader, c: Candidate) returns (aliases: Option<seq<string>>)
      ensures aliases == Aliases(tags, versionOf, read, c)
    {
      var tracks := EligibleTracks(read, c.tag, c.published);
      if !c.readable || !c.attested || tracks.None? || versionOf(c.digest) != read(c.tag) {
        return None;
      }
      if c.tag in tags && tags[c.tag] != c.digest {
        return None;
      }
      aliases := InspectAliases(versionOf, read(c.tag).value, tracks.value);
    }

    method Promote(versionOf: Labels, read: Reader, c: Candidate) returns (r: Option<seq<string>>)
      modifies this
      ensures tags == After(old(tags), versionOf, read, c)
      ensures r.Some? ==> r == Aliases(old(tags), versionOf, read, c)
      ensures var plan := Plan(old(tags), versionOf, read, c);
        r.Some? <==> Aliases(old(tags), versionOf, read, c).Some? && (c.stop.None? || c.stop.value > |plan| || plan == [])
    {
      r := Prepare(versionOf, read, c);
      if r.None? {
        return;
      }
      var ok := WriteAll(c.tag, r.value, c.digest, c.stop);
      r := if ok then r else None;
    }
  }

  // ------------------------------------------------------------------ what every promotion keeps

  /** Whatever a promotion changes is in its plan, and its plan is safe. */
  lemma ChangesArePlanned(tags: Tags, versionOf: Labels, read: Reader, c: Candidate, n: string)
    ensures var after := After(tags, versionOf, read, c);
      && (n in tags ==> n in after)
      && (n in after && (n !in tags || after[n] != tags[n]) ==>
        n in Plan(tags, versionOf, read, c) && after[n] == c.digest)
  {
    var plan := Plan(tags, versionOf, read, c);
    WrittenHas(tags, plan[..Reached(c.stop, 0, |plan|)], c.digest, n);
  }

  /** The alias of a track the candidate tops, found pointing at nothing newer. */
  predicate SafeAlias(tags: Tags, versionOf: Labels, published: seq<string>, read: Reader, v: Version, n: string, t: Track)
    requires AllRead(read, published)
  {
    AliasName(t, v) == n && TopsTrack(read, published, t, v) && Inspect(tags, versionOf, t, v) == Write
  }

  lemma AliasesAreSafe(tags: Tags, versionOf: Labels, read: Reader, c: Candidate, n: string)
    requires Faithful(read) && Aliases(tags, versionOf, read, c).Some? && n in Aliases(tags, versionOf, read, c).value
    ensures c.tag in c.published && AllRead(read, c.published)
    ensures exists t :: SafeAlias(tags, versionOf, c.published, read, read(c.tag).value, n, t)
  {
    var v := read(c.tag).value;
    var tracks := EligibleTracks(read, c.tag, c.published).value;
    var t :| t in tracks && AliasName(t, v) == n && Inspect(tags, versionOf, t, v) == Write;
    EligibleIffHighestOfTrack(read, c.tag, c.published, t);
    assert SafeAlias(tags, versionOf, c.published, read, v, n, t);
  }

  /** A planned write is the new full tag, or a safe alias. */
  lemma PlanIsSafe(tags: Tags, versionOf: Labels, read: Reader, c: Candidate, n: string)
    requires Faithful(read) && n in Plan(tags, versionOf, read, c)
    ensures c.tag in c.published && AllRead(read, c.published) && versionOf(c.digest) == read(c.tag)
    ensures (n == c.tag && n !in tags) || exists t :: SafeAlias(tags, versionOf, c.published, read, read(c.tag).value, n, t)
  {
    if n != c.tag || n in tags {
      AliasesAreSafe(tags, versionOf, read, c, n);
    }
  }

  /** A run of promotions, each stopped or not. */
  function AfterAll(tags: Tags, versionOf: Labels, read: Reader, cs: seq<Candidate>): Tags {
    if cs == [] then tags
    else After(AfterAll(tags, versionOf, read, cs[..|cs| - 1]), versionOf, read, cs[|cs| - 1])
  }

  /** A full-version tag, once written, keeps its digest over every run. */
  lemma {:induction false} FullTagsNeverMove(tags: Tags, versionOf: Labels, read: Reader, cs: seq<Candidate>, n: string)
    requires Faithful(read) && read(n).Some? && n in tags
    ensures n in AfterAll(tags, versionOf, read, cs) && AfterAll(tags, versionOf, read, cs)[n] == tags[n]
  {
    if cs != [] {
      var front, c := cs[..|cs| - 1], cs[|cs| - 1];
      var before := AfterAll(tags, versionOf, read, front);
      FullTagsNeverMove(tags, versionOf, read, front, n);
      ChangesArePlanned(before, versionOf, read, c, n);
      if n in Plan(before, versionOf, read, c) {
        PlanIsSafe(before, versionOf, read, c, n);
      }
    }
  }

  lemma OverwriteMovesForward(tags: Tags, versionOf: Labels, read: Reader, c: Candidate, n: string)
    requires Faithful(read) && n in Plan(tags, versionOf, read, c) && n in tags && versionOf(tags[n]).Some?
    ensures versionOf(c.digest).Some? && AtMost(versionOf(tags[n]).value, versionOf(c.digest).value)
  {
    PlanIsSafe(tags, versionOf, read, c, n);
    var t :| SafeAlias(tags, versionOf, c.published, read, read(c.tag).value, n, t);
  }

  /** No tag, alias or full, ever comes to point at an older version, and none disappears. */
  lemma {:induction false} VersionsNeverDecrease(tags: Tags, versionOf: Labels, read: Reader, cs: seq<Candidate>, n: string)
    requires Faithful(read) && n in tags && versionOf(tags[n]).Some?
    ensures var after := AfterAll(tags, versionOf, read, cs);
      n in after && versionOf(after[n]).Some? && AtMost(versionOf(tags[n]).value, versionOf(after[n]).value)
  {
    if cs != [] {
      var front, c := cs[..|cs| - 1], cs[|cs| - 1];
      var before := AfterAll(tags, versionOf, read, front);
      VersionsNeverDecrease(tags, versionOf, read, front, n);
      ChangesArePlanned(before, versionOf, read, c, n);
      if After(before, versionOf, read, c)[n] != before[n] {
        OverwriteMovesForward(before, versionOf, read, c, n);
      }
    }
  }

  /**
   Any tag a promotion changes is the candidate's own new full tag, or an alias of a track on which
   no published version is higher; the digest it gets carries the candidate's version.
   */
  lemma AliasGetsHighestOfItsTrack(tags: Tags, versionOf: Labels, read: Reader, c: Candidate, n: string)
    requires Faithful(read)
    requires var after := After(tags, versionOf, read, c); n in after && (n !in tags || after[n] != tags[n])
    ensures After(tags, versionOf, read, c)[n] == c.digest && versionOf(c.digest) == read(c.tag) && read(c.tag).Some?
    ensures c.tag in c.published && AllRead(read, c.published)
    ensures (n == c.tag && n !in tags) || exists t :: SafeAlias(tags, versionOf, c.published, read, read(c.tag).value, n, t)
  {
    ChangesArePlanned(tags, versionOf, read, c, n);
    PlanIsSafe(tags, versionOf, read, c, n);
  }

  /** The image at `d` is also published under its own full tag. */
  predicate HasFullTag(tags: Tags, versionOf: Labels, read: Reader, d: Digest) {
    exists full :: full in tags && tags[full] == d && read(full).Some? && read(full) == versionOf(d)
  }

  /** Every alias points into its own track, and everything published has its full tag. */
  ghost predicate Coherent(tags: Tags, versionOf: Labels, read: Reader) {
    && (forall t, v | AliasName(t, v) in tags :: InItsTrack(tags, versionOf, t, v))
    && (forall n | n in tags :: HasFullTag(tags, versionOf, read, tags[n]))
  }

  predicate InItsTrack(tags: Tags, versionOf: Labels, t: Track, v: Version)
    requires AliasName(t, v) in tags
  {
    var version := versionOf(tags[AliasName(t, v)]);
    version.Some? && SameTrack(t, version.value, v)
  }

  /** However early a promotion stops, no alias is written before the full tag. */
  lemma FullTagComesFirst(tags: Tags, versionOf: Labels, read: Reader, c: Candidate)
    requires After(tags, versionOf, read, c) != tags
    ensures var after := After(tags, versionOf, read, c); c.tag in after && after[c.tag] == c.digest
  {
    var plan := Plan(tags, versionOf, read, c);
    var k := Reached(c.stop, 0, |plan|);
    WrittenHas(tags, plan[..k], c.digest, c.tag);
    if c.tag !in tags {
      assert k > 0 && plan[..k][0] == c.tag;
    }
  }

  lemma FullTagStays(tags: Tags, versionOf: Labels, read: Reader, c: Candidate, d: Digest)
    requires Faithful(read) && HasFullTag(tags, versionOf, read, d)
    ensures HasFullTag(After(tags, versionOf, read, c), versionOf, read, d)
  {
    var full :| full in tags && tags[full] == d && read(full).Some? && read(full) == versionOf(d);
    assert AfterAll(tags, versionOf, read, [c][..0]) == tags;
    assert AfterAll(tags, versionOf, read, [c]) == After(tags, versionOf, read, c);
    FullTagsNeverMove(tags, versionOf, read, [c], full);
  }

  lemma CoherentTrack(tags: Tags, versionOf: Labels, read: Reader, c: Candidate, t: Track, v: Version)
    requires Faithful(read) && Coherent(tags, versionOf, read) && AliasName(t, v) in After(tags, versionOf, read, c)
    ensures InItsTrack(After(tags, versionOf, read, c), versionOf, t, v)
  {
    var n := AliasName(t, v);
    var after := After(tags, versionOf, read, c);
    ChangesArePlanned(tags, versionOf, read, c, n);
    if n !in tags || after[n] != tags[n] {
      AliasGetsHighestOfItsTrack(tags, versionOf, read, c, n);
      var u :| SafeAlias(tags, versionOf, c.published, read, read(c.tag).value, n, u);
      AliasNamesItsTrack(u, read(c.tag).value, t, v);
    } else {
      assert InItsTrack(tags, versionOf, t, v);
    }
  }

  lemma CoherentFullTag(tags: Tags, versionOf: Labels, read: Reader, c: Candidate, n: string)
    requires Faithful(read) && Coherent(tags, versionOf, read) && n in After(tags, versionOf, read, c)
    ensures HasFullTag(After(tags, versionOf, read, c), versionOf, read, After(tags, versionOf, read, c)[n])
  {
    var after := After(tags, versionOf, read, c);
    ChangesArePlanned(tags, versionOf, read, c, n);
    if n !in tags || after[n] != tags[n] {
      AliasGetsHighestOfItsTrack(tags, versionOf, read, c, n);
      FullTagComesFirst(tags, versionOf, read, c);
    } else {
      FullTagStays(tags, versionOf, read, c, tags[n]);
    }
  }

  /**
   Over every run, however each promotion stops: an alias points into the track it names, and
   whatever it points to is also there under its immutable full tag.
   */
  lemma {:induction false} RegistryStaysCoherent(tags: Tags, versionOf: Labels, read: Reader, cs: seq<Candidate>)
    requires Faithful(read) && Coherent(tags, versionOf, read)
    ensures Coherent(AfterAll(tags, versionOf, read, cs), versionOf, read)
  {
    if cs != [] {
      var front, c := cs[..|cs| - 1], cs[|cs| - 1];
      var before := AfterAll(tags, versionOf, read, front);
      var after := After(before, versionOf, read, c);
      RegistryStaysCoherent(tags, versionOf, read, front);
      forall t, v | AliasName(t, v) in after ensures InItsTrack(after, versionOf, t, v) {
        CoherentTrack(before, versionOf, read, c, t, v);
      }
      forall n | n in after ensures HasFullTag(after, versionOf, read, after[n]) {
        CoherentFullTag(before, versionOf, read, c, n);
      }
    }
  }

  // ------------------------------------------------------------------ what an unstopped promotion does

  /** The candidate is fit to be promoted: attested, labelled as its published tag, and not already another image. */
  predicate Fit(tags: Tags, versionOf: Labels, read: Reader, c: Candidate) {
    && c.readable && c.attested && c.tag in c.published && AllRead(read, c.published)
    && versionOf(c.digest) == read(c.tag)
    && (c.tag in tags ==> tags[c.tag] == c.digest)
  }

  /** The alias has nothing, or something of its own track. */
  predicate Usable(tags: Tags, versionOf: Labels, t: Track, v: Version) {
    AliasName(t, v) in tags ==>
      versionOf(tags[AliasName(t, v)]).Some? && SameTrack(t, versionOf(tags[AliasName(t, v)]).value, v)
  }

  lemma UsableIsNotRefused(tags: Tags, versionOf: Labels, t: Track, v: Version)
    ensures Inspect(tags, versionOf, t, v) != Refuse <==> Usable(tags, versionOf, t, v)
  {
  }

  /** Every alias the candidate may claim is usable. */
  ghost predicate TracksUsable(tags: Tags, versionOf: Labels, read: Reader, c: Candidate)
    requires AllRead(read, c.published) && read(c.tag).Some?
  {
    forall u :: TopsTrack(read, c.published, u, read(c.tag).value) ==> Usable(tags, versionOf, u, read(c.tag).value)
  }

  /** The alias points at a newer version. */
  predicate Newer(tags: Tags, versionOf: Labels, alias: string, v: Version) {
    alias in tags && versionOf(tags[alias]).Some? && !AtMost(versionOf(tags[alias]).value, v)
  }

  /**
   A fit candidate whose aliases are in order and whose writes do not stop gets its full tag, and every
   alias of a track it tops that has nothing or nothing newer; a newer alias stays as it is.
   */
  lemma FitCandidateIsPromoted(tags: Tags, versionOf: Labels, read: Reader, c: Candidate, t: Track)
    requires Faithful(read) && Fit(tags, versionOf, read, c) && c.stop == None
    requires TracksUsable(tags, versionOf, read, c)
    ensures var after := After(tags, versionOf, read, c);
      c.tag in after && after[c.tag] == c.digest
    ensures TopsTrack(read, c.published, t, read(c.tag).value) ==>
      var after, alias := After(tags, versionOf, read, c), AliasName(t, read(c.tag).value);
      && alias in after
      && after[alias] == if Newer(tags, versionOf, alias, read(c.tag).value) then tags[alias] else c.digest
  {
    NothingRefused(tags, versionOf, read, c);
    UnstoppedWritesThePlan(tags, versionOf, read, c, c.tag);
    if c.tag !in tags {
      FullTagPlanned(tags, versionOf, read, c);
    }
    if TopsTrack(read, c.published, t, read(c.tag).value) {
      ClaimedAliasIsWritten(tags, versionOf, read, c, t);
    }
  }

  lemma UnstoppedWritesThePlan(tags: Tags, versionOf: Labels, read: Reader, c: Candidate, n: string)
    requires c.stop == None
    ensures var after, plan := After(tags, versionOf, read, c), Plan(tags, versionOf, read, c);
      && (n in plan ==> n in after && after[n] == c.digest)
      && (n !in plan ==> (n in after <==> n in tags) && (n in tags ==> after[n] == tags[n]))
  {
    var plan := Plan(tags, versionOf, read, c);
    assert plan[..|plan|] == plan;
    WrittenHas(tags, plan, c.digest, n);
  }

  lemma ClaimedAliasIsWritten(tags: Tags, versionOf: Labels, read: Reader, c: Candidate, t: Track)
    requires Faithful(read) && Fit(tags, versionOf, read, c) && c.stop == None
    requires TracksUsable(tags, versionOf, read, c) && TopsTrack(read, c.published, t, read(c.tag).value)
    ensures var after, alias := After(tags, versionOf, read, c), AliasName(t, read(c.tag).value);
      && alias in after
      && after[alias] == if Newer(tags, versionOf, alias, read(c.tag).value) then tags[alias] else c.digest
  {
    var v := read(c.tag).value;
    NothingRefused(tags, versionOf, read, c);
    EligibleIffHighestOfTrack(read, c.tag, c.published, t);
    UsableIsNotRefused(tags, versionOf, t, v);
    AliasPlannedIff(tags, versionOf, read, c, t);
    UnstoppedWritesThePlan(tags, versionOf, read, c, AliasName(t, v));
    WriteIffNotNewer(tags, versionOf, t, v);
  }

  lemma WriteIffNotNewer(tags: Tags, versionOf: Labels, t: Track, v: Version)
    requires Usable(tags, versionOf, t, v)
    ensures Inspect(tags, versionOf, t, v) == Write <==> !Newer(tags, versionOf, AliasName(t, v), v)
  {
  }

  lemma NothingRefused(tags: Tags, versionOf: Labels, read: Reader, c: Candidate)
    requires Faithful(read) && Fit(tags, versionOf, read, c) && TracksUsable(tags, versionOf, read, c)
    ensures EligibleTracks(read, c.tag, c.published).Some?
    ensures Aliases(tags, versionOf, read, c) ==
      Some(Writable(tags, versionOf, read(c.tag).value, EligibleTracks(read, c.tag, c.published).value))
  {
    var v := read(c.tag).value;
    var tracks := EligibleTracks(read, c.tag, c.published).value;
    forall u | u in tracks ensures Inspect(tags, versionOf, u, v) != Refuse {
      EligibleIffHighestOfTrack(read, c.tag, c.published, u);
      UsableIsNotRefused(tags, versionOf, u, v);
    }
  }

  lemma FullTagPlanned(tags: Tags, versionOf: Labels, read: Reader, c: Candidate)
    requires Aliases(tags, versionOf, read, c).Some? && c.tag !in tags
    ensures c.tag in Plan(tags, versionOf, read, c)
  {
    assert Plan(tags, versionOf, read, c)[0] == c.tag;
  }

  /** Two tracks never share an alias, so a planned alias is planned for its own track. */
  lemma AliasPlannedIff(tags: Tags, versionOf: Labels, read: Reader, c: Candidate, t: Track)
    requires Faithful(read) && EligibleTracks(read, c.tag, c.published).Some?
    requires Aliases(tags, versionOf, read, c) ==
      Some(Writable(tags, versionOf, read(c.tag).value, EligibleTracks(read, c.tag, c.published).value))
    ensures var v := read(c.tag).value;
      AliasName(t, v) in Plan(tags, versionOf, read, c) <==>
        t in EligibleTracks(read, c.tag, c.published).value && Inspect(tags, versionOf, t, v) == Write
  {
    var v := read(c.tag).value;
    var name, tracks := AliasName(t, v), EligibleTracks(read, c.tag, c.published).value;
    assert read(name).None? && name != c.tag;
    if name in Writable(tags, versionOf, v, tracks) {
      var u :| u in tracks && AliasName(u, v) == name && Inspect(tags, versionOf, u, v) == Write;
      AliasNamesItsTrack(u, v, t, v);
    }
  }

  /** An unfit candidate, or one with an unusable alias, changes nothing. */
  lemma UnfitCandidateChangesNothing(tags: Tags, versionOf: Labels, read: Reader, c: Candidate)
    requires Faithful(read)
    requires !Fit(tags, versionOf, read, c) || !TracksUsable(tags, versionOf, read, c)
    ensures After(tags, versionOf, read, c) == tags
  {
    if Fit(tags, versionOf, read, c) {
      var v := read(c.tag).value;
      var u :| TopsTrack(read, c.published, u, v) && !Usable(tags, versionOf, u, v);
      EligibleIffHighestOfTrack(read, c.tag, c.published, u);
      UsableIsNotRefused(tags, versionOf, u, v);
      var tracks := EligibleTracks(read, c.tag, c.published).value;
      assert u in tracks && Inspect(tags, versionOf, u, v) == Refuse;
    }
    assert Plan(tags, versionOf, read, c) == [];
  }
}
