/**
 The mapping loader (internal/mapping/loader.go): one recorded source, a mapping file and its
 sidecar on disk, an upstream that may fail, and a disk that others may edit.

 SHA-256 is taken to be injective, so a digest is the bytes themselves. What the outside world
 does during a load (reads, downloads, writes, cancellation) is the `Env` of that load.
 */
module MappingLoader {
  import opened Basics
  import opened MappingMeaning

  const DEFAULT_PATH := "/data/anibridge_mappings.json.zst"
  const DEFAULT_URL := "https://github.com/anibridge/anibridge-mappings/releases/download/v3/mappings.json.zst"

  datatype Metadata = Metadata(url: string, etag: string, md5: string)
  const NO_METADATA := Metadata("", "", "")

  datatype Source = Source(path: string, url: string, digest: Bytes, mapping: Mapping)

  datatype Disposition = Loaded | Reused | Fallback
  datatype Selected = Selected(mapping: Mapping, meta: Metadata, disposition: Disposition, digest: Bytes)
  datatype LoadResult = Ok(selected: Selected) | Failure

  datatype Download = Download(data: Bytes, etag: string, md5: string)

  /** What one opened file showed: hashed first, then read again by the parser. None is an error. */
  datatype Inspection = Inspection(hashed: Option<Bytes>, reread: Option<Bytes>)

  /** `meta` None is an unreadable sidecar; `cancelled(k)` answers the k-th look at the context. */
  datatype Env = Env(
    meta: Option<Metadata>, stat: bool, head: Option<string>, fetched: Option<Download>,
    atHead: Inspection, atFetchError: Inspection, atChecksum: Inspection, atParseError: Inspection,
    rehash: Option<Bytes>, parseInterrupted: bool, writeOk: bool, sidecarOk: bool,
    cancelled: nat -> bool)

  type Parser = Bytes -> Option<Mapping>

  datatype World = World(state: Option<Source>, files: map<string, Bytes>, sidecars: map<string, Metadata>)

  predicate Matches(state: Option<Source>, path: string, url: string, digest: Bytes) {
    state.Some? && state.value.path == path && state.value.url == url && state.value.digest == digest
  }

  /** The sidecar or the recorded source says the file at `path` came from another URL. */
  predicate KnownForeign(state: Option<Source>, path: string, url: string, env: Env) {
    || (env.meta.Some? && env.meta.value.url != "" && env.meta.value.url != url)
    || (state.Some? && state.value.path == path && state.value.url != url)
  }

  /** The sidecar as read; an unreadable one is empty. */
  function ReadMeta(env: Env): Metadata {
    if env.meta.Some? then env.meta.value else NO_METADATA
  }

  function NewMeta(url: string, env: Env): Metadata
    requires env.fetched.Some?
  {
    Metadata(url, env.fetched.value.etag, env.fetched.value.md5)
  }

  // ------------------------------------------------------------------ what a load may do

  /**
   Where served bytes come from and what that does to the disk: a download, which the file then
   holds; or the file itself, if not known to be another URL's, vouched for by its ETag, by the
   download's checksum, or by nothing better being available.
   */
  ghost predicate Origin(s: Selected, url: string, meta: Metadata, canUseCache: bool, env: Env, wrote: bool, saved: bool) {
    || (&& env.fetched.Some? && s.digest == env.fetched.value.data
        && (wrote || env.rehash == Some(s.digest)) && saved == env.sidecarOk
        && s.meta == NewMeta(url, env) && s.disposition != Fallback)
    || (&& canUseCache && Some(s.digest) == env.atHead.hashed
        && !wrote && !saved && s.meta == meta && s.disposition != Fallback)
    || (&& canUseCache && env.fetched.Some? && Some(s.digest) == env.atChecksum.hashed
        && !wrote && saved == env.sidecarOk && s.meta == NewMeta(url, env) && s.disposition != Fallback)
    || (&& canUseCache && (Some(s.digest) == env.atFetchError.hashed || Some(s.digest) == env.atParseError.hashed)
        && !wrote && !saved && s.meta == meta && s.disposition == Fallback)
  }

  /** What may be written: a parseable download, and a sidecar for the bytes then on disk. */
  ghost predicate Writes(parse: Parser, canUseCache: bool, env: Env, wrote: bool, saved: bool) {
    && (wrote ==> env.fetched.Some? && parse(env.fetched.value.data).Some? && saved == env.sidecarOk)
    && (saved ==> env.fetched.Some? && (wrote || canUseCache || env.rehash == Some(env.fetched.value.data)))
  }

  predicate Usable(state: Option<Source>, path: string, url: string, env: Env) {
    env.stat && !KnownForeign(state, path, url, env)
  }

  /** Whatever the disk and the network do during the load. */
  ghost predicate LoadEffect(parse: Parser, before: World, after: World, path: string, url: string, env: Env,
                             r: LoadResult, wrote: bool, saved: bool) {
    var usable := Usable(before.state, path, url, env);
    && Writes(parse, usable, env, wrote, saved)
    && after.files == (if wrote then before.files[path := env.fetched.value.data] else before.files)
    && after.sidecars == (if saved then before.sidecars[path := NewMeta(url, env)] else before.sidecars)
    && match r {
      // a failed or cancelled load records nothing
      case Failure => after.state == before.state
      // a successful one returns, and records, the parse of the bytes it names
      case Ok(s) =>
        && parse(s.digest) == Some(s.mapping)
        && after.state == Some(Source(path, url, s.digest, s.mapping))
        && Origin(s, url, ReadMeta(env), usable, env, wrote, saved)
        && (s.disposition == Reused ==> Matches(before.state, path, url, s.digest))
    }
  }

  /** Nobody else touches the disk during the load, and reading it does not fail. */
  ghost predicate Undisturbed(w: World, path: string, env: Env) {
    && env.meta == Some(if path in w.sidecars then w.sidecars[path] else NO_METADATA)
    && env.stat == (path in w.files)
    && (path in w.files ==>
      var seen := Some(w.files[path]);
      && env.atHead == Inspection(seen, seen) && env.atFetchError == Inspection(seen, seen)
      && env.atChecksum == Inspection(seen, seen) && env.atParseError == Inspection(seen, seen)
      && env.rehash == seen)
    && (path !in w.files ==> env.rehash == None)
  }

  ghost predicate Uninterrupted(env: Env) {
    !env.parseInterrupted && env.writeOk && forall k :: !env.cancelled(k)
  }

  ghost function ParseableFile(parse: Parser, w: World, path: string, url: string, env: Env): Option<Bytes> {
    if path in w.files && !KnownForeign(w.state, path, url, env) && parse(w.files[path]).Some?
    then Some(w.files[path]) else None
  }

  /** What a load shows its caller: the bytes it parsed, the metadata it reports and why it chose them. */
  datatype Shown = Shown(digest: Bytes, meta: Metadata, disposition: Disposition)

  /**
   What an undisturbed, uninterrupted load shows: the cached file if upstream vouches for it by its
   ETag, or by the checksum of what came down; otherwise the download; the cached file again when
   nothing usable came down. Recorded bytes are reused, other cached bytes are loaded.
   */
  ghost function Served(parse: Parser, trim: string -> string, w: World, path: string, url: string, env: Env): Option<Shown>
    requires env.meta.Some?
  {
    var file, cached := ParseableFile(parse, w, path, url, env), env.meta.value;
    var again := if file.Some? && Matches(w.state, path, url, file.value) then Reused else Loaded;
    if file.Some? && cached.etag != "" && env.head.Some? && trim(env.head.value) == trim(cached.etag)
    then Some(Shown(file.value, cached, again))
    else FromDownload(parse, w.state, path, url, env, file, cached, again)
  }

  /** The part of it without HEAD. */
  ghost function FromDownload(parse: Parser, state: Option<Source>, path: string, url: string, env: Env,
                              file: Option<Bytes>, cached: Metadata, again: Disposition): Option<Shown> {
    var fallback := if file.Some? then Some(Shown(file.value, cached, Fallback)) else None;
    match env.fetched
    case None => fallback
    case Some(download) =>
      var sent := Metadata(url, download.etag, download.md5);
      if Matches(state, path, url, download.data) then Some(Shown(download.data, sent, Reused))
      else if file.Some? && cached.md5 != "" && cached.md5 == download.md5 then Some(Shown(file.value, sent, again))
      else if parse(download.data).Some? then Some(Shown(download.data, sent, Loaded))
      else fallback
  }

  function ShownBy(r: Option<Selected>): Option<Shown> {
    if r.Some? then Some(Shown(r.value.digest, r.value.meta, r.value.disposition)) else None
  }

  function ResultShown(r: LoadResult): Option<Shown> {
    if r.Ok? then ShownBy(Some(r.selected)) else None
  }

  /** Every look at the file shows the same thing. */
  predicate Steady(env: Env) {
    && env.atHead.reread == env.atHead.hashed
    && env.atFetchError == env.atHead && env.atChecksum == env.atHead && env.atParseError == env.atHead
  }

  function Readable(parse: Parser, seen: Inspection): Option<Bytes> {
    if seen.hashed.Some? && parse(seen.hashed.value).Some? then seen.hashed else None
  }

  /**
   The context was live at the looks before a disk write: after HEAD, after the download, and either
   before a repair or before and after the parse of new bytes.
   */
  predicate StillWanted(env: Env, wrote: bool) {
    && !env.cancelled(1) && !env.cancelled(3)
    && (wrote ==> !env.cancelled(4) || (!env.cancelled(5) && !env.cancelled(7)))
  }

  // ------------------------------------------------------------------ the loader

  class Loader {
    const parse: Parser
    const trim: string -> string
    const validate: string -> Option<string>
    const allowed: string -> bool
    var state: Option<Source>
    var files: map<string, Bytes>
    var sidecars: map<string, Metadata>

    ghost predicate Valid()
      reads this
    {
      state.Some? ==> parse(state.value.digest) == Some(state.value.mapping)
    }

    ghost function Snapshot(): World
      reads this
    {
      World(state, files, sidecars)
    }

    constructor (parse: Parser, trim: string -> string, validate: string -> Option<string>, allowed: string -> bool)
      ensures Valid() && Snapshot() == World(None, map[], map[])
      ensures this.parse == parse && this.trim == trim && this.validate == validate && this.allowed == allowed
    {
      this.parse, this.trim, this.validate, this.allowed := parse, trim, validate, allowed;
      state, files, sidecars := None, map[], map[];
    }

    ghost function Again(file: Option<Bytes>, path: string, url: string): Disposition
      reads this
    {
      if file.Some? && Matches(state, path, url, file.value) then Reused else Loaded
    }

    /** Selects the opened file: reused unparsed if its bytes are the recorded ones. */
    method Local(path: string, url: string, meta: Metadata, disposition: Disposition, seen: Inspection)
      returns (r: Option<Selected>)
      requires Valid() && disposition != Reused
      ensures r.Some? <==>
        && seen.hashed.Some?
        && (Matches(state, path, url, seen.hashed.value)
            || (seen.reread == seen.hashed && parse(seen.hashed.value).Some?))
      ensures r.Some? ==>
        && r.value.digest == seen.hashed.value && parse(r.value.digest) == Some(r.value.mapping)
        && r.value.meta == meta
        && (r.value.disposition == Reused <==> disposition != Fallback && Matches(state, path, url, r.value.digest))
        && (r.value.disposition == disposition || r.value.disposition == Reused)
    {
      if seen.hashed.None? {
        return None;
      }
      var digest := seen.hashed.value;
      if Matches(state, path, url, digest) {
        return Some(Selected(state.value.mapping, meta, if disposition != Fallback then Reused else disposition, digest));
      }
      if seen.reread.None? {
        return None;
      }
      var m := parse(seen.reread.value);
      if m.None? || seen.reread.value != digest {
        return None;
      }
      return Some(Selected(m.value, meta, disposition, digest));
    }

    method SaveSidecar(path: string, meta: Metadata, ok: bool)
      modifies this`sidecars
      ensures sidecars == if ok then old(sidecars)[path := meta] else old(sidecars)
    {
      if ok {
        sidecars := sidecars[path := meta];
      }
    }

    method WriteFile(path: string, data: Bytes, ok: bool)
      modifies this`files
      ensures files == if ok then old(files)[path := data] else old(files)
    {
      if ok {
        files := files[path := data];
      }
    }

    /** The HEAD branch: the cached file, if upstream still advertises its ETag. */
    method FromHead(path: string, url: string, meta: Metadata, canUseCache: bool, env: Env) returns (r: Option<Selected>)
      requires Valid()
      ensures r.Some? ==>
        && parse(r.value.digest) == Some(r.value.mapping) && Origin(r.value, url, meta, canUseCache, env, false, false)
        && (r.value.disposition == Reused ==> Matches(state, path, url, r.value.digest))
        && Some(r.value.digest) == env.atHead.hashed && r.value.meta == meta
        && (r.value.disposition == Reused <==> Matches(state, path, url, r.value.digest))
        && r.value.disposition != Fallback
      ensures r.Some? <==>
        && canUseCache && meta.etag != "" && env.head.Some? && trim(env.head.value) == trim(meta.etag)
        && env.atHead.hashed.Some?
        && (Matches(state, path, url, env.atHead.hashed.value)
            || (env.atHead.reread == env.atHead.hashed && parse(env.atHead.hashed.value).Some?))
    {
      r := None;
      if canUseCache && meta.etag != "" && env.head.Some? && trim(env.head.value) == trim(meta.etag) {
        r := Local(path, url, meta, Loaded, env.atHead);
      }
    }

    /** The branch for a download whose bytes are the recorded ones: the disk is repaired, not trusted. */
    method ReuseDownload(path: string, url: string, env: Env)
      returns (r: Option<Selected>, ghost wrote: bool, ghost saved: bool)
      requires Valid() && env.fetched.Some? && Matches(state, path, url, env.fetched.value.data)
      modifies this`files, this`sidecars
      ensures r.Some? ==>
        && r.value == Selected(state.value.mapping, NewMeta(url, env), Reused, env.fetched.value.data)
        && wrote == (env.rehash != Some(env.fetched.value.data)) && saved == env.sidecarOk
      ensures r.None? ==> !wrote && !saved
      ensures r.Some? <==> !env.cancelled(4) && (env.rehash == Some(env.fetched.value.data) || env.writeOk)
      ensures files == if wrote then old(files)[path := env.fetched.value.data] else old(files)
      ensures sidecars == if saved then old(sidecars)[path := NewMeta(url, env)] else old(sidecars)
    {
      r, wrote, saved := None, false, false;
      var data := env.fetched.value.data;
      if env.cancelled(4) {
        return;
      }
      if env.rehash != Some(data) {
        WriteFile(path, data, env.writeOk);
        if !env.writeOk {
          return;
        }
        wrote := true;
      }
      SaveSidecar(path, NewMeta(url, env), env.sidecarOk);
      saved := env.sidecarOk;
      r := Some(Selected(state.value.mapping, NewMeta(url, env), Reused, data));
    }

    /** The branch for new bytes: the checksum-matched file, the parsed download, or the cached file. */
    method UseDownload(path: string, url: string, meta: Metadata, canUseCache: bool, env: Env)
      returns (r: Option<Selected>, ghost wrote: bool, ghost saved: bool)
      requires Valid() && env.fetched.Some? && !Matches(state, path, url, env.fetched.value.data)
      modifies this`files, this`sidecars
      ensures wrote ==> !env.cancelled(5) && !env.cancelled(7)
      ensures Writes(parse, canUseCache, env, wrote, saved)
      ensures files == if wrote then old(files)[path := env.fetched.value.data] else old(files)
      ensures sidecars == if saved then old(sidecars)[path := NewMeta(url, env)] else old(sidecars)
      ensures r.Some? ==>
        && parse(r.value.digest) == Some(r.value.mapping)
        && Origin(r.value, url, meta, canUseCache, env, wrote, saved)
        && (r.value.disposition == Reused ==> Matches(state, path, url, r.value.digest))
      ensures Uninterrupted(env) && (canUseCache ==> Steady(env)) ==>
        var file := if canUseCache then Readable(parse, env.atChecksum) else None;
        ShownBy(r) == FromDownload(parse, state, path, url, env, file, meta, Again(file, path, url))
    {
      r, wrote, saved := None, false, false;
      var data := env.fetched.value.data;
      var newMeta := NewMeta(url, env);
      if canUseCache && meta.md5 != "" && meta.md5 == newMeta.md5 {
        r := Local(path, url, newMeta, Loaded, env.atChecksum);
        if r.Some? {
          SaveSidecar(path, newMeta, env.sidecarOk);
          saved := env.sidecarOk;
          return;
        }
      }
      if env.cancelled(5) {
        return;
      }
      var m := if env.parseInterrupted then None else parse(data);
      if m.None? {
        if !env.cancelled(6) && canUseCache {
          r := Local(path, url, meta, Fallback, env.atParseError);
        }
        return;
      }
      if env.cancelled(7) {
        return;
      }
      WriteFile(path, data, env.writeOk);
      if !env.writeOk {
        return;
      }
      SaveSidecar(path, newMeta, env.sidecarOk);
      wrote, saved := true, env.sidecarOk;
      r := Some(Selected(m.value, newMeta, Loaded, data));
    }

    /** The rest of a load once HEAD has not settled it. */
    method AfterHead(path: string, url: string, meta: Metadata, canUseCache: bool, env: Env)
      returns (r: Option<Selected>, ghost wrote: bool, ghost saved: bool)
      requires Valid()
      modifies this`files, this`sidecars
      ensures env.cancelled(1) || (env.fetched.Some? && env.cancelled(3)) ==> r.None?
      ensures wrote || saved ==> StillWanted(env, wrote)
      ensures Writes(parse, canUseCache, env, wrote, saved)
      ensures files == if wrote then old(files)[path := env.fetched.value.data] else old(files)
      ensures sidecars == if saved then old(sidecars)[path := NewMeta(url, env)] else old(sidecars)
      ensures r.Some? ==>
        && parse(r.value.digest) == Some(r.value.mapping)
        && Origin(r.value, url, meta, canUseCache, env, wrote, saved)
        && (r.value.disposition == Reused ==> Matches(state, path, url, r.value.digest))
      ensures Uninterrupted(env) && (canUseCache ==> Steady(env)) ==>
        var file := if canUseCache then Readable(parse, env.atHead) else None;
        ShownBy(r) == FromDownload(parse, state, path, url, env, file, meta, Again(file, path, url))
    {
      r, wrote, saved := None, false, false;
      if env.cancelled(1) {
        return;
      }
      if env.fetched.None? {
        if !env.cancelled(2) && canUseCache {
          r := Local(path, url, meta, Fallback, env.atFetchError);
        }
        return;
      }
      if env.cancelled(3) {
        return;
      }
      if Matches(state, path, url, env.fetched.value.data) {
        r, wrote, saved := ReuseDownload(path, url, env);
        return;
      }
      r, wrote, saved := UseDownload(path, url, meta, canUseCache, env);
    }

    /** `load`: ownership of the file first, then HEAD, then the download. */
    method LoadFrom(path: string, url: string, env: Env)
      returns (r: Option<Selected>, ghost wrote: bool, ghost saved: bool)
      requires Valid()
      modifies this`files, this`sidecars
      ensures Writes(parse, Usable(state, path, url, env), env, wrote, saved)
      ensures files == if wrote then old(files)[path := env.fetched.value.data] else old(files)
      ensures sidecars == if saved then old(sidecars)[path := NewMeta(url, env)] else old(sidecars)
      ensures r.Some? ==>
        && parse(r.value.digest) == Some(r.value.mapping)
        && Origin(r.value, url, ReadMeta(env), Usable(state, path, url, env), env, wrote, saved)
        && (r.value.disposition == Reused ==> Matches(state, path, url, r.value.digest))
      ensures wrote || saved ==> StillWanted(env, wrote)
      ensures Undisturbed(old(Snapshot()), path, env) && Uninterrupted(env) ==>
        ShownBy(r) == Served(parse, trim, old(Snapshot()), path, url, env)
    {
      wrote, saved := false, false;
      var meta := ReadMeta(env);
      var urlChanged := env.stat &&
        ((meta.url != "" && meta.url != url) || (state.Some? && state.value.path == path && state.value.url != url));
      if urlChanged {
        meta := NO_METADATA;
      }
      var canUseCache := env.stat && !urlChanged;
      assert canUseCache == Usable(state, path, url, env);
      ghost var w, file := Snapshot(), if canUseCache then Readable(parse, env.atHead) else None;
      assert Undisturbed(w, path, env) ==> file == ParseableFile(parse, w, path, url, env);
      assert file.Some? ==> meta == ReadMeta(env);
      r := FromHead(path, url, meta, canUseCache, env);
      if r.None? {
        r, wrote, saved := AfterHead(path, url, meta, canUseCache, env);
      }
    }

    /** One load behind the gate. Empty arguments mean the configured defaults. */
    method Load(path: string, url: string, env: Env) returns (r: LoadResult, ghost wrote: bool, ghost saved: bool)
      requires Valid()
      modifies this
      ensures Valid()
      ensures env.cancelled(0) || env.cancelled(8) ==> r.Failure?
      ensures wrote || saved ==> !env.cancelled(0) && StillWanted(env, wrote)
      ensures var p := validate(if path == "" then DEFAULT_PATH else path);
        var u := if url == "" then DEFAULT_URL else url;
        var before, after := old(Snapshot()), Snapshot();
        if p.None? || !allowed(u) then r.Failure? && after == before
        else
          && LoadEffect(parse, before, after, p.value, u, env, r, wrote, saved)
          && (Undisturbed(before, p.value, env) && Uninterrupted(env) ==>
            ResultShown(r) == Served(parse, trim, before, p.value, u, env))
    {
      wrote, saved := false, false;
      if env.cancelled(0) {
        return Failure, false, false;
      }
      var p := validate(if path == "" then DEFAULT_PATH else path);
      var u := if url == "" then DEFAULT_URL else url;
      if p.None? || !allowed(u) {
        return Failure, false, false;
      }
      var s;
      s, wrote, saved := LoadFrom(p.value, u, env);
      if s.None? || env.cancelled(8) {
        r := Failure;
        return;
      }
      state := Some(Source(p.value, u, s.value.digest, s.value.mapping));
      r := Ok(s.value);
    }
  }

  // ------------------------------------------------------------------ runs of loads

  /**
   A load with its resolved path and URL, anybody else's change to the disk, or a new process or a
   fresh loader, which keeps the disk and forgets the recorded source.
   */
  datatype Step =
    | Loading(path: string, url: string, env: Env, result: LoadResult, wrote: bool, saved: bool)
    | Editing
    | Restart

  ghost predicate StepOk(parse: Parser, before: World, step: Step, after: World) {
    match step
    case Loading(path, url, env, r, wrote, saved) => LoadEffect(parse, before, after, path, url, env, r, wrote, saved)
    case Editing => after.state == before.state
    case Restart => after == before.(state := None)
  }

  ghost predicate Run(parse: Parser, ws: seq<World>, steps: seq<Step>) {
    && |ws| == |steps| + 1
    && ws[0].state == None
    && forall i | 0 <= i < |steps| :: StepOk(parse, ws[i], steps[i], ws[i + 1])
  }

  /** What the successful loads since the last restart say should be recorded. */
  function LastLoaded(steps: seq<Step>): Option<Source> {
    if steps == [] then None
    else
      match steps[|steps| - 1]
      case Loading(path, url, _, Ok(s), _, _) => Some(Source(path, url, s.digest, s.mapping))
      case Restart => None
      case _ => LastLoaded(steps[..|steps| - 1])
  }

  /**
   Over every run, disk edits and restarts included: the recorded source is that of the last
   successful load since the last restart, untouched by failures, and it is the parse of the bytes whose digest it records.
   */
  lemma {:induction false} RecordedIsLastSuccess(parse: Parser, ws: seq<World>, steps: seq<Step>)
    requires Run(parse, ws, steps)
    ensures ws[|steps|].state == LastLoaded(steps)
    ensures ws[|steps|].state.Some? ==>
      parse(ws[|steps|].state.value.digest) == Some(ws[|steps|].state.value.mapping)
  {
    var n := |steps|;
    if n > 0 {
      assert StepOk(parse, ws[n - 1], steps[n - 1], ws[n]);
      RecordedIsLastSuccess(parse, ws[..n], steps[..n - 1]);
    }
  }

  /** Whatever restarts, every file a run ends with is parseable if all were so at the start and nobody edits. */
  lemma {:induction false} FilesStayParseable(parse: Parser, ws: seq<World>, steps: seq<Step>)
    requires Run(parse, ws, steps) && Editing !in steps
    requires forall p :: p in ws[0].files ==> parse(ws[0].files[p]).Some?
    ensures forall p :: p in ws[|steps|].files ==> parse(ws[|steps|].files[p]).Some?
  {
    var n := |steps|;
    if n > 0 {
      assert StepOk(parse, ws[n - 1], steps[n - 1], ws[n]) && steps[n - 1] in steps;
      FilesStayParseable(parse, ws[..n], steps[..n - 1]);
    }
  }

  /** With edits, any file a load changes becomes a parseable download of that load. */
  lemma LoadsWriteParseableDownloads(parse: Parser, ws: seq<World>, steps: seq<Step>, i: nat, p: string)
    requires Run(parse, ws, steps) && i < |steps| && steps[i].Loading?
    requires p in ws[i + 1].files && (p !in ws[i].files || ws[i].files[p] != ws[i + 1].files[p])
    ensures p == steps[i].path && steps[i].env.fetched.Some?
    ensures ws[i + 1].files[p] == steps[i].env.fetched.value.data && parse(ws[i + 1].files[p]).Some?
  {
    assert StepOk(parse, ws[i], steps[i], ws[i + 1]);
  }

  /**
   In every run, disk edits included, a file known to belong to another URL is never served:
   what such a load returns came down during it.
   */
  lemma ForeignFileIsNeverServed(parse: Parser, ws: seq<World>, steps: seq<Step>, i: nat)
    requires Run(parse, ws, steps) && i < |steps| && steps[i].Loading? && steps[i].result.Ok?
    requires KnownForeign(ws[i].state, steps[i].path, steps[i].url, steps[i].env)
    ensures steps[i].env.fetched.Some? && steps[i].result.selected.digest == steps[i].env.fetched.value.data
    ensures steps[i].result.selected.disposition != Fallback
  {
    assert StepOk(parse, ws[i], steps[i], ws[i + 1]);
  }

  /** A load that nobody disturbs leaves the file holding exactly what it served. */
  lemma FileHoldsWhatWasServed(parse: Parser, ws: seq<World>, steps: seq<Step>, i: nat)
    requires Run(parse, ws, steps) && i < |steps| && steps[i].Loading? && steps[i].result.Ok?
    requires Undisturbed(ws[i], steps[i].path, steps[i].env)
    ensures steps[i].path in ws[i + 1].files && ws[i + 1].files[steps[i].path] == steps[i].result.selected.digest
  {
    assert StepOk(parse, ws[i], steps[i], ws[i + 1]);
  }

  // ------------------------------------------------------------------ where served bytes came from

  /** Everything upstream has sent for `url` in these steps. */
  ghost predicate SentFor(steps: seq<Step>, url: string, data: Bytes) {
    exists i :: 0 <= i < |steps| && steps[i].Loading? && steps[i].url == url
      && steps[i].env.fetched.Some? && steps[i].env.fetched.value.data == data
  }

  /** The last load to write at `p` could not write its sidecar. */
  predicate SidecarLost(steps: seq<Step>, p: string) {
    steps != [] &&
    var last := steps[|steps| - 1];
    if last.Loading? && last.path == p && (last.wrote || last.saved) then !last.saved
    else SidecarLost(steps[..|steps| - 1], p)
  }

  /**
   Nobody edits the disk. A sidecar write may fail, but then its load succeeds, so the recorded
   source remembers the file, and until the file has its sidecar no other path is loaded and the
   loader is not restarted.
   */
  ghost predicate Quiet(ws: seq<World>, steps: seq<Step>)
    requires |ws| == |steps| + 1
  {
    && ws[0].files == map[]
    && forall i | 0 <= i < |steps| :: QuietStep(ws[i], steps[..i], steps[i])
  }

  ghost predicate QuietStep(w: World, steps: seq<Step>, step: Step) {
    match step
    case Loading(path, url, env, r, wrote, saved) =>
      && url != "" && Undisturbed(w, path, env)
      && (wrote && !saved ==> r.Ok?)
      && (r.Ok? && w.state.Some? && w.state.value.path != path ==> !SidecarLost(steps, w.state.value.path))
    case Editing => false
    case Restart => w.state.Some? ==> !SidecarLost(steps, w.state.value.path)
  }

  /** The file's sidecar names a URL that sent the file's bytes. */
  ghost predicate OwnedFile(w: World, steps: seq<Step>, p: string)
    requires p in w.files
  {
    p in w.sidecars && w.sidecars[p].url != "" && SentFor(steps, w.sidecars[p].url, w.files[p])
  }

  /** The recorded source is of this file, for a URL that sent the file's bytes. */
  ghost predicate RecordedFile(w: World, steps: seq<Step>, p: string)
    requires p in w.files
  {
    w.state.Some? && w.state.value.path == p && SentFor(steps, w.state.value.url, w.files[p])
  }

  ghost predicate Owned(w: World, steps: seq<Step>) {
    forall p :: p in w.files ==>
      if SidecarLost(steps, p) then RecordedFile(w, steps, p) else OwnedFile(w, steps, p)
  }

  lemma SentGrows(steps: seq<Step>, step: Step, url: string, data: Bytes)
    ensures SentFor(steps, url, data) ==> SentFor(steps + [step], url, data)
    ensures step.Loading? && step.env.fetched.Some? ==> SentFor(steps + [step], step.url, step.env.fetched.value.data)
  {
    if SentFor(steps, url, data) {
      var i :| 0 <= i < |steps| && steps[i].Loading? && steps[i].url == url
        && steps[i].env.fetched.Some? && steps[i].env.fetched.value.data == data;
      assert (steps + [step])[i] == steps[i];
    }
    assert (steps + [step])[|steps|] == step;
  }

  lemma LostNext(steps: seq<Step>, step: Step, p: string)
    ensures SidecarLost(steps + [step], p) <==>
      if step.Loading? && step.path == p && (step.wrote || step.saved) then !step.saved else SidecarLost(steps, p)
  {
    assert (steps + [step])[..|steps|] == steps;
  }

  /** A file that was not another URL's had been sent by the URL now loaded. */
  lemma OwnFileWasSent(w: World, steps: seq<Step>, step: Step)
    requires Owned(w, steps) && QuietStep(w, steps, step) && step.Loading? && step.path in w.files
    requires !KnownForeign(w.state, step.path, step.url, step.env)
    ensures SentFor(steps, step.url, w.files[step.path])
  {
    assert if SidecarLost(steps, step.path) then RecordedFile(w, steps, step.path) else OwnedFile(w, steps, step.path);
  }

  lemma ServedStep(parse: Parser, before: World, step: Step, after: World, steps: seq<Step>)
    requires Owned(before, steps) && QuietStep(before, steps, step) && StepOk(parse, before, step, after) && step.Loading?
    ensures step.result.Ok? ==> SentFor(steps + [step], step.url, step.result.selected.digest)
  {
    if step.result.Ok? {
      var data := step.result.selected.digest;
      SentGrows(steps, step, step.url, data);
      if Usable(before.state, step.path, step.url, step.env) {
        OwnFileWasSent(before, steps, step);
      }
    }
  }

  /** The file at the loaded path: what is on disk was sent by this URL whenever its sidecar or its record changes. */
  lemma OwnFileStep(parse: Parser, before: World, step: Step, after: World, steps: seq<Step>)
    requires Owned(before, steps) && QuietStep(before, steps, step) && StepOk(parse, before, step, after) && step.Loading?
    requires step.path in after.files
    ensures if SidecarLost(steps + [step], step.path) then RecordedFile(after, steps + [step], step.path)
            else OwnedFile(after, steps + [step], step.path)
  {
    var p, data := step.path, after.files[step.path];
    LostNext(steps, step, p);
    SentGrows(steps, step, step.url, data);
    if step.wrote || step.saved {
      if !step.wrote && Usable(before.state, p, step.url, step.env) {
        OwnFileWasSent(before, steps, step);
      }
    } else {
      assert p in before.files;
      if SidecarLost(steps, p) {
        assert RecordedFile(before, steps, p);
        SentGrows(steps, step, before.state.value.url, data);
        ServedStep(parse, before, step, after, steps);
      } else {
        assert OwnedFile(before, steps, p);
        SentGrows(steps, step, before.sidecars[p].url, data);
      }
    }
  }

  lemma OtherFileStep(parse: Parser, before: World, step: Step, after: World, steps: seq<Step>, p: string)
    requires Owned(before, steps) && QuietStep(before, steps, step) && StepOk(parse, before, step, after) && step.Loading?
    requires p in after.files && p != step.path
    ensures if SidecarLost(steps + [step], p) then RecordedFile(after, steps + [step], p)
            else OwnedFile(after, steps + [step], p)
  {
    LostNext(steps, step, p);
    assert p in before.files;
    if SidecarLost(steps, p) {
      assert RecordedFile(before, steps, p);
      SentGrows(steps, step, before.state.value.url, after.files[p]);
    } else {
      assert OwnedFile(before, steps, p);
      SentGrows(steps, step, before.sidecars[p].url, after.files[p]);
    }
  }

  lemma OwnedStep(parse: Parser, before: World, step: Step, after: World, steps: seq<Step>)
    requires Owned(before, steps) && QuietStep(before, steps, step) && StepOk(parse, before, step, after)
    ensures Owned(after, steps + [step])
  {
    forall p | p in after.files
      ensures if SidecarLost(steps + [step], p) then RecordedFile(after, steps + [step], p)
              else OwnedFile(after, steps + [step], p)
    {
      if step.Restart? {
        LostNext(steps, step, p);
        SentGrows(steps, step, before.sidecars[p].url, before.files[p]);
        assert !SidecarLost(steps, p) && OwnedFile(before, steps, p);
      } else if p == step.path {
        OwnFileStep(parse, before, step, after, steps);
      } else {
        OtherFileStep(parse, before, step, after, steps, p);
      }
    }
  }

  /** What step `i` serves had been sent by its own URL by then. */
  ghost predicate SentInTime(steps: seq<Step>, i: nat)
    requires i < |steps|
  {
    steps[i].Loading? && steps[i].result.Ok? ==>
      SentFor(steps[..i + 1], steps[i].url, steps[i].result.selected.digest)
  }

  lemma QuietFront(parse: Parser, ws: seq<World>, steps: seq<Step>)
    requires Run(parse, ws, steps) && Quiet(ws, steps) && steps != []
    ensures var n := |steps| - 1;
      && Run(parse, ws[..n + 1], steps[..n]) && Quiet(ws[..n + 1], steps[..n])
      && StepOk(parse, ws[n], steps[n], ws[n + 1]) && QuietStep(ws[n], steps[..n], steps[n])
  {
    var n := |steps| - 1;
    forall i | 0 <= i < n ensures QuietStep(ws[i], steps[..n][..i], steps[i]) {
      assert steps[..n][..i] == steps[..i];
    }
  }

  lemma {:induction false} OwnedRun(parse: Parser, ws: seq<World>, steps: seq<Step>)
    requires Run(parse, ws, steps) && Quiet(ws, steps)
    ensures Owned(ws[|steps|], steps)
  {
    if steps != [] {
      var n := |steps| - 1;
      QuietFront(parse, ws, steps);
      OwnedRun(parse, ws[..n + 1], steps[..n]);
      assert steps == steps[..n] + [steps[n]];
      OwnedStep(parse, ws[n], steps[n], ws[n + 1], steps[..n]);
    }
  }

  /**
   On a disk nobody edits, over any number of restarts, with no lost sidecar outliving the recorded
   source, every mapping served for a URL was sent by that URL, whatever loads of other URLs shared
   the file and however they ended.
   */
  lemma {:induction false} ServedWasSentByItsUrl(parse: Parser, ws: seq<World>, steps: seq<Step>, i: nat)
    requires Run(parse, ws, steps) && Quiet(ws, steps) && i < |steps|
    ensures SentInTime(steps, i)
  {
    var n := |steps| - 1;
    var front := steps[..n];
    QuietFront(parse, ws, steps);
    if i < n {
      ServedWasSentByItsUrl(parse, ws[..n + 1], front, i);
      assert front[..i + 1] == steps[..i + 1];
    } else {
      OwnedRun(parse, ws[..n + 1], front);
      if steps[n].Loading? {
        ServedStep(parse, ws[n], steps[n], ws[n + 1], front);
      }
      assert steps[..i + 1] == front + [steps[n]];
    }
  }

  // ------------------------------------------------------------------ when the next load is safe

  /** The URLs the sidecar and the recorded source name for a file. */
  function Owners(w: World, p: string): set<string> {
    (if p in w.sidecars && w.sidecars[p].url != "" then {w.sidecars[p].url} else {})
    + (if w.state.Some? && w.state.value.path == p then {w.state.value.url} else {})
  }

  /** Somebody is named, and if it is one URL only, that URL sent the file. */
  ghost predicate Attributed(w: World, steps: seq<Step>, p: string)
    requires p in w.files
  {
    && Owners(w, p) != {}
    && forall u | u in Owners(w, p) && u != "" :: Owners(w, p) == {u} ==> SentFor(steps, u, w.files[p])
  }

  /** Whatever URL an undisturbed load asks for next, what it serves was sent by that URL. */
  ghost predicate NextLoadIsOwn(parse: Parser, w: World, steps: seq<Step>) {
    forall step: Step, after: World ::
      step.Loading? && step.url != "" && step.result.Ok? && Undisturbed(w, step.path, step.env) && StepOk(parse, w, step, after)
      ==> SentFor(steps + [step], step.url, step.result.selected.digest)
  }

  /** An undisturbed load is kept from a file exactly when somebody else is named for it. */
  lemma ForeignIffOtherOwner(w: World, p: string, url: string, env: Env)
    requires url != "" && Undisturbed(w, p, env)
    ensures KnownForeign(w.state, p, url, env) <==> exists u :: u in Owners(w, p) && u != url
  {
    if p in w.sidecars && w.sidecars[p].url != "" && w.sidecars[p].url != url {
      assert w.sidecars[p].url in Owners(w, p);
    }
    if w.state.Some? && w.state.value.path == p && w.state.value.url != url {
      assert w.state.value.url in Owners(w, p);
    }
  }

  /** A load of the file with upstream unreachable. */
  function OfflineRead(w: World, p: string): Env
    requires p in w.files
  {
    var seen := Inspection(Some(w.files[p]), Some(w.files[p]));
    Env(Some(if p in w.sidecars then w.sidecars[p] else NO_METADATA), true, None, None,
        seen, seen, seen, seen, Some(w.files[p]), false, true, true, k => false)
  }

  lemma OfflineReadServesTheFile(parse: Parser, w: World, steps: seq<Step>, p: string, url: string)
    requires p in w.files && parse(w.files[p]).Some? && url != ""
    requires !KnownForeign(w.state, p, url, OfflineRead(w, p)) && NextLoadIsOwn(parse, w, steps)
    ensures SentFor(steps, url, w.files[p])
  {
    var data, env := w.files[p], OfflineRead(w, p);
    var m := parse(data).value;
    var step := Loading(p, url, env, Ok(Selected(m, env.meta.value, Fallback, data)), false, false);
    var after := w.(state := Some(Source(p, url, data, m)));
    assert StepOk(parse, w, step, after);
    assert SentFor(steps + [step], url, data);
    var i :| 0 <= i < |steps + [step]| && (steps + [step])[i].Loading? && (steps + [step])[i].url == url
      && (steps + [step])[i].env.fetched.Some? && (steps + [step])[i].env.fetched.value.data == data;
    assert steps[i] == (steps + [step])[i];
  }

  /** Some URL longer than any in the steps. */
  lemma {:induction false} UnusedUrl(steps: seq<Step>) returns (url: string)
    ensures url != "" && forall i | 0 <= i < |steps| && steps[i].Loading? :: |steps[i].url| < |url|
  {
    if steps == [] {
      url := "u";
    } else {
      var last := steps[|steps| - 1];
      url := UnusedUrl(steps[..|steps| - 1]);
      url := url + if last.Loading? then last.url else "";
    }
  }

  /**
   The next undisturbed load, of whatever path and URL, serves only what its own URL sent if and
   only if every parseable file is attributed.
   */
  lemma NextLoadIsOwnIff(parse: Parser, w: World, steps: seq<Step>)
    ensures NextLoadIsOwn(parse, w, steps) <==>
      forall p :: p in w.files && parse(w.files[p]).Some? ==> Attributed(w, steps, p)
  {
    if forall p :: p in w.files && parse(w.files[p]).Some? ==> Attributed(w, steps, p) {
      forall step: Step, after: World | step.Loading? && step.url != "" && step.result.Ok?
          && Undisturbed(w, step.path, step.env) && StepOk(parse, w, step, after)
        ensures SentFor(steps + [step], step.url, step.result.selected.digest)
      {
        AttributedStep(parse, w, steps, step, after);
      }
    }
    if NextLoadIsOwn(parse, w, steps) {
      forall p | p in w.files && parse(w.files[p]).Some? ensures Attributed(w, steps, p) {
        OwnFilesAreAttributed(parse, w, steps, p);
      }
    }
  }

  lemma AttributedStep(parse: Parser, w: World, steps: seq<Step>, step: Step, after: World)
    requires step.Loading? && step.url != "" && step.result.Ok? && Undisturbed(w, step.path, step.env)
    requires StepOk(parse, w, step, after)
    requires step.path in w.files && parse(w.files[step.path]).Some? ==> Attributed(w, steps, step.path)
    ensures SentFor(steps + [step], step.url, step.result.selected.digest)
  {
    var data := step.result.selected.digest;
    SentGrows(steps, step, step.url, data);
    if Usable(w.state, step.path, step.url, step.env) {
      ForeignIffOtherOwner(w, step.path, step.url, step.env);
      if data == w.files[step.path] {
        assert Owners(w, step.path) == {step.url};
      }
    }
  }

  lemma OwnFilesAreAttributed(parse: Parser, w: World, steps: seq<Step>, p: string)
    requires NextLoadIsOwn(parse, w, steps) && p in w.files && parse(w.files[p]).Some?
    ensures Attributed(w, steps, p)
  {
    var env := OfflineRead(w, p);
    if Owners(w, p) == {} {
      var url := UnusedUrl(steps);
      ForeignIffOtherOwner(w, p, url, env);
      OfflineReadServesTheFile(parse, w, steps, p, url);
    }
    forall u | u in Owners(w, p) && Owners(w, p) == {u} && u != "" ensures SentFor(steps, u, w.files[p]) {
      ForeignIffOtherOwner(w, p, u, env);
      OfflineReadServesTheFile(parse, w, steps, p, u);
    }
  }

  // ------------------------------------------------------------------ a sidecar lost for good

  /** A load from an empty place that downloads `data` and can or cannot write its sidecar. */
  function Downloading(path: string, url: string, data: Bytes, m: Mapping, sidecarOk: bool): Step {
    var nothing := Inspection(None, None);
    var env := Env(Some(NO_METADATA), false, None, Some(Download(data, "", "")), nothing, nothing, nothing, nothing,
                   None, false, true, sidecarOk, k => false);
    Loading(path, url, env, Ok(Selected(m, Metadata(url, "", ""), Loaded, data)), true, sidecarOk)
  }

  /** What an undisturbed and uninterrupted load must return. */
  ghost predicate Determined(parse: Parser, trim: string -> string, w: World, step: Step) {
    step.Loading? ==>
      && Undisturbed(w, step.path, step.env) && Uninterrupted(step.env)
      && ResultShown(step.result) == Served(parse, trim, w, step.path, step.url, step.env)
  }

  /**
   A sidecar write fails and the recorded source is forgotten, by a restart or by a load of another
   path; then, with nobody touching the disk, a load of URL `a` serves what only `b` ever sent.
   */
  lemma LostSidecarServesForeignBytes(parse: Parser, trim: string -> string, data: Bytes, restart: bool)
    returns (ws: seq<World>, steps: seq<Step>)
    requires parse(data).Some?
    ensures |steps| == 3 && Run(parse, ws, steps) && ws[0] == World(None, map[], map[])
    ensures steps[0].Loading? && steps[0].path == "p" && steps[0].wrote && !steps[0].saved
    ensures if restart then steps[1].Restart? else steps[1].Loading? && steps[1].path == "q" && steps[1].saved
    ensures steps[2].Loading? && steps[2].path == "p" && steps[2].url == "a"
    ensures steps[2].result.Ok? && steps[2].result.selected.digest == data && !SentFor(steps, "a", data)
    ensures forall i | 0 <= i < 3 :: Determined(parse, trim, ws[i], steps[i])
  {
    var m := parse(data).value;
    var w0 := World(None, map[], map[]);
    var lost := Downloading("p", "b", data, m, false);
    var w1 := World(Some(Source("p", "b", data, m)), map["p" := data], map[]);
    assert StepOk(parse, w0, lost, w1);
    var middle := if restart then Restart else Downloading("q", "b", data, m, true);
    var w2 := if restart then World(None, map["p" := data], map[])
      else World(Some(Source("q", "b", data, m)), map["p" := data, "q" := data], map["q" := Metadata("b", "", "")]);
    assert StepOk(parse, w1, middle, w2);
    var last := Loading("p", "a", OfflineRead(w2, "p"), Ok(Selected(m, NO_METADATA, Fallback, data)), false, false);
    var w3 := w2.(state := Some(Source("p", "a", data, m)));
    assert StepOk(parse, w2, last, w3);
    ws, steps := [w0, w1, w2, w3], [lost, middle, last];
  }

  // ------------------------------------------------------------------ what the sidecar is for

  /** A saved sidecar is the loaded URL with the download's own ETag and checksum. */
  lemma SidecarDescribesTheDownload(parse: Parser, before: World, step: Step, after: World)
    requires step.Loading? && step.saved && StepOk(parse, before, step, after)
    ensures step.env.fetched.Some? && step.path in after.sidecars
    ensures var sidecar, download := after.sidecars[step.path], step.env.fetched.value;
      sidecar.url == step.url && sidecar.etag == download.etag && sidecar.md5 == download.md5
    ensures step.result.Ok? && step.result.selected.disposition != Fallback ==>
      step.result.selected.meta == after.sidecars[step.path]
  {
  }

  /**
   After a load that downloaded and saved, the next undisturbed load of the same path and URL needs no
   download while upstream reports that ETag: it serves the same bytes, reused unparsed, or parsed
   again when the loader was restarted in between.
   */
  lemma SavedSidecarSparesTheDownload(parse: Parser, trim: string -> string, before: World, first: Step, middle: World,
                                      restart: bool, second: Step)
    requires first.Loading? && first.saved && first.result.Ok? && Undisturbed(before, first.path, first.env)
    requires StepOk(parse, before, first, middle)
    requires second.Loading? && second.path == first.path && second.url == first.url
    requires Determined(parse, trim, if restart then middle.(state := None) else middle, second)
    requires first.env.fetched.value.etag != "" && second.env.head == Some(first.env.fetched.value.etag)
    ensures second.result.Ok? && second.result.selected.digest == first.result.selected.digest
    ensures second.result.selected.disposition == if restart then Loaded else Reused
    ensures second.result.selected.meta == middle.sidecars[first.path]
  {
    var w := if restart then middle.(state := None) else middle;
    assert w.files[first.path] == first.result.selected.digest;
    assert !KnownForeign(w.state, second.path, second.url, second.env);
  }

  /** With the ETag gone stale but the checksum unchanged, the download only refreshes the sidecar. */
  lemma SameChecksumKeepsTheFile(parse: Parser, trim: string -> string, w: World, step: Step, after: World)
    requires step.Loading? && step.url != "" && Determined(parse, trim, w, step) && StepOk(parse, w, step, after)
    requires step.path in w.files && parse(w.files[step.path]).Some? && step.path in w.sidecars
    requires var sidecar := w.sidecars[step.path];
      && sidecar.url == step.url && sidecar.md5 != "" && w.state == None && step.env.head == None
      && step.env.fetched.Some? && step.env.fetched.value.md5 == sidecar.md5
    ensures step.result.Ok? && step.result.selected.digest == w.files[step.path]
    ensures step.result.selected.disposition == Loaded
    ensures step.result.selected.meta == Metadata(step.url, step.env.fetched.value.etag, step.env.fetched.value.md5)
  {
  }

  /** Reuse is only of the source recorded for this very path, URL and bytes. */
  lemma ReuseIsOfTheRecordedSource(parse: Parser, before: World, step: Step, after: World)
    requires step.Loading? && StepOk(parse, before, step, after) && step.result.Ok?
    requires step.result.selected.disposition == Reused
    ensures before.state.Some?
    ensures before.state.value.path == step.path && before.state.value.url == step.url
    ensures before.state.value.digest == step.result.selected.digest
  {
  }
}
