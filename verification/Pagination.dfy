/**
 Fetching a year from AniList in batches of four pages
 (internal/anilist/anilist.go), against the one-page-at-a-time loop.
 */
module Pagination {
  import opened Basics
  import opened Shows

  const BATCH_SIZE: nat := 4
  const MAX_PAGES: nat := 100
  const MAX_RETRY: nat := 5

  datatype PageInfo = PageInfo(hasNext: Option<bool>, current: int)

  datatype MediaPage = MediaPage(info: Option<PageInfo>, media: Option<seq<Show>>)

  type FourPages = s: seq<Option<MediaPage>> | |s| == BATCH_SIZE witness [None, None, None, None]

  /** A decoded GraphQL response: its error count and its four aliased pages. */
  datatype Batch = Batch(errors: nat, pages: FourPages)

  // ------------------------------------------------------------------ one batch request

  datatype Outcome =
    | ThrottleFailed
    | NetworkError
    | CancelledInFlight
    | CooldownTooLong
    | RateLimited
    | ServerError
    | ClientError
    | BadBody
    | Body(batch: Batch)

  predicate Retries(o: Outcome) {
    o.NetworkError? || o.RateLimited? || o.ServerError?
  }

  /** The attempt loop: `outcomes` is what each attempt meets. */
  method DoRequest(outcomes: nat -> Outcome) returns (r: Option<Batch>, attempts: nat)
    ensures attempts <= MAX_RETRY
    ensures forall k :: 0 <= k < attempts - 1 ==> outcomes(k) in {NetworkError, RateLimited, ServerError}
    ensures r.Some? <==> exists k: nat :: k < MAX_RETRY && outcomes(k).Body? && forall m: nat :: m < k ==> Retries(outcomes(m))
    ensures r.Some? ==> 0 < attempts && outcomes(attempts - 1) == Body(r.value)
    ensures r.None? && attempts < MAX_RETRY ==> 0 < attempts && outcomes(attempts - 1) !in {NetworkError, RateLimited, ServerError}
  {
    attempts := 0;
    while attempts < MAX_RETRY
      invariant attempts <= MAX_RETRY
      invariant forall k: nat :: k < attempts ==> Retries(outcomes(k))
    {
      var o := outcomes(attempts);
      attempts := attempts + 1;
      match o {
        case Body(batch) =>
          assert outcomes(attempts - 1).Body?;
          return Some(batch), attempts;
        case NetworkError =>
        case RateLimited =>
        case ServerError =>
        case _ =>
          assert !Retries(outcomes(attempts - 1)) && !outcomes(attempts - 1).Body?;
          return None, attempts;
      }
    }
    return None, attempts;
  }

  // ------------------------------------------------------------------ the pages observed

  /** The first page of the batch that page `k` is fetched in. */
  function StartOf(k: nat): nat
    requires 1 <= k
  {
    (k - 1) / BATCH_SIZE * BATCH_SIZE + 1
  }

  /** `respond` gives the outcome of the batch request that starts at a page. */
  type Upstream = nat -> Option<Batch>

  function PageAt(respond: Upstream, k: nat): Option<MediaPage>
    requires 1 <= k
  {
    match respond(StartOf(k))
    case None => None
    case Some(b) => if b.errors > 0 then None else b.pages[(k - 1) % BATCH_SIZE]
  }

  /** The page is whole and is the page that was asked for. */
  predicate Complete(p: Option<MediaPage>, k: nat) {
    && p.Some? && p.value.info.Some? && p.value.info.value.hasNext.Some?
    && p.value.info.value.current == k && p.value.media.Some?
  }

  predicate HasNext(p: Option<MediaPage>) {
    p.Some? && p.value.info.Some? && p.value.info.value.hasNext == Some(true)
  }

  function Media(p: Option<MediaPage>): seq<Show> {
    if p.Some? && p.value.media.Some? then p.value.media.value else []
  }

  /** The reference: one page at a time from page `k`, until a page has no successor. */
  function Sequential(respond: Upstream, k: nat): Option<seq<Show>>
    requires 1 <= k <= MAX_PAGES + 1
    decreases MAX_PAGES + 1 - k
  {
    if k > MAX_PAGES then None
    else
      var p := PageAt(respond, k);
      if !Complete(p, k) then None
      else if !HasNext(p) then Some(Media(p))
      else
        match Sequential(respond, k + 1)
        case None => None
        case Some(later) => Some(Media(p) + later)
  }

  /** The media of pages `first` up to and including `last`, in order. */
  function Concat(respond: Upstream, first: nat, last: nat): seq<Show>
    requires 1 <= first
    decreases last + 1 - first
  {
    if first > last then [] else Media(PageAt(respond, first)) + Concat(respond, first + 1, last)
  }

  /** Pages before `k` are complete and each has a successor. */
  predicate Continues(respond: Upstream, k: nat) {
    forall m: nat :: 1 <= m < k ==> Complete(PageAt(respond, m), m) && HasNext(PageAt(respond, m))
  }

  predicate Padding(respond: Upstream, k: nat)
    requires 1 <= k
  {
    Complete(PageAt(respond, k), k) && !HasNext(PageAt(respond, k)) && Media(PageAt(respond, k)) == []
  }

  /** Page `t` is the first without a successor, and only empty pages follow it in its batch. */
  predicate Ends(respond: Upstream, t: nat) {
    && 1 <= t <= MAX_PAGES
    && Continues(respond, t)
    && Complete(PageAt(respond, t), t) && !HasNext(PageAt(respond, t))
    && (forall k: nat :: t < k < StartOf(t) + BATCH_SIZE ==> Padding(respond, k))
  }

  /** Page `k` is whole, is the page asked for, and has a successor and media as an end at `t` wants. */
  predicate AsEndWants(p: Option<MediaPage>, k: nat, t: nat) {
    && p.Some? && p.value.info == Some(PageInfo(Some(k < t), k)) && p.value.media.Some?
    && (t < k ==> p.value.media == Some([]))
  }

  /**
   The fetch ends at page `t` exactly when every page up to the end of its batch is whole and the one
   asked for, the first without a successor is `t`, and those behind it are empty.
   */
  lemma EndsFieldByField(respond: Upstream, t: nat)
    ensures Ends(respond, t) <==>
      1 <= t <= 100 && forall k: nat | 1 <= k < (t - 1) / 4 * 4 + 5 :: AsEndWants(PageAt(respond, k), k, t)
  {
    if Ends(respond, t) {
      forall k: nat | 1 <= k < StartOf(t) + BATCH_SIZE ensures AsEndWants(PageAt(respond, k), k, t) {
        if t < k {
          assert Padding(respond, k);
        }
        var p := PageAt(respond, k);
        assert Complete(p, k) && (HasNext(p) <==> k < t);
        var info := p.value.info.value;
        var next := info.hasNext.value;
        assert info.hasNext == Some(next) && (next ==> HasNext(p)) && (HasNext(p) ==> next);
        assert next == (k < t) && info == PageInfo(info.hasNext, info.current);
      }
    }
    if 1 <= t <= 100 && forall k: nat | 1 <= k < (t - 1) / 4 * 4 + 5 :: AsEndWants(PageAt(respond, k), k, t) {
      forall k: nat | 1 <= k < StartOf(t) + BATCH_SIZE
        ensures Complete(PageAt(respond, k), k) && (HasNext(PageAt(respond, k)) <==> k < t)
        ensures t < k ==> Media(PageAt(respond, k)) == []
      {
        assert AsEndWants(PageAt(respond, k), k, t);
      }
    }
  }

  /** The context was live at the start of every batch up to page `last`. */
  predicate NeverCancelled(cancelled: nat -> bool, last: nat) {
    forall s: nat :: s <= last && s % BATCH_SIZE == 1 ==> !cancelled(s)
  }

  /** The pages of one batch after its checks: where it ends, or None when it is rejected. */
  method CheckBatch(page: nat, batch: Batch) returns (terminal: Option<nat>)
    ensures terminal.Some? ==> terminal.value <= BATCH_SIZE
    ensures terminal.Some? <==> exists t: nat :: BatchEnds(page, batch.pages, t)
    ensures terminal.Some? ==> BatchEnds(page, batch.pages, terminal.value)
  {
    var pages := batch.pages;
    var t: nat := BATCH_SIZE;
    var i: nat := 0;
    while i < BATCH_SIZE
      invariant i <= BATCH_SIZE
      invariant t == BATCH_SIZE || t < i
      invariant forall k: nat :: k < i ==> Complete(pages[k], page + k)
      invariant forall k: nat :: k < i && k < t ==> HasNext(pages[k])
      invariant t < i ==> !HasNext(pages[t])
      invariant forall k: nat :: t < k < i ==> !HasNext(pages[k]) && Media(pages[k]) == []
    {
      var p := pages[i];
      if p.None? || p.value.info.None? || p.value.info.value.hasNext.None?
         || p.value.info.value.current != page + i || p.value.media.None? {
        assert !Complete(pages[i], page + i);
        return None;
      }
      if i > t && (HasNext(p) || |p.value.media.value| != 0) {
        EndsOnce(page, pages, t, i);
        return None;
      }
      if !HasNext(p) && t == BATCH_SIZE {
        t := i;
      }
      i := i + 1;
    }
    assert BatchEnds(page, pages, t);
    return Some(t);
  }

  predicate BatchEnds(page: nat, pages: FourPages, t: nat)
  {
    && t <= BATCH_SIZE
    && (forall k: nat :: k < BATCH_SIZE ==> Complete(pages[k], page + k))
    && (forall k: nat :: k < t ==> HasNext(pages[k]))
    && (t < BATCH_SIZE ==> !HasNext(pages[t]))
    && (forall k: nat :: t < k < BATCH_SIZE ==> !HasNext(pages[k]) && Media(pages[k]) == [])
  }

  /** A batch cannot end anywhere else once a page without a successor was seen. */
  lemma EndsOnce(page: nat, pages: FourPages, t: nat, i: nat)
    requires t < i < BATCH_SIZE
    requires forall k: nat :: k <= i ==> Complete(pages[k], page + k)
    requires !HasNext(pages[t]) && (HasNext(pages[i]) || Media(pages[i]) != [])
    ensures forall x: nat :: !BatchEnds(page, pages, x)
  {
  }

  // ------------------------------------------------------------------ the batched loop

  lemma BatchPages(respond: Upstream, page: nat, k: nat)
    requires page % BATCH_SIZE == 1 && k < BATCH_SIZE
    ensures StartOf(page + k) == page
    ensures PageAt(respond, page + k) ==
            if respond(page).None? || respond(page).value.errors > 0 then None else respond(page).value.pages[k]
  {
  }

  /** Only one page can be the last. */
  lemma EndIsUnique(respond: Upstream, s: nat, t: nat)
    requires Ends(respond, s) && Ends(respond, t)
    ensures s == t
  {
  }

  /** If the fetch is to end at `t`, every batch up to it passes its checks. */
  lemma EndPassesChecks(respond: Upstream, page: nat, t: nat)
    requires page % BATCH_SIZE == 1 && Ends(respond, t) && page <= t
    ensures respond(page).Some? && respond(page).value.errors == 0
    ensures BatchEnds(page, respond(page).value.pages, if t < page + BATCH_SIZE then t - page else BATCH_SIZE)
  {
    StartMonotone(page, t);
    PageNearEnd(respond, page, t, 0);
    PageNearEnd(respond, page, t, 1);
    PageNearEnd(respond, page, t, 2);
    PageNearEnd(respond, page, t, 3);
  }

  lemma PageNearEnd(respond: Upstream, page: nat, t: nat, k: nat)
    requires page % BATCH_SIZE == 1 && Ends(respond, t) && page <= StartOf(t) && page <= t
    requires k < BATCH_SIZE && (t < page + BATCH_SIZE ==> StartOf(t) == page)
    ensures respond(page).Some? && respond(page).value.errors == 0
    ensures var p := respond(page).value.pages[k];
            && Complete(p, page + k)
            && (HasNext(p) <==> page + k < t)
            && (t < page + k ==> Media(p) == [])
  {
    BatchPages(respond, page, k);
    assert t < page + k ==> Padding(respond, page + k);
  }

  lemma StartMonotone(page: nat, t: nat)
    requires page % BATCH_SIZE == 1 && page <= t
    ensures page <= StartOf(t) <= t < StartOf(t) + BATCH_SIZE && (t < page + BATCH_SIZE ==> StartOf(t) == page)
  {
  }

  /** A checked batch that does not end carries the loop on; one that ends is where the fetch ends. */
  lemma CheckedBatch(respond: Upstream, page: nat, terminal: nat)
    requires page % BATCH_SIZE == 1 && page + 3 <= MAX_PAGES && Continues(respond, page)
    requires respond(page).Some? && respond(page).value.errors == 0
    requires BatchEnds(page, respond(page).value.pages, terminal)
    ensures terminal < BATCH_SIZE ==> Ends(respond, page + terminal) && StartOf(page + terminal) == page
    ensures terminal == BATCH_SIZE ==> Continues(respond, page + BATCH_SIZE)
  {
    BatchPages(respond, page, 0);
    BatchPages(respond, page, 1);
    BatchPages(respond, page, 2);
    BatchPages(respond, page, 3);
    forall m: nat | page <= m < page + BATCH_SIZE
      ensures PageAt(respond, m) == respond(page).value.pages[m - page]
    {
      BatchPages(respond, page, m - page);
    }
  }

  lemma {:induction false} ConcatLast(respond: Upstream, first: nat, last: nat)
    requires 1 <= first <= last + 1
    ensures Concat(respond, first, last + 1) == Concat(respond, first, last) + Media(PageAt(respond, last + 1))
    decreases last + 1 - first
  {
    if first <= last {
      ConcatLast(respond, first + 1, last);
    } else {
      assert Concat(respond, last + 2, last + 1) == [];
    }
  }

  /** Appends the media of the pages up to the terminal one. */
  method AppendPages(allShows: seq<Show>, pages: FourPages, terminal: nat, ghost respond: Upstream, ghost page: nat)
    returns (all: seq<Show>)
    requires page % BATCH_SIZE == 1 && terminal <= BATCH_SIZE
    requires respond(page).Some? && respond(page).value == Batch(0, pages)
    requires allShows == Concat(respond, 1, page - 1)
    ensures all == Concat(respond, 1, if terminal < BATCH_SIZE then page + terminal else page + 3)
  {
    all := allShows;
    var i := 0;
    while i < BATCH_SIZE && i <= terminal
      invariant i <= BATCH_SIZE && i <= terminal + 1
      invariant all == Concat(respond, 1, page + i - 1)
    {
      BatchPages(respond, page, i);
      ConcatLast(respond, 1, page + i - 1);
      all := all + Media(pages[i]);
      i := i + 1;
    }
  }

  /** One turn of the loop, from the request to the appended pages. */
  method FetchBatch(respond: Upstream, page: nat, allShows: seq<Show>)
    returns (terminal: Option<nat>, all: seq<Show>)
    requires page % BATCH_SIZE == 1 && page + 3 <= MAX_PAGES && Continues(respond, page)
    requires allShows == Concat(respond, 1, page - 1)
    ensures terminal.None? ==> forall t: nat :: !Ends(respond, t)
    ensures terminal.Some? ==> terminal.value <= BATCH_SIZE
    ensures terminal.Some? && terminal.value < BATCH_SIZE ==>
              Ends(respond, page + terminal.value) && all == Concat(respond, 1, page + terminal.value)
    ensures terminal == Some(BATCH_SIZE) ==> Continues(respond, page + BATCH_SIZE) && all == Concat(respond, 1, page + 3)
  {
    all := allShows;
    forall t: nat | Ends(respond, t)
      ensures respond(page).Some? && respond(page).value.errors == 0
      ensures exists x: nat :: BatchEnds(page, respond(page).value.pages, x)
    {
      EndIsAhead(respond, page, t);
      EndPassesChecks(respond, page, t);
    }
    var resp := respond(page);
    if resp.None? || resp.value.errors > 0 {
      return None, all;
    }
    terminal := CheckBatch(page, resp.value);
    if terminal.Some? {
      CheckedBatch(respond, page, terminal.value);
      all := AppendPages(allShows, resp.value.pages, terminal.value, respond, page);
    }
  }

  /** The fetch is to succeed, with its end at page `t`. */
  ghost predicate Succeeds(respond: Upstream, cancelled: nat -> bool, t: nat) {
    Ends(respond, t) && NeverCancelled(cancelled, StartOf(t))
  }

  lemma EndIsAhead(respond: Upstream, page: nat, t: nat)
    requires Continues(respond, page) && Ends(respond, t)
    ensures page <= t
  {
  }

  lemma CancelledTooSoon(respond: Upstream, cancelled: nat -> bool, page: nat)
    requires page % BATCH_SIZE == 1 && Continues(respond, page) && cancelled(page)
    ensures forall t: nat :: !Succeeds(respond, cancelled, t)
  {
    forall t: nat | Ends(respond, t) ensures page <= StartOf(t) {
      EndIsAhead(respond, page, t);
      StartMonotone(page, t);
    }
  }

  lemma NotCancelledYet(cancelled: nat -> bool, page: nat)
    requires page % BATCH_SIZE == 1 && NeverCancelled(cancelled, page - 1) && !cancelled(page)
    ensures NeverCancelled(cancelled, page + BATCH_SIZE - 1)
  {
  }

  lemma FoundEnd(respond: Upstream, cancelled: nat -> bool, page: nat, end: nat, batches: nat)
    requires page == BATCH_SIZE * (batches - 1) + 1 && page <= end < page + BATCH_SIZE && Ends(respond, end)
    requires NeverCancelled(cancelled, page - 1) && !cancelled(page)
    ensures Succeeds(respond, cancelled, end) && batches == (end + 3) / BATCH_SIZE
  {
    StartMonotone(page, end);
  }

  /** The batches asked for so far: pages 1, 5, 9 and so on, never past 97. */
  predicate BatchStarts(requested: seq<nat>) {
    forall i :: 0 <= i < |requested| ==> requested[i] == BATCH_SIZE * i + 1 <= MAX_PAGES - 3
  }

  /** What the loop knows when it comes to `page`. */
  ghost predicate Underway(respond: Upstream, cancelled: nat -> bool, page: nat, requested: seq<nat>, all: seq<Show>) {
    && page == BATCH_SIZE * |requested| + 1 <= MAX_PAGES + 1
    && BatchStarts(requested)
    && Continues(respond, page) && NeverCancelled(cancelled, page - 1)
    && all == Concat(respond, 1, page - 1)
  }

  /** One turn of the loop over batches, with its request recorded. */
  method FetchTurn(respond: Upstream, cancelled: nat -> bool, page: nat, before: seq<nat>, allShows: seq<Show>)
    returns (terminal: Option<nat>, requested: seq<nat>, all: seq<Show>)
    requires Underway(respond, cancelled, page, before, allShows) && page <= MAX_PAGES && !cancelled(page)
    ensures BatchStarts(requested)
    ensures terminal.None? ==> forall t: nat :: !Succeeds(respond, cancelled, t)
    ensures terminal.Some? ==> terminal.value <= BATCH_SIZE
    ensures terminal == Some(BATCH_SIZE) ==> Underway(respond, cancelled, page + BATCH_SIZE, requested, all)
    ensures terminal.Some? && terminal.value < BATCH_SIZE ==>
      var end := page + terminal.value;
      Succeeds(respond, cancelled, end) && all == Concat(respond, 1, end) && |requested| == (end + 3) / BATCH_SIZE
  {
    requested := before + [page];
    terminal, all := FetchBatch(respond, page, allShows);
    if terminal.Some? && terminal.value < BATCH_SIZE {
      FoundEnd(respond, cancelled, page, page + terminal.value, |requested|);
    } else {
      NotCancelledYet(cancelled, page);
    }
  }

  /** The loop over batches. `end` is the page it ended at. */
  method FetchBatches(respond: Upstream, cancelled: nat -> bool)
    returns (shows: Option<seq<Show>>, requested: seq<nat>, ghost end: nat)
    ensures BatchStarts(requested)
    ensures shows.Some? ==>
      && Succeeds(respond, cancelled, end)
      && shows == Some(Concat(respond, 1, end)) && |requested| == (end + 3) / BATCH_SIZE
    ensures shows.None? ==> forall t: nat :: !Succeeds(respond, cancelled, t)
  {
    var allShows: seq<Show> := [];
    var page := 1;
    requested, end := [], 0;
    while page <= MAX_PAGES
      invariant Underway(respond, cancelled, page, requested, allShows)
    {
      if cancelled(page) {
        CancelledTooSoon(respond, cancelled, page);
        return None, requested, 0;
      }
      var terminal;
      terminal, requested, allShows := FetchTurn(respond, cancelled, page, requested, allShows);
      if terminal.None? {
        return None, requested, 0;
      }
      if terminal.value < BATCH_SIZE {
        return Some(allShows), requested, page + terminal.value;
      }
      page := page + BATCH_SIZE;
    }
    assert page == MAX_PAGES + 1;
    return None, requested, 0;
  }

  /**
   Success is exactly an end of the pagination within a hundred pages, reached
   without cancellation; the result is every page up to it, in order.
   */
  method FetchYear(respond: Upstream, cancelled: nat -> bool) returns (shows: Option<seq<Show>>, requested: seq<nat>)
    ensures BatchStarts(requested)
    ensures shows.Some? ==> exists t: nat :: Succeeds(respond, cancelled, t)
    ensures forall t: nat :: Succeeds(respond, cancelled, t) ==>
              shows == Some(Concat(respond, 1, t)) && |requested| == (t + 3) / BATCH_SIZE
  {
    ghost var end;
    shows, requested, end := FetchBatches(respond, cancelled);
    if shows.Some? {
      forall t: nat | Succeeds(respond, cancelled, t) ensures t == end {
        EndIsUnique(respond, t, end);
      }
    }
  }

  // ------------------------------------------------------------------ equal to sequential pagination

  lemma {:induction false} SequentialToEnd(respond: Upstream, k: nat, t: nat)
    requires 1 <= k <= t <= MAX_PAGES && Continues(respond, t)
    requires Complete(PageAt(respond, t), t) && !HasNext(PageAt(respond, t))
    ensures Sequential(respond, k) == Some(Concat(respond, k, t))
    decreases t - k
  {
    if k < t {
      assert Complete(PageAt(respond, k), k) && HasNext(PageAt(respond, k));
      SequentialToEnd(respond, k + 1, t);
    } else {
      assert Concat(respond, k + 1, t) == [];
      assert Media(PageAt(respond, t)) + [] == Media(PageAt(respond, t));
    }
  }

  /** A successful batched fetch returns what one page at a time returns. */
  method FetchBothWays(respond: Upstream, cancelled: nat -> bool) returns (shows: Option<seq<Show>>)
    ensures shows.Some? ==> shows == Sequential(respond, 1)
  {
    var requested;
    shows, requested := FetchYear(respond, cancelled);
    if shows.Some? {
      ghost var t: nat :| Succeeds(respond, cancelled, t);
      SequentialToEnd(respond, 1, t);
    }
  }

  // ------------------------------------------------------------------ a consistent dataset

  /** Upstream serves `pages` unchanged, and empty pages past the end; an empty year has one empty page. */
  ghost predicate Serves(respond: Upstream, pages: seq<seq<Show>>) {
    && 0 < |pages|
    && forall k: nat | 1 <= k ::
         PageAt(respond, k) == Some(MediaPage(Some(PageInfo(Some(k < |pages|), k)), Some(if k <= |pages| then pages[k - 1] else [])))
  }

  function Flatten(pages: seq<seq<Show>>): seq<Show> {
    if pages == [] then [] else pages[0] + Flatten(pages[1..])
  }

  lemma {:induction false} ServedConcat(respond: Upstream, pages: seq<seq<Show>>, k: nat)
    requires Serves(respond, pages) && 1 <= k <= |pages| + 1
    ensures Concat(respond, k, |pages|) == Flatten(pages[k - 1..])
    decreases |pages| + 1 - k
  {
    if k <= |pages| {
      ServedConcat(respond, pages, k + 1);
      assert pages[k - 1..][1..] == pages[k..];
    }
  }

  /**
   On a consistent dataset an uncancelled fetch succeeds exactly when it has at
   most a hundred pages, with one batch for every four of them.
   */
  method FetchConsistentYear(respond: Upstream, cancelled: nat -> bool, ghost pages: seq<seq<Show>>)
    returns (shows: Option<seq<Show>>, requested: seq<nat>)
    requires Serves(respond, pages) && NeverCancelled(cancelled, MAX_PAGES)
    ensures |pages| <= MAX_PAGES ==> shows == Some(Flatten(pages)) && |requested| == (|pages| + 3) / BATCH_SIZE
    ensures |pages| > MAX_PAGES ==> shows == None
  {
    shows, requested := FetchYear(respond, cancelled);
    if |pages| <= MAX_PAGES {
      assert Succeeds(respond, cancelled, |pages|);
      ServedConcat(respond, pages, 1);
      assert pages[0..] == pages;
    } else {
      assert forall t: nat :: 1 <= t <= MAX_PAGES ==> HasNext(PageAt(respond, t));
    }
  }
}
