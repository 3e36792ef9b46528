/** Fenced, byte-bounded windows over the candidates of a catalog. */
module Paging {
  import opened Outcomes
  import opened AgendaModel
  import opened Projection
  import C = Catalog

  const MAX_LIMIT := 100
  const MAX_QUERY := 4096
  const BYTE_BUDGET := 2 * 1024 * 1024 - 128 * 1024

  /** A query as sent, by its length in bytes, and its trimmed and lower-cased text. */
  datatype Query = Query(length: nat, text: string)

  /** The digest of the imports is the imports themselves. */
  datatype Fence = Fence(
    query: string,
    day: Option<int>,
    today: int,
    timezone: string,
    revision: nat,
    imports: seq<Record>)

  datatype Cursor = Cursor(fence: Fence, offset: nat)

  datatype DayArgument = AnyDay | UnreadableDay | OnlyDay(day: int)

  datatype CursorArgument = NoCursor | UnreadableCursor | Resume(cursor: Cursor)

  datatype Request = Request(query: Query, day: DayArgument, cursor: CursorArgument, limit: Option<nat>)

  datatype Page = Page(items: seq<Record>, next: Option<Cursor>)

  datatype ListError = QueryTooLong | BadLimit | BadDay | BadCursor | StaleCursor | BadOffset | SummaryTooLarge

  /** Everything a listing reads; `size` gives the serialized length of a record's summary. */
  datatype Listing = Listing(
    catalog: C.Catalog,
    revision: nat,
    imports: seq<Record>,
    view: View,
    timezone: string,
    size: Record -> nat)
  {
    ghost predicate Valid() {
      |catalog.items| == |catalog.search| == |catalog.membership|
    }
  }

  function DayOf(day: DayArgument): Option<int> {
    if day.OnlyDay? then Some(day.day) else None
  }

  function FenceOf(l: Listing, request: Request): Fence {
    Fence(request.query.text, DayOf(request.day), l.view.today, l.timezone, l.revision, l.imports)
  }

  function Found(l: Listing, query: Query, day: DayArgument): seq<Record>
    requires |l.catalog.items| == |l.catalog.search| == |l.catalog.membership|
  {
    C.Candidates(l.catalog, l.view.zone, DayOf(day), C.Words(query.text, 0, ""))
  }

  /** The bytes of one page entry: the summary and its separator. */
  function Weight(l: Listing, r: Record): nat {
    l.size(r) + 1
  }

  function TotalWeight(l: Listing, items: seq<Record>): nat {
    if items == [] then 0 else TotalWeight(l, items[..|items| - 1]) + Weight(l, items[|items| - 1])
  }

  /** The checks made before the window is filled, in order; the offset to start from. */
  function StartOf(l: Listing, request: Request): Result<nat, ListError>
    requires l.Valid()
  {
    if request.query.length > MAX_QUERY then Failure(QueryTooLong)
    else if !(1 <= request.limit.GetOr(MAX_LIMIT) <= MAX_LIMIT) then Failure(BadLimit)
    else if request.day.UnreadableDay? then Failure(BadDay)
    else if request.cursor.UnreadableCursor? then Failure(BadCursor)
    else if request.cursor.Resume? && request.cursor.cursor.fence != FenceOf(l, request) then Failure(StaleCursor)
    else
      var offset := if request.cursor.Resume? then request.cursor.cursor.offset else 0;
      if offset > |Found(l, request.query, request.day)| then Failure(BadOffset) else Success(offset)
  }

  /** A page of `found` from `offset` that stops at `end`: as long as the limit and the budget allow. */
  ghost predicate FullPage(l: Listing, found: seq<Record>, offset: nat, limit: nat, end: nat) {
    && offset <= end <= |found|
    && end - offset <= limit
    && TotalWeight(l, found[offset..end]) <= BYTE_BUDGET
    && (end == |found| || end - offset == limit
        || TotalWeight(l, found[offset..end]) + Weight(l, found[end]) > BYTE_BUDGET)
  }

  /** What a request must be answered with. */
  ghost predicate Answers(l: Listing, request: Request, r: Result<Page, ListError>)
    requires l.Valid()
  {
    var start := StartOf(l, request);
    var found := Found(l, request.query, request.day);
    if start.Failure? then r == Failure(start.error)
    else exists end: nat ::
      && FullPage(l, found, start.value, request.limit.GetOr(MAX_LIMIT), end)
      && r == (if end == start.value && end < |found| then Failure(SummaryTooLarge)
               else Success(Page(found[start.value..end],
                                 if end < |found| then Some(Cursor(FenceOf(l, request), end)) else None)))
  }

  /** Takes candidates from `offset` on while limit and budget allow. */
  method Fill(l: Listing, found: seq<Record>, offset: nat, limit: nat) returns (end: nat, summaries: seq<Record>)
    requires offset <= |found|
    ensures FullPage(l, found, offset, limit, end) && summaries == found[offset..end]
  {
    var bytes := 0;
    end, summaries := offset, [];
    while end < |found| && end - offset < limit
      invariant offset <= end <= |found| && end - offset <= limit
      invariant summaries == found[offset..end]
      invariant bytes == TotalWeight(l, summaries) <= BYTE_BUDGET
    {
      var length := Weight(l, found[end]);
      if bytes + length > BYTE_BUDGET {
        break;
      }
      assert (summaries + [found[end]])[..|summaries|] == summaries;
      bytes := bytes + length;
      summaries := summaries + [found[end]];
      end := end + 1;
    }
  }

  method List(l: Listing, request: Request) returns (r: Result<Page, ListError>)
    requires l.Valid()
    ensures Answers(l, request, r)
  {
    var start := StartOf(l, request);
    if start.Failure? {
      return Failure(start.error);
    }
    var found := Found(l, request.query, request.day);
    var end, summaries := Fill(l, found, start.value, request.limit.GetOr(MAX_LIMIT));
    if end == start.value && end != |found| {
      return Failure(SummaryTooLarge);
    }
    r := Success(Page(summaries, if end < |found| then Some(Cursor(FenceOf(l, request), end)) else None));
  }

  // ---------------------------------------------------------------- one page

  lemma {:induction false} WeightOfPrefix(l: Listing, items: seq<Record>, n: nat)
    requires n <= |items|
    ensures TotalWeight(l, items[..n]) <= TotalWeight(l, items)
    ensures n < |items| ==> TotalWeight(l, items[..n]) + Weight(l, items[n]) <= TotalWeight(l, items)
  {
    if n == |items| {
      assert items[..n] == items;
    } else {
      var m := |items| - 1;
      if n == m {
      } else {
        WeightOfPrefix(l, items[..m], n);
        assert items[..m][..n] == items[..n];
      }
    }
  }

  /** The page end is determined, so a request has one answer. */
  lemma {:induction false} FullPageUnique(l: Listing, found: seq<Record>, offset: nat, limit: nat, a: nat, b: nat)
    requires FullPage(l, found, offset, limit, a) && FullPage(l, found, offset, limit, b)
    ensures a == b
  {
    if a < b {
      ShorterIsNotFull(l, found, offset, limit, a, b);
    } else if b < a {
      ShorterIsNotFull(l, found, offset, limit, b, a);
    }
  }

  lemma {:induction false} ShorterIsNotFull(l: Listing, found: seq<Record>, offset: nat, limit: nat, a: nat, b: nat)
    requires FullPage(l, found, offset, limit, b) && offset <= a < b
    ensures !FullPage(l, found, offset, limit, a)
  {
    var page := found[offset..b];
    WeightOfPrefix(l, page, a - offset);
    assert page[..a - offset] == found[offset..a];
    assert page[a - offset] == found[a];
  }

  /** A page that does not advance is stuck on one summary that is too large by itself. */
  lemma {:induction false} EmptyPageMeansTooLarge(l: Listing, found: seq<Record>, offset: nat, limit: nat)
    requires FullPage(l, found, offset, limit, offset) && offset < |found| && limit >= 1
    ensures Weight(l, found[offset]) > BYTE_BUDGET
  {}

  lemma {:induction false} FirstTooLargeStops(l: Listing, found: seq<Record>, offset: nat, limit: nat, end: nat)
    requires FullPage(l, found, offset, limit, end) && offset < end
    ensures forall k :: offset <= k < end ==> Weight(l, found[k]) <= BYTE_BUDGET
  {
    var page := found[offset..end];
    forall k | offset <= k < end
      ensures Weight(l, found[k]) <= BYTE_BUDGET
    {
      WeightOfPrefix(l, page, k - offset);
      assert page[k - offset] == found[k];
    }
  }

  /** The two requests ask the same of listings in the same state. */
  predicate SameFence(l: Listing, request: Request, later: Listing, resumed: Request) {
    && later.revision == l.revision && later.imports == l.imports
    && later.timezone == l.timezone && later.view.today == l.view.today
    && resumed.query.text == request.query.text && DayOf(resumed.day) == DayOf(request.day)
  }

  /** A cursor that was issued is later found stale exactly when anything in its fence differs. */
  lemma {:induction false} CursorIsFenced(l: Listing, request: Request, r: Result<Page, ListError>,
                       later: Listing, resumed: Request, answer: Result<Page, ListError>)
    requires l.Valid() && later.Valid()
    requires Answers(l, request, r) && r.Success? && r.value.next.Some?
    requires Listable(resumed.query, resumed.day) && 1 <= resumed.limit.GetOr(MAX_LIMIT) <= MAX_LIMIT
    requires resumed.cursor == Resume(r.value.next.value) && Answers(later, resumed, answer)
    ensures answer == Failure(StaleCursor) <==> !SameFence(l, request, later, resumed)
  {}

  // ---------------------------------------------------------------- whole walks

  /** The pages obtained by following cursors, where page `n` is asked for with `limits(n)`. */
  ghost predicate Walk(l: Listing, query: Query, day: DayArgument, limits: nat -> nat, n: nat,
                       cursor: CursorArgument, pages: seq<Page>)
    requires l.Valid()
    decreases |pages|
  {
    && pages != []
    && Answers(l, Request(query, day, cursor, Some(limits(n))), Success(pages[0]))
    && (if |pages| == 1 then pages[0].next.None?
        else pages[0].next.Some? && Walk(l, query, day, limits, n + 1, Resume(pages[0].next.value), pages[1..]))
  }

  function Flatten(pages: seq<Page>): seq<Record> {
    if pages == [] then [] else pages[0].items + Flatten(pages[1..])
  }

  ghost predicate Fits(l: Listing, items: seq<Record>) {
    forall k :: 0 <= k < |items| ==> Weight(l, items[k]) <= BYTE_BUDGET
  }

  ghost predicate PerPageLimits(limits: nat -> nat) {
    forall n :: 1 <= limits(n) <= MAX_LIMIT
  }

  ghost predicate Listable(query: Query, day: DayArgument) {
    query.length <= MAX_QUERY && !day.UnreadableDay?
  }

  function CursorAt(l: Listing, query: Query, day: DayArgument, offset: nat): CursorArgument {
    if offset == 0 then NoCursor
    else Resume(Cursor(FenceOf(l, Request(query, day, NoCursor, None)), offset))
  }

  /** A cursor made for this listing and query is accepted where it points. */
  lemma {:induction false} CursorAccepted(l: Listing, query: Query, day: DayArgument, offset: nat, limit: nat)
    requires l.Valid() && Listable(query, day) && 1 <= limit <= MAX_LIMIT
    requires offset <= |Found(l, query, day)|
    ensures StartOf(l, Request(query, day, CursorAt(l, query, day, offset), Some(limit))) == Success(offset)
  {}

  lemma {:induction false} PageAt(l: Listing, query: Query, day: DayArgument, offset: nat, limit: nat, page: Page)
    returns (end: nat)
    requires l.Valid() && Listable(query, day) && 1 <= limit <= MAX_LIMIT
    requires offset <= |Found(l, query, day)|
    requires Answers(l, Request(query, day, CursorAt(l, query, day, offset), Some(limit)), Success(page))
    ensures var found := Found(l, query, day);
      && FullPage(l, found, offset, limit, end)
      && (offset < end || end == |found|)
      && page.items == found[offset..end]
      && page.next == (if end < |found|
                       then Some(Cursor(FenceOf(l, Request(query, day, NoCursor, None)), end)) else None)
  {
    var request := Request(query, day, CursorAt(l, query, day, offset), Some(limit));
    var found := Found(l, query, day);
    CursorAccepted(l, query, day, offset, limit);
    end :| FullPage(l, found, offset, limit, end)
      && Success(page) == (if end == offset && end < |found| then Failure(SummaryTooLarge)
               else Success(Page(found[offset..end],
                                 if end < |found| then Some(Cursor(FenceOf(l, request), end)) else None)));
  }

  /** The first page of a walk, and where the walk goes on. */
  lemma {:induction false} WalkNext(l: Listing, query: Query, day: DayArgument, limits: nat -> nat,
                 n: nat, offset: nat, pages: seq<Page>) returns (end: nat)
    requires l.Valid() && Listable(query, day) && PerPageLimits(limits)
    requires offset <= |Found(l, query, day)|
    requires Walk(l, query, day, limits, n, CursorAt(l, query, day, offset), pages)
    ensures offset <= end <= |Found(l, query, day)| && pages != []
    ensures pages[0].items == Found(l, query, day)[offset..end] && WithinBounds(l, pages[0], limits(n))
    ensures |pages| == 1 ==> end == |Found(l, query, day)|
    ensures |pages| > 1 ==>
      offset < end < |Found(l, query, day)|
      && Walk(l, query, day, limits, n + 1, CursorAt(l, query, day, end), pages[1..])
  {
    end := PageAt(l, query, day, offset, limits(n), pages[0]);
  }

  /** Following the cursors returns the remaining candidates, in order and each once. */
  lemma {:induction false} WalkReturnsRest(l: Listing, query: Query, day: DayArgument, limits: nat -> nat,
                                           n: nat, offset: nat, pages: seq<Page>)
    requires l.Valid() && Listable(query, day) && PerPageLimits(limits)
    requires offset <= |Found(l, query, day)|
    requires Walk(l, query, day, limits, n, CursorAt(l, query, day, offset), pages)
    ensures Flatten(pages) == Found(l, query, day)[offset..]
    ensures |pages| <= Max(1, |Found(l, query, day)| - offset)
    decreases |pages|
  {
    var found := Found(l, query, day);
    var end := WalkNext(l, query, day, limits, n, offset, pages);
    if |pages| > 1 {
      WalkReturnsRest(l, query, day, limits, n + 1, end, pages[1..]);
    }
    FlattenJoins(found, offset, end, pages);
  }

  lemma {:induction false} FlattenJoins(found: seq<Record>, offset: nat, end: nat, pages: seq<Page>)
    requires offset <= end <= |found| && pages != [] && pages[0].items == found[offset..end]
    requires if |pages| == 1 then end == |found| else Flatten(pages[1..]) == found[end..]
    ensures Flatten(pages) == found[offset..]
  {}

  ghost predicate WithinBounds(l: Listing, page: Page, limit: nat) {
    |page.items| <= limit && TotalWeight(l, page.items) <= BYTE_BUDGET
  }

  /** Page `n`, `n + 1`, ... are within their own limits and the byte budget. */
  ghost predicate AllBounded(l: Listing, limits: nat -> nat, n: nat, pages: seq<Page>)
    decreases |pages|
  {
    pages == [] || (WithinBounds(l, pages[0], limits(n)) && AllBounded(l, limits, n + 1, pages[1..]))
  }

  lemma {:induction false} WalkStaysBounded(l: Listing, query: Query, day: DayArgument, limits: nat -> nat,
                                            n: nat, offset: nat, pages: seq<Page>)
    requires l.Valid() && Listable(query, day) && PerPageLimits(limits)
    requires offset <= |Found(l, query, day)|
    requires Walk(l, query, day, limits, n, CursorAt(l, query, day, offset), pages)
    ensures AllBounded(l, limits, n, pages)
    decreases |pages|
  {
    var end := WalkNext(l, query, day, limits, n, offset, pages);
    if |pages| == 1 {
      assert pages[1..] == [];
    } else {
      WalkStaysBounded(l, query, day, limits, n + 1, end, pages[1..]);
    }
  }

  /** A completed walk passed only summaries that fit. */
  lemma {:induction false} WalkMeansFits(l: Listing, query: Query, day: DayArgument, limits: nat -> nat,
                                         n: nat, offset: nat, pages: seq<Page>, k: nat)
    requires l.Valid() && Listable(query, day) && PerPageLimits(limits)
    requires offset <= k < |Found(l, query, day)|
    requires Walk(l, query, day, limits, n, CursorAt(l, query, day, offset), pages)
    ensures Weight(l, Found(l, query, day)[k]) <= BYTE_BUDGET
    decreases |pages|
  {
    var found := Found(l, query, day);
    var end := PageAt(l, query, day, offset, limits(n), pages[0]);
    if k < end {
      FirstTooLargeStops(l, found, offset, limits(n), end);
    } else {
      WalkMeansFits(l, query, day, limits, n + 1, end, pages[1..], k);
    }
  }

  lemma {:induction false} WalkMeansAllFit(
    l: Listing, query: Query, day: DayArgument, limits: nat -> nat, pages: seq<Page>)
    requires l.Valid() && Listable(query, day) && PerPageLimits(limits)
    requires Walk(l, query, day, limits, 0, NoCursor, pages)
    ensures Fits(l, Found(l, query, day))
  {
    assert CursorAt(l, query, day, 0) == NoCursor;
    forall k | 0 <= k < |Found(l, query, day)|
      ensures Weight(l, Found(l, query, day)[k]) <= BYTE_BUDGET
    {
      WalkMeansFits(l, query, day, limits, 0, 0, pages, k);
    }
  }

  /** The end of the page is found by extending it while the next entry fits. */
  lemma {:induction false} PageExists(
    l: Listing, found: seq<Record>, offset: nat, limit: nat, from: nat)
    returns (end: nat)
    requires offset <= from <= |found| && from - offset <= limit
    requires TotalWeight(l, found[offset..from]) <= BYTE_BUDGET
    ensures from <= end && FullPage(l, found, offset, limit, end)
    decreases |found| - from
  {
    if from == |found| || from - offset == limit
       || TotalWeight(l, found[offset..from]) + Weight(l, found[from]) > BYTE_BUDGET {
      end := from;
    } else {
      assert found[offset..from + 1][..from - offset] == found[offset..from];
      end := PageExists(l, found, offset, limit, from + 1);
    }
  }

  /** When every summary fits, following the cursors reaches the end. */
  lemma {:induction false} WalkExists(l: Listing, query: Query, day: DayArgument, limits: nat -> nat,
                                      n: nat, offset: nat) returns (pages: seq<Page>)
    requires l.Valid() && Listable(query, day) && PerPageLimits(limits)
    requires offset <= |Found(l, query, day)| && Fits(l, Found(l, query, day))
    ensures Walk(l, query, day, limits, n, CursorAt(l, query, day, offset), pages)
    decreases |Found(l, query, day)| - offset
  {
    var found := Found(l, query, day);
    var request := Request(query, day, CursorAt(l, query, day, offset), Some(limits(n)));
    assert StartOf(l, request) == Success(offset);
    assert found[offset..offset] == [];
    var end := PageExists(l, found, offset, limits(n), offset);
    if end == offset && end < |found| {
      EmptyPageMeansTooLarge(l, found, offset, limits(n));
    }
    var page := Page(found[offset..end], if end < |found| then Some(Cursor(FenceOf(l, request), end)) else None);
    assert Answers(l, request, Success(page));
    if end == |found| {
      pages := [page];
    } else {
      var rest := WalkExists(l, query, day, limits, n + 1, end);
      pages := [page] + rest;
      assert pages[1..] == rest;
    }
  }

  /** Some sequence of pages follows the cursors from a fresh request to the end. */
  ghost predicate Completes(l: Listing, query: Query, day: DayArgument, limits: nat -> nat)
    requires l.Valid()
  {
    exists pages :: Walk(l, query, day, limits, 0, NoCursor, pages)
  }

  lemma {:induction false} CompletesWhenAllFit(l: Listing, query: Query, day: DayArgument, limits: nat -> nat)
    requires l.Valid() && Listable(query, day) && PerPageLimits(limits)
    requires Fits(l, Found(l, query, day))
    ensures Completes(l, query, day, limits)
  {
    assert CursorAt(l, query, day, 0) == NoCursor;
    var pages := WalkExists(l, query, day, limits, 0, 0);
  }

  lemma {:induction false} AllFitWhenCompletes(l: Listing, query: Query, day: DayArgument, limits: nat -> nat)
    requires l.Valid() && Listable(query, day) && PerPageLimits(limits)
    requires Completes(l, query, day, limits)
    ensures Fits(l, Found(l, query, day))
  {
    var pages :| Walk(l, query, day, limits, 0, NoCursor, pages);
    WalkMeansAllFit(l, query, day, limits, pages);
  }

  /** For any limits, a fresh walk can be completed exactly when every candidate's summary fits. */
  lemma {:induction false} WalkCompletesExactlyWhenAllFit(
    l: Listing, query: Query, day: DayArgument, limits: nat -> nat)
    requires l.Valid() && Listable(query, day) && PerPageLimits(limits)
    ensures Completes(l, query, day, limits) <==> Fits(l, Found(l, query, day))
  {
    if Completes(l, query, day, limits) {
      AllFitWhenCompletes(l, query, day, limits);
    } else if Fits(l, Found(l, query, day)) {
      CompletesWhenAllFit(l, query, day, limits);
    }
  }

  /** What validation admits, and what the summary flag and a longer revision number may add to it. */
  const MAX_RECORD := 1_048_576
  const SUMMARY_SLACK := 64

  /** Every record was validated at its encoded length, and its summary is not much longer. */
  ghost predicate Validated(l: Listing, encoded: Record -> nat) {
    forall r :: r in l.catalog.items ==> encoded(r) <= MAX_RECORD && l.size(r) <= encoded(r) + SUMMARY_SLACK
  }

  lemma {:induction false} ValidatedFit(
    l: Listing, query: Query, day: DayArgument, encoded: Record -> nat)
    requires l.Valid() && Validated(l, encoded)
    ensures Fits(l, Found(l, query, day))
  {
    var found := Found(l, query, day);
    forall k | 0 <= k < |found| ensures Weight(l, found[k]) <= BYTE_BUDGET {
      assert found[k] in l.catalog.items;
    }
  }

  /** Every fresh walk over validated records can be followed to its end, whatever the limits. */
  lemma {:induction false} WalksComplete(
    l: Listing, query: Query, day: DayArgument, limits: nat -> nat, encoded: Record -> nat)
    requires l.Valid() && Listable(query, day) && PerPageLimits(limits) && Validated(l, encoded)
    ensures Completes(l, query, day, limits)
  {
    ValidatedFit(l, query, day, encoded);
    CompletesWhenAllFit(l, query, day, limits);
  }

  /** No request over validated records is refused for the size of a summary. */
  lemma {:induction false} NeverTooLarge(
    l: Listing, request: Request, r: Result<Page, ListError>, encoded: Record -> nat)
    requires l.Valid() && Validated(l, encoded) && Answers(l, request, r)
    ensures r != Failure(SummaryTooLarge)
  {
    ValidatedFit(l, request.query, request.day, encoded);
    if r == Failure(SummaryTooLarge) {
      var found, offset := Found(l, request.query, request.day), StartOf(l, request).value;
      EmptyPageMeansTooLarge(l, found, offset, request.limit.GetOr(MAX_LIMIT));
    }
  }

  /** A completed fresh walk lists exactly the candidates, whatever the limits were. */
  lemma {:induction false} WalkListsCandidates(
    l: Listing, query: Query, day: DayArgument, limits: nat -> nat, pages: seq<Page>)
    requires l.Valid() && Listable(query, day) && PerPageLimits(limits)
    requires Walk(l, query, day, limits, 0, NoCursor, pages)
    ensures Flatten(pages) == Found(l, query, day)
    ensures |pages| <= Max(1, |Found(l, query, day)|)
    ensures AllBounded(l, limits, 0, pages)
  {
    assert CursorAt(l, query, day, 0) == NoCursor;
    WalkReturnsRest(l, query, day, limits, 0, 0, pages);
    WalkStaysBounded(l, query, day, limits, 0, 0, pages);
  }

  /** Which requests are refused before any page is made, and in this order. */
  lemma {:induction false} RefusalsMean(l: Listing, request: Request, r: Result<Page, ListError>)
    requires l.Valid() && Answers(l, request, r)
    ensures r == Failure(QueryTooLong) <==> request.query.length > 4096
    ensures r == Failure(BadLimit) <==>
      request.query.length <= 4096 && request.limit.Some? && !(1 <= request.limit.value <= 100)
    ensures r == Failure(BadDay) <==>
      && request.query.length <= 4096 && (request.limit.Some? ==> 1 <= request.limit.value <= 100)
      && request.day.UnreadableDay?
    ensures r.Success? ==> |r.value.items| <= 100
  {}
}
