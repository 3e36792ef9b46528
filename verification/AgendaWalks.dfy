/** The whole chain: pages, over a cached catalog, over an accepted snapshot, over the store. */
module AgendaWalks {
  import opened Outcomes
  import opened AgendaModel
  import opened AgendaStore
  import opened AgendaSnapshot
  import opened AgendaService
  import opened AgendaRuns
  import opened Projection
  import StableSort
  import C = Catalog
  import P = Paging

  /** What is listed after a read. */
  function ListingOf(setting: Setting, c: CachedCatalog, weigh: Record -> nat): P.Listing {
    P.Listing(c.catalog, c.revision, c.digest, setting.ViewOf(c.today, c.timezone), c.timezone, weigh)
  }

  /** `listed` are the wanted ones of `records`, each once, in catalog order. */
  ghost predicate Lists(
    view: View, records: seq<Record>, day: Option<int>, tokens: seq<string>, listed: seq<Record>)
  {
    && (forall r :: r in listed <==> r in records && C.Wanted(view, day, tokens, r))
    && DistinctIds(listed)
    && StableSort.Sorted(StableSort.Then(C.ByOrder(view), C.ById()), listed)
  }

  /** `listed` are the elements of `items` at increasing places. */
  ghost predicate PickedAt(items: seq<Record>, places: seq<nat>, listed: seq<Record>) {
    && |places| == |listed|
    && (forall k :: 0 <= k < |places| ==> places[k] < |items| && listed[k] == items[places[k]])
    && (forall i, j :: 0 <= i < j < |places| ==> places[i] < places[j])
  }

  lemma {:induction false} PickedInOrder(
    less: (Record, Record) -> bool, items: seq<Record>, places: seq<nat>, listed: seq<Record>)
    requires PickedAt(items, places, listed) && DistinctIds(items) && StableSort.Sorted(less, items)
    ensures DistinctIds(listed) && StableSort.Sorted(less, listed)
  {}

  lemma {:induction false} PickedAreWanted(
    view: View, day: Option<int>, tokens: seq<string>, items: seq<Record>, places: seq<nat>, listed: seq<Record>)
    requires PickedAt(items, places, listed)
    requires forall i :: 0 <= i < |items| ==> (i in places <==> C.Wanted(view, day, tokens, items[i]))
    ensures forall r :: r in listed <==> r in items && C.Wanted(view, day, tokens, r)
  {
    forall r ensures r in listed <==> r in items && C.Wanted(view, day, tokens, r) {
      if r in listed {
        var k :| 0 <= k < |listed| && listed[k] == r;
        assert places[k] in places;
      }
      if r in items && C.Wanted(view, day, tokens, r) {
        var i :| 0 <= i < |items| && items[i] == r;
        var k :| 0 <= k < |places| && places[k] == i;
        assert listed[k] == r;
      }
    }
  }

  lemma {:induction false} CandidatesList(view: View, records: seq<Record>, day: Option<int>, tokens: seq<string>)
    requires DistinctIds(records)
    ensures Lists(view, records, day, tokens, C.Candidates(C.New(view, records), view.zone, day, tokens))
  {
    var items := C.New(view, records).items;
    var listed := C.Candidates(C.New(view, records), view.zone, day, tokens);
    var places := C.CandidatesExact(view, records, day, tokens);
    C.CatalogOrder(view, records);
    StableSort.SameElements(items, records);
    DistinctPermutes(records, items);
    PickedInOrder(StableSort.Then(C.ByOrder(view), C.ById()), items, places, listed);
    PickedAreWanted(view, day, tokens, items, places, listed);
  }

  /**
   A completed walk over a read of a synced service lists exactly the wanted ones of the store's rows at
   that revision and of the imports, each once and in catalog order.
   */
  lemma {:induction false} WalkListsStore(
    setting: Setting, w: World, flat: seq<Record>, today: int, timezone: string, rows: seq<Record>,
    weigh: Record -> nat, query: P.Query, day: P.DayArgument, limits: nat -> nat, pages: seq<P.Page>)
    requires Synced(w) && CacheFresh(setting, w.agenda) && w.agenda.snapshot.Some?
    requires Flattens(w.agenda.imports, flat)
    requires DistinctIds(rows) && ById(rows) == w.store.At(w.agenda.snapshot.value.revision)
    requires Read(setting, w.agenda, flat, today, timezone).1.Success?
    requires var c := Read(setting, w.agenda, flat, today, timezone).1.value;
      && ListingOf(setting, c, weigh).Valid() && P.Listable(query, day) && P.PerPageLimits(limits)
      && P.Walk(ListingOf(setting, c, weigh), query, day, limits, 0, P.NoCursor, pages)
    ensures var digest := Stamped(flat, w.agenda.snapshot.value.revision);
      Lists(setting.ViewOf(today, timezone), rows + digest, P.DayOf(day), C.Words(query.text, 0, ""), P.Flatten(pages))
  {
    var c := Read(setting, w.agenda, flat, today, timezone).1.value;
    var view := setting.ViewOf(today, timezone);
    ReadIsRebuild(setting, w.agenda, flat, today, timezone);
    ReadCatalogIs(setting, w.agenda, flat, today, timezone);
    ReadShowsStore(setting, w, flat, today, timezone, rows);
    P.WalkListsCandidates(ListingOf(setting, c, weigh), query, day, limits, pages);
    SameTableSameRecords(w.agenda.snapshot.value.items, rows);
    DistinctPermutes(w.agenda.snapshot.value.items + c.digest, rows + c.digest);
    CandidatesList(view, rows + c.digest, P.DayOf(day), C.Words(query.text, 0, ""));
  }

  /** Over validated records such a walk always exists: everything wanted can be listed to the end. */
  lemma {:induction false} StoreCanBeListed(
    setting: Setting, w: World, flat: seq<Record>, today: int, timezone: string, rows: seq<Record>,
    weigh: Record -> nat, encoded: Record -> nat, query: P.Query, day: P.DayArgument, limits: nat -> nat)
    returns (pages: seq<P.Page>)
    requires Synced(w) && CacheFresh(setting, w.agenda) && w.agenda.snapshot.Some?
    requires Flattens(w.agenda.imports, flat)
    requires DistinctIds(rows) && ById(rows) == w.store.At(w.agenda.snapshot.value.revision)
    requires Read(setting, w.agenda, flat, today, timezone).1.Success?
    requires var c := Read(setting, w.agenda, flat, today, timezone).1.value;
      && ListingOf(setting, c, weigh).Valid() && P.Listable(query, day) && P.PerPageLimits(limits)
      && P.Validated(ListingOf(setting, c, weigh), encoded)
    ensures P.Walk(ListingOf(setting, Read(setting, w.agenda, flat, today, timezone).1.value, weigh),
                   query, day, limits, 0, P.NoCursor, pages)
    ensures var digest := Stamped(flat, w.agenda.snapshot.value.revision);
      Lists(setting.ViewOf(today, timezone), rows + digest, P.DayOf(day), C.Words(query.text, 0, ""), P.Flatten(pages))
  {
    var l := ListingOf(setting, Read(setting, w.agenda, flat, today, timezone).1.value, weigh);
    P.WalksComplete(l, query, day, limits, encoded);
    pages :| P.Walk(l, query, day, limits, 0, P.NoCursor, pages);
    WalkListsStore(setting, w, flat, today, timezone, rows, weigh, query, day, limits, pages);
  }
}
