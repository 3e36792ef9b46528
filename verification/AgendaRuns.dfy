/** What holds along every run of commits, lost replies, recoveries, imports, reads and restarts. */
module AgendaRuns {
  import opened Outcomes
  import opened AgendaModel
  import opened AgendaStore
  import opened AgendaSnapshot
  import opened AgendaService
  import opened Projection
  import StableSort
  import C = Catalog

  ghost predicate Run(setting: Setting, w: World, steps: seq<Step>, last: World)
    decreases |steps|
  {
    if steps == [] then w == last
    else
      && w.store.log != [] && Possible(w, steps[0])
      && Run(setting, Next(setting, w, steps[0]), steps[1..], last)
  }

  /** Every accepted import finds nothing unpublished. */
  ghost predicate Careful(setting: Setting, w: World, steps: seq<Step>)
    decreases |steps|
  {
    steps != [] && w.store.log != [] && Possible(w, steps[0]) ==>
      && (Overwrites(setting, w, steps[0]) ==> NothingUnpublished(w))
      && Careful(setting, Next(setting, w, steps[0]), steps[1..])
  }

  /** The accepted revision, or the one the next snapshot will have. */
  ghost function Level(w: World): nat
    requires w.store.log != []
  {
    if w.agenda.snapshot.Some? then w.agenda.snapshot.value.revision else w.store.Revision()
  }

  /** A step leaves the accepted data alone or moves to a strictly larger revision. */
  lemma {:induction false} NextAdvances(setting: Setting, w: World, e: Step)
    requires Consistent(w) && Possible(w, e) && w.agenda.snapshot.Some? && !e.Restart?
    ensures var after := Next(setting, w, e).agenda;
      && after.snapshot.Some?
      && after.importRevision >= w.agenda.importRevision
      && ((after.snapshot == w.agenda.snapshot && after.imports == w.agenda.imports
             && after.importRevision == w.agenda.importRevision)
          || after.snapshot.value.revision > w.agenda.snapshot.value.revision)
  {
    if e.Write? {
      MutateKeepsValid(w.store, e.request, e.mutation);
    } else if e.Lookup? {
      if e.request in w.store.receipts {
        assert w.store.Explains(w.store.receipts[e.request].result);
      }
    } else if e.Import? {
      InvalidateKeepsValid(w.store);
    }
  }

  lemma {:induction false} LevelNeverFalls(setting: Setting, w: World, e: Step)
    requires Consistent(w) && Possible(w, e)
    ensures Next(setting, w, e).store.log != []
    ensures Level(w) <= Level(Next(setting, w, e))
  {
    NextConsistent(setting, w, e);
    if w.agenda.snapshot.Some? && !e.Restart? {
      NextAdvances(setting, w, e);
    }
  }

  /** In a careful run the snapshot is the store at its revision, which never falls. */
  lemma {:induction false} RunStaysSynced(setting: Setting, w: World, steps: seq<Step>, last: World)
    requires Synced(w) && Run(setting, w, steps, last) && Careful(setting, w, steps)
    ensures Synced(last) && Level(w) <= Level(last)
    decreases |steps|
  {
    if steps != [] {
      NextSynced(setting, w, steps[0]);
      LevelNeverFalls(setting, w, steps[0]);
      RunStaysSynced(setting, Next(setting, w, steps[0]), steps[1..], last);
    }
  }

  /** Any run at all keeps the service consistent and its revision from falling. */
  lemma {:induction false} RunStaysConsistent(setting: Setting, w: World, steps: seq<Step>, last: World)
    requires Consistent(w) && Run(setting, w, steps, last)
    ensures Consistent(last) && Level(w) <= Level(last) && Extends(w.store, last.store)
    decreases |steps|
  {
    if steps != [] {
      NextConsistent(setting, w, steps[0]);
      LevelNeverFalls(setting, w, steps[0]);
      RunStaysConsistent(setting, Next(setting, w, steps[0]), steps[1..], last);
    }
  }

  // ---------------------------------------------------------------- the import boundary

  /** An import that finds the cached revision current finds nothing unpublished. */
  lemma {:induction false} CurrentMeansPublished(w: World)
    requires Synced(w) && w.agenda.snapshot.Some?
    requires forall r :: w.agenda.snapshot.value.revision < r <= w.store.Revision() ==> !w.store.Holds(r)
    ensures NothingUnpublished(w)
  {
    UnattributedKeepsItems(w.store, w.agenda.snapshot.value.revision);
  }

  /** After a gap of one revision, the import hides exactly a commit that left a receipt. */
  lemma {:induction false} GapOfOne(setting: Setting, w: World, e: Step)
    requires Synced(w) && Possible(w, e) && Overwrites(setting, w, e)
    requires w.store.Revision() == w.agenda.snapshot.value.revision + 1
    ensures Synced(Next(setting, w, e)) <==> !w.store.Holds(w.store.Revision())
  {
    ImportKeepsSyncedExactly(setting, w, e);
    var s := w.agenda.snapshot.value;
    assert Replayed(w.store, ById(s.items), s.revision, s.revision) == ById(s.items);
    if w.store.Holds(w.store.Revision()) {
      assert w.store.Explains(ResultAt(w.store, w.store.Revision()));
    }
  }

  // The failing run, world by world: nothing stored, one commit whose reply is lost, one import.

  function Fresh(): World {
    World(Store(0, [map[]], map[]), Agenda(Some(Snapshot([], 0)), map[], 0, None))
  }

  function NewItem(draft: Draft): Record {
    Record(LocalId("r"), draft.kind, 1, draft.schedule, draft.text, draft.body)
  }

  function AfterLostCommit(draft: Draft): World {
    var item := NewItem(draft);
    var receipt := Receipt(Create(draft), MutationResult(Some(item), None, 1));
    Fresh().(store := Store(0, [map[], map[item.id := item]], map["r" := receipt]))
  }

  function AfterImport(draft: Draft): World {
    var before := AfterLostCommit(draft);
    World(Invalidate(before.store), Agenda(Some(Snapshot([], 2)), map["cal" := []], 1, None))
  }

  lemma {:induction false} LostCommitStep(setting: Setting, draft: Draft)
    ensures var e := Write("r", Create(draft), Lost, None);
      Possible(Fresh(), e) && Next(setting, Fresh(), e) == AfterLostCommit(draft)
  {}

  lemma {:induction false} ImportStep(setting: Setting, draft: Draft)
    ensures var e := Import(map["cal" := []], [], Replied);
      Possible(AfterLostCommit(draft), e) && Next(setting, AfterLostCommit(draft), e) == AfterImport(draft)
  {
    var imports: Imports := map["cal" := []];
    assert ["cal"][1..] == [];
    assert Concat(["cal"], imports) == [];
    assert KeyOrder(imports, ["cal"]);
  }

  function FailingRun(draft: Draft): seq<Step> {
    [Write("r", Create(draft), Lost, None), Import(map["cal" := []], [], Replied)]
  }

  lemma {:induction false} FailingRunIsRun(setting: Setting, draft: Draft)
    ensures Run(setting, Fresh(), FailingRun(draft), AfterImport(draft))
  {
    LostCommitStep(setting, draft);
    ImportStep(setting, draft);
    var steps := FailingRun(draft);
    assert steps[1..] == [steps[1]] && steps[1..][1..] == [];
    assert Run(setting, AfterLostCommit(draft), steps[1..], AfterImport(draft));
  }

  lemma {:induction false} HiddenItem(draft: Draft)
    ensures Synced(Fresh()) && !Synced(AfterImport(draft))
  {
    assert LocalId("r") in AfterImport(draft).store.At(2);
  }

  /** A commit whose reply is lost, then an accepted import: the item stays hidden, and its
      receipt is never seen as news again. */
  lemma {:induction false} ImportHidesLostCommit(setting: Setting, draft: Draft, reload: Option<Snapshot>)
    ensures Synced(Fresh()) && Run(setting, Fresh(), FailingRun(draft), AfterImport(draft))
    ensures !Synced(AfterImport(draft))
    ensures Possible(AfterImport(draft), Lookup("r", reload)) ==>
      Next(setting, AfterImport(draft), Lookup("r", reload)) == AfterImport(draft)
  {
    FailingRunIsRun(setting, draft);
    HiddenItem(draft);
  }

  // ---------------------------------------------------------------- the cached catalog

  lemma {:induction false} StampedIgnoresOrder(flat: seq<Record>, other: seq<Record>, revision: nat)
    requires multiset(flat) == multiset(other) && DistinctIds(Stamped(flat, revision))
    ensures Stamped(flat, revision) == Stamped(other, revision)
  {
    var sorted := StableSort.Sort(C.ById(), flat);
    var stamped := Stamped(flat, revision);
    assert DistinctIds(sorted) by {
      forall i, j | 0 <= i < j < |sorted|
        ensures sorted[i].id != sorted[j].id
      {
        assert stamped[i].id == sorted[i].id && stamped[j].id == sorted[j].id;
      }
    }
    var view: View :| true;
    C.OrdersAreStrictWeak(view);
    C.DistinctIdsCompare(view, sorted);
    StableSort.SortKeepsElements(C.ById(), flat);
    StableSort.ComparablePermutes(C.ById(), sorted, flat);
    StableSort.SortIgnoresArrangement(C.ById(), flat, other);
  }

  lemma {:induction false} TailDistinct(items: seq<Record>, tail: seq<Record>)
    requires DistinctIds(items + tail)
    ensures DistinctIds(tail)
  {
    forall i, j | 0 <= i < j < |tail| ensures tail[i].id != tail[j].id {
      assert (items + tail)[|items| + i] == tail[i] && (items + tail)[|items| + j] == tail[j];
    }
  }

  /** A successful build does not depend on the order in which the sources are visited. */
  lemma {:induction false} BuildIgnoresOrder(
    setting: Setting, s: Snapshot, imports: Imports, flat: seq<Record>, other: seq<Record>, today: int,
    timezone: string)
    requires Flattens(imports, flat) && Flattens(imports, other)
    requires Build(setting, s, flat, today, timezone).Success?
    ensures Build(setting, s, other, today, timezone) == Build(setting, s, flat, today, timezone)
  {
    FlatteningsAgree(imports, flat, other);
    TailDistinct(s.items, Stamped(flat, s.revision));
    StampedIgnoresOrder(flat, other, s.revision);
  }

  /** The cached entry is what a rebuild from the given data would give. */
  ghost predicate Rebuilt(setting: Setting, s: Snapshot, imports: Imports, c: CachedCatalog) {
    forall flat :: Flattens(imports, flat) ==>
      Build(setting, s, flat, c.today, c.timezone) == Success((c.catalog, c.digest))
  }

  ghost predicate CacheFresh(setting: Setting, a: Agenda) {
    a.cached.Some? && a.snapshot.Some? ==>
      && a.cached.value.revision <= a.snapshot.value.revision
      && a.cached.value.importRevision <= a.importRevision
      && ((a.cached.value.revision == a.snapshot.value.revision && a.cached.value.importRevision == a.importRevision)
          ==> Rebuilt(setting, a.snapshot.value, a.imports, a.cached.value))
  }

  lemma {:induction false} ReadIsRebuild(setting: Setting, a: Agenda, flat: seq<Record>, today: int, timezone: string)
    requires a.snapshot.Some? && Flattens(a.imports, flat) && CacheFresh(setting, a)
    ensures CacheFresh(setting, Read(setting, a, flat, today, timezone).0)
    ensures var r := Read(setting, a, flat, today, timezone).1; r.Success? ==>
      && r.value.revision == a.snapshot.value.revision
      && r.value.today == today && r.value.timezone == timezone
      && Build(setting, a.snapshot.value, flat, today, timezone) == Success((r.value.catalog, r.value.digest))
  {
    var (after, r) := Read(setting, a, flat, today, timezone);
    if r.Success? && !(a.cached.Some? && Hit(a.cached.value, a, today, timezone)) {
      forall other | Flattens(a.imports, other)
        ensures Build(setting, a.snapshot.value, other, today, timezone) == Success((r.value.catalog, r.value.digest))
      {
        BuildIgnoresOrder(setting, a.snapshot.value, a.imports, flat, other, today, timezone);
      }
    }
  }

  lemma {:induction false} NextFresh(setting: Setting, w: World, e: Step)
    requires Consistent(w) && Possible(w, e) && CacheFresh(setting, w.agenda)
    ensures CacheFresh(setting, Next(setting, w, e).agenda)
  {
    if e.Show? {
      ReadIsRebuild(setting, w.agenda, e.flat, e.today, e.timezone);
    } else if w.agenda.snapshot.Some? && !e.Restart? {
      NextAdvances(setting, w, e);
    }
  }

  /** In every run, a read that hits the cache returns what a rebuild would return now. */
  lemma {:induction false} RunStaysFresh(setting: Setting, w: World, steps: seq<Step>, last: World)
    requires Consistent(w) && CacheFresh(setting, w.agenda) && Run(setting, w, steps, last)
    ensures Consistent(last) && CacheFresh(setting, last.agenda)
    decreases |steps|
  {
    if steps != [] {
      NextConsistent(setting, w, steps[0]);
      NextFresh(setting, w, steps[0]);
      RunStaysFresh(setting, Next(setting, w, steps[0]), steps[1..], last);
    }
  }

  // ---------------------------------------------------------------- end to end

  /** A read of a synced service is a catalog of the store's items at that revision, in any arrangement. */
  lemma {:induction false} ReadShowsStore(
    setting: Setting, w: World, flat: seq<Record>, today: int, timezone: string, rows: seq<Record>)
    requires Synced(w) && CacheFresh(setting, w.agenda) && w.agenda.snapshot.Some?
    requires Flattens(w.agenda.imports, flat)
    requires DistinctIds(rows) && ById(rows) == w.store.At(w.agenda.snapshot.value.revision)
    ensures var r := Read(setting, w.agenda, flat, today, timezone).1; r.Success? ==>
      r.value.catalog == C.New(setting.ViewOf(today, timezone), rows + r.value.digest)
  {
    var s := w.agenda.snapshot.value;
    ReadIsRebuild(setting, w.agenda, flat, today, timezone);
    var digest := Stamped(flat, s.revision);
    if DistinctIds(s.items + digest) {
      SameTableSameRecords(s.items, rows);
      C.CatalogIgnoresArrangement(setting.ViewOf(today, timezone), s.items + digest, rows + digest);
    }
  }

  /** Both reads succeed, under one fence. */
  predicate SameFence(a: Result<CachedCatalog, BuildError>, b: Result<CachedCatalog, BuildError>) {
    && a.Success? && b.Success?
    && a.value.revision == b.value.revision && a.value.digest == b.value.digest
  }

  lemma {:induction false} WithoutDigest(a: seq<Record>, b: seq<Record>, digest: seq<Record>)
    requires multiset(a + digest) == multiset(b + digest)
    ensures multiset(a) == multiset(b)
  {
    assert multiset(a) == multiset(a + digest) - multiset(digest);
    assert multiset(b) == multiset(b + digest) - multiset(digest);
  }

  lemma {:induction false} SameTableSameCatalog(view: View, a: seq<Record>, b: seq<Record>, digest: seq<Record>)
    requires DistinctIds(a + digest) && DistinctIds(a) && DistinctIds(b) && ById(a) == ById(b)
    ensures C.New(view, a + digest) == C.New(view, b + digest)
  {
    SameTableSameRecords(a, b);
    C.CatalogIgnoresArrangement(view, a + digest, b + digest);
  }

  lemma {:induction false} SameCatalogSameTable(view: View, a: seq<Record>, b: seq<Record>, digest: seq<Record>)
    requires DistinctIds(a) && DistinctIds(b) && C.New(view, a + digest) == C.New(view, b + digest)
    ensures ById(a) == ById(b)
  {
    C.CatalogOrder(view, a + digest);
    C.CatalogOrder(view, b + digest);
    WithoutDigest(a, b, digest);
    SameRecordsSameTable(a, b);
  }

  lemma {:induction false} ReadCatalogIs(setting: Setting, a: Agenda, flat: seq<Record>, today: int, timezone: string)
    requires a.snapshot.Some? && Flattens(a.imports, flat) && CacheFresh(setting, a)
    ensures var r := Read(setting, a, flat, today, timezone).1; r.Success? ==>
      && r.value.revision == a.snapshot.value.revision
      && DistinctIds(a.snapshot.value.items + r.value.digest)
      && r.value.digest == Stamped(flat, a.snapshot.value.revision)
      && r.value.catalog == C.New(setting.ViewOf(today, timezone), a.snapshot.value.items + r.value.digest)
  {
    ReadIsRebuild(setting, a, flat, today, timezone);
  }

  /** Two reads under one fence, even across a restart, show the same catalog exactly when the
      snapshots hold the same items. */
  lemma {:induction false} FencedReadsAgree(
    setting: Setting, a: Agenda, flat: seq<Record>, b: Agenda, other: seq<Record>, today: int, timezone: string)
    requires a.snapshot.Some? && DistinctIds(a.snapshot.value.items) && CacheFresh(setting, a)
    requires b.snapshot.Some? && DistinctIds(b.snapshot.value.items) && CacheFresh(setting, b)
    requires Flattens(a.imports, flat) && Flattens(b.imports, other)
    requires SameFence(Read(setting, a, flat, today, timezone).1, Read(setting, b, other, today, timezone).1)
    ensures a.snapshot.value.revision == b.snapshot.value.revision
    ensures (Read(setting, a, flat, today, timezone).1.value.catalog
             == Read(setting, b, other, today, timezone).1.value.catalog)
            <==> ById(a.snapshot.value.items) == ById(b.snapshot.value.items)
  {
    ReadCatalogIs(setting, a, flat, today, timezone);
    ReadCatalogIs(setting, b, other, today, timezone);
    var view, s, t := setting.ViewOf(today, timezone), a.snapshot.value.items, b.snapshot.value.items;
    var digest := Read(setting, a, flat, today, timezone).1.value.digest;
    if ById(s) == ById(t) {
      SameTableSameCatalog(view, s, t, digest);
    } else if C.New(view, s + digest) == C.New(view, t + digest) {
      SameCatalogSameTable(view, s, t, digest);
    }
  }

  /** So beside a synced service, such as one that was just restarted, they agree exactly when the
      other was synced too. */
  lemma {:induction false} SyncedReadsAgree(
    setting: Setting, w: World, flat: seq<Record>, v: World, other: seq<Record>, today: int, timezone: string)
    requires Consistent(w) && CacheFresh(setting, w.agenda) && w.agenda.snapshot.Some?
    requires Synced(v) && CacheFresh(setting, v.agenda) && v.agenda.snapshot.Some? && Extends(w.store, v.store)
    requires Flattens(w.agenda.imports, flat) && Flattens(v.agenda.imports, other)
    requires SameFence(Read(setting, w.agenda, flat, today, timezone).1,
                       Read(setting, v.agenda, other, today, timezone).1)
    ensures (Read(setting, w.agenda, flat, today, timezone).1.value.catalog
             == Read(setting, v.agenda, other, today, timezone).1.value.catalog)
            <==> Synced(w)
  {
    FencedReadsAgree(setting, w.agenda, flat, v.agenda, other, today, timezone);
    SyncedBeside(w, v);
  }

  lemma {:induction false} SyncedBeside(w: World, v: World)
    requires Consistent(w) && w.agenda.snapshot.Some? && Synced(v) && v.agenda.snapshot.Some?
    requires Extends(w.store, v.store) && w.agenda.snapshot.value.revision == v.agenda.snapshot.value.revision
    ensures Synced(w) <==> ById(w.agenda.snapshot.value.items) == ById(v.agenda.snapshot.value.items)
  {
    var s := w.agenda.snapshot.value;
    assert v.store.At(s.revision) == w.store.At(s.revision);
  }

  /** The service restarted after the hidden commit: the store's one item, at the revision of before. */
  function AfterRestart(draft: Draft): World {
    AfterImport(draft).(agenda := Agenda(Some(Snapshot([NewItem(draft)], 2)), map[], 0, None))
  }

  lemma {:induction false} RestartStep(setting: Setting, draft: Draft)
    ensures var e := Restart(Some(Snapshot([NewItem(draft)], 2)));
      Possible(AfterImport(draft), e) && Next(setting, AfterImport(draft), e) == AfterRestart(draft)
  {
    var item := NewItem(draft);
    assert [item][..0] == [];
    assert ById([item]) == map[item.id := item];
  }

  lemma {:induction false} EmptyFlattening()
    ensures Flattens(map["cal" := []], []) && Flattens(map[], [])
  {
    var imports: Imports := map["cal" := []];
    assert ["cal"][1..] == [];
    assert KeyOrder(imports, ["cal"]) && Concat(["cal"], imports) == [];
    var none: Imports := map[];
    assert KeyOrder(none, []) && Concat([], none) == [];
  }

  /** The failing pair: one fence before and after that restart, with no item and with one. */
  lemma {:induction false} RestartChangesFencedRead(setting: Setting, draft: Draft, today: int, timezone: string)
    requires setting.size(NewItem(draft)) <= MAX_BYTES
    ensures var e := Restart(Some(Snapshot([NewItem(draft)], 2)));
      Possible(AfterImport(draft), e) && Next(setting, AfterImport(draft), e) == AfterRestart(draft)
    ensures Flattens(AfterImport(draft).agenda.imports, []) && Flattens(AfterRestart(draft).agenda.imports, [])
    ensures var a := Read(setting, AfterImport(draft).agenda, [], today, timezone).1;
      var b := Read(setting, AfterRestart(draft).agenda, [], today, timezone).1;
      SameFence(a, b) && |a.value.catalog.items| == 0 && |b.value.catalog.items| == 1
  {
    RestartStep(setting, draft);
    EmptyFlattening();
    var item := NewItem(draft);
    assert [item][..0] == [];
    assert Bytes(setting.size, [item]) == setting.size(item);
    BuildsWithoutImports(setting, Snapshot([], 2), today, timezone);
    BuildsWithoutImports(setting, Snapshot([item], 2), today, timezone);
  }

  lemma {:induction false} BuildsWithoutImports(setting: Setting, s: Snapshot, today: int, timezone: string)
    requires DistinctIds(s.items) && Bytes(setting.size, s.items) <= MAX_BYTES
    ensures var r := Build(setting, s, [], today, timezone);
      r.Success? && r.value.1 == [] && |r.value.0.items| == |s.items|
  {
    var none: seq<Record> := Stamped([], s.revision);
    assert none == [] && s.items + none == s.items;
    var items := C.New(setting.ViewOf(today, timezone), s.items).items;
    C.CatalogOrder(setting.ViewOf(today, timezone), s.items);
    assert |items| == |multiset(items)| == |multiset(s.items)| == |s.items|;
  }

  /** Without a restart, an unchanged revision means unchanged data, synced or not. */
  lemma {:induction false} SameRevisionSameData(setting: Setting, w: World, steps: seq<Step>, last: World)
    requires Consistent(w) && w.agenda.snapshot.Some? && Run(setting, w, steps, last)
    requires forall k :: 0 <= k < |steps| ==> !steps[k].Restart?
    ensures Consistent(last) && last.agenda.snapshot.Some?
    ensures last.agenda.snapshot.value.revision >= w.agenda.snapshot.value.revision
    ensures last.agenda.snapshot.value.revision == w.agenda.snapshot.value.revision ==>
      last.agenda.snapshot == w.agenda.snapshot && last.agenda.imports == w.agenda.imports
    decreases |steps|
  {
    if steps != [] {
      NextConsistent(setting, w, steps[0]);
      NextAdvances(setting, w, steps[0]);
      SameRevisionSameData(setting, Next(setting, w, steps[0]), steps[1..], last);
    }
  }
}
