/**
 The activity service above the store: the accepted snapshot, the accepted calendar
 imports and the cached catalog, as values with one function for each operation.
 A call into the database is represented by its answer.
 */
module AgendaService {
  import opened Outcomes
  import opened AgendaModel
  import opened AgendaStore
  import opened AgendaSnapshot
  import opened Projection
  import StableSort
  import C = Catalog

  const MAX_IMPORTS := 10000
  const MAX_BYTES := 100 * 1024 * 1024
  const RESERVED_BYTES := 4096

  /** An accepted event: the record it becomes, and its colour and calendar name, which no record holds. */
  datatype ImportedEvent = ImportedEvent(record: Record, look: string)

  /** Imported events by calendar source. */
  type Imports = map<string, seq<ImportedEvent>>

  /** What does not change while the service runs: the zone tables and the encoder. */
  datatype Setting = Setting(zones: string -> Zone, size: Record -> nat)
  {
    function ViewOf(today: int, timezone: string): View {
      View(today, zones(timezone))
    }
  }

  /** The digest of the imports is the stamped imports themselves. */
  datatype CachedCatalog = CachedCatalog(
    revision: nat,
    importRevision: nat,
    today: int,
    timezone: string,
    digest: seq<Record>,
    catalog: C.Catalog)

  datatype Agenda = Agenda(
    snapshot: Option<Snapshot>,
    imports: Imports,
    importRevision: nat,
    cached: Option<CachedCatalog>)

  // ---------------------------------------------------------------- imports

  function RecordsOf(events: seq<ImportedEvent>): seq<Record> {
    seq(|events|, i requires 0 <= i < |events| => events[i].record)
  }

  function Concat(keys: seq<string>, imports: Imports): seq<Record>
    requires forall k :: k in keys ==> k in imports
  {
    if keys == [] then [] else RecordsOf(imports[keys[0]]) + Concat(keys[1..], imports)
  }

  ghost predicate KeyOrder(imports: Imports, keys: seq<string>) {
    multiset(keys) == multiset(imports.Keys) && forall k :: k in keys ==> k in imports
  }

  /** `flat` holds the records of every source, visiting the sources in some order. */
  ghost predicate Flattens(imports: Imports, flat: seq<Record>) {
    exists keys :: KeyOrder(imports, keys) && flat == Concat(keys, imports)
  }

  lemma {:induction false} ConcatSplits(a: seq<string>, b: seq<string>, imports: Imports)
    requires forall k :: k in a || k in b ==> k in imports
    ensures Concat(a + b, imports) == Concat(a, imports) + Concat(b, imports)
  {
    if a == [] {
      assert a + b == b;
    } else {
      assert (a + b)[1..] == a[1..] + b;
      ConcatSplits(a[1..], b, imports);
    }
  }

  lemma {:induction false} ConcatWithout(b: seq<string>, j: nat, imports: Imports)
    requires j < |b| && forall k :: k in b ==> k in imports
    ensures multiset(Concat(b, imports))
         == multiset(RecordsOf(imports[b[j]])) + multiset(Concat(b[..j] + b[j + 1..], imports))
  {
    var left, right := b[..j], b[j + 1..];
    assert b == left + ([b[j]] + right);
    assert ([b[j]] + right)[1..] == right;
    ConcatSplits(left, [b[j]] + right, imports);
    ConcatSplits(left, right, imports);
  }

  lemma {:induction false} WithoutAgree(a: seq<string>, b: seq<string>, j: nat)
    requires multiset(a) == multiset(b) && a != [] && j < |b| && b[j] == a[0]
    ensures multiset(b[..j] + b[j + 1..]) == multiset(a[1..])
  {
    StableSort.WithoutOne(b, j);
    assert a == [a[0]] + a[1..];
    assert multiset(a) - multiset{a[0]} == multiset(a[1..]);
  }

  lemma {:induction false} ConcatIgnoresOrder(a: seq<string>, b: seq<string>, imports: Imports)
    requires forall k :: k in a ==> k in imports
    requires forall k :: k in b ==> k in imports
    requires multiset(a) == multiset(b)
    ensures multiset(Concat(a, imports)) == multiset(Concat(b, imports))
    decreases |a|
  {
    StableSort.SameElements(a, b);
    if a != [] {
      assert a[0] in a;
      var j :| 0 <= j < |b| && b[j] == a[0];
      WithoutAgree(a, b, j);
      ConcatIgnoresOrder(a[1..], b[..j] + b[j + 1..], imports);
      ConcatWithout(b, j, imports);
    }
  }

  lemma {:induction false} FlatteningsAgree(imports: Imports, flat: seq<Record>, other: seq<Record>)
    requires Flattens(imports, flat) && Flattens(imports, other)
    ensures multiset(flat) == multiset(other)
  {
    var a :| KeyOrder(imports, a) && flat == Concat(a, imports);
    var b :| KeyOrder(imports, b) && other == Concat(b, imports);
    ConcatIgnoresOrder(a, b, imports);
  }

  // ---------------------------------------------------------------- the catalog

  function Bytes(size: Record -> nat, items: seq<Record>): nat {
    if items == [] then 0 else Bytes(size, items[..|items| - 1]) + size(items[|items| - 1])
  }

  /** The imports sorted by id, each carrying the snapshot's revision. */
  function Stamped(flat: seq<Record>, revision: nat): seq<Record> {
    var sorted := StableSort.Sort(C.ById(), flat);
    seq(|sorted|, i requires 0 <= i < |sorted| => sorted[i].(revision := Max(revision, 1)))
  }

  datatype BuildError = TooManyImports | IdentityCollision | CatalogTooLarge

  /** Builds the combined catalog and the digest of its imports. */
  function Build(setting: Setting, s: Snapshot, flat: seq<Record>, today: int, timezone: string)
    : Result<(C.Catalog, seq<Record>), BuildError>
  {
    var digest := Stamped(flat, s.revision);
    var items := s.items + digest;
    if |digest| > MAX_IMPORTS then Failure(TooManyImports)
    else if !DistinctIds(items) then Failure(IdentityCollision)
    else if Bytes(setting.size, items) > MAX_BYTES then Failure(CatalogTooLarge)
    else Success((C.New(setting.ViewOf(today, timezone), items), digest))
  }

  // ---------------------------------------------------------------- operations

  function Accept(a: Agenda, result: MutationResult, reload: Option<Snapshot>): Agenda
    requires a.snapshot.Some?
  {
    if result.revision > a.snapshot.value.revision + 1 then
      if reload.Some? then a.(snapshot := reload) else a
    else a.(snapshot := Some(ApplyResult(a.snapshot.value, result)))
  }

  function Recover(a: Agenda, receipt: Option<MutationResult>, reload: Option<Snapshot>): Agenda
    requires a.snapshot.Some?
  {
    if receipt.Some? && receipt.value.revision > a.snapshot.value.revision && reload.Some?
    then a.(snapshot := reload) else a
  }

  /** Whether a changed set of imports may be accepted beside the snapshot. */
  predicate Acceptable(size: Record -> nat, items: seq<Record>, flat: seq<Record>) {
    && DistinctIds(flat)
    && (forall i, j :: 0 <= i < |flat| && 0 <= j < |items| ==> flat[i].id != items[j].id)
    && |flat| <= MAX_IMPORTS
    && (flat == [] || RESERVED_BYTES + Bytes(size, items) + Bytes(size, flat) <= MAX_BYTES)
  }

  /** The cached revision is overwritten with the invalidation's revision; the items are kept. */
  function AcceptImports(a: Agenda, imports: Imports, revision: nat): Agenda
    requires a.snapshot.Some?
  {
    a.(snapshot := Some(a.snapshot.value.(revision := revision)),
       imports := imports,
       importRevision := a.importRevision + 1)
  }

  predicate Hit(c: CachedCatalog, a: Agenda, today: int, timezone: string)
    requires a.snapshot.Some?
  {
    c.revision == a.snapshot.value.revision && c.importRevision == a.importRevision
    && c.today == today && c.timezone == timezone
  }

  /** Returns the cached catalog on a hit and otherwise builds and caches one. */
  function Read(setting: Setting, a: Agenda, flat: seq<Record>, today: int, timezone: string)
    : (Agenda, Result<CachedCatalog, BuildError>)
    requires a.snapshot.Some?
  {
    if a.cached.Some? && Hit(a.cached.value, a, today, timezone) then (a, Success(a.cached.value))
    else
      match Build(setting, a.snapshot.value, flat, today, timezone)
      case Failure(e) => (a, Failure(e))
      case Success((catalog, digest)) =>
        var c := CachedCatalog(a.snapshot.value.revision, a.importRevision, today, timezone, digest, catalog);
        (a.(cached := Some(c)), Success(c))
  }

  // ---------------------------------------------------------------- runs

  datatype World = World(store: Store, agenda: Agenda)

  /** A call is refused without effect, answered, or committed with its answer lost. */
  datatype Fate = Refused | Replied | Lost

  datatype Step =
    | Open(answer: Snapshot)
    | Write(request: string, mutation: Mutation, fate: Fate, reload: Option<Snapshot>)
    | Lookup(request: string, reload: Option<Snapshot>)
    | Import(imports: Imports, flat: seq<Record>, fate: Fate)
    | Show(today: int, timezone: string, flat: seq<Record>)
    | Restart(loaded: Option<Snapshot>)

  /** A snapshot the database may answer with now. */
  ghost predicate SnapshotOf(store: Store, s: Snapshot)
    requires store.log != []
  {
    s.revision == store.Revision() && DistinctIds(s.items) && ById(s.items) == store.Items()
  }

  /** The import passes the early return and every check, and reaches the store. */
  predicate Effective(setting: Setting, a: Agenda, imports: Imports, flat: seq<Record>)
    requires a.snapshot.Some?
  {
    a.imports != imports && Acceptable(setting.size, a.snapshot.value.items, flat)
  }

  /** The answers carried by a step are ones the database and the maps could give. */
  ghost predicate Possible(w: World, e: Step)
    requires w.store.log != []
  {
    match e
    case Open(answer) => w.agenda.snapshot.None? && SnapshotOf(w.store, answer)
    case Write(request, m, fate, reload) =>
      && (fate.Refused? || w.agenda.snapshot.Some?)
      && (reload.Some? ==> SnapshotOf(Mutate(w.store, request, m).0, reload.value))
    case Lookup(request, reload) =>
      w.agenda.snapshot.Some? && (reload.Some? ==> SnapshotOf(w.store, reload.value))
    case Import(imports, flat, fate) => w.agenda.snapshot.Some? && Flattens(imports, flat)
    case Show(today, timezone, flat) => w.agenda.snapshot.Some? && Flattens(w.agenda.imports, flat)
    case Restart(answer) => answer.Some? ==> SnapshotOf(w.store, answer.value)
  }

  ghost function Next(setting: Setting, w: World, e: Step): World
    requires w.store.log != [] && Possible(w, e)
  {
    match e
    case Open(answer) => w.(agenda := w.agenda.(snapshot := Some(answer)))
    case Write(request, m, fate, reload) =>
      if fate.Refused? then w
      else
        var (store, reply) := Mutate(w.store, request, m);
        World(store, if fate.Replied? && reply.Some? then Accept(w.agenda, reply.value, reload) else w.agenda)
    case Lookup(request, reload) =>
      var receipt := if request in w.store.receipts then Some(w.store.receipts[request].result) else None;
      w.(agenda := Recover(w.agenda, receipt, reload))
    case Import(imports, flat, fate) =>
      if fate.Refused? || !Effective(setting, w.agenda, imports, flat) then w
      else
        var store := Invalidate(w.store);
        World(store, if fate.Replied? then AcceptImports(w.agenda, imports, store.Revision()) else w.agenda)
    case Show(today, timezone, flat) => w.(agenda := Read(setting, w.agenda, flat, today, timezone).0)
    case Restart(answer) => w.(agenda := Agenda(answer, map[], 0, None))
  }

  /** True of every reachable world, whatever was lost. */
  ghost predicate Consistent(w: World) {
    && w.store.Valid()
    && (w.agenda.snapshot.Some? ==>
          && DistinctIds(w.agenda.snapshot.value.items)
          && w.store.base <= w.agenda.snapshot.value.revision <= w.store.Revision())
    && (w.agenda.snapshot.None? ==> w.agenda.cached.None?)
  }

  /** The accepted snapshot is the store at the accepted revision. */
  ghost predicate Synced(w: World) {
    && Consistent(w)
    && (w.agenda.snapshot.Some? ==>
          ById(w.agenda.snapshot.value.items) == w.store.At(w.agenda.snapshot.value.revision))
  }

  lemma {:induction false} NextConsistent(setting: Setting, w: World, e: Step)
    requires Consistent(w) && Possible(w, e)
    ensures Consistent(Next(setting, w, e))
    ensures Extends(w.store, Next(setting, w, e).store)
  {
    match e
    case Write(request, m, fate, reload) =>
      MutateKeepsValid(w.store, request, m);
      var reply := Mutate(w.store, request, m).1;
      if fate.Replied? && reply.Some? {
        ApplyResultRefines(w.agenda.snapshot.value, reply.value);
      }
    case Import(imports, flat, fate) =>
      InvalidateKeepsValid(w.store);
    case _ =>
  }

  /** Nothing the snapshot lacks has been committed. */
  ghost predicate NothingUnpublished(w: World)
    requires w.store.log != []
  {
    w.agenda.snapshot.Some? ==> ById(w.agenda.snapshot.value.items) == w.store.Items()
  }

  /** The step accepts imports: it overwrites the revision without looking at the items. */
  ghost predicate Overwrites(setting: Setting, w: World, e: Step)
    requires w.store.log != [] && Possible(w, e)
  {
    e.Import? && e.fate.Replied? && Effective(setting, w.agenda, e.imports, e.flat)
  }

  /** The snapshot of `a` is the table of `store` at its own revision. */
  ghost predicate InStep(store: Store, s: Snapshot) {
    && store.log != [] && DistinctIds(s.items)
    && store.base <= s.revision <= store.Revision() && ById(s.items) == store.At(s.revision)
  }

  /** Accepting a reply that explains the log keeps the snapshot in step with the log. */
  lemma {:induction false} AcceptKeepsInStep(store: Store, a: Agenda, result: MutationResult, reload: Option<Snapshot>)
    requires a.snapshot.Some? && InStep(store, a.snapshot.value) && store.Explains(result)
    requires reload.Some? ==> SnapshotOf(store, reload.value)
    ensures Accept(a, result, reload).snapshot.Some?
    ensures InStep(store, Accept(a, result, reload).snapshot.value)
    ensures a.snapshot.value.revision <= Accept(a, result, reload).snapshot.value.revision
  {
    if result.revision == a.snapshot.value.revision + 1 {
      NextResultInStep(store, a.snapshot.value, result);
    }
  }

  lemma {:induction false} NextResultInStep(store: Store, s: Snapshot, result: MutationResult)
    requires InStep(store, s) && store.Explains(result) && result.revision == s.revision + 1
    ensures InStep(store, ApplyResult(s, result)) && ApplyResult(s, result).revision == result.revision
  {
    ApplyResultRefines(s, result);
    assert store.At(result.revision) == Applied(store.At(s.revision), result);
  }

  lemma {:induction false} WriteKeepsSynced(setting: Setting, w: World, e: Step)
    requires Synced(w) && Possible(w, e) && e.Write?
    ensures Synced(Next(setting, w, e))
  {
    NextConsistent(setting, w, e);
    MutateKeepsValid(w.store, e.request, e.mutation);
    var (store, reply) := Mutate(w.store, e.request, e.mutation);
    if w.agenda.snapshot.Some? {
      var s := w.agenda.snapshot.value;
      assert store.At(s.revision) == w.store.At(s.revision);
      if e.fate.Replied? && reply.Some? {
        AcceptKeepsInStep(store, w.agenda, reply.value, e.reload);
      }
    }
  }

  /** Every other step keeps the snapshot equal to the store at its revision. */
  lemma {:induction false} NextSynced(setting: Setting, w: World, e: Step)
    requires Synced(w) && Possible(w, e)
    requires Overwrites(setting, w, e) ==> NothingUnpublished(w)
    ensures Synced(Next(setting, w, e))
  {
    NextConsistent(setting, w, e);
    match e
    case Write(request, m, fate, reload) =>
      WriteKeepsSynced(setting, w, e);
    case Import(imports, flat, fate) =>
      ImportKeepsSynced(setting, w, e);
    case _ =>
  }

  lemma {:induction false} ImportKeepsSynced(setting: Setting, w: World, e: Step)
    requires Synced(w) && Possible(w, e) && e.Import?
    requires Overwrites(setting, w, e) ==> NothingUnpublished(w)
    ensures Synced(Next(setting, w, e))
  {
    NextConsistent(setting, w, e);
    InvalidateKeepsValid(w.store);
  }

  /** The receipts that the snapshot has not seen cancel out: replayed over it, they give it back. */
  ghost predicate GapCancels(w: World)
    requires Consistent(w) && w.agenda.snapshot.Some?
  {
    var s := w.agenda.snapshot.value;
    Replayed(w.store, ById(s.items), s.revision, w.store.Revision()) == ById(s.items)
  }

  lemma {:induction false} UnpublishedExactly(w: World)
    requires Synced(w) && w.agenda.snapshot.Some?
    ensures NothingUnpublished(w) <==> GapCancels(w)
  {
    ReplayedIsLog(w.store, w.agenda.snapshot.value.revision, w.store.Revision());
  }

  /** Over a gap of any size, an accepted import keeps the snapshot in step exactly when the unseen receipts cancel. */
  lemma {:induction false} ImportKeepsSyncedExactly(setting: Setting, w: World, e: Step)
    requires Synced(w) && Possible(w, e) && Overwrites(setting, w, e)
    ensures Synced(Next(setting, w, e)) <==> GapCancels(w)
  {
    InvalidateKeepsValid(w.store);
    NextConsistent(setting, w, e);
    UnpublishedExactly(w);
  }

  /** Looking up the receipt of this request would reload the snapshot. */
  predicate Reloads(w: World, request: string) {
    && w.agenda.snapshot.Some? && request in w.store.receipts
    && w.store.receipts[request].result.revision > w.agenda.snapshot.value.revision
  }

  lemma {:induction false} ReceiptsInRange(store: Store)
    requires store.Valid()
    ensures forall request :: request in store.receipts ==>
      store.receipts[request].result.revision <= store.Revision()
  {
    forall request | request in store.receipts
      ensures store.receipts[request].result.revision <= store.Revision()
    {
      assert store.Explains(store.receipts[request].result);
    }
  }

  /** An accepted import silences every receipt; there was one to silence exactly when the gap holds one. */
  lemma {:induction false} ImportSilencesReceipts(setting: Setting, w: World, e: Step)
    requires Consistent(w) && Possible(w, e) && Overwrites(setting, w, e)
    ensures forall request :: !Reloads(Next(setting, w, e), request)
    ensures (exists request :: Reloads(w, request))
            <==> exists r :: w.agenda.snapshot.value.revision < r <= w.store.Revision() && w.store.Holds(r)
  {
    InvalidateKeepsValid(w.store);
    ReceiptsInRange(w.store);
    ReloadsExactly(w);
  }

  lemma {:induction false} ReloadsExactly(w: World)
    requires Consistent(w) && w.agenda.snapshot.Some?
    ensures (exists request :: Reloads(w, request))
            <==> exists r :: w.agenda.snapshot.value.revision < r <= w.store.Revision() && w.store.Holds(r)
  {
    ReceiptsInRange(w.store);
    if request :| Reloads(w, request) {
      assert w.store.Holds(w.store.receipts[request].result.revision);
    }
    if r :| w.agenda.snapshot.value.revision < r <= w.store.Revision() && w.store.Holds(r) {
      var request :| request in w.store.receipts && w.store.receipts[request].result.revision == r;
      assert Reloads(w, request);
    }
  }
}
