/** What each accepted answer brings about: replies, receipts and imports are not only harmless, they arrive. */
module AgendaProgress {
  import opened Outcomes
  import opened AgendaModel
  import opened AgendaStore
  import opened AgendaSnapshot
  import opened AgendaService
  import StableSort
  import C = Catalog

  // ---------------------------------------------------------------- the store

  /** The record a draft gives under an id, at its own revision. */
  predicate Carries(r: Record, id: string, kind: ItemKind, revision: nat, d: Draft) {
    && r.id == id && r.kind == kind && r.revision == revision
    && r.schedule == d.schedule && r.text == d.text && r.body == d.body
  }

  /** Every id but one has the same record, or none, in both tables. */
  ghost predicate OnlyAt(id: string, before: Table, after: Table) {
    forall other :: other != id ==>
      (other in after <==> other in before) && (other in before ==> after[other] == before[other])
  }

  /** A known request is answered from its receipt, or refused when it asks for something else. */
  lemma {:induction false} KnownRequest(store: Store, request: string, m: Mutation)
    requires store.Valid() && request in store.receipts
    ensures var (next, reply) := Mutate(store, request, m);
      && next == store
      && (m == store.receipts[request].fingerprint ==> reply == Some(store.receipts[request].result))
      && (m != store.receipts[request].fingerprint ==> reply.None?)
  {}

  /** A new request is refused without effect, or adds one revision that changes exactly its own item. */
  lemma {:induction false} FreshRequest(store: Store, request: string, m: Mutation)
    requires store.Valid() && request !in store.receipts
    ensures var (next, reply) := Mutate(store, request, m);
      var items := store.Items();
      match m
      case Create(d) =>
        (reply.None? <==> LocalId(request) in items)
        && (reply.Some? ==>
              && LocalId(request) in next.Items() && OnlyAt(LocalId(request), items, next.Items())
              && Carries(next.Items()[LocalId(request)], LocalId(request), d.kind, 1, d))
      case Patch(id, expected, d) =>
        (reply.None? <==> !(id in items && items[id].revision == expected))
        && (reply.Some? ==>
              && id in next.Items() && OnlyAt(id, items, next.Items())
              && Carries(next.Items()[id], id, items[id].kind, expected + 1, d))
      case Delete(id, expected) =>
        (reply.None? <==> !(id in items && items[id].revision == expected))
        && (reply.Some? ==> id !in next.Items() && OnlyAt(id, items, next.Items()))
    ensures var (next, reply) := Mutate(store, request, m);
      && (reply.None? ==> next == store)
      && (reply.Some? ==>
            && next.Revision() == store.Revision() + 1 && reply.value.revision == next.Revision()
            && request in next.receipts && next.receipts[request] == Receipt(m, reply.value))
  {}

  // ---------------------------------------------------------------- replies and receipts

  /** The accepted snapshot holds the store's items at this revision. */
  ghost predicate Holds(w: World, revision: nat) {
    && w.store.log != [] && w.agenda.snapshot.Some? && w.agenda.snapshot.value.revision == revision
    && w.store.base <= revision <= w.store.Revision()
    && ById(w.agenda.snapshot.value.items) == w.store.At(revision)
  }

  /**
   A write that is answered takes the snapshot there: to the reply's revision when that is the next one,
   to the store's when a gap is reloaded; an older reply, or a gap without a reload, leaves it.
   */
  lemma {:induction false} ReplyArrives(setting: Setting, w: World, e: Step)
    requires Synced(w) && Possible(w, e) && w.agenda.snapshot.Some?
    requires e.Write? && e.fate.Replied? && Mutate(w.store, e.request, e.mutation).1.Some?
    ensures var r := Mutate(w.store, e.request, e.mutation).1.value.revision;
      var before, after := w.agenda.snapshot.value.revision, Next(setting, w, e);
      && (r == before + 1 ==> Holds(after, r))
      && (r > before + 1 && e.reload.Some? ==> Holds(after, after.store.Revision()) && after.store.Revision() >= r)
      && (r <= before || (r > before + 1 && e.reload.None?) ==> after.agenda == w.agenda)
  {
    MutateKeepsValid(w.store, e.request, e.mutation);
    var (store, reply) := Mutate(w.store, e.request, e.mutation);
    var s := w.agenda.snapshot.value;
    StillInStep(w.store, store, s);
    AcceptArrives(store, w.agenda, reply.value, e.reload);
    var after := World(store, Accept(w.agenda, reply.value, e.reload));
    assert Next(setting, w, e) == after;
  }

  lemma {:induction false} StillInStep(store: Store, later: Store, s: Snapshot)
    requires InStep(store, s) && Extends(store, later)
    ensures InStep(later, s)
  {
    assert later.At(s.revision) == store.At(s.revision);
  }

  lemma {:induction false} AcceptArrives(store: Store, a: Agenda, result: MutationResult, reload: Option<Snapshot>)
    requires a.snapshot.Some? && InStep(store, a.snapshot.value) && store.Explains(result)
    requires reload.Some? ==> SnapshotOf(store, reload.value)
    ensures var r, before, after := result.revision, a.snapshot.value.revision, Accept(a, result, reload);
      && after == a.(snapshot := after.snapshot) && after.snapshot.Some?
      && (r == before + 1 ==> InStep(store, after.snapshot.value) && after.snapshot.value.revision == r)
      && (r > before + 1 && reload.Some? ==> after.snapshot == reload)
      && (r <= before || (r > before + 1 && reload.None?) ==> after == a)
  {
    if result.revision == a.snapshot.value.revision + 1 {
      NextResultInStep(store, a.snapshot.value, result);
    }
  }

  /** A fresh commit that is answered is in the snapshot at once, when nothing was missed before. */
  lemma {:induction false} OwnCommitIsSeen(setting: Setting, w: World, e: Step)
    requires Synced(w) && Possible(w, e) && w.agenda.snapshot.Some?
    requires w.agenda.snapshot.value.revision == w.store.Revision()
    requires e.Write? && e.fate.Replied? && e.request !in w.store.receipts
    requires Mutate(w.store, e.request, e.mutation).1.Some?
    ensures Holds(Next(setting, w, e), Next(setting, w, e).store.Revision())
  {
    FreshRequest(w.store, e.request, e.mutation);
    ReplyArrives(setting, w, e);
  }

  /** Looking up a receipt the snapshot has not reached brings it to the store, when the reload answers. */
  lemma {:induction false} LookupCatchesUp(setting: Setting, w: World, e: Step)
    requires Consistent(w) && Possible(w, e) && e.Lookup?
    ensures Next(setting, w, e).store == w.store
    ensures Reloads(w, e.request) && e.reload.Some? ==> Holds(Next(setting, w, e), w.store.Revision())
    ensures !(Reloads(w, e.request) && e.reload.Some?) ==> Next(setting, w, e) == w
  {}

  /** Opening and restarting take what the store answers. */
  lemma {:induction false} OpeningLoads(setting: Setting, w: World, e: Step)
    requires Consistent(w) && Possible(w, e)
    ensures e.Open? || (e.Restart? && e.loaded.Some?) ==> Holds(Next(setting, w, e), w.store.Revision())
    ensures e.Restart? ==> Next(setting, w, e).agenda.imports == map[] && Next(setting, w, e).agenda.cached.None?
  {}

  // ---------------------------------------------------------------- imports

  /** Changed imports that pass the checks replace the old ones under the next store revision. */
  lemma {:induction false} ImportArrives(setting: Setting, w: World, e: Step)
    requires Consistent(w) && Possible(w, e) && e.Import?
    ensures var after := Next(setting, w, e);
      var passes := e.imports != w.agenda.imports && Acceptable(setting.size, w.agenda.snapshot.value.items, e.flat);
      && (e.fate.Replied? && passes ==>
            && after.agenda.imports == e.imports && after.agenda.importRevision == w.agenda.importRevision + 1
            && after.agenda.snapshot.value.items == w.agenda.snapshot.value.items
            && after.agenda.snapshot.value.revision == after.store.Revision() == w.store.Revision() + 1)
      && (e.fate.Refused? || !passes ==> after == w)
      && (e.fate.Lost? ==> after.agenda == w.agenda)
  {
    InvalidateKeepsValid(w.store);
  }

  /** Two events of one identity, or an event with the identity of an item, are never accepted, nor too many. */
  lemma {:induction false} AcceptedImportsAreDistinct(setting: Setting, s: Snapshot, flat: seq<Record>, today: int,
                                                      timezone: string)
    requires DistinctIds(s.items) && Acceptable(setting.size, s.items, flat)
    ensures Build(setting, s, flat, today, timezone) != Failure(IdentityCollision)
    ensures Build(setting, s, flat, today, timezone) != Failure(TooManyImports)
  {
    StampedDistinct(s.items, flat, s.revision);
  }

  lemma {:induction false} StampedDistinct(items: seq<Record>, flat: seq<Record>, revision: nat)
    requires DistinctIds(items) && DistinctIds(flat)
    requires forall i, j :: 0 <= i < |flat| && 0 <= j < |items| ==> flat[i].id != items[j].id
    ensures DistinctIds(items + Stamped(flat, revision)) && |Stamped(flat, revision)| == |flat|
  {
    var sorted := StableSort.Sort(C.ById(), flat);
    StampedIds(flat, revision);
    StableSort.SameElements(sorted, flat);
    DistinctPermutes(flat, sorted);
    var stamped := Stamped(flat, revision);
    forall i, j | 0 <= i < |stamped| && 0 <= j < |items| ensures stamped[i].id != items[j].id {
      assert sorted[i] in flat;
      var k :| 0 <= k < |flat| && flat[k] == sorted[i];
      assert flat[k].id != items[j].id;
    }
    JoinDistinct(items, stamped);
  }

  lemma {:induction false} JoinDistinct(a: seq<Record>, b: seq<Record>)
    requires DistinctIds(a) && DistinctIds(b)
    requires forall i, j :: 0 <= i < |b| && 0 <= j < |a| ==> b[i].id != a[j].id
    ensures DistinctIds(a + b)
  {}

  /** Stamping sorts the imports by id and changes nothing but their revision. */
  lemma {:induction false} StampedIds(flat: seq<Record>, revision: nat)
    ensures var sorted := StableSort.Sort(C.ById(), flat);
      && |Stamped(flat, revision)| == |sorted| == |flat|
      && multiset(sorted) == multiset(flat)
      && forall i :: 0 <= i < |sorted| ==>
           Stamped(flat, revision)[i] == sorted[i].(revision := if revision == 0 then 1 else revision)
  {
    var sorted := StableSort.Sort(C.ById(), flat);
    StableSort.SortKeepsElements(C.ById(), flat);
    assert |sorted| == |multiset(sorted)| == |multiset(flat)| == |flat|;
  }

  /** Imports are checked against ten thousand events and a hundred megabytes beside the stored items. */
  lemma {:induction false} AcceptableMeans(size: Record -> nat, items: seq<Record>, flat: seq<Record>)
    ensures Acceptable(size, items, flat) <==>
      && |flat| <= 10_000 && (flat != [] ==> 4096 + Bytes(size, items) + Bytes(size, flat) <= 104_857_600)
      && (forall i, j :: 0 <= i < j < |flat| ==> flat[i].id != flat[j].id)
      && (forall i, j :: 0 <= i < |flat| && 0 <= j < |items| ==> flat[i].id != items[j].id)
  {}
}
