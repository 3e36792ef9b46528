/** The service's mutable state, updated in place; every method follows its function on values. */
module ActivityData {
  import opened Outcomes
  import opened AgendaModel
  import opened AgendaStore
  import opened AgendaSnapshot
  import opened AgendaService
  import C = Catalog

  datatype ImportError = Unavailable | RejectedImports | StoreRefused

  /** Whether the ids are pairwise distinct, by filling a set. */
  method AllDistinct(items: seq<Record>) returns (distinct: bool)
    ensures distinct <==> DistinctIds(items)
  {
    var ids: set<string> := {};
    var n := 0;
    while n < |items|
      invariant n <= |items|
      invariant forall id :: id in ids <==> exists i :: 0 <= i < n && items[i].id == id
      invariant DistinctIds(items[..n])
    {
      if items[n].id in ids {
        return false;
      }
      ids := ids + {items[n].id};
      n := n + 1;
    }
    assert items[..n] == items;
    return true;
  }

  lemma {:induction false} BytesOfPrefix(size: Record -> nat, items: seq<Record>, n: nat)
    requires n <= |items|
    ensures Bytes(size, items[..n]) <= Bytes(size, items)
  {
    if n < |items| {
      BytesOfPrefix(size, items[..|items| - 1], n);
      assert items[..|items| - 1][..n] == items[..n];
    } else {
      assert items[..n] == items;
    }
  }

  /** Whether the records fit the budget, stopping at the first that does not. */
  method WithinBudget(size: Record -> nat, items: seq<Record>) returns (fits: bool)
    ensures fits <==> Bytes(size, items) <= MAX_BYTES
  {
    var bytes, n := 0, 0;
    while n < |items|
      invariant n <= |items|
      invariant bytes == Bytes(size, items[..n]) <= MAX_BYTES
    {
      assert items[..n + 1][..n] == items[..n];
      bytes := bytes + size(items[n]);
      n := n + 1;
      if bytes > MAX_BYTES {
        BytesOfPrefix(size, items, n);
        return false;
      }
    }
    assert items[..n] == items;
    return true;
  }

  /** Checks changed imports one event at a time beside the snapshot. */
  method CheckImports(size: Record -> nat, items: seq<Record>, flat: seq<Record>) returns (ok: bool)
    ensures ok <==> Acceptable(size, items, flat)
  {
    var ids := set i | 0 <= i < |items| :: items[i].id;
    var bytes := RESERVED_BYTES + Bytes(size, items);
    var n := 0;
    while n < |flat|
      invariant n <= |flat|
      invariant forall id :: id in ids <==>
        (exists j :: 0 <= j < |items| && items[j].id == id) || (exists i :: 0 <= i < n && flat[i].id == id)
      invariant bytes == RESERVED_BYTES + Bytes(size, items) + Bytes(size, flat[..n])
      invariant Acceptable(size, items, flat[..n])
    {
      if flat[n].id in ids {
        CollisionRejects(size, items, flat, n);
        return false;
      }
      ids := ids + {flat[n].id};
      assert flat[..n + 1][..n] == flat[..n];
      bytes := bytes + size(flat[n]);
      n := n + 1;
      if !(n <= MAX_IMPORTS && bytes <= MAX_BYTES) {
        BytesOfPrefix(size, flat, n);
        return false;
      }
    }
    assert flat[..n] == flat;
    return true;
  }

  lemma {:induction false} CollisionRejects(size: Record -> nat, items: seq<Record>, flat: seq<Record>, n: nat)
    requires n < |flat|
    requires (exists j :: 0 <= j < |items| && items[j].id == flat[n].id)
          || (exists i :: 0 <= i < n && flat[i].id == flat[n].id)
    ensures !Acceptable(size, items, flat)
  {}

  class ActivityData {
    var snapshot: Option<Snapshot>
    var imports: Imports
    var importRevision: nat
    var cached: Option<CachedCatalog>

    constructor (loaded: Option<Snapshot>)
      ensures Value() == Agenda(loaded, map[], 0, None)
    {
      snapshot, imports, importRevision, cached := loaded, map[], 0, None;
    }

    ghost function Value(): Agenda
      reads this
    {
      Agenda(snapshot, imports, importRevision, cached)
    }

    /** Edits the accepted items in place; reports whether anything changed. */
    method ApplyAgendaResult(result: MutationResult) returns (changed: Option<bool>)
      modifies this`snapshot
      ensures old(snapshot).None? ==> changed.None? && snapshot == old(snapshot)
      ensures old(snapshot).Some? ==>
        && changed == Some(result.revision > old(snapshot).value.revision)
        && snapshot == Some(ApplyResult(old(snapshot).value, result))
    {
      if snapshot.None? {
        return None;
      }
      var current := snapshot.value;
      if result.revision <= current.revision {
        return Some(false);
      }
      if result.item.Some? {
        current := current.(items := Retain(current.items, result.item.value.id));
        current := current.(items := current.items + [result.item.value]);
      }
      if result.deleted.Some? {
        current := current.(items := Retain(current.items, result.deleted.value));
      }
      snapshot := Some(current.(revision := result.revision));
      return Some(true);
    }

    /** Accepts a reply, reloading when a completion was missed; `reload` answers that query. */
    method AcceptAgenda(result: MutationResult, reload: Option<Snapshot>) returns (ok: bool)
      requires snapshot.Some?
      modifies this`snapshot
      ensures Value() == Accept(old(Value()), result, reload)
      ensures ok <==> (result.revision > old(snapshot).value.revision + 1 ==> reload.Some?)
      ensures result.revision == old(snapshot).value.revision + 1 ==>
        && snapshot.value.revision == result.revision
        && (result.item.Some? && result.deleted.None? ==> result.item.value in snapshot.value.items)
    {
      if result.revision > snapshot.value.revision + 1 {
        if reload.Some? {
          snapshot := reload;
        }
        return reload.Some?;
      }
      var changed := ApplyAgendaResult(result);
      return true;
    }

    method AgendaReceipt(receipt: Option<MutationResult>, reload: Option<Snapshot>)
      requires snapshot.Some?
      modifies this`snapshot
      ensures Value() == Recover(old(Value()), receipt, reload)
    {
      var cachedRevision := snapshot.value.revision;
      if receipt.Some? && receipt.value.revision > cachedRevision && reload.Some? {
        snapshot := reload;
      }
    }

    /** `flat` visits the new imports; `invalidated` is the store's answer to the invalidation. */
    method AcceptCalendarImports(setting: Setting, next: Imports, flat: seq<Record>, invalidated: Option<nat>)
      returns (error: Option<ImportError>)
      modifies this
      ensures old(imports) == next ==> error.None?
      ensures Value() ==
        if old(snapshot).Some? && Effective(setting, old(Value()), next, flat) && invalidated.Some?
        then AcceptImports(old(Value()), next, invalidated.value) else old(Value())
      ensures error.None? && old(imports) != next ==> imports == next && importRevision == old(importRevision) + 1
    {
      if imports == next {
        return None;
      }
      if snapshot.None? {
        return Some(Unavailable);
      }
      var ok := CheckImports(setting.size, snapshot.value.items, flat);
      if !ok {
        return Some(RejectedImports);
      }
      if invalidated.None? {
        return Some(StoreRefused);
      }
      snapshot := Some(snapshot.value.(revision := invalidated.value));
      imports := next;
      importRevision := importRevision + 1;
      return None;
    }

    /** Returns the catalog for a day and zone, building it only when a key changed. */
    method ReadCatalog(setting: Setting, flat: seq<Record>, today: int, timezone: string)
      returns (r: Result<CachedCatalog, BuildError>)
      requires snapshot.Some?
      modifies this`cached
      ensures (Value(), r) == Read(setting, old(Value()), flat, today, timezone)
    {
      if cached.Some? && cached.value.revision == snapshot.value.revision
         && cached.value.importRevision == importRevision
         && cached.value.today == today && cached.value.timezone == timezone {
        return Success(cached.value);
      }
      var digest := Stamped(flat, snapshot.value.revision);
      if |digest| > MAX_IMPORTS {
        return Failure(TooManyImports);
      }
      var items := snapshot.value.items + digest;
      var distinct := AllDistinct(items);
      if !distinct {
        return Failure(IdentityCollision);
      }
      var fits := WithinBudget(setting.size, items);
      if !fits {
        return Failure(CatalogTooLarge);
      }
      var catalog := C.New(setting.ViewOf(today, timezone), items);
      var entry := CachedCatalog(snapshot.value.revision, importRevision, today, timezone, digest, catalog);
      cached := Some(entry);
      return Success(entry);
    }
  }
}
