/** The accepted snapshot: a vector of records standing for a table, edited by contiguous results. */
module AgendaSnapshot {
  import opened Outcomes
  import opened AgendaModel
  import opened AgendaStore
  import StableSort

  datatype Snapshot = Snapshot(items: seq<Record>, revision: nat)

  /** The table a vector of records stands for. */
  function ById(items: seq<Record>): Table {
    if items == [] then map[]
    else ById(items[..|items| - 1])[items[|items| - 1].id := items[|items| - 1]]
  }

  function Retain(items: seq<Record>, id: string): seq<Record> {
    if items == [] then []
    else
      var rest := Retain(items[..|items| - 1], id);
      if items[|items| - 1].id == id then rest else rest + [items[|items| - 1]]
  }

  function Removed(items: seq<Record>, deleted: Option<string>): seq<Record> {
    if deleted.Some? then Retain(items, deleted.value) else items
  }

  /** Applies a committed result; a result at or below the accepted revision changes nothing. */
  function ApplyResult(s: Snapshot, result: MutationResult): Snapshot {
    if result.revision <= s.revision then s
    else
      var kept := match result.item
        case Some(item) => Retain(s.items, item.id) + [item]
        case None => s.items;
      Snapshot(Removed(kept, result.deleted), result.revision)
  }

  lemma {:induction false} ByIdKeys(items: seq<Record>)
    ensures forall id :: id in ById(items) ==> ById(items)[id] in items && ById(items)[id].id == id
  {
    if items != [] {
      var n := |items| - 1;
      ByIdKeys(items[..n]);
      assert items == items[..n] + [items[n]];
    }
  }

  lemma {:induction false} RetainRemoves(items: seq<Record>, id: string)
    ensures ById(Retain(items, id)) == ById(items) - {id}
  {
    if items != [] {
      var n := |items| - 1;
      var rest := Retain(items[..n], id);
      RetainRemoves(items[..n], id);
      var table: Table := ById(items[..n]);
      if items[n].id == id {
        assert table[id := items[n]] - {id} == table - {id};
      } else {
        assert (rest + [items[n]])[..|rest|] == rest;
        assert table[items[n].id := items[n]] - {id} == (table - {id})[items[n].id := items[n]];
      }
    }
  }

  lemma {:induction false} RetainKeeps(items: seq<Record>, id: string)
    ensures forall r :: r in Retain(items, id) ==> r in items && r.id != id
  {
    if items != [] {
      var n := |items| - 1;
      RetainKeeps(items[..n], id);
      assert items == items[..n] + [items[n]];
    }
  }

  lemma {:induction false} RetainDistinct(items: seq<Record>, id: string)
    requires DistinctIds(items)
    ensures DistinctIds(Retain(items, id))
  {
    if items != [] {
      var n := |items| - 1;
      var rest := Retain(items[..n], id);
      RetainDistinct(items[..n], id);
      RetainKeeps(items[..n], id);
      forall i | 0 <= i < |rest|
        ensures rest[i].id != items[n].id
      {
        assert rest[i] in rest;
        var k :| 0 <= k < n && items[k] == rest[i];
      }
    }
  }

  lemma {:induction false} PushAdds(items: seq<Record>, item: Record)
    ensures ById(items + [item]) == ById(items)[item.id := item]
    ensures DistinctIds(items) && (forall r :: r in items ==> r.id != item.id) ==> DistinctIds(items + [item])
  {}

  /** A newer result edits the vector exactly as it edits the table. */
  lemma {:induction false} ApplyResultRefines(s: Snapshot, result: MutationResult)
    requires DistinctIds(s.items)
    ensures DistinctIds(ApplyResult(s, result).items)
    ensures result.revision > s.revision ==>
      ById(ApplyResult(s, result).items) == Applied(ById(s.items), result)
  {
    if result.revision > s.revision {
      var kept := s.items;
      if result.item.Some? {
        var item := result.item.value;
        RetainRemoves(s.items, item.id);
        RetainKeeps(s.items, item.id);
        RetainDistinct(s.items, item.id);
        PushAdds(Retain(s.items, item.id), item);
        kept := Retain(s.items, item.id) + [item];
        assert (ById(s.items) - {item.id})[item.id := item] == ById(s.items)[item.id := item];
      }
      if result.deleted.Some? {
        RetainRemoves(kept, result.deleted.value);
        RetainDistinct(kept, result.deleted.value);
      }
    }
  }

  lemma {:induction false} ByIdFindsEach(items: seq<Record>)
    requires DistinctIds(items)
    ensures forall i :: 0 <= i < |items| ==> items[i].id in ById(items) && ById(items)[items[i].id] == items[i]
  {
    if items != [] {
      ByIdFindsEach(items[..|items| - 1]);
    }
  }

  lemma {:induction false} DistinctCount(items: seq<Record>)
    requires DistinctIds(items)
    ensures forall r :: multiset(items)[r] == (if r in items then 1 else 0)
  {
    if items != [] {
      var n := |items| - 1;
      DistinctCount(items[..n]);
      assert items == items[..n] + [items[n]];
    }
  }

  lemma {:induction false} SameRecordsSameTable(a: seq<Record>, b: seq<Record>)
    requires DistinctIds(a) && DistinctIds(b) && multiset(a) == multiset(b)
    ensures ById(a) == ById(b)
  {
    ByIdFindsEach(a);
    ByIdFindsEach(b);
    ByIdKeys(a);
    ByIdKeys(b);
    assert forall r :: r in a <==> r in multiset(a);
    assert forall r :: r in b <==> r in multiset(b);
    forall id ensures id in ById(a) <==> id in ById(b) {
      if id in ById(a) {
        assert ById(a)[id] in b;
      }
      if id in ById(b) {
        assert ById(b)[id] in a;
      }
    }
    forall id | id in ById(a) ensures ById(a)[id] == ById(b)[id] {
      assert ById(a)[id] in b;
    }
  }

  /** Two vectors of distinct ids standing for one table hold the same records. */
  lemma {:induction false} SameTableSameRecords(a: seq<Record>, b: seq<Record>)
    requires DistinctIds(a) && DistinctIds(b) && ById(a) == ById(b)
    ensures multiset(a) == multiset(b)
  {
    ByIdFindsEach(a);
    ByIdFindsEach(b);
    ByIdKeys(a);
    ByIdKeys(b);
    DistinctCount(a);
    DistinctCount(b);
    forall r
      ensures r in a <==> r in b
    {
      if r in a {
        var i :| 0 <= i < |a| && a[i] == r;
        assert ById(b)[r.id] == r;
      }
      if r in b {
        var i :| 0 <= i < |b| && b[i] == r;
        assert ById(a)[r.id] == r;
      }
    }
    assert forall r :: multiset(a)[r] == multiset(b)[r];
  }

  /** Rearranging records keeps their ids distinct. */
  lemma {:induction false} DistinctPermutes(a: seq<Record>, b: seq<Record>)
    requires DistinctIds(a) && multiset(a) == multiset(b)
    ensures DistinctIds(b)
  {
    StableSort.SameElements(a, b);
    DistinctCount(a);
    forall i, j | 0 <= i < j < |b| ensures b[i].id != b[j].id {
      assert b[i] in b && b[j] in b;
      var p :| 0 <= p < |a| && a[p] == b[i];
      var q :| 0 <= q < |a| && a[q] == b[j];
      if p == q {
        StableSort.TwiceCounted(b, i, j);
      }
    }
  }
}
