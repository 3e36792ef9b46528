/**
 The durable agenda store as a log of item tables, one per catalog revision. Every
 committed mutation and every catalog invalidation adds one entry; a mutation also
 leaves a receipt under its request id, and receipts are never dropped.
 */
module AgendaStore {
  import opened Outcomes
  import opened AgendaModel

  type Table = map<string, Record>

  datatype Draft = Draft(kind: ItemKind, schedule: Schedule, text: string, body: string)

  datatype Mutation =
    | Create(draft: Draft)
    | Patch(id: string, expected: nat, draft: Draft)
    | Delete(id: string, expected: nat)

  datatype MutationResult = MutationResult(item: Option<Record>, deleted: Option<string>, revision: nat)

  /** The fingerprint of a mutation is the mutation itself. */
  datatype Receipt = Receipt(fingerprint: Mutation, result: MutationResult)

  /** `log[k]` holds the items at revision `base + k`; earlier revisions are not remembered. */
  datatype Store = Store(base: nat, log: seq<Table>, receipts: map<string, Receipt>)
  {
    function Revision(): nat
      requires log != []
    {
      base + |log| - 1
    }

    function Items(): Table
      requires log != []
    {
      log[|log| - 1]
    }

    function At(revision: nat): Table
      requires base <= revision < base + |log|
    {
      log[revision - base]
    }

    ghost predicate Keyed(table: Table) {
      forall id :: id in table ==> table[id].id == id
    }

    /** A remembered receipt describes the log entry of its revision, and changed something. */
    ghost predicate Explains(result: MutationResult)
      requires log != []
    {
      && result.revision <= Revision()
      && (result.revision > base ==>
            && At(result.revision) == Applied(At(result.revision - 1), result)
            && At(result.revision) != At(result.revision - 1))
    }

    ghost predicate Holds(revision: nat) {
      exists request :: request in receipts && receipts[request].result.revision == revision
    }

    /** Items change only with a receipt. */
    ghost predicate Attributed(k: nat)
      requires 0 < k < |log|
    {
      Holds(base + k) || log[k] == log[k - 1]
    }

    ghost predicate Valid() {
      && log != []
      && (forall k :: 0 < k < |log| ==> Attributed(k))
      && (forall k :: 0 <= k < |log| ==> Keyed(log[k]))
      && (forall request :: request in receipts ==> Explains(receipts[request].result))
    }
  }

  /** The effect of a reported result on a table. */
  function Applied(table: Table, result: MutationResult): Table {
    var kept := if result.item.Some? then table[result.item.value.id := result.item.value] else table;
    if result.deleted.Some? then kept - {result.deleted.value} else kept
  }

  function LocalId(request: string): string {
    "local:" + request
  }

  /** The result of a fresh mutation at the next revision, or `None` when it is refused. */
  function Outcome(store: Store, request: string, m: Mutation): Option<MutationResult>
    requires store.log != []
  {
    var items := store.Items();
    var next := store.Revision() + 1;
    match m
    case Create(d) =>
      if LocalId(request) in items then None
      else Some(MutationResult(Some(Record(LocalId(request), d.kind, 1, d.schedule, d.text, d.body)), None, next))
    case Patch(id, expected, d) =>
      if id in items && items[id].revision == expected
      then Some(MutationResult(
                  Some(Record(id, items[id].kind, expected + 1, d.schedule, d.text, d.body)), None, next))
      else None
    case Delete(id, expected) =>
      if id in items && items[id].revision == expected
      then Some(MutationResult(None, Some(id), next))
      else None
  }

  /** Replays the receipt of a known request, or commits a fresh mutation. */
  function Mutate(store: Store, request: string, m: Mutation): (Store, Option<MutationResult>)
    requires store.log != []
  {
    if request in store.receipts then
      var receipt := store.receipts[request];
      (store, if receipt.fingerprint == m then Some(receipt.result) else None)
    else
      match Outcome(store, request, m)
      case None => (store, None)
      case Some(result) =>
        (Store(store.base, store.log + [Applied(store.Items(), result)],
               store.receipts[request := Receipt(m, result)]),
         Some(result))
  }

  function Invalidate(store: Store): Store
    requires store.log != []
  {
    store.(log := store.log + [store.Items()])
  }

  /** Log entries of `store` are those of `later`, which may have more. */
  ghost predicate Extends(store: Store, later: Store) {
    store.base == later.base && store.log <= later.log
  }

  lemma {:induction false} ExplainsStill(store: Store, later: Store, result: MutationResult)
    requires store.log != [] && Extends(store, later) && store.Explains(result)
    ensures later.Explains(result)
  {}

  lemma {:induction false} AttributedStill(store: Store, later: Store)
    requires store.Valid() && Extends(store, later)
    requires forall r :: r in store.receipts ==> r in later.receipts && later.receipts[r] == store.receipts[r]
    ensures forall k :: 0 < k < |store.log| ==> later.Attributed(k)
  {
    forall k | 0 < k < |store.log|
      ensures later.Attributed(k)
    {
      assert store.Attributed(k);
      if store.Holds(store.base + k) {
        var r :| r in store.receipts && store.receipts[r].result.revision == store.base + k;
        assert r in later.receipts;
      }
    }
  }

  /** Revisions without receipts leave the items as they were. */
  lemma {:induction false} UnattributedKeepsItems(store: Store, from: nat)
    requires store.Valid() && store.base <= from <= store.Revision()
    requires forall r :: from < r <= store.Revision() ==> !store.Holds(r)
    ensures store.At(from) == store.Items()
    decreases store.Revision() - from
  {
    if from < store.Revision() {
      var k := from + 1 - store.base;
      assert store.Attributed(k);
      UnattributedKeepsItems(store, from + 1);
    }
  }

  /** What the receipt of a revision reports. */
  ghost function ResultAt(store: Store, revision: nat): (result: MutationResult)
    requires store.Holds(revision)
    ensures exists request ::
      request in store.receipts && store.receipts[request].result == result && result.revision == revision
  {
    var request :| request in store.receipts && store.receipts[request].result.revision == revision;
    store.receipts[request].result
  }

  /** A table after the receipts of the revisions after `from`, up to `upto`. */
  ghost function Replayed(store: Store, table: Table, from: nat, upto: nat): Table
    requires from <= upto
    decreases upto - from
  {
    if from == upto then table
    else
      var before := Replayed(store, table, from, upto - 1);
      if store.Holds(upto) then Applied(before, ResultAt(store, upto)) else before
  }

  /** Receipts alone carry the items from one revision to another. */
  lemma {:induction false} ReplayedIsLog(store: Store, from: nat, upto: nat)
    requires store.Valid() && store.base <= from <= upto <= store.Revision()
    ensures Replayed(store, store.At(from), from, upto) == store.At(upto)
    decreases upto - from
  {
    if from < upto {
      ReplayedIsLog(store, from, upto - 1);
      assert store.Attributed(upto - store.base);
      if store.Holds(upto) {
        assert store.Explains(ResultAt(store, upto));
      }
    }
  }

  lemma {:induction false} FreshOutcomeChanges(store: Store, request: string, m: Mutation)
    requires store.Valid() && Outcome(store, request, m).Some?
    ensures var result := Outcome(store, request, m).value;
      && Applied(store.Items(), result) != store.Items()
      && store.Keyed(Applied(store.Items(), result))
      && result.revision == store.Revision() + 1
  {}

  /** Adding one attributed entry, with at most one receipt that explains it, keeps the log valid. */
  lemma {:induction false} AppendKeepsValid(store: Store, later: Store, table: Table)
    requires store.Valid() && later.base == store.base && later.log == store.log + [table]
    requires forall r :: r in store.receipts ==> r in later.receipts && later.receipts[r] == store.receipts[r]
    requires forall r :: r in later.receipts && r !in store.receipts ==> later.Explains(later.receipts[r].result)
    requires later.Keyed(table) && later.Attributed(|store.log|)
    ensures later.Valid() && Extends(store, later) && later.Revision() == store.Revision() + 1
  {
    AttributedStill(store, later);
    assert store.log <= later.log;
    forall r | r in later.receipts
      ensures later.Explains(later.receipts[r].result)
    {
      if r in store.receipts {
        ExplainsStill(store, later, store.receipts[r].result);
      }
    }
  }

  /** A mutation keeps the log valid, and its reply explains a log entry. */
  lemma {:induction false} MutateKeepsValid(store: Store, request: string, m: Mutation)
    requires store.Valid()
    ensures var (next, reply) := Mutate(store, request, m);
      && next.Valid() && Extends(store, next)
      && next.Revision() <= store.Revision() + 1
      && (reply.Some? ==> next.Explains(reply.value))
  {
    var (next, reply) := Mutate(store, request, m);
    if request !in store.receipts && reply.Some? {
      FreshOutcomeChanges(store, request, m);
      assert next.receipts[request].result.revision == next.base + |store.log|;
      assert next.Holds(next.base + |store.log|);
      AppendKeepsValid(store, next, Applied(store.Items(), reply.value));
    }
  }

  lemma {:induction false} InvalidateKeepsValid(store: Store)
    requires store.Valid()
    ensures Invalidate(store).Valid() && Extends(store, Invalidate(store))
    ensures Invalidate(store).Revision() == store.Revision() + 1
    ensures Invalidate(store).Items() == store.Items()
  {
    AppendKeepsValid(store, Invalidate(store), store.Items());
  }
}
