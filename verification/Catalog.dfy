/** The ordered agenda catalog with its cached search text, memberships and id index. */
module Catalog {
  import opened Outcomes
  import opened AgendaModel
  import opened Projection
  import opened Whitespace
  import opened StableSort
  import TextOrder

  datatype OrderKey = OrderKey(rank: nat, time: int)

  function SaturatingNeg(x: int): int {
    if x == I64_MIN then I64_MAX else -x
  }

  function OrElse<T>(a: Option<T>, b: Option<T>): Option<T> {
    if a.Some? then a else b
  }

  function MidnightOf(zone: Zone, day: Option<int>): Option<int> {
    match day
    case Some(d) => Midnight(zone, d)
    case None => None
  }

  function FollowingDay(day: Option<int>): Option<int> {
    match day
    case Some(d) => Succ(d)
    case None => None
  }

  /** Today first, then upcoming by start, then past with the latest end first, then undated. */
  function OrderOf(view: View, item: Record): OrderKey {
    var (start, end) := StoredDates(view, item.schedule);
    var (startKey, endKey) := match item.schedule.mode
      case Date => (MidnightOf(view.zone, start), MidnightOf(view.zone, FollowingDay(end)))
      case Timed => (item.schedule.startMs, item.schedule.endMs);
    if OnDay(view, item.schedule, view.today) then
      OrderKey(0, OrElse(startKey, Midnight(view.zone, view.today)).GetOr(0))
    else
      match OrElse(start, end)
      case Some(d) =>
        if d > view.today then OrderKey(1, OrElse(startKey, endKey).GetOr(0))
        else OrderKey(2, SaturatingNeg(OrElse(endKey, startKey).GetOr(0)))
      case None => OrderKey(3, 0)
  }

  function ByOrder(view: View): (Record, Record) -> bool {
    (a, b) =>
      var x, y := OrderOf(view, a), OrderOf(view, b);
      x.rank < y.rank || (x.rank == y.rank && x.time < y.time)
  }

  function ById(): (Record, Record) -> bool {
    (a: Record, b: Record) => TextOrder.Precedes(a.id, b.id)
  }

  lemma {:induction false} OrdersAreStrictWeak(view: View)
    ensures StrictWeakOrder(ByOrder(view)) && StrictWeakOrder(ById())
  {
    var less := ById();
    forall a
      ensures !less(a, a)
    {
      TextOrder.PrecedesIrreflexive(a.id);
    }
    forall a, b, c | less(a, b) && less(b, c)
      ensures less(a, c)
    {
      TextOrder.PrecedesTransitive(a.id, b.id, c.id);
    }
    forall a, b, c | less(a, b)
      ensures less(a, c) || less(c, b)
    {
      TextOrder.PrecedesTotal(a.id, c.id);
      if less(c, a) {
        TextOrder.PrecedesTransitive(c.id, a.id, b.id);
      }
    }
  }

  datatype Catalog = Catalog(
    items: seq<Record>,
    search: seq<string>,
    membership: seq<Option<Membership>>,
    byId: map<string, nat>)

  /** A later record with the same id replaces the index of an earlier one. */
  function IndexById(items: seq<Record>): map<string, nat> {
    if items == [] then map[]
    else IndexById(items[..|items| - 1])[items[|items| - 1].id := |items| - 1]
  }

  /** Sorts by id, then stably by the order key, and projects every schedule once. */
  function New(view: View, records: seq<Record>): Catalog {
    var items := Sort(ByOrder(view), Sort(ById(), records));
    Catalog(
      items,
      seq(|items|, i requires 0 <= i < |items| => items[i].text),
      seq(|items|, i requires 0 <= i < |items| => MembershipOf(view, items[i].schedule)),
      IndexById(items))
  }

  function Get(catalog: Catalog, id: string): Option<Record>
    requires forall k :: k in catalog.byId ==> catalog.byId[k] < |catalog.items|
  {
    if id in catalog.byId then Some(catalog.items[catalog.byId[id]]) else None
  }

  // ---------------------------------------------------------------- order

  /** The two stable passes are one lexicographic sort by order key and id. */
  lemma {:induction false} CatalogOrder(view: View, records: seq<Record>)
    ensures New(view, records).items == Sort(Then(ByOrder(view), ById()), records)
    ensures Sorted(Then(ByOrder(view), ById()), New(view, records).items)
    ensures multiset(New(view, records).items) == multiset(records)
  {
    OrdersAreStrictWeak(view);
    TwoPassesAreOne(ByOrder(view), ById(), records);
    ThenIsStrictWeak(ByOrder(view), ById());
    SortSorted(Then(ByOrder(view), ById()), records);
    SortKeepsElements(Then(ByOrder(view), ById()), records);
  }

  lemma {:induction false} DistinctIdsCompare(view: View, records: seq<Record>)
    requires DistinctIds(records)
    ensures Comparable(Then(ByOrder(view), ById()), records)
    ensures Comparable(ById(), records)
  {
    forall i, j | 0 <= i < j < |records|
      ensures ById()(records[i], records[j]) || ById()(records[j], records[i])
    {
      TextOrder.PrecedesTotal(records[i].id, records[j].id);
    }
  }

  /** With distinct ids the catalog is the same for every arrangement of its records. */
  lemma {:induction false} CatalogIgnoresArrangement(view: View, records: seq<Record>, others: seq<Record>)
    requires DistinctIds(records) && multiset(records) == multiset(others)
    ensures New(view, records) == New(view, others)
  {
    CatalogOrder(view, records);
    CatalogOrder(view, others);
    OrdersAreStrictWeak(view);
    ThenIsStrictWeak(ByOrder(view), ById());
    DistinctIdsCompare(view, records);
    SortIgnoresArrangement(Then(ByOrder(view), ById()), records, others);
  }

  // ---------------------------------------------------------------- lookup

  lemma {:induction false} IndexByIdFinds(items: seq<Record>)
    ensures forall id :: id in IndexById(items) ==>
      IndexById(items)[id] < |items| && items[IndexById(items)[id]].id == id
    ensures forall i :: 0 <= i < |items| ==> items[i].id in IndexById(items)
  {
    if items != [] {
      IndexByIdFinds(items[..|items| - 1]);
    }
  }

  ghost predicate WellIndexed(catalog: Catalog) {
    forall k :: k in catalog.byId ==> catalog.byId[k] < |catalog.items|
  }

  /** `Get` returns a record of the given id exactly when the input holds one; for distinct ids, that one. */
  lemma {:induction false} GetFinds(view: View, records: seq<Record>, id: string)
    ensures WellIndexed(New(view, records))
    ensures Get(New(view, records), id).None? <==> forall r :: r in records ==> r.id != id
    ensures Get(New(view, records), id).Some? ==>
      Get(New(view, records), id).value in records && Get(New(view, records), id).value.id == id
  {
    var catalog := New(view, records);
    IndexByIdFinds(catalog.items);
    CatalogOrder(view, records);
    SameElements(catalog.items, records);
    if id in catalog.byId {
      assert catalog.items[catalog.byId[id]] in catalog.items;
    } else {
      forall r | r in records
        ensures r.id != id
      {
        assert r in catalog.items;
      }
    }
  }

  // ---------------------------------------------------------------- candidates

  /** The words of `query[from..]`, where `word` is the one being read. */
  function Words(query: string, from: nat, word: string): seq<string>
    requires from <= |query|
    decreases |query| - from
  {
    if from == |query| then (if word == "" then [] else [word])
    else if IsWhite(query[from]) then (if word == "" then [] else [word]) + Words(query, from + 1, "")
    else Words(query, from + 1, word + [query[from]])
  }

  predicate Contains(text: string, token: string) {
    exists i :: 0 <= i <= |text| && OccursAt(text, token, i)
  }

  predicate OccursAt(text: string, token: string, i: nat)
    requires i <= |text|
  {
    token <= text[i..]
  }

  predicate ContainsAll(text: string, tokens: seq<string>) {
    forall k :: 0 <= k < |tokens| ==> Contains(text, tokens[k])
  }

  /** Whether the cached entry `i` is on the day, if one is asked for, and holds every token. */
  predicate Matches(c: Catalog, zone: Zone, day: Option<int>, tokens: seq<string>, i: nat)
    requires i < |c.search| && i < |c.membership|
  {
    && (day.None? || (c.membership[i].Some? && Includes(c.membership[i].value, day.value, Bounds(zone, day.value))))
    && ContainsAll(c.search[i], tokens)
  }

  function Picks(c: Catalog, zone: Zone, day: Option<int>, tokens: seq<string>, n: nat): (picks: seq<nat>)
    requires n <= |c.items| == |c.search| == |c.membership|
    ensures forall k :: 0 <= k < |picks| ==> picks[k] < n
  {
    if n == 0 then []
    else Picks(c, zone, day, tokens, n - 1) + (if Matches(c, zone, day, tokens, n - 1) then [n - 1] else [])
  }

  function Candidates(c: Catalog, zone: Zone, day: Option<int>, tokens: seq<string>): seq<Record>
    requires |c.items| == |c.search| == |c.membership|
  {
    var picks := Picks(c, zone, day, tokens, |c.items|);
    seq(|picks|, k requires 0 <= k < |picks| => c.items[picks[k]])
  }

  lemma {:induction false} PicksExact(c: Catalog, zone: Zone, day: Option<int>, tokens: seq<string>, n: nat)
    requires n <= |c.items| == |c.search| == |c.membership|
    ensures var picks := Picks(c, zone, day, tokens, n);
      && (forall i, j :: 0 <= i < j < |picks| ==> picks[i] < picks[j])
      && (forall i :: 0 <= i < n ==> (i in picks <==> Matches(c, zone, day, tokens, i)))
  {
    if n > 0 {
      PicksExact(c, zone, day, tokens, n - 1);
    }
  }

  /** What a record itself must satisfy, with nothing cached. */
  predicate Wanted(view: View, day: Option<int>, tokens: seq<string>, r: Record) {
    && (day.None? || OnDay(view, r.schedule, day.value))
    && ContainsAll(r.text, tokens)
  }

  /** The candidates are the wanted records in catalog order, each at one place. */
  lemma {:induction false} CandidatesExact(view: View, records: seq<Record>, day: Option<int>, tokens: seq<string>)
    returns (places: seq<nat>)
    ensures var c := New(view, records);
      var found := Candidates(c, view.zone, day, tokens);
      && |places| == |found|
      && (forall k :: 0 <= k < |places| ==> places[k] < |c.items| && found[k] == c.items[places[k]])
      && (forall i, j :: 0 <= i < j < |places| ==> places[i] < places[j])
      && (forall i :: 0 <= i < |c.items| ==> (i in places <==> Wanted(view, day, tokens, c.items[i])))
  {
    var c := New(view, records);
    places := Picks(c, view.zone, day, tokens, |c.items|);
    PicksExact(c, view.zone, day, tokens, |c.items|);
    forall i | 0 <= i < |c.items|
      ensures i in places <==> Wanted(view, day, tokens, c.items[i])
    {
      assert Matches(c, view.zone, day, tokens, i) <==> Wanted(view, day, tokens, c.items[i]);
    }
  }

  // ---------------------------------------------------------------- markers

  datatype Marker = Marker(date: int, event: bool, task: bool)

  /** Marks one day by scanning until both kinds have been seen. */
  method MarkDay(c: Catalog, zone: Zone, day: int) returns (marker: Marker)
    requires |c.items| == |c.search| == |c.membership|
    ensures marker.date == day
    ensures marker.event <==> exists r :: r in Candidates(c, zone, Some(day), []) && r.kind == Event
    ensures marker.task <==> exists r :: r in Candidates(c, zone, Some(day), []) && r.kind == Task
  {
    var bounds := Bounds(zone, day);
    marker := Marker(day, false, false);
    var i := 0;
    while i < |c.items| && !(marker.event && marker.task)
      invariant i <= |c.items| && marker.date == day
      invariant marker.event <==> Seen(c, zone, day, i, Event)
      invariant marker.task <==> Seen(c, zone, day, i, Task)
    {
      if c.membership[i].Some? && Includes(c.membership[i].value, day, bounds) {
        assert Matches(c, zone, Some(day), [], i);
        match c.items[i].kind
        case Event => marker := marker.(event := true);
        case Task => marker := marker.(task := true);
      }
      i := i + 1;
    }
    SeenMeansListed(c, zone, day, i, Event);
    SeenMeansListed(c, zone, day, i, Task);
    SeenMeansListed(c, zone, day, |c.items|, Event);
    SeenMeansListed(c, zone, day, |c.items|, Task);
  }

  ghost predicate Seen(c: Catalog, zone: Zone, day: int, n: nat, kind: ItemKind)
    requires n <= |c.items| == |c.search| == |c.membership|
  {
    exists i :: 0 <= i < n && c.items[i].kind == kind && Matches(c, zone, Some(day), [], i)
  }

  lemma {:induction false} SeenIsListed(c: Catalog, zone: Zone, day: int, i: nat)
    requires i < |c.items| == |c.search| == |c.membership| && Matches(c, zone, Some(day), [], i)
    ensures c.items[i] in Candidates(c, zone, Some(day), [])
  {
    var picks := Picks(c, zone, Some(day), [], |c.items|);
    PicksExact(c, zone, Some(day), [], |c.items|);
    var k :| 0 <= k < |picks| && picks[k] == i;
    assert Candidates(c, zone, Some(day), [])[k] == c.items[i];
  }

  lemma {:induction false} ListedIsSeen(c: Catalog, zone: Zone, day: int, r: Record)
    requires |c.items| == |c.search| == |c.membership| && r in Candidates(c, zone, Some(day), [])
    ensures Seen(c, zone, day, |c.items|, r.kind)
  {
    var picks := Picks(c, zone, Some(day), [], |c.items|);
    var found := Candidates(c, zone, Some(day), []);
    PicksExact(c, zone, Some(day), [], |c.items|);
    var k :| 0 <= k < |found| && found[k] == r;
    assert picks[k] in picks;
  }

  lemma {:induction false} SeenMeansListed(c: Catalog, zone: Zone, day: int, n: nat, kind: ItemKind)
    requires n <= |c.items| == |c.search| == |c.membership|
    ensures Seen(c, zone, day, n, kind) ==>
      exists r :: r in Candidates(c, zone, Some(day), []) && r.kind == kind
    ensures n == |c.items| ==>
      (Seen(c, zone, day, n, kind) <==> exists r :: r in Candidates(c, zone, Some(day), []) && r.kind == kind)
  {
    if Seen(c, zone, day, n, kind) {
      var i :| 0 <= i < n && c.items[i].kind == kind && Matches(c, zone, Some(day), [], i);
      SeenIsListed(c, zone, day, i);
    }
    if r :| r in Candidates(c, zone, Some(day), []) && r.kind == kind {
      ListedIsSeen(c, zone, day, r);
    }
  }

  const MARKER_DAYS := 370

  /** One marker for each day of an inclusive range of at most 370 days. */
  method Markers(c: Catalog, zone: Zone, first: int, last: int) returns (days: Option<seq<Marker>>)
    requires |c.items| == |c.search| == |c.membership|
    ensures days.Some? <==> 1 <= last - first + 1 <= MARKER_DAYS
    ensures days.Some? ==> |days.value| == last - first + 1
    ensures days.Some? ==> forall k :: 0 <= k < |days.value| ==>
      MarkerCorrect(c, zone, first + k, days.value[k])
  {
    if !(1 <= last - first + 1 <= MARKER_DAYS) {
      return None;
    }
    var marks: seq<Marker> := [];
    while |marks| < last - first + 1
      invariant |marks| <= last - first + 1
      invariant forall k :: 0 <= k < |marks| ==> MarkerCorrect(c, zone, first + k, marks[k])
    {
      var mark := MarkDay(c, zone, first + |marks|);
      marks := marks + [mark];
    }
    days := Some(marks);
  }

  /** A marker is set exactly when the unqueried list of that day holds the kind. */
  ghost predicate MarkerCorrect(c: Catalog, zone: Zone, day: int, marker: Marker)
    requires |c.items| == |c.search| == |c.membership|
  {
    && marker.date == day
    && (marker.event <==> exists r :: r in Candidates(c, zone, Some(day), []) && r.kind == Event)
    && (marker.task <==> exists r :: r in Candidates(c, zone, Some(day), []) && r.kind == Task)
  }
}
