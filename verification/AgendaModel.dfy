/** Agenda records and schedules. Civil dates are day numbers, instants are Unix milliseconds. */
module AgendaModel {
  import opened Outcomes

  datatype ItemKind = Event | Task

  datatype ScheduleMode = Date | Timed

  /** A civil date that is absent or unreadable is `None`. */
  datatype Schedule = Schedule(
    mode: ScheduleMode,
    startDate: Option<int>,
    endDate: Option<int>,
    startMs: Option<int>,
    endMs: Option<int>)

  /** `text` is the lower-cased search text; `body` stands for every other stored field. */
  datatype Record = Record(
    id: string,
    kind: ItemKind,
    revision: nat,
    schedule: Schedule,
    text: string,
    body: string)

  /** No two positions hold the same id. */
  predicate DistinctIds(items: seq<Record>) {
    forall i, j :: 0 <= i < j < |items| ==> items[i].id != items[j].id
  }
}
