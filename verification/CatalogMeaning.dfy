/** What the catalog order and the query words mean, said of schedules and of text. */
module CatalogMeaning {
  import opened Outcomes
  import opened AgendaModel
  import opened Projection
  import opened Whitespace
  import opened StableSort
  import C = Catalog

  // ---------------------------------------------------------------- order

  /** The local day of one end of a schedule, from its own fields. */
  function DayOfEnd(view: View, mode: ScheduleMode, date: Option<int>, ms: Option<int>): Option<int> {
    if mode == Date then date
    else if ms.Some? then view.zone.dateOf(ms.value)
    else None
  }

  /** The day a schedule is known by: its start, or else its end. */
  function KnownDay(view: View, s: Schedule): Option<int> {
    var start := DayOfEnd(view, s.mode, s.startDate, s.startMs);
    if start.Some? then start else DayOfEnd(view, s.mode, s.endDate, s.endMs)
  }

  predicate IsToday(view: View, s: Schedule) {
    OnDay(view, s, view.today)
  }

  predicate IsUpcoming(view: View, s: Schedule) {
    !IsToday(view, s) && KnownDay(view, s).Some? && KnownDay(view, s).value > view.today
  }

  predicate IsPast(view: View, s: Schedule) {
    !IsToday(view, s) && KnownDay(view, s).Some? && KnownDay(view, s).value <= view.today
  }

  predicate IsUndated(view: View, s: Schedule) {
    !IsToday(view, s) && KnownDay(view, s).None?
  }

  /** The instant a schedule starts: its own, or the midnight of its first day. */
  function StartInstant(view: View, s: Schedule): Option<int> {
    if s.mode == Timed then s.startMs
    else if s.startDate.Some? then Midnight(view.zone, s.startDate.value)
    else None
  }

  /** The instant a schedule ends: its own, or the midnight after its last day. */
  function EndInstant(view: View, s: Schedule): Option<int> {
    if s.mode == Timed then s.endMs
    else if s.endDate.Some? && FIRST_DAY <= s.endDate.value < LAST_DAY then Midnight(view.zone, s.endDate.value + 1)
    else None
  }

  lemma {:induction false} RankMeans(view: View, r: Record)
    ensures var rank := C.OrderOf(view, r).rank;
      && (rank == 0 <==> IsToday(view, r.schedule)) && (rank == 1 <==> IsUpcoming(view, r.schedule))
      && (rank == 2 <==> IsPast(view, r.schedule)) && (rank == 3 <==> IsUndated(view, r.schedule))
  {}

  lemma {:induction false} TimeMeans(view: View, r: Record)
    ensures var start, end := StartInstant(view, r.schedule), EndInstant(view, r.schedule);
      && (start.Some? && (IsToday(view, r.schedule) || IsUpcoming(view, r.schedule)) ==>
            C.OrderOf(view, r).time == start.value)
      && (end.Some? && end.value > I64_MIN && IsPast(view, r.schedule) ==> C.OrderOf(view, r).time == -end.value)
  {}

  lemma {:induction false} Ordered(view: View, records: seq<Record>, i: nat, j: nat)
    requires i < j < |C.New(view, records).items|
    ensures var x := C.OrderOf(view, C.New(view, records).items[i]);
      var y := C.OrderOf(view, C.New(view, records).items[j]);
      x.rank < y.rank || (x.rank == y.rank && x.time <= y.time)
  {
    C.CatalogOrder(view, records);
    var items := C.New(view, records).items;
    assert !Then(C.ByOrder(view), C.ById())(items[j], items[i]);
  }

  /** In every catalog today's items come first, then upcoming ones, then past ones, then undated ones. */
  lemma {:induction false} GroupsInOrder(view: View, records: seq<Record>, i: nat, j: nat)
    requires i < j < |C.New(view, records).items|
    ensures var a := C.New(view, records).items[i].schedule;
      var b := C.New(view, records).items[j].schedule;
      && (IsToday(view, b) ==> IsToday(view, a))
      && (IsUpcoming(view, b) ==> IsToday(view, a) || IsUpcoming(view, a))
      && (IsPast(view, b) ==> !IsUndated(view, a))
  {
    Ordered(view, records, i, j);
    RankMeans(view, C.New(view, records).items[i]);
    RankMeans(view, C.New(view, records).items[j]);
  }

  /** Within today and upcoming an earlier start comes first, and within the past a later end. */
  lemma {:induction false} GroupsByTime(view: View, records: seq<Record>, i: nat, j: nat)
    requires i < j < |C.New(view, records).items|
    ensures var a := C.New(view, records).items[i].schedule;
      var b := C.New(view, records).items[j].schedule;
      && ((IsToday(view, a) && IsToday(view, b)) || (IsUpcoming(view, a) && IsUpcoming(view, b)) ==>
            (StartInstant(view, a).Some? && StartInstant(view, b).Some? ==>
               StartInstant(view, a).value <= StartInstant(view, b).value))
      && (IsPast(view, a) && IsPast(view, b) && EndInstant(view, a).Some? && EndInstant(view, b).Some?
            && EndInstant(view, a).value > I64_MIN && EndInstant(view, b).value > I64_MIN ==>
            EndInstant(view, a).value >= EndInstant(view, b).value)
  {
    var x, y := C.New(view, records).items[i], C.New(view, records).items[j];
    Ordered(view, records, i, j);
    RankMeans(view, x);
    RankMeans(view, y);
    TimeMeans(view, x);
    TimeMeans(view, y);
  }

  // ---------------------------------------------------------------- words

  predicate AllWhite(s: string) {
    forall i :: 0 <= i < |s| ==> IsWhite(s[i])
  }

  predicate IsWord(s: string) {
    s != "" && forall i :: 0 <= i < |s| ==> !IsWhite(s[i])
  }

  /** Words with the white space before each of them; only before the first may it be empty. */
  datatype Spaced = Spaced(gap: string, word: string)

  predicate WellSpaced(parts: seq<Spaced>) {
    forall i :: 0 <= i < |parts| ==>
      AllWhite(parts[i].gap) && IsWord(parts[i].word) && (i > 0 ==> parts[i].gap != "")
  }

  function Text(parts: seq<Spaced>, tail: string): string {
    if parts == [] then tail else parts[0].gap + parts[0].word + Text(parts[1..], tail)
  }

  function WordsIn(parts: seq<Spaced>): seq<string> {
    if parts == [] then [] else [parts[0].word] + WordsIn(parts[1..])
  }

  /** Reading on from a word in progress does not depend on what was read before. */
  lemma {:induction false} WordsShift(before: string, rest: string, word: string)
    ensures C.Words(before + rest, |before|, word) == C.Words(rest, 0, word)
    decreases |rest|
  {
    if rest != "" {
      var c, more := rest[0], rest[1..];
      var whole := before + rest;
      assert whole == (before + [c]) + more && rest == [c] + more && whole[|before|] == c;
      WordsShift(before + [c], more, "");
      WordsShift([c], more, "");
      WordsShift(before + [c], more, word + [c]);
      WordsShift([c], more, word + [c]);
    }
  }

  lemma {:induction false} ReadOne(c: char, more: string, word: string)
    ensures C.Words([c] + more, 0, word)
         == if IsWhite(c) then (if word == "" then [] else [word]) + C.Words(more, 0, "")
            else C.Words(more, 0, word + [c])
  {
    WordsShift([c], more, "");
    WordsShift([c], more, word + [c]);
  }

  lemma {:induction false} SkipGap(gap: string, rest: string)
    requires AllWhite(gap)
    ensures C.Words(gap + rest, 0, "") == C.Words(rest, 0, "")
    decreases |gap|
  {
    if gap == "" {
      assert gap + rest == rest;
    } else {
      assert gap + rest == [gap[0]] + (gap[1..] + rest);
      ReadOne(gap[0], gap[1..] + rest, "");
      SkipGap(gap[1..], rest);
    }
  }

  lemma {:induction false} ReadWord(letters: string, rest: string, word: string)
    requires forall i :: 0 <= i < |letters| ==> !IsWhite(letters[i])
    ensures C.Words(letters + rest, 0, word) == C.Words(rest, 0, word + letters)
    decreases |letters|
  {
    if letters == "" {
      assert letters + rest == rest && word + letters == word;
    } else {
      assert letters + rest == [letters[0]] + (letters[1..] + rest);
      ReadOne(letters[0], letters[1..] + rest, word);
      ReadWord(letters[1..], rest, word + [letters[0]]);
      assert word + [letters[0]] + letters[1..] == word + letters;
    }
  }

  /** What follows a word starts with white space, or is nothing. */
  lemma {:induction false} EndWord(rest: string, word: string)
    requires word != "" && (rest != "" ==> IsWhite(rest[0]))
    ensures C.Words(rest, 0, word) == [word] + C.Words(rest, 0, "")
  {
    if rest != "" {
      assert rest == [rest[0]] + rest[1..];
      ReadOne(rest[0], rest[1..], word);
      ReadOne(rest[0], rest[1..], "");
    }
  }

  /** A query gives back exactly the words it was written with, whatever the white space between them. */
  lemma {:induction false} WordsRoundTrip(parts: seq<Spaced>, tail: string)
    requires WellSpaced(parts) && AllWhite(tail)
    ensures C.Words(Text(parts, tail), 0, "") == WordsIn(parts)
    decreases |parts|
  {
    if parts == [] {
      SkipGap(tail, "");
      assert tail + "" == tail;
    } else {
      var p, rest := parts[0], Text(parts[1..], tail);
      assert Text(parts, tail) == p.gap + (p.word + rest);
      SkipGap(p.gap, p.word + rest);
      ReadWord(p.word, rest, "");
      assert "" + p.word == p.word;
      if |parts| > 1 {
        assert rest[0] == parts[1].gap[0];
      }
      EndWord(rest, p.word);
      WordsRoundTrip(parts[1..], tail);
    }
  }
}
