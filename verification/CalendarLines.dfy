/** What content lines mean, said of their text: names before a semicolon, in any letter case. */
module CalendarLines {
  import opened Outcomes
  import opened Whitespace
  import opened CalendarParser
  import opened CalendarGrammar
  import Projection

  // ---------------------------------------------------------------- letters

  /** `n` is written in capitals; `c` is the same letter in either case. */
  predicate SameLetter(c: char, n: char) {
    c == n || ('A' <= n <= 'Z' && c as int == n as int + 32)
  }

  predicate Spells(text: string, name: string) {
    |text| == |name| && forall i :: 0 <= i < |text| ==> SameLetter(text[i], name[i])
  }

  predicate Capital(name: string) {
    forall i :: 0 <= i < |name| ==> !('a' <= name[i] <= 'z')
  }

  lemma {:induction false} UpperSpells(text: string, name: string)
    requires Capital(name)
    ensures Upper(text) == name <==> Spells(text, name)
  {
    if Spells(text, name) {
      forall i | 0 <= i < |text| ensures UpperChar(text[i]) == name[i] {
        assert SameLetter(text[i], name[i]);
      }
    }
    if Upper(text) == name {
      forall i | 0 <= i < |text| ensures SameLetter(text[i], name[i]) {
        assert Upper(text)[i] == name[i];
      }
    }
  }

  lemma {:induction false} FindsFirst(s: string, c: char, from: nat)
    requires from <= |s|
    ensures var k := Find(s, c, from);
      (k < |s| ==> s[k] == c) && forall i :: from <= i < k ==> s[i] != c
    decreases |s| - from
  {
    if from < |s| && s[from] != c {
      FindsFirst(s, c, from + 1);
    }
  }

  // ---------------------------------------------------------------- lines

  /** A line is blank, or has no colon, or is split at its first one. */
  lemma {:induction false} LinesAreSplit(line: string)
    ensures (forall i :: 0 <= i < |line| ==> IsWhite(line[i])) <==> Classify(line).Blank?
    ensures Classify(line).Malformed? <==> ':' !in line && !Classify(line).Blank?
  {
    FindsFirst(line, ':', 0);
    if ':' in line {
      var i :| 0 <= i < |line| && line[i] == ':';
      assert !IsWhite(line[i]);
    }
  }

  lemma {:induction false} SplitAtColon(key: string, value: string)
    requires ':' !in key
    ensures var line := key + ":" + value;
      !IsBlank(line) && Find(line, ':', 0) == |key| && line[..|key|] == key && line[|key| + 1..] == value
  {
    var line := key + ":" + value;
    assert line[|key|] == ':';
    FindsFirst(line, ':', 0);
    assert forall i :: 0 <= i < |key| ==> line[i] == key[i];
    assert !IsWhite(line[|key|]);
  }

  /** BEGIN and END lines open and close, and any other line is a property, whatever the letter case. */
  lemma {:induction false} LinesMean(key: string, value: string)
    requires ':' !in key
    ensures var token := Classify(key + ":" + value);
      && (Spells(key, "BEGIN") ==> token == Begin(NameOf(value)))
      && (Spells(key, "END") ==> token == End(NameOf(value)))
      && (!Spells(key, "BEGIN") && !Spells(key, "END") ==> token == Property(key, value))
  {
    SplitAtColon(key, value);
    UpperSpells(key, "BEGIN");
    UpperSpells(key, "END");
    assert "BEGIN" != "END";
  }

  /** Component names are told apart by their letters only. */
  lemma {:induction false} NamesMean(text: string)
    ensures NameOf(text) == VCalendar <==> Spells(text, "VCALENDAR")
    ensures NameOf(text) == VEvent <==> Spells(text, "VEVENT")
    ensures NameOf(text) == VTodo <==> Spells(text, "VTODO")
    ensures NameOf(text) == Nameless <==> text == ""
  {
    UpperSpells(text, "VCALENDAR");
    UpperSpells(text, "VEVENT");
    UpperSpells(text, "VTODO");
    UpperSpells(text, "");
  }

  // ---------------------------------------------------------------- properties

  /** The key up to its first semicolon spells the name. */
  predicate Named(key: string, name: string) {
    exists k :: 0 <= k <= |key| && (k == |key| || key[k] == ';') && ';' !in key[..k] && Spells(key[..k], name)
  }

  lemma {:induction false} NamedMeans(key: string, name: string)
    requires Capital(name)
    ensures Named(key, name) <==> Upper(key[..Find(key, ';', 0)]) == name
  {
    var k := Find(key, ';', 0);
    FindsFirst(key, ';', 0);
    UpperSpells(key[..k], name);
    if Named(key, name) {
      var j :| 0 <= j <= |key| && (j == |key| || key[j] == ';') && ';' !in key[..j] && Spells(key[..j], name);
      assert forall i :: 0 <= i < j ==> key[i] == key[..j][i];
      assert j == k;
    }
  }

  lemma {:induction false} TextFields(key: string)
    ensures FieldOf(key) == Uid <==> Named(key, "UID")
    ensures FieldOf(key) == Summary <==> Named(key, "SUMMARY")
    ensures FieldOf(key) == Location <==> Named(key, "LOCATION")
    ensures FieldOf(key) == Url <==> Named(key, "URL")
  {
    NamedMeans(key, "UID");
    NamedMeans(key, "SUMMARY");
    NamedMeans(key, "LOCATION");
    NamedMeans(key, "URL");
  }

  lemma {:induction false} TimeFields(key: string)
    ensures FieldOf(key) == Start <==> Named(key, "DTSTART")
    ensures FieldOf(key) == Finish <==> Named(key, "DTEND")
    ensures FieldOf(key) == Status <==> Named(key, "STATUS")
  {
    NamedMeans(key, "DTSTART");
    NamedMeans(key, "DTEND");
    NamedMeans(key, "STATUS");
  }

  predicate Recurs(key: string) {
    Named(key, "RRULE") || Named(key, "RDATE") || Named(key, "EXDATE") || Named(key, "RECURRENCE-ID")
  }

  lemma {:induction false} RecurrenceFields(key: string)
    ensures FieldOf(key) == Recurrence <==> Recurs(key)
  {
    NamedMeans(key, "RRULE");
    NamedMeans(key, "RDATE");
    NamedMeans(key, "EXDATE");
    NamedMeans(key, "RECURRENCE-ID");
  }

  // ---------------------------------------------------------------- event bodies

  /** The last own line of a body with this name; lines of nested components are not its own. */
  function LastNamed(body: Forest, name: string): Option<Node> {
    match body
    case Nothing => None
    case Then(front, last) => if last.Leaf? && Named(last.key, name) then Some(last) else LastNamed(front, name)
  }

  lemma {:induction false} LastIsLeaf(body: Forest, name: string)
    ensures LastNamed(body, name).Some? ==> LastNamed(body, name).value.Leaf?
  {
    if body.Then? {
      LastIsLeaf(body.front, name);
    }
  }

  function TimeOf(source: Source, line: Option<Node>): Option<Time> {
    if line.Some? && line.value.Leaf? then source.parseTime(line.value.key, line.value.value) else None
  }

  function TextOf(source: Source, line: Option<Node>): string {
    if line.Some? && line.value.Leaf? then source.decode(line.value.value) else ""
  }

  predicate SaysCancelled(line: Option<Node>) {
    line.Some? && line.value.Leaf? && Spells(line.value.value, "CANCELLED")
  }

  /** An own line that may stand in an event: no recurrence, and times that can be read. */
  predicate Readable(source: Source, node: Node) {
    node.Leaf? ==>
      && !Recurs(node.key)
      && (Named(node.key, "DTSTART") || Named(node.key, "DTEND") ==> source.parseTime(node.key, node.value).Some?)
  }

  predicate AllReadable(source: Source, body: Forest) {
    match body
    case Nothing => true
    case Then(front, last) => AllReadable(source, front) && Readable(source, last)
  }

  /** The builder that the last lines of each name describe. */
  function Described(source: Source, body: Forest): Builder {
    Builder(TextOf(source, LastNamed(body, "UID")), TextOf(source, LastNamed(body, "SUMMARY")),
            TimeOf(source, LastNamed(body, "DTSTART")), TimeOf(source, LastNamed(body, "DTEND")),
            TextOf(source, LastNamed(body, "LOCATION")), TextOf(source, LastNamed(body, "URL")),
            SaysCancelled(LastNamed(body, "STATUS")))
  }

  lemma {:induction false} OneLine(source: Source, b: Builder, key: string, value: string)
    ensures var r := ApplyProperty(source, b, key, value);
      && (r.Some? <==> Readable(source, Leaf(key, value)))
      && (r.Some? ==>
            && r.value.uid == (if Named(key, "UID") then source.decode(value) else b.uid)
            && r.value.title == (if Named(key, "SUMMARY") then source.decode(value) else b.title)
            && r.value.location == (if Named(key, "LOCATION") then source.decode(value) else b.location)
            && r.value.url == (if Named(key, "URL") then source.decode(value) else b.url)
            && r.value.start == (if Named(key, "DTSTART") then source.parseTime(key, value) else b.start)
            && r.value.end == (if Named(key, "DTEND") then source.parseTime(key, value) else b.end)
            && r.value.cancelled == (if Named(key, "STATUS") then Spells(value, "CANCELLED") else b.cancelled))
  {
    TextFields(key);
    TimeFields(key);
    RecurrenceFields(key);
    UpperSpells(value, "CANCELLED");
  }

  /** A body's own lines are taken exactly when all can stand, and then the last of each name counts. */
  lemma {:induction false} FoldMeans(source: Source, body: Forest)
    ensures Fold(source, EMPTY, body) == if AllReadable(source, body) then Some(Described(source, body)) else None
  {
    match body
    case Nothing =>
    case Then(front, last) =>
      FoldMeans(source, front);
      if last.Leaf? {
        OneLine(source, Described(source, front), last.key, last.value);
      }
  }

  // ---------------------------------------------------------------- events

  /** Where an event without DTEND ends: a day later if it is all-day, else at once. */
  predicate EndsByDefault(start: Time, end: Time) {
    && end.allDay == start.allDay
    && end.unixMs == start.unixMs + (if start.allDay then 24 * 60 * 60 * 1000 else 0)
    && end.date == (if start.date.Some? && Projection.FIRST_DAY <= start.date.value < Projection.LAST_DAY
                    then Some(start.date.value + 1) else None)
  }

  /** The end is not before the start, nor at it for an all-day event, and both are of one kind. */
  predicate Forward(start: Time, end: Time) {
    start.allDay == end.allDay && (if start.allDay then end.unixMs > start.unixMs else end.unixMs >= start.unixMs)
  }

  /** The event of a body: from its last DTSTART to its last DTEND or the default, with its own texts. */
  predicate IsEventOf(source: Source, body: Forest, start: Time, end: Time, e: Event) {
    var uid, title := TextOf(source, LastNamed(body, "UID")), TextOf(source, LastNamed(body, "SUMMARY"));
    && e.start == start.unixMs && e.startDate == start.date && e.allDay == start.allDay
    && e.end == end.unixMs && e.endDate == end.date && e.timezone == start.timezone
    && e.uid == (if uid == "" then source.fallbackUid(start.unixMs) else uid)
    && e.title == (if forall i :: 0 <= i < |title| ==> IsWhite(title[i]) then "Untitled event" else title)
    && e.location == TextOf(source, LastNamed(body, "LOCATION"))
    && e.url == TextOf(source, LastNamed(body, "URL"))
  }

  /** What an event block comes to, for every body: refused, dropped as cancelled, or this one event. */
  lemma {:induction false} EventMeans(source: Source, body: Forest) returns (end: Time)
    ensures var start := TimeOf(source, LastNamed(body, "DTSTART"));
      var outcome := Outcome(source, body);
      && (outcome.Cancelled? <==> AllReadable(source, body) && SaysCancelled(LastNamed(body, "STATUS")))
      && (start.Some? ==>
            if TimeOf(source, LastNamed(body, "DTEND")).Some? then Some(end) == TimeOf(source, LastNamed(body, "DTEND"))
            else EndsByDefault(start.value, end))
      && (outcome.Produced? <==>
            && AllReadable(source, body) && !SaysCancelled(LastNamed(body, "STATUS"))
            && start.Some? && Forward(start.value, end))
      && (outcome.Produced? ==> IsEventOf(source, body, start.value, end, outcome.event))
  {
    FoldMeans(source, body);
    var b := Described(source, body);
    end := if b.end.Some? then b.end.value
           else if b.start.Some? then DefaultEnd(b.start.value)
           else Time(0, None, false, None);
  }

  /** A calendar with an event that has a recurrence line of its own is refused as a whole. */
  lemma {:induction false} RecurrenceIsRefused(source: Source, body: Forest, parent: Option<Name>, line: Node)
    requires line.Leaf? && Recurs(line.key) && HasOwn(body, line)
    ensures !WellFormed(source, Component(VEvent, body), parent)
  {
    FoldMeans(source, body);
    OwnUnreadable(source, body, line);
  }

  predicate HasOwn(body: Forest, line: Node) {
    body.Then? && (body.last == line || HasOwn(body.front, line))
  }

  lemma {:induction false} OwnUnreadable(source: Source, body: Forest, line: Node)
    requires HasOwn(body, line) && !Readable(source, line)
    ensures !AllReadable(source, body)
  {
    if body.last != line {
      OwnUnreadable(source, body.front, line);
    }
  }
}
