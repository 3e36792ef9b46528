/**
 The iCalendar reader: a component stack over classified content lines. Text decoding and time
 parsing are parameters of the source; everything that decides acceptance is modelled.
 */
module CalendarParser {
  import opened Outcomes
  import opened Whitespace
  import Projection

  const DAY_MS := 86_400_000

  datatype Time = Time(unixMs: int, date: Option<int>, allDay: bool, timezone: Option<string>)

  datatype Builder = Builder(
    uid: string,
    title: string,
    start: Option<Time>,
    end: Option<Time>,
    location: string,
    url: string,
    cancelled: bool)

  const EMPTY := Builder("", "", None, None, "", "", false)

  datatype Event = Event(
    uid: string,
    title: string,
    start: int,
    end: int,
    allDay: bool,
    startDate: Option<int>,
    endDate: Option<int>,
    timezone: Option<string>,
    location: string,
    url: string)

  /** `fallbackUid` names an event without a UID by its file and start. */
  datatype Source = Source(
    parseTime: (string, string) -> Option<Time>,
    decode: string -> string,
    fallbackUid: int -> string)

  // ---------------------------------------------------------------- content lines

  function UpperChar(c: char): char {
    if 'a' <= c <= 'z' then c - 'a' + 'A' else c
  }

  function Upper(s: string): string {
    seq(|s|, i requires 0 <= i < |s| => UpperChar(s[i]))
  }

  predicate IsBlank(line: string) {
    forall i :: 0 <= i < |line| ==> IsWhite(line[i])
  }

  /** The position of the first `c` at or after `from`, or the length. */
  function Find(s: string, c: char, from: nat): (k: nat)
    requires from <= |s|
    ensures from <= k <= |s|
    decreases |s| - from
  {
    if from == |s| || s[from] == c then from else Find(s, c, from + 1)
  }

  /** Component names, compared after upper-casing. */
  datatype Name = VCalendar | VEvent | VTodo | Nameless | Other(text: string)

  function NameOf(text: string): Name {
    var name := Upper(text);
    if name == "VCALENDAR" then VCalendar
    else if name == "VEVENT" then VEvent
    else if name == "VTODO" then VTodo
    else if name == "" then Nameless
    else Other(name)
  }

  datatype Token =
    | Blank
    | Malformed
    | Begin(name: Name)
    | End(name: Name)
    | Property(key: string, value: string)

  function Classify(line: string): Token {
    if IsBlank(line) then Blank
    else
      var colon := Find(line, ':', 0);
      if colon == |line| then Malformed
      else
        var key, value := line[..colon], line[colon + 1..];
        if Upper(key) == "BEGIN" then Begin(NameOf(value))
        else if Upper(key) == "END" then End(NameOf(value))
        else Property(key, value)
  }

  // ---------------------------------------------------------------- events

  datatype Field = Uid | Summary | Start | Finish | Location | Url | Status | Recurrence | Ignored

  /** Parameters after a semicolon are not part of the name. */
  function FieldOf(key: string): Field {
    var name := Upper(key[..Find(key, ';', 0)]);
    if name == "UID" then Uid
    else if name == "SUMMARY" then Summary
    else if name == "DTSTART" then Start
    else if name == "DTEND" then Finish
    else if name == "LOCATION" then Location
    else if name == "URL" then Url
    else if name == "STATUS" then Status
    else if name == "RRULE" || name == "RDATE" || name == "EXDATE" || name == "RECURRENCE-ID" then Recurrence
    else Ignored
  }

  /** Applies one property of an event; recurrence and unreadable times are refused. */
  function ApplyProperty(source: Source, b: Builder, key: string, value: string): Option<Builder> {
    match FieldOf(key)
    case Uid => Some(b.(uid := source.decode(value)))
    case Summary => Some(b.(title := source.decode(value)))
    case Start =>
      (match source.parseTime(key, value) case Some(t) => Some(b.(start := Some(t))) case None => None)
    case Finish =>
      (match source.parseTime(key, value) case Some(t) => Some(b.(end := Some(t))) case None => None)
    case Location => Some(b.(location := source.decode(value)))
    case Url => Some(b.(url := source.decode(value)))
    case Status => Some(b.(cancelled := Upper(value) == "CANCELLED"))
    case Recurrence => None
    case Ignored => Some(b)
  }

  datatype Verdict = Cancelled | Rejected | Produced(event: Event)

  function DefaultEnd(start: Time): Time {
    Time(start.unixMs + (if start.allDay then DAY_MS else 0),
         if start.date.Some? then Projection.Succ(start.date.value) else None, start.allDay, None)
  }

  function FinishEvent(source: Source, b: Builder): Verdict {
    if b.cancelled then Cancelled
    else if b.start.None? then Rejected
    else
      var start := b.start.value;
      var end := b.end.GetOr(DefaultEnd(start));
      if start.allDay != end.allDay || end.unixMs < start.unixMs || (start.allDay && end.unixMs <= start.unixMs)
      then Rejected
      else Produced(Event(
        if b.uid == "" then source.fallbackUid(start.unixMs) else b.uid,
        if IsBlank(b.title) then "Untitled event" else b.title,
        start.unixMs, end.unixMs, start.allDay, start.date, end.date, start.timezone, b.location, b.url))
  }

  // ---------------------------------------------------------------- the stack machine

  datatype Machine = Machine(stack: seq<Name>, builder: Builder, events: seq<Event>, saw: bool)

  const IDLE := Machine([], EMPTY, [], false)

  function Top(stack: seq<Name>): Option<Name> {
    if stack == [] then None else Some(stack[|stack| - 1])
  }

  /** Whether a component may open directly inside `parent`. */
  predicate MayOpen(name: Name, parent: Option<Name>) {
    && name != VTodo && name != Nameless
    && (if parent.None? then name == VCalendar
        else name != VCalendar && (name == VEvent ==> parent.value == VCalendar))
  }

  function Produce(v: Verdict): seq<Event> {
    if v.Produced? then [v.event] else []
  }

  function Step(source: Source, m: Machine, t: Token): Option<Machine> {
    match t
    case Blank => Some(m)
    case Malformed => None
    case Begin(name) =>
      if MayOpen(name, Top(m.stack)) then Some(m.(stack := m.stack + [name], saw := true)) else None
    case End(name) =>
      if Top(m.stack) != Some(name) then None
      else
        var popped := m.(stack := m.stack[..|m.stack| - 1]);
        if name != VEvent then Some(popped)
        else
          var v := FinishEvent(source, m.builder);
          if v.Rejected? then None else Some(popped.(builder := EMPTY, events := m.events + Produce(v)))
    case Property(key, value) =>
      if m.stack == [] then None
      else if Top(m.stack) != Some(VEvent) then Some(m)
      else
        match ApplyProperty(source, m.builder, key, value)
        case None => None
        case Some(b) => Some(m.(builder := b))
  }

  function Run(source: Source, m: Machine, tokens: seq<Token>): Option<Machine> {
    if tokens == [] then Some(m)
    else
      match Run(source, m, tokens[..|tokens| - 1])
      case None => None
      case Some(before) => Step(source, before, tokens[|tokens| - 1])
  }

  function Parse(source: Source, tokens: seq<Token>): Option<seq<Event>> {
    match Run(source, IDLE, tokens)
    case Some(m) => if m.saw && m.stack == [] then Some(m.events) else None
    case None => None
  }

  function TokensOf(lines: seq<string>): seq<Token> {
    seq(|lines|, i requires 0 <= i < |lines| => Classify(lines[i]))
  }

  lemma {:induction false} RunStops(source: Source, m: Machine, tokens: seq<Token>, n: nat)
    requires n <= |tokens| && Run(source, m, tokens[..n]).None?
    ensures Run(source, m, tokens).None?
  {
    if n < |tokens| {
      var k := |tokens| - 1;
      assert tokens[..k][..n] == tokens[..n];
      RunStops(source, m, tokens[..k], n);
    } else {
      assert tokens[..n] == tokens;
    }
  }

  /** Reads the unfolded lines one by one, as the daemon does. */
  method ParseCalendar(source: Source, lines: seq<string>) returns (r: Option<seq<Event>>)
    ensures r == Parse(source, TokensOf(lines))
  {
    var events: seq<Event> := [];
    var current := EMPTY;
    var components: seq<Name> := [];
    var sawCalendar := false;
    ghost var tokens := TokensOf(lines);
    var n := 0;
    while n < |lines|
      invariant n <= |lines|
      invariant Run(source, IDLE, tokens[..n]) == Some(Machine(components, current, events, sawCalendar))
    {
      assert tokens[..n + 1][..n] == tokens[..n];
      var token := Classify(lines[n]);
      ghost var next := Step(source, Machine(components, current, events, sawCalendar), token);
      assert Run(source, IDLE, tokens[..n + 1]) == next;
      if next.None? {
        RunStops(source, IDLE, tokens, n + 1);
      }
      match token {
        case Blank =>
        case Malformed => return None;
        case Begin(name) =>
          if !MayOpen(name, Top(components)) {
            return None;
          }
          components := components + [name];
          sawCalendar := true;
        case End(name) =>
          if Top(components) != Some(name) {
            return None;
          }
          components := components[..|components| - 1];
          if name == VEvent {
            var verdict := FinishEvent(source, current);
            if verdict.Rejected? {
              return None;
            }
            events := events + Produce(verdict);
            current := EMPTY;
          }
        case Property(key, value) =>
          if components == [] {
            return None;
          }
          if components[|components| - 1] == VEvent {
            var applied := ApplyProperty(source, current, key, value);
            if applied.None? {
              return None;
            }
            current := applied.value;
          }
      }
      n := n + 1;
    }
    assert tokens[..n] == tokens;
    r := if sawCalendar && components == [] then Some(events) else None;
  }

  // ---------------------------------------------------------------- unfolding

  predicate Continues(line: string) {
    line != "" && (line[0] == ' ' || line[0] == '\t')
  }

  /** Joins continuation lines to the line before, one character less. */
  method UnfoldLines(raw: seq<string>) returns (lines: seq<string>)
    ensures lines == Unfolded(raw)
  {
    lines := [];
    var n := 0;
    while n < |raw|
      invariant n <= |raw| && lines == Unfolded(raw[..n])
    {
      assert raw[..n + 1][..n] == raw[..n];
      if Continues(raw[n]) && lines != [] {
        lines := lines[|lines| - 1 := lines[|lines| - 1] + raw[n][1..]];
      } else {
        lines := lines + [raw[n]];
      }
      n := n + 1;
    }
    assert raw[..n] == raw;
  }

  function Unfolded(raw: seq<string>): seq<string> {
    if raw == [] then []
    else
      var n := |raw| - 1;
      var before := Unfolded(raw[..n]);
      if Continues(raw[n]) && before != [] then before[|before| - 1 := before[|before| - 1] + raw[n][1..]]
      else before + [raw[n]]
  }

  /** What a continuation line starts with, and what it adds. */
  datatype Piece = Piece(tab: bool, text: string)

  /** A content line written as a first piece and any number of continuation pieces. */
  datatype Folded = Folded(first: string, rest: seq<Piece>)

  function Joined(f: Folded): string
    decreases |f.rest|
  {
    if f.rest == [] then f.first else Joined(f.(rest := f.rest[..|f.rest| - 1])) + f.rest[|f.rest| - 1].text
  }

  function Continuation(p: Piece): string {
    (if p.tab then "\t" else " ") + p.text
  }

  function Written(f: Folded): seq<string> {
    [f.first] + seq(|f.rest|, i requires 0 <= i < |f.rest| => Continuation(f.rest[i]))
  }

  function WrittenAll(lines: seq<Folded>): seq<string> {
    if lines == [] then [] else WrittenAll(lines[..|lines| - 1]) + Written(lines[|lines| - 1])
  }

  function JoinedAll(lines: seq<Folded>): seq<string> {
    seq(|lines|, i requires 0 <= i < |lines| => Joined(lines[i]))
  }

  lemma {:induction false} UnfoldOne(raw: seq<string>, f: Folded)
    requires !Continues(f.first)
    ensures Unfolded(raw + Written(f)) == Unfolded(raw) + [Joined(f)]
    decreases |f.rest|
  {
    var whole := raw + Written(f);
    var n := |whole| - 1;
    if f.rest == [] {
      assert whole[..n] == raw;
    } else {
      var m := |f.rest| - 1;
      var shorter := f.(rest := f.rest[..m]);
      assert Written(f) == Written(shorter) + [Continuation(f.rest[m])];
      assert whole[..n] == raw + Written(shorter);
      UnfoldOne(raw, shorter);
      assert whole[n][1..] == f.rest[m].text;
    }
  }

  /** Unfolding undoes any folding, at spaces and at tabs, whatever the pieces. */
  lemma {:induction false} UnfoldUndoesFold(lines: seq<Folded>)
    requires forall i :: 0 <= i < |lines| ==> !Continues(lines[i].first)
    ensures Unfolded(WrittenAll(lines)) == JoinedAll(lines)
  {
    if lines != [] {
      var n := |lines| - 1;
      UnfoldUndoesFold(lines[..n]);
      UnfoldOne(WrittenAll(lines[..n]), lines[n]);
    }
  }
}
