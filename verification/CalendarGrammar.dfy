/**
 A recursive grammar of component streams (section 3.4 of RFC 5545, with the daemon's own
 refusals) and the proof that the stack machine accepts exactly its sentences.
 */
module CalendarGrammar {
  import opened Outcomes
  import opened CalendarParser

  datatype Node =
    | Leaf(key: string, value: string)
    | Component(name: Name, body: Forest)

  /** Nodes in reading order; the last one is outermost, since streams grow at their end. */
  datatype Forest = Nothing | Then(front: Forest, last: Node)

  function RenderAll(forest: Forest): seq<Token> {
    match forest
    case Nothing => []
    case Then(front, last) => RenderAll(front) + Render(last)
  }

  function Render(node: Node): seq<Token> {
    match node
    case Leaf(key, value) => [Property(key, value)]
    case Component(name, body) => [Begin(name)] + RenderAll(body) + [End(name)]
  }

  /** What a builder becomes under a component's own properties; nested components add nothing. */
  function Fold(source: Source, b: Builder, body: Forest): Option<Builder> {
    match body
    case Nothing => Some(b)
    case Then(front, last) =>
      match Fold(source, b, front)
      case None => None
      case Some(before) =>
        if last.Leaf? then ApplyProperty(source, before, last.key, last.value) else Some(before)
  }

  function Outcome(source: Source, body: Forest): Verdict {
    match Fold(source, EMPTY, body)
    case None => Rejected
    case Some(b) => FinishEvent(source, b)
  }

  predicate AllWellFormed(source: Source, forest: Forest, parent: Option<Name>) {
    match forest
    case Nothing => true
    case Then(front, last) => AllWellFormed(source, front, parent) && WellFormed(source, last, parent)
  }

  predicate WellFormed(source: Source, node: Node, parent: Option<Name>) {
    match node
    case Leaf(_, _) => parent.Some?
    case Component(name, body) =>
      && MayOpen(name, parent)
      && AllWellFormed(source, body, Some(name))
      && (name == VEvent ==> !Outcome(source, body).Rejected?)
  }

  function AllEvents(source: Source, forest: Forest): seq<Event> {
    match forest
    case Nothing => []
    case Then(front, last) => AllEvents(source, front) + EventsOf(source, last)
  }

  /** One event for each block that is not cancelled, from that block's own properties. */
  function EventsOf(source: Source, node: Node): seq<Event> {
    match node
    case Leaf(_, _) => []
    case Component(name, body) =>
      if name == VEvent then Produce(Outcome(source, body)) else AllEvents(source, body)
  }

  // ---------------------------------------------------------------- runs compose

  lemma {:induction false} RunSplits(source: Source, m: Machine, a: seq<Token>, b: seq<Token>)
    ensures Run(source, m, a + b)
         == (match Run(source, m, a) case None => None case Some(n) => Run(source, n, b))
  {
    if b == [] {
      assert a + b == a;
    } else {
      var k := |b| - 1;
      assert (a + b)[..|a + b| - 1] == a + b[..k];
      RunSplits(source, m, a, b[..k]);
    }
  }

  lemma {:induction false} RunOne(source: Source, m: Machine, t: Token)
    ensures Run(source, m, [t]) == Step(source, m, t)
  {}

  /** A bracketed stream: open, read the inside, close. */
  lemma {:induction false} RunBracketed(
    source: Source, m: Machine, name: Name, inside: seq<Token>, inner: Machine, done: Machine)
    requires Step(source, m, Begin(name)) == Some(inner)
    requires Run(source, inner, inside) == Some(done)
    ensures Run(source, m, [Begin(name)] + inside + [End(name)]) == Step(source, done, End(name))
  {
    RunOne(source, m, Begin(name));
    RunSplits(source, m, [Begin(name)], inside);
    RunSplits(source, m, [Begin(name)] + inside, [End(name)]);
    RunOne(source, done, End(name));
  }

  // ---------------------------------------------------------------- every sentence is accepted

  /** Nothing is pending where an event may open, and an open component has been seen. */
  predicate Ready(m: Machine) {
    && (m.stack != [] ==> m.saw)
    && (Top(m.stack) == None || Top(m.stack) == Some(VCalendar) ==> m.builder == EMPTY)
  }

  /** The builder after a whole forest: only an event's own properties count. */
  function BuilderAfter(source: Source, m: Machine, forest: Forest): Option<Builder> {
    if Top(m.stack) == Some(VEvent) then Fold(source, m.builder, forest) else Some(m.builder)
  }

  /** Below anything but a calendar no event can appear. */
  lemma {:induction false} NoEventInside(source: Source, forest: Forest, parent: Name)
    requires parent != VCalendar && AllWellFormed(source, forest, Some(parent))
    ensures AllEvents(source, forest) == []
  {
    match forest
    case Nothing =>
    case Then(front, Leaf(_, _)) => NoEventInside(source, front, parent);
    case Then(front, Component(name, body)) =>
      NoEventInside(source, front, parent);
      NoEventInside(source, body, name);
  }

  /** Reading a rendered forest leaves the stack as it was and adds the forest's events, in order. */
  lemma {:induction false} RunForest(source: Source, m: Machine, forest: Forest)
    requires AllWellFormed(source, forest, Top(m.stack)) && Ready(m)
    requires BuilderAfter(source, m, forest).Some?
    ensures Run(source, m, RenderAll(forest))
         == Some(Machine(m.stack, BuilderAfter(source, m, forest).value,
                         m.events + AllEvents(source, forest), m.saw || forest.Then?))
    decreases forest
  {
    match forest
    case Nothing =>
      assert m.events + [] == m.events;
    case Then(front, last) =>
      RunForest(source, m, front);
      var n := Machine(m.stack, BuilderAfter(source, m, front).value,
                       m.events + AllEvents(source, front), m.saw || front.Then?);
      RunSplits(source, m, RenderAll(front), Render(last));
      RunNode(source, n, last);
      JoinEvents(m.events, AllEvents(source, front), EventsOf(source, last));
  }

  lemma {:induction false} JoinEvents(a: seq<Event>, b: seq<Event>, c: seq<Event>)
    ensures a + b + c == a + (b + c)
  {}

  function NodeAfter(source: Source, m: Machine, node: Node): Option<Builder> {
    if Top(m.stack) == Some(VEvent) && node.Leaf? then ApplyProperty(source, m.builder, node.key, node.value)
    else Some(m.builder)
  }

  lemma {:induction false} RunNode(source: Source, m: Machine, node: Node)
    requires WellFormed(source, node, Top(m.stack)) && Ready(m)
    requires NodeAfter(source, m, node).Some?
    ensures Run(source, m, Render(node))
         == Some(Machine(m.stack, NodeAfter(source, m, node).value, m.events + EventsOf(source, node), true))
    decreases node
  {
    match node
    case Leaf(key, value) =>
      RunOne(source, m, Property(key, value));
      assert m.events + [] == m.events;
    case Component(name, body) =>
      var inner := m.(stack := m.stack + [name], saw := true);
      assert Top(inner.stack) == Some(name);
      if name == VEvent {
        assert Top(m.stack) == Some(VCalendar) && Fold(source, EMPTY, body).Some?;
      }
      RunForest(source, inner, body);
      var done := Machine(inner.stack, BuilderAfter(source, inner, body).value,
                          m.events + AllEvents(source, body), true);
      RunBracketed(source, m, name, RenderAll(body), inner, done);
      RunClose(source, m, name, body, done);
  }

  lemma {:induction false} RunClose(source: Source, m: Machine, name: Name, body: Forest, done: Machine)
    requires WellFormed(source, Component(name, body), Top(m.stack)) && Ready(m)
    requires done.stack == m.stack + [name] && done.events == m.events + AllEvents(source, body) && done.saw
    requires Some(done.builder) == if name == VEvent then Fold(source, m.builder, body) else Some(m.builder)
    ensures Step(source, done, End(name))
         == Some(Machine(m.stack, m.builder, m.events + EventsOf(source, Component(name, body)), true))
  {
    assert done.stack[..|done.stack| - 1] == m.stack;
    if name == VEvent {
      NoEventInside(source, body, VEvent);
      assert Top(m.stack) == Some(VCalendar) && Outcome(source, body) == FinishEvent(source, done.builder);
      assert done.events == m.events;
    }
  }

  // ---------------------------------------------------------------- only sentences are accepted

  /** What has been read so far: a forest outside any component, or inside open ones. */
  datatype Open =
    | Outside(forest: Forest)
    | Within(outer: Open, name: Name, forest: Forest)

  function ParentOf(open: Open): Option<Name> {
    match open
    case Outside(_) => None
    case Within(_, name, _) => Some(name)
  }

  predicate Legal(source: Source, open: Open) {
    && AllWellFormed(source, open.forest, ParentOf(open))
    && (open.Within? ==> Legal(source, open.outer) && MayOpen(open.name, ParentOf(open.outer)))
  }

  function RenderOpen(open: Open): seq<Token> {
    match open
    case Outside(forest) => RenderAll(forest)
    case Within(outer, name, forest) => RenderOpen(outer) + [Begin(name)] + RenderAll(forest)
  }

  function OpenEvents(source: Source, open: Open): seq<Event> {
    match open
    case Outside(forest) => AllEvents(source, forest)
    case Within(outer, _, forest) => OpenEvents(source, outer) + AllEvents(source, forest)
  }

  function StackOf(open: Open): seq<Name> {
    match open
    case Outside(_) => []
    case Within(outer, name, _) => StackOf(outer) + [name]
  }

  /** The properties collected by the one event that may be open. */
  function Pending(source: Source, open: Open): Option<Builder> {
    match open
    case Outside(_) => Some(EMPTY)
    case Within(outer, name, forest) =>
      if name == VEvent then Fold(source, EMPTY, forest) else Pending(source, outer)
  }

  predicate Tracks(source: Source, open: Open, m: Machine) {
    && Legal(source, open)
    && StackOf(open) == m.stack
    && Pending(source, open) == Some(m.builder)
    && OpenEvents(source, open) == m.events
  }

  function Grown(open: Open, node: Node): Open {
    open.(forest := Then(open.forest, node))
  }

  /** Under a calendar, or outside, nothing is pending. */
  lemma {:induction false} NothingPending(source: Source, open: Open)
    requires Legal(source, open) && (open.Within? ==> open.name == VCalendar)
    ensures Pending(source, open) == Some(EMPTY)
  {}

  lemma {:induction false} GrownReads(source: Source, open: Open, node: Node)
    requires Legal(source, open) && WellFormed(source, node, ParentOf(open))
    ensures Legal(source, Grown(open, node)) && StackOf(Grown(open, node)) == StackOf(open)
    ensures RenderOpen(Grown(open, node)) == RenderOpen(open) + Render(node)
    ensures OpenEvents(source, Grown(open, node)) == OpenEvents(source, open) + EventsOf(source, node)
  {}

  lemma {:induction false} TrackBegin(source: Source, open: Open, m: Machine, name: Name) returns (next: Open)
    requires Tracks(source, open, m) && MayOpen(name, Top(m.stack))
    ensures Tracks(source, next, m.(stack := m.stack + [name], saw := true))
    ensures RenderOpen(next) == RenderOpen(open) + [Begin(name)]
  {
    next := Within(open, name, Nothing);
    if name == VEvent {
      NothingPending(source, open);
    }
  }

  lemma {:induction false} TrackProperty(
    source: Source, open: Open, m: Machine, key: string, value: string)
    returns (next: Open)
    requires Tracks(source, open, m) && Step(source, m, Property(key, value)).Some?
    ensures Tracks(source, next, Step(source, m, Property(key, value)).value)
    ensures RenderOpen(next) == RenderOpen(open) + [Property(key, value)]
  {
    next := Grown(open, Leaf(key, value));
    GrownReads(source, open, Leaf(key, value));
  }

  /** What the machine holds after a component closed, in terms of the frames around it. */
  lemma {:induction false} CloseFrame(source: Source, open: Open, m: Machine)
    requires Tracks(source, open, m) && open.Within? && Step(source, m, End(open.name)).Some?
    ensures var n := Step(source, m, End(open.name)).value;
      var node := Component(open.name, open.forest);
      && WellFormed(source, node, ParentOf(open.outer))
      && n.stack == StackOf(open.outer) && Pending(source, open.outer) == Some(n.builder)
      && n.events == OpenEvents(source, open.outer) + EventsOf(source, node)
  {
    if open.name == VEvent {
      NoEventInside(source, open.forest, VEvent);
      NothingPending(source, open.outer);
      assert Outcome(source, open.forest) == FinishEvent(source, m.builder);
      assert m.events == OpenEvents(source, open.outer);
    }
    assert m.stack[..|m.stack| - 1] == StackOf(open.outer);
  }

  lemma {:induction false} CloseRender(open: Open)
    requires open.Within?
    ensures RenderOpen(open.outer) + Render(Component(open.name, open.forest)) == RenderOpen(open) + [End(open.name)]
  {}

  lemma {:induction false} ComponentKeepsPending(source: Source, open: Open, node: Node)
    requires node.Component?
    ensures Pending(source, Grown(open, node)) == Pending(source, open)
  {}

  /** The innermost component closes and becomes a node of the one around it. */
  lemma {:induction false} TrackEnd(source: Source, open: Open, m: Machine, name: Name) returns (next: Open)
    requires Tracks(source, open, m) && Step(source, m, End(name)).Some?
    ensures Tracks(source, next, Step(source, m, End(name)).value)
    ensures RenderOpen(next) == RenderOpen(open) + [End(name)]
  {
    assert open.Within? && open.name == name;
    var node := Component(name, open.forest);
    CloseFrame(source, open, m);
    CloseRender(open);
    GrownReads(source, open.outer, node);
    ComponentKeepsPending(source, open.outer, node);
    next := Grown(open.outer, node);
  }

  predicate NoBlanks(tokens: seq<Token>) {
    forall i :: 0 <= i < |tokens| ==> !tokens[i].Blank?
  }

  lemma {:induction false} TrackStep(source: Source, open: Open, m: Machine, t: Token) returns (next: Open)
    requires Tracks(source, open, m) && !t.Blank? && Step(source, m, t).Some?
    ensures Tracks(source, next, Step(source, m, t).value)
    ensures RenderOpen(next) == RenderOpen(open) + [t]
  {
    match t {
      case Begin(name) => next := TrackBegin(source, open, m, name);
      case End(name) => next := TrackEnd(source, open, m, name);
      case Property(key, value) => next := TrackProperty(source, open, m, key, value);
    }
  }

  /** Every accepted prefix is a forest with some components still open. */
  lemma {:induction false} Recover(source: Source, tokens: seq<Token>) returns (open: Open)
    requires NoBlanks(tokens) && Run(source, IDLE, tokens).Some?
    ensures Tracks(source, open, Run(source, IDLE, tokens).value)
    ensures RenderOpen(open) == tokens
  {
    if tokens == [] {
      open := Outside(Nothing);
    } else {
      var k := |tokens| - 1;
      var before := Recover(source, tokens[..k]);
      var m := Run(source, IDLE, tokens[..k]).value;
      open := TrackStep(source, before, m, tokens[k]);
      assert tokens[..k] + [tokens[k]] == tokens;
    }
  }

  // ---------------------------------------------------------------- main results

  function Solid(tokens: seq<Token>): seq<Token> {
    if tokens == [] then []
    else
      var k := |tokens| - 1;
      Solid(tokens[..k]) + (if tokens[k].Blank? then [] else [tokens[k]])
  }

  /** Blank lines never matter. */
  lemma {:induction false} BlanksIgnored(source: Source, m: Machine, tokens: seq<Token>)
    ensures Run(source, m, tokens) == Run(source, m, Solid(tokens)) && NoBlanks(Solid(tokens))
  {
    if tokens != [] {
      var k := |tokens| - 1;
      BlanksIgnored(source, m, tokens[..k]);
      var front := Solid(tokens[..k]);
      if tokens[k].Blank? {
        assert Solid(tokens) == front;
      } else {
        RunSplits(source, m, front, [tokens[k]]);
        assert Solid(tokens) == front + [tokens[k]];
        if Run(source, m, front).Some? {
          RunOne(source, Run(source, m, front).value, tokens[k]);
        }
      }
    }
  }

  /** A non-empty, well-formed forest whose rendering is the stream and whose events are these. */
  predicate Sentence(source: Source, forest: Forest, tokens: seq<Token>, events: seq<Event>) {
    && forest.Then?
    && AllWellFormed(source, forest, None)
    && RenderAll(forest) == Solid(tokens)
    && AllEvents(source, forest) == events
  }

  lemma {:induction false} AcceptedIsSentence(
    source: Source, tokens: seq<Token>, events: seq<Event>)
    returns (forest: Forest)
    requires Parse(source, tokens) == Some(events)
    ensures Sentence(source, forest, tokens, events)
  {
    BlanksIgnored(source, IDLE, tokens);
    var open := Recover(source, Solid(tokens));
    forest := open.forest;
  }

  lemma {:induction false} SentenceIsAccepted(source: Source, forest: Forest, tokens: seq<Token>, events: seq<Event>)
    requires Sentence(source, forest, tokens, events)
    ensures Parse(source, tokens) == Some(events)
  {
    BlanksIgnored(source, IDLE, tokens);
    RunForest(source, IDLE, forest);
    assert IDLE.events + events == events;
  }

  /** The stack machine accepts exactly the grammar's sentences, with exactly their events. */
  lemma {:induction false} ParserAcceptsGrammar(source: Source, tokens: seq<Token>, events: seq<Event>)
    ensures Parse(source, tokens) == Some(events) <==> exists forest :: Sentence(source, forest, tokens, events)
  {
    if Parse(source, tokens) == Some(events) {
      var forest := AcceptedIsSentence(source, tokens, events);
    }
    if forest :| Sentence(source, forest, tokens, events) {
      SentenceIsAccepted(source, forest, tokens, events);
    }
  }

  lemma {:induction false} PendingNeedsEvent(source: Source, open: Open)
    requires VEvent !in StackOf(open)
    ensures Pending(source, open) == Some(EMPTY)
  {
    if open.Within? {
      assert VEvent !in StackOf(open.outer) && open.name in StackOf(open);
      PendingNeedsEvent(source, open.outer);
    }
  }

  /** Nothing leaks between events: while no event is open, nothing is pending. */
  lemma {:induction false} NothingPendingOutside(source: Source, tokens: seq<Token>)
    requires Run(source, IDLE, tokens).Some?
    ensures var m := Run(source, IDLE, tokens).value; VEvent !in m.stack ==> m.builder == EMPTY
  {
    BlanksIgnored(source, IDLE, tokens);
    var open := Recover(source, Solid(tokens));
    if VEvent !in StackOf(open) {
      PendingNeedsEvent(source, open);
    }
  }

  /** Where a component may stand: calendars at the top and nowhere else, events directly in a calendar, no
      to-do and no nameless component at all. */
  lemma {:induction false} NestingMeans(source: Source, name: Name, body: Forest, parent: Option<Name>)
    requires WellFormed(source, Component(name, body), parent)
    ensures parent.None? <==> name == VCalendar
    ensures name == VEvent ==> parent == Some(VCalendar)
    ensures name != VTodo && name != Nameless
  {}

  /** Any other component may stand in any other, with any well-formed content. */
  lemma {:induction false} OthersMayNest(source: Source, name: Name, body: Forest, parent: Name)
    requires name.Other? && AllWellFormed(source, body, Some(name))
    ensures WellFormed(source, Component(name, body), Some(parent))
  {}

  /** An event may stand in a calendar, and a calendar at the top, when their content may. */
  lemma {:induction false} EventsMayNest(source: Source, body: Forest)
    ensures AllWellFormed(source, body, Some(VEvent)) && !Outcome(source, body).Rejected? ==>
      WellFormed(source, Component(VEvent, body), Some(VCalendar))
    ensures AllWellFormed(source, body, Some(VCalendar)) ==> WellFormed(source, Component(VCalendar, body), None)
  {}
}
