/**
 Runs of the media selection against the history of published player lists: the active player is
 the one that was seen to start playing last, and cycling visits every player once.
 */
module MediaRuns {
  import opened Outcomes
  import opened MediaSelection

  // ---------------------------------------------------------------- the history's own meaning

  predicate PlayingIn(players: seq<Player>, id: string) {
    exists i :: 0 <= i < |players| && players[i].id == id && players[i].playing
  }

  /** A player is seen to start when it plays and did not in the non-empty list before. */
  predicate Starts(before: seq<Player>, p: Player) {
    before != [] && p.playing && !PlayingIn(before, p.id)
  }

  function Before(history: seq<seq<Player>>, k: nat): seq<Player>
    requires k <= |history|
  {
    if k == 0 then [] else history[k - 1]
  }

  predicate StartsIn(before: seq<Player>, players: seq<Player>, id: string) {
    exists i :: 0 <= i < |players| && players[i].id == id && Starts(before, players[i])
  }

  /** The player's latest start was at entry `i` of list `k`, and it has been listed since. */
  predicate StartedAt(history: seq<seq<Player>>, id: string, k: nat, i: nat) {
    && k < |history| && i < |history[k]| && history[k][i].id == id
    && Starts(Before(history, k), history[k][i])
    && (forall m :: k <= m < |history| ==> Listed(history[m], id))
    && (forall m :: k < m < |history| ==> !StartsIn(Before(history, m), history[m], id))
  }

  // ---------------------------------------------------------------- numbering

  function Count(before: seq<Player>, players: seq<Player>): nat {
    if players == [] then 0
    else
      Count(before, players[..|players| - 1]) + (if Starts(before, players[|players| - 1]) then 1 else 0)
  }

  function Total(history: seq<seq<Player>>): nat {
    if history == [] then 0
    else
      var k := |history| - 1;
      Total(history[..k]) + Count(Before(history, k), history[k])
  }

  function Number(history: seq<seq<Player>>, k: nat, i: nat): nat
    requires k < |history| && i < |history[k]|
  {
    Total(history[..k]) + Count(Before(history, k), history[k][..i + 1])
  }

  lemma {:induction false} CountGrows(before: seq<Player>, players: seq<Player>, n: nat)
    requires n <= |players|
    ensures Count(before, players[..n]) <= Count(before, players)
  {
    if n < |players| {
      assert players[..|players| - 1][..n] == players[..n];
      CountGrows(before, players[..|players| - 1], n);
    } else {
      assert players[..n] == players;
    }
  }

  lemma {:induction false} TotalGrows(history: seq<seq<Player>>, n: nat)
    requires n <= |history|
    ensures Total(history[..n]) <= Total(history)
  {
    if n < |history| {
      assert history[..|history| - 1][..n] == history[..n];
      TotalGrows(history[..|history| - 1], n);
    } else {
      assert history[..n] == history;
    }
  }

  lemma {:induction false} CountNext(before: seq<Player>, players: seq<Player>, i: nat)
    requires i < |players|
    ensures Count(before, players[..i + 1])
         == Count(before, players[..i]) + if Starts(before, players[i]) then 1 else 0
  {
    assert players[..i + 1][..i] == players[..i];
  }

  predicate Earlier(k: nat, i: nat, m: nat, j: nat) {
    k < m || (k == m && i < j)
  }

  lemma {:induction false} CountClimbs(before: seq<Player>, players: seq<Player>, i: nat, j: nat)
    requires i < j < |players| && Starts(before, players[j])
    ensures Count(before, players[..i + 1]) < Count(before, players[..j + 1])
  {
    CountNext(before, players, j);
    assert players[..j][..i + 1] == players[..i + 1];
    CountGrows(before, players[..j], i + 1);
  }

  lemma {:induction false} NumberBounds(history: seq<seq<Player>>, k: nat, i: nat)
    requires k < |history| && i < |history[k]|
    ensures Number(history, k, i) <= Total(history[..k + 1])
    ensures Starts(Before(history, k), history[k][i]) ==> Total(history[..k]) < Number(history, k, i)
  {
    CountGrows(Before(history, k), history[k], i + 1);
    CountNext(Before(history, k), history[k], i);
    assert history[..k + 1][..k] == history[..k];
  }

  /** Starts are numbered in the order in which they were seen. */
  lemma {:induction false} NumbersFollowHistory(history: seq<seq<Player>>, k: nat, i: nat, m: nat, j: nat)
    requires k < |history| && i < |history[k]| && m < |history| && j < |history[m]|
    requires Earlier(k, i, m, j) && Starts(Before(history, m), history[m][j])
    ensures Number(history, k, i) < Number(history, m, j)
  {
    if k == m {
      CountClimbs(Before(history, m), history[m], i, j);
    } else {
      NumberBounds(history, k, i);
      NumberBounds(history, m, j);
      assert history[..m][..k + 1] == history[..k + 1];
      TotalGrows(history[..m], k + 1);
    }
  }

  // ---------------------------------------------------------------- one snapshot

  /** The selection remembers exactly the statuses of the list before. */
  ghost predicate Mirrors(sel: Selection, before: seq<Player>) {
    && sel.initialized == (before != [])
    && forall id :: WasPlaying(sel, id) <==> PlayingIn(before, id)
  }

  /** The same for the players about to be observed, once the others were forgotten. */
  ghost predicate Knows(sel: Selection, before: seq<Player>, players: seq<Player>) {
    && sel.initialized == (before != [])
    && forall j :: 0 <= j < |players| ==> (WasPlaying(sel, players[j].id) <==> PlayingIn(before, players[j].id))
  }

  /** Statuses after `n` players were observed. */
  ghost predicate Statuses(base: Selection, s: Selection, players: seq<Player>, n: nat)
    requires n <= |players|
  {
    && s.initialized == base.initialized
    && (forall j :: 0 <= j < n ==> players[j].id in s.previous && s.previous[players[j].id] == players[j].playing)
    && (forall j :: n <= j < |players| ==> WasPlaying(s, players[j].id) == WasPlaying(base, players[j].id))
    && (forall id :: id in s.previous ==> id in base.previous || Listed(players, id))
  }

  lemma {:induction false} StatusesStep(base: Selection, s: Selection, players: seq<Player>, n: nat)
    requires DistinctPlayers(players) && n < |players| && Statuses(base, s, players, n)
    ensures Statuses(base, Observe(s, players[n]), players, n + 1)
  {}

  /** Start numbers after `n` players were observed. */
  ghost predicate Numbered(base: Selection, s: Selection, before: seq<Player>, players: seq<Player>, n: nat)
    requires n <= |players|
  {
    && s.sequence == base.sequence + Count(before, players[..n])
    && (forall j :: 0 <= j < n && Starts(before, players[j]) ==>
          players[j].id in s.started
          && s.started[players[j].id] == base.sequence + Count(before, players[..j + 1]))
    && (forall id :: !StartsIn(before, players[..n], id) ==> Same(base, s, id))
  }

  predicate Same(a: Selection, b: Selection, id: string) {
    (id in a.started <==> id in b.started) && (id in a.started ==> a.started[id] == b.started[id])
  }

  lemma {:induction false} StartedStep(
    base: Selection, s: Selection, before: seq<Player>, players: seq<Player>, n: nat, id: string)
    requires n < |players|
    requires Starts(before, players[n]) <==> s.initialized && players[n].playing && !WasPlaying(s, players[n].id)
    requires !StartsIn(before, players[..n], id) ==> Same(base, s, id)
    ensures !StartsIn(before, players[..n + 1], id) ==> Same(base, Observe(s, players[n]), id)
  {}

  lemma {:induction false} NumberedStep(
    base: Selection, s: Selection, before: seq<Player>, players: seq<Player>, n: nat)
    requires DistinctPlayers(players) && n < |players| && Numbered(base, s, before, players, n)
    requires Starts(before, players[n]) <==> s.initialized && players[n].playing && !WasPlaying(s, players[n].id)
    requires base.sequence + Count(before, players) <= U64_MAX
    ensures Numbered(base, Observe(s, players[n]), before, players, n + 1)
  {
    var t := Observe(s, players[n]);
    CountNext(before, players, n);
    CountGrows(before, players, n + 1);
    forall id | !StartsIn(before, players[..n + 1], id) ensures Same(base, t, id) {
      StartedStep(base, s, before, players, n, id);
    }
    forall j | 0 <= j < n + 1 && Starts(before, players[j])
      ensures players[j].id in t.started
      ensures t.started[players[j].id] == base.sequence + Count(before, players[..j + 1])
    {
      if j < n {
        assert players[j].id != players[n].id;
        assert Same(s, t, players[j].id);
      }
    }
  }

  lemma {:induction false} ObserveAllObserves(base: Selection, before: seq<Player>, players: seq<Player>, n: nat)
    requires DistinctPlayers(players) && Knows(base, before, players) && n <= |players|
    requires base.sequence + Count(before, players) <= U64_MAX
    ensures Statuses(base, ObserveAll(base, players[..n]), players, n)
    ensures Numbered(base, ObserveAll(base, players[..n]), before, players, n)
  {
    if n > 0 {
      var k := n - 1;
      ObserveAllObserves(base, before, players, k);
      assert players[..n][..k] == players[..k];
      var s := ObserveAll(base, players[..k]);
      StatusesStep(base, s, players, k);
      assert WasPlaying(s, players[k].id) == PlayingIn(before, players[k].id);
      NumberedStep(base, s, before, players, k);
    }
  }

  // ---------------------------------------------------------------- whole histories

  /** The selection holds exactly the history's latest starts, by number. */
  ghost predicate Tracks(sel: Selection, history: seq<seq<Player>>) {
    && Mirrors(sel, Before(history, |history|))
    && sel.sequence == Total(history)
    && (forall id :: id in sel.started ==> exists k, i :: StartedAt(history, id, k, i))
    && (forall id, k: nat, i: nat :: StartedAt(history, id, k, i) ==>
          id in sel.started && sel.started[id] == Number(history, k, i))
  }

  lemma {:induction false} ForgetKnows(sel: Selection, before: seq<Player>, players: seq<Player>)
    requires Mirrors(sel, before)
    ensures Knows(Forget(sel, players), before, players)
  {}

  lemma {:induction false} StatusesMirror(base: Selection, s: Selection, players: seq<Player>, id: string)
    requires DistinctPlayers(players) && Statuses(base, s, players, |players|)
    requires forall x :: x in base.previous ==> Listed(players, x)
    ensures WasPlaying(s, id) <==> PlayingIn(players, id)
  {}

  lemma {:induction false} SnapshotMirrors(sel: Selection, before: seq<Player>, players: seq<Player>)
    requires DistinctPlayers(players) && Mirrors(sel, before)
    requires sel.sequence + Count(before, players) <= U64_MAX
    ensures Mirrors(Snapshot(sel, players), players)
    ensures Numbered(Forget(sel, players), Snapshot(sel, players), before, players, |players|)
  {
    var base := Forget(sel, players);
    ForgetKnows(sel, before, players);
    ObserveAllObserves(base, before, players, |players|);
    assert players[..|players|] == players;
    var s := ObserveAll(base, players);
    var next := Snapshot(sel, players);
    assert next == s.(initialized := players != []);
    forall id ensures WasPlaying(next, id) <==> PlayingIn(players, id) {
      StatusesMirror(base, s, players, id);
      assert WasPlaying(next, id) == WasPlaying(s, id);
    }
    forall id | !StartsIn(before, players[..|players|], id) ensures Same(base, next, id) {
      assert Same(base, s, id);
    }
  }

  lemma {:induction false} OlderLists(history: seq<seq<Player>>, players: seq<Player>, m: nat)
    requires m < |history|
    ensures (history + [players])[m] == history[m] && Before(history + [players], m) == Before(history, m)
  {}

  lemma {:induction false} NewestList(history: seq<seq<Player>>, players: seq<Player>)
    ensures (history + [players])[|history|] == players
    ensures Before(history + [players], |history|) == Before(history, |history|)
  {}

  /** A start in the newest list is the latest one. */
  lemma {:induction false} StartsNow(history: seq<seq<Player>>, players: seq<Player>, id: string, i: nat)
    ensures StartedAt(history + [players], id, |history|, i)
            <==> i < |players| && players[i].id == id && Starts(Before(history, |history|), players[i])
  {}

  /** An earlier start stays the latest one while the player is listed and does not start again. */
  lemma {:induction false} StartedBefore(history: seq<seq<Player>>, players: seq<Player>, id: string, k: nat, i: nat)
    requires k < |history|
    ensures StartedAt(history + [players], id, k, i)
            <==> && StartedAt(history, id, k, i)
                 && Listed(players, id) && !StartsIn(Before(history, |history|), players, id)
  {
    OlderLists(history, players, k);
    ListedLonger(history, players, id, k);
    QuietLonger(history, players, id, k);
  }

  lemma {:induction false} ListedLonger(history: seq<seq<Player>>, players: seq<Player>, id: string, k: nat)
    requires k < |history|
    ensures var longer := history + [players];
            (forall m :: k <= m < |longer| ==> Listed(longer[m], id))
            <==> Listed(players, id) && forall m :: k <= m < |history| ==> Listed(history[m], id)
  {
    var longer := history + [players];
    assert longer[|history|] == players;
    assert forall m :: k <= m < |history| ==> longer[m] == history[m];
  }

  lemma {:induction false} QuietLonger(history: seq<seq<Player>>, players: seq<Player>, id: string, k: nat)
    requires k < |history|
    ensures var longer := history + [players];
            (forall m :: k < m < |longer| ==> !StartsIn(Before(longer, m), longer[m], id))
            <==> && !StartsIn(Before(history, |history|), players, id)
                 && forall m :: k < m < |history| ==> !StartsIn(Before(history, m), history[m], id)
  {
    var longer, n := history + [players], |history|;
    NewestList(history, players);
    forall m | k < m < n
      ensures StartsIn(Before(longer, m), longer[m], id) == StartsIn(Before(history, m), history[m], id)
    {
      OlderLists(history, players, m);
    }
    assert StartsIn(Before(longer, n), longer[n], id) == StartsIn(Before(history, n), players, id);
  }

  lemma {:induction false} NumberKept(history: seq<seq<Player>>, players: seq<Player>, k: nat, i: nat)
    requires k < |history| && i < |history[k]|
    ensures Number(history + [players], k, i) == Number(history, k, i)
  {
    assert (history + [players])[..k] == history[..k];
  }

  /** A snapshot keeps the numbering in step with the history. */
  lemma {:induction false} SnapshotTracks(sel: Selection, history: seq<seq<Player>>, players: seq<Player>)
    requires Tracks(sel, history) && DistinctPlayers(players)
    requires Total(history + [players]) <= U64_MAX
    ensures Tracks(Snapshot(sel, players), history + [players])
  {
    var longer := history + [players];
    var n := |history|;
    var before := Before(history, n);
    assert longer[..n] == history && Before(longer, n) == before;
    SnapshotMirrors(sel, before, players);
    var next := Snapshot(sel, players);
    assert players[..|players|] == players;
    forall id | id in next.started ensures exists k, i :: StartedAt(longer, id, k, i) {
      NumberHasStart(sel, history, players, id);
    }
    forall id, k: nat, i: nat | StartedAt(longer, id, k, i)
      ensures id in next.started && next.started[id] == Number(longer, k, i)
    {
      StartHasNumber(sel, history, players, id, k, i);
    }
  }

  lemma {:induction false} NumberHasStart(sel: Selection, history: seq<seq<Player>>, players: seq<Player>, id: string)
    requires Tracks(sel, history)
    requires Numbered(Forget(sel, players), Snapshot(sel, players), Before(history, |history|), players, |players|)
    requires id in Snapshot(sel, players).started
    ensures exists k, i :: StartedAt(history + [players], id, k, i)
  {
    var before := Before(history, |history|);
    assert players[..|players|] == players;
    if StartsIn(before, players, id) {
      var i :| 0 <= i < |players| && players[i].id == id && Starts(before, players[i]);
      StartsNow(history, players, id, i);
    } else {
      assert Same(Forget(sel, players), Snapshot(sel, players), id);
      var k, i :| StartedAt(history, id, k, i);
      StartedBefore(history, players, id, k, i);
    }
  }

  lemma {:induction false} StartHasNumber(
    sel: Selection, history: seq<seq<Player>>, players: seq<Player>, id: string, k: nat, i: nat)
    requires Tracks(sel, history)
    requires Numbered(Forget(sel, players), Snapshot(sel, players), Before(history, |history|), players, |players|)
    requires StartedAt(history + [players], id, k, i)
    ensures var next := Snapshot(sel, players);
            id in next.started && next.started[id] == Number(history + [players], k, i)
  {
    assert players[..|players|] == players;
    if k < |history| {
      StartedBefore(history, players, id, k, i);
      NumberKept(history, players, k, i);
      assert Same(Forget(sel, players), Snapshot(sel, players), id);
    } else {
      StartsNow(history, players, id, i);
      NewestList(history, players);
      assert (history + [players])[..k] == history;
    }
  }

  // ---------------------------------------------------------------- runs

  /** The list an event publishes, if it takes a snapshot at all. */
  function Taken(w: World, e: Event): Option<seq<Player>> {
    match e
    case Refresh(players) => Some(players)
    case Disconnect => None
    case Cycle => if NextPlayer(w.players, w.active).None? then None else Some(w.players)
    case Select(id) => if id.Some? && !Listed(w.players, id.value) then None else Some(w.players)
  }

  function History(events: seq<Event>): seq<seq<Player>> {
    if events == [] then []
    else
      var front, e := events[..|events| - 1], events[|events| - 1];
      match Taken(Run(START, front), e)
      case None => History(front)
      case Some(players) => History(front) + [players]
  }

  predicate BusNamesDistinct(events: seq<Event>) {
    forall i :: 0 <= i < |events| && events[i].Refresh? ==> DistinctPlayers(events[i].players)
  }

  lemma {:induction false} RunDistinct(events: seq<Event>)
    requires BusNamesDistinct(events)
    ensures DistinctPlayers(Run(START, events).players)
  {
    if events != [] {
      RunDistinct(events[..|events| - 1]);
    }
  }

  lemma {:induction false} PinDoesNotMatter(sel: Selection, history: seq<seq<Player>>, pinned: Option<string>)
    requires Tracks(sel, history)
    ensures Tracks(sel.(pinned := pinned), history)
  {}

  lemma {:induction false} RunTracks(events: seq<Event>)
    requires BusNamesDistinct(events) && Total(History(events)) <= U64_MAX
    ensures Tracks(Run(START, events).sel, History(events))
  {
    if events == [] {
      assert forall id :: !WasPlaying(FRESH, id) && !PlayingIn([], id);
    } else {
      var front, e := events[..|events| - 1], events[|events| - 1];
      var w := Run(START, front);
      RunDistinct(front);
      var history := History(events);
      if Taken(w, e).Some? {
        assert history[..|history| - 1] == History(front);
        TotalGrows(history, |history| - 1);
      }
      RunTracks(front);
      match e {
        case Refresh(players) => SnapshotTracks(w.sel, History(front), players);
        case Disconnect =>
        case Cycle =>
          var id := NextPlayer(w.players, w.active);
          if id.Some? {
            PinDoesNotMatter(w.sel, History(front), id);
            SnapshotTracks(w.sel.(pinned := id), History(front), w.players);
          }
        case Select(id) =>
          if Taken(w, e).Some? {
            PinDoesNotMatter(w.sel, History(front), id);
            SnapshotTracks(w.sel.(pinned := id), History(front), w.players);
          }
      }
    }
  }

  /** While players are listed, what is published is what the selection says. */
  predicate Shows(w: World) {
    w.players != [] ==> w.active == Active(w.sel, w.players) && w.pinned == w.sel.pinned
  }

  lemma {:induction false} RunShows(events: seq<Event>)
    ensures Shows(Run(START, events))
  {
    if events != [] {
      RunShows(events[..|events| - 1]);
    }
  }

  /** Among playing players, the greatest number belongs to the start seen last. */
  lemma {:induction false} RecentStartedLast(sel: Selection, history: seq<seq<Player>>, players: seq<Player>, p: Player)
    returns (k: nat, i: nat)
    requires Tracks(sel, history) && Recent(sel, players, true) == Some(p)
    ensures StartedAt(history, p.id, k, i)
    ensures forall q, m: nat, j: nat ::
        q in players && q.playing && StartedAt(history, q.id, m, j) ==> !Earlier(k, i, m, j)
  {
    k, i :| StartedAt(history, p.id, k, i);
    forall q, m: nat, j: nat | q in players && q.playing && StartedAt(history, q.id, m, j)
      ensures !Earlier(k, i, m, j)
    {
      assert Eligible(sel, q, true);
      if Earlier(k, i, m, j) {
        NumbersFollowHistory(history, k, i, m, j);
      }
    }
  }

  /**
   In every run: unpinned, when some playing player was seen to start, the active one is playing
   and no other playing player was seen to start after it.
   */
  lemma {:induction false} ActiveStartedLast(
    events: seq<Event>, p: Player, m: nat, j: nat)
    returns (q: Player, k: nat, i: nat)
    requires BusNamesDistinct(events) && Total(History(events)) <= U64_MAX
    requires Run(START, events).pinned.None? && p in Run(START, events).players
    requires p.playing && StartedAt(History(events), p.id, m, j)
    ensures var w := Run(START, events);
            && q in w.players && q.playing && w.active == Some(q.id)
            && StartedAt(History(events), q.id, k, i)
            && forall other, m: nat, j: nat ::
                 other in w.players && other.playing && StartedAt(History(events), other.id, m, j)
                 ==> !Earlier(k, i, m, j)
  {
    var w, history := Run(START, events), History(events);
    RunTracks(events);
    RunShows(events);
    assert Eligible(w.sel, p, true);
    q := Recent(w.sel, w.players, true).value;
    k, i := RecentStartedLast(w.sel, history, w.players, q);
  }

  // ---------------------------------------------------------------- cycling

  function Iterate<T>(f: T -> T, x: T, n: nat): T {
    if n == 0 then x else f(Iterate(f, x, n - 1))
  }

  function Cycles(w: World, n: nat): World {
    Iterate((x: World) => Next(x, Cycle), w, n)
  }

  /** The entry `n` places after `at` in a ring. */
  function Around(at: nat, n: nat, size: nat): (k: nat)
    requires at < size && n <= size
    ensures k < size
  {
    if at + n < size then at + n else at + n - size
  }

  lemma {:induction false} PositionExact(players: seq<Player>, k: nat)
    requires DistinctPlayers(players) && k < |players|
    ensures Position(players, Some(players[k].id)) == k
  {}

  lemma {:induction false} RingStep(k: nat, size: nat)
    requires k < size
    ensures (k + 1) % size == if k + 1 < size then k + 1 else 0
  {}

  lemma {:induction false} NextIs(players: seq<Player>, k: nat)
    requires DistinctPlayers(players) && k < |players| && |players| >= 2
    ensures NextPlayer(players, Some(players[k].id)) == Some(players[if k + 1 < |players| then k + 1 else 0].id)
  {
    PositionExact(players, k);
    var size := |players|;
    RingStep(k, size);
    assert (k + 1) % |players| == if k + 1 < size then k + 1 else 0;
  }

  /** Entry `k` of the list is active, and pinned if so asked. */
  predicate Stands(w: World, players: seq<Player>, k: nat, pinned: bool) {
    && w.players == players && k < |players| && w.active == Some(players[k].id)
    && (pinned ==> w.pinned == w.active)
  }

  lemma {:induction false} CycleOnce(w: World, players: seq<Player>, k: nat, pinned: bool)
    requires |players| >= 2 && DistinctPlayers(players) && Stands(w, players, k, pinned)
    ensures Stands(Next(w, Cycle), players, if k + 1 < |players| then k + 1 else 0, true)
  {
    NextIs(w.players, k);
    var id := NextPlayer(w.players, w.active);
    assert Listed(w.players, id.value);
    PublishSound(w.sel.(pinned := id), w.players);
  }

  lemma {:induction false} RingWalk(f: World -> World, w: World, players: seq<Player>, at: nat, n: nat)
    requires forall x, k: nat, pinned :: Stands(x, players, k, pinned) ==>
        Stands(f(x), players, if k + 1 < |players| then k + 1 else 0, true)
    requires Stands(w, players, at, false) && n <= |players|
    ensures Stands(Iterate(f, w, n), players, Around(at, n, |players|), n > 0)
  {
    if n > 0 {
      RingWalk(f, w, players, at, n - 1);
    }
  }

  /** Each cycle pins and activates the next player in the list. */
  lemma {:induction false} CycleSteps(w: World, at: nat, n: nat)
    requires |w.players| >= 2 && DistinctPlayers(w.players)
    requires at < |w.players| && w.active == Some(w.players[at].id) && n <= |w.players|
    ensures Stands(Cycles(w, n), w.players, Around(at, n, |w.players|), n > 0)
  {
    var f := (x: World) => Next(x, Cycle);
    forall x, k: nat, pinned | Stands(x, w.players, k, pinned)
      ensures Stands(f(x), w.players, if k + 1 < |w.players| then k + 1 else 0, true)
    {
      CycleOnce(x, w.players, k, pinned);
    }
    RingWalk(f, w, w.players, at, n);
  }

  /** Worlds in which every cycle succeeds; by `RunSound`, any run that lists two players. */
  predicate Cyclable(w: World) {
    |w.players| >= 2 && DistinctPlayers(w.players) && Sound(w)
  }

  lemma {:induction false} ActiveEntry(w: World) returns (at: nat)
    requires Cyclable(w)
    ensures at < |w.players| && w.active == Some(w.players[at].id)
  {
    at :| at < |w.players| && w.players[at].id == w.active.value;
  }

  /** As many cycles as players reach every one of them ... */
  lemma {:induction false} CyclesReachEach(w: World, j: nat) returns (n: nat)
    requires Cyclable(w) && j < |w.players|
    ensures 1 <= n <= |w.players| && Cycles(w, n).pinned == Some(w.players[j].id)
  {
    var at := ActiveEntry(w);
    n := if j > at then j - at else j + |w.players| - at;
    CycleSteps(w, at, n);
  }

  /** ... no two of them the same ... */
  lemma {:induction false} CyclesNeverRepeat(w: World, n: nat, m: nat)
    requires Cyclable(w) && 1 <= n < m <= |w.players|
    ensures Cycles(w, n).pinned != Cycles(w, m).pinned
  {
    var at := ActiveEntry(w);
    CycleSteps(w, at, n);
    CycleSteps(w, at, m);
    assert Around(at, n, |w.players|) != Around(at, m, |w.players|);
  }

  /** ... and end at the player that was active before the first. */
  lemma {:induction false} CyclesReturn(w: World)
    requires Cyclable(w)
    ensures Cycles(w, |w.players|).active == w.active
  {
    var at := ActiveEntry(w);
    CycleSteps(w, at, |w.players|);
  }
}
