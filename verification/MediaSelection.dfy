/** Which media player is active: pins first, then observed recency, then fixed preferences. */
module MediaSelection {
  import opened Outcomes

  datatype Player = Player(id: string, playing: bool, spotify: bool, canControl: bool)

  datatype Selection = Selection(
    pinned: Option<string>,
    previous: map<string, bool>,
    started: map<string, nat>,
    sequence: nat,
    initialized: bool)

  const FRESH := Selection(None, map[], map[], 0, false)

  predicate Listed(players: seq<Player>, id: string) {
    exists i :: 0 <= i < |players| && players[i].id == id
  }

  predicate DistinctPlayers(players: seq<Player>) {
    forall i, j :: 0 <= i < j < |players| ==> players[i].id != players[j].id
  }

  /** The first player satisfying a test. */
  function First(players: seq<Player>, test: Player -> bool): (r: Option<Player>)
    ensures r.Some? ==> r.value in players && test(r.value)
    ensures r.None? ==> forall p :: p in players ==> !test(p)
  {
    if players == [] then None
    else if test(players[0]) then Some(players[0])
    else First(players[1..], test)
  }

  predicate Eligible(sel: Selection, p: Player, playingOnly: bool) {
    p.id in sel.started && (playingOnly ==> p.playing)
  }

  /** The eligible player with the greatest start number, the last of equals. */
  function Recent(sel: Selection, players: seq<Player>, playingOnly: bool): (r: Option<Player>)
    ensures r.Some? ==> r.value in players && Eligible(sel, r.value, playingOnly)
    ensures r.Some? ==>
        forall p :: p in players && Eligible(sel, p, playingOnly) ==> sel.started[p.id] <= sel.started[r.value.id]
    ensures r.None? ==> forall p :: p in players ==> !Eligible(sel, p, playingOnly)
  {
    if players == [] then None
    else
      var k := |players| - 1;
      var before := Recent(sel, players[..k], playingOnly);
      assert players == players[..k] + [players[k]];
      if !Eligible(sel, players[k], playingOnly) then before
      else if before.Some? && sel.started[before.value.id] > sel.started[players[k].id] then before
      else Some(players[k])
  }

  function OrElse(a: Option<Player>, b: Option<Player>): Option<Player> {
    if a.Some? then a else b
  }

  function Preferred(players: seq<Player>): Option<Player> {
    OrElse(First(players, (p: Player) => p.playing),
    OrElse(First(players, (p: Player) => p.spotify),
    OrElse(First(players, (p: Player) => p.canControl),
    if players == [] then None else Some(players[0]))))
  }

  function Automatic(sel: Selection, players: seq<Player>): Option<Player> {
    OrElse(Recent(sel, players, true),
    OrElse(First(players, (p: Player) => p.playing),
    OrElse(Recent(sel, players, false), Preferred(players))))
  }

  function Active(sel: Selection, players: seq<Player>): Option<string> {
    if sel.pinned.Some? then sel.pinned
    else
      match Automatic(sel, players)
      case None => None
      case Some(p) => Some(p.id)
  }

  /** Forgets players that are no longer listed, the pin included. */
  function Forget(sel: Selection, players: seq<Player>): Selection {
    Selection(
      if sel.pinned.Some? && !Listed(players, sel.pinned.value) then None else sel.pinned,
      map id | id in sel.previous && Listed(players, id) :: sel.previous[id],
      map id | id in sel.started && Listed(players, id) :: sel.started[id],
      sel.sequence, sel.initialized)
  }

  predicate WasPlaying(sel: Selection, id: string) {
    id in sel.previous && sel.previous[id]
  }

  function Observe(sel: Selection, p: Player): Selection {
    var next := sel.(previous := sel.previous[p.id := p.playing]);
    if sel.initialized && p.playing && !WasPlaying(sel, p.id) then
      var n := Min(sel.sequence + 1, U64_MAX);
      next.(sequence := n, started := sel.started[p.id := n])
    else next
  }

  function ObserveAll(sel: Selection, players: seq<Player>): Selection {
    if players == [] then sel
    else Observe(ObserveAll(sel, players[..|players| - 1]), players[|players| - 1])
  }

  function Snapshot(sel: Selection, players: seq<Player>): Selection {
    ObserveAll(Forget(sel, players), players).(initialized := players != [])
  }

  /** The player after the current one, wrapping; the first one when the current is not listed. */
  function NextPlayer(players: seq<Player>, current: Option<string>): Option<string> {
    if |players| < 2 then None
    else
      var at := Position(players, current);
      Some(players[if at < |players| then (at + 1) % |players| else 0].id)
  }

  /** The first position of an id, or the length. */
  function Position(players: seq<Player>, id: Option<string>): (k: nat)
    ensures k <= |players|
    ensures k < |players| ==> Some(players[k].id) == id
    ensures forall j :: 0 <= j < k ==> Some(players[j].id) != id
  {
    if players == [] || Some(players[0].id) == id then 0 else 1 + Position(players[1..], id)
  }

  /** `p` is listed and no player listed before it passes the test. */
  ghost predicate FirstOf(players: seq<Player>, p: Player, test: Player -> bool) {
    exists i :: 0 <= i < |players| && players[i] == p && test(p) && forall j :: 0 <= j < i ==> !test(players[j])
  }

  lemma {:induction false} FirstIsFirst(players: seq<Player>, test: Player -> bool)
    ensures First(players, test).Some? ==> FirstOf(players, First(players, test).value, test)
  {
    if players != [] && !test(players[0]) && First(players, test).Some? {
      FirstIsFirst(players[1..], test);
      var p := First(players, test).value;
      var i :| 0 <= i < |players[1..]| && players[1..][i] == p && test(p)
        && forall j :: 0 <= j < i ==> !test(players[1..][j]);
      assert forall j :: 0 <= j < i + 1 ==> !test(players[j]);
      assert players[i + 1] == p;
    } else if players != [] && test(players[0]) {
      assert players[0] == First(players, test).value;
    }
  }

  /**
   Unpinned and without a playing player that was seen to start, the active one is the first playing one; with
   none playing, the one that started last; else the first Spotify player, the first that can be controlled, or
   the first of all.
   */
  lemma {:induction false} FallbackOrder(sel: Selection, players: seq<Player>) returns (p: Player)
    requires sel.pinned.None? && players != []
    requires forall q :: q in players && q.playing ==> q.id !in sel.started
    ensures p in players && Active(sel, players) == Some(p.id)
    ensures var playing := exists q :: q in players && q.playing;
      var started := exists q :: q in players && q.id in sel.started;
      var spotify := exists q :: q in players && q.spotify;
      var control := exists q :: q in players && q.canControl;
      && (playing ==> FirstOf(players, p, (q: Player) => q.playing))
      && (!playing && started ==>
            p.id in sel.started
            && forall q :: q in players && q.id in sel.started ==> sel.started[q.id] <= sel.started[p.id])
      && (!playing && !started && spotify ==> FirstOf(players, p, (q: Player) => q.spotify))
      && (!playing && !started && !spotify && control ==> FirstOf(players, p, (q: Player) => q.canControl))
      && (!playing && !started && !spotify && !control ==> p == players[0])
  {
    FirstIsFirst(players, (q: Player) => q.playing);
    FirstIsFirst(players, (q: Player) => q.spotify);
    FirstIsFirst(players, (q: Player) => q.canControl);
    p := Automatic(sel, players).value;
  }

  // ---------------------------------------------------------------- the service

  /** The selection and what is published. */
  datatype World = World(sel: Selection, players: seq<Player>, active: Option<string>, pinned: Option<string>)

  const START := World(FRESH, [], None, None)

  datatype Event =
    | Refresh(players: seq<Player>)
    | Disconnect
    | Cycle
    | Select(id: Option<string>)

  function Publish(sel: Selection, players: seq<Player>): World {
    var next := Snapshot(sel, players);
    World(next, players, Active(next, players), next.pinned)
  }

  /** A refused request changes nothing; a lost connection publishes nothing listed. */
  function Next(w: World, e: Event): World {
    match e
    case Refresh(players) => Publish(w.sel, players)
    case Disconnect => World(w.sel, [], None, None)
    case Cycle =>
      var id := NextPlayer(w.players, w.active);
      if id.None? then w else Publish(w.sel.(pinned := id), w.players)
    case Select(id) =>
      if id.Some? && !Listed(w.players, id.value) then w else Publish(w.sel.(pinned := id), w.players)
  }

  function Run(w: World, events: seq<Event>): World {
    if events == [] then w else Next(Run(w, events[..|events| - 1]), events[|events| - 1])
  }

  // ---------------------------------------------------------------- what is published

  lemma {:induction false} ObserveKeepsPin(sel: Selection, players: seq<Player>)
    ensures ObserveAll(sel, players).pinned == sel.pinned
    ensures ObserveAll(sel, players).initialized == sel.initialized
  {
    if players != [] {
      ObserveKeepsPin(sel, players[..|players| - 1]);
    }
  }

  lemma {:induction false} PickedIsListed(players: seq<Player>, p: Player)
    requires p in players
    ensures Listed(players, p.id)
  {}

  /** Some player is active exactly when one is listed; active and pinned ones are listed. */
  predicate Sound(w: World) {
    && (w.active.Some? <==> w.players != [])
    && (w.active.Some? ==> Listed(w.players, w.active.value))
    && (w.pinned.Some? ==> Listed(w.players, w.pinned.value) && w.active == w.pinned)
  }

  lemma {:induction false} PublishSound(sel: Selection, players: seq<Player>)
    ensures Sound(Publish(sel, players))
    ensures Publish(sel, players).pinned
         == if sel.pinned.Some? && !Listed(players, sel.pinned.value) then None else sel.pinned
  {
    ObserveKeepsPin(Forget(sel, players), players);
    var next := Snapshot(sel, players);
    var picked := Automatic(next, players);
    assert players != [] ==> picked.Some?;
    if picked.Some? {
      PickedIsListed(players, picked.value);
    }
  }

  lemma {:induction false} RunSound(events: seq<Event>)
    ensures Sound(Run(START, events))
  {
    if events != [] {
      var front, e := events[..|events| - 1], events[|events| - 1];
      RunSound(front);
      var w := Run(START, front);
      match e {
        case Refresh(players) => PublishSound(w.sel, players);
        case Disconnect =>
        case Cycle =>
          PublishSound(w.sel.(pinned := NextPlayer(w.players, w.active)), w.players);
        case Select(id) =>
          PublishSound(w.sel.(pinned := id), w.players);
      }
    }
  }
}
