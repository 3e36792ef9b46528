/** The media service as an object: its requests move the published state as the runs say. */
module MediaService {
  import opened Outcomes
  import opened MediaSelection

  class MediaService {
    var pinned: Option<string>
    var previous: map<string, bool>
    var started: map<string, nat>
    var sequence: nat
    var initialized: bool
    var players: seq<Player>
    var activePlayer: Option<string>
    var pinnedPlayer: Option<string>

    ghost function Choice(): Selection
      reads this
    {
      Selection(pinned, previous, started, sequence, initialized)
    }

    ghost function Value(): World
      reads this
    {
      World(Choice(), players, activePlayer, pinnedPlayer)
    }

    constructor ()
      ensures Value() == START
    {
      pinned, previous, started, sequence, initialized := None, map[], map[], 0, false;
      players, activePlayer, pinnedPlayer := [], None, None;
    }

    method Note(p: Player)
      modifies this`sequence, this`started, this`previous
      ensures Choice() == Observe(old(Choice()), p)
    {
      if initialized && p.playing && !(p.id in previous && previous[p.id]) {
        sequence := Min(sequence + 1, U64_MAX);
        started := started[p.id := sequence];
      }
      previous := previous[p.id := p.playing];
    }

    method ForgetUnlisted(list: seq<Player>)
      modifies this`previous, this`started, this`pinned
      ensures Choice() == Forget(old(Choice()), list)
    {
      previous := map id | id in previous && Listed(list, id) :: previous[id];
      started := map id | id in started && Listed(list, id) :: started[id];
      if pinned.Some? && !Listed(list, pinned.value) {
        pinned := None;
      }
    }

    /** Forgets unlisted players, then notes each listed one in turn. */
    method TakeSnapshot(list: seq<Player>)
      modifies this
      ensures Value() == Publish(old(Choice()), list)
      ensures Sound(Value())
    {
      ghost var before := Choice();
      ForgetUnlisted(list);
      ghost var base := Choice();
      var n := 0;
      while n < |list|
        invariant n <= |list| && Choice() == ObserveAll(base, list[..n])
      {
        assert list[..n + 1][..n] == list[..n];
        Note(list[n]);
        n := n + 1;
      }
      assert list[..n] == list;
      initialized := list != [];
      players := list;
      activePlayer := Active(Selection(pinned, previous, started, sequence, initialized), list);
      pinnedPlayer := pinned;
      PublishSound(before, list);
    }

    method CyclePlayer() returns (ok: bool)
      modifies this
      ensures Value() == Next(old(Value()), Cycle)
      ensures ok <==> |old(players)| >= 2
      ensures ok ==> Sound(Value()) && pinnedPlayer == NextPlayer(old(players), old(activePlayer))
    {
      var id := NextPlayer(players, activePlayer);
      if id.None? {
        return false;
      }
      assert Listed(players, id.value);
      PublishSound(Choice().(pinned := id), players);
      pinned := id;
      TakeSnapshot(players);
      ok := true;
    }

    method SelectPlayer(id: Option<string>) returns (ok: bool)
      modifies this
      ensures Value() == Next(old(Value()), Select(id))
      ensures ok <==> id.None? || Listed(old(players), id.value)
      ensures ok ==> Sound(Value()) && pinnedPlayer == id
    {
      if id.Some? && !Listed(players, id.value) {
        return false;
      }
      PublishSound(Choice().(pinned := id), players);
      pinned := id;
      TakeSnapshot(players);
      ok := true;
    }
  }
}
