/**
 * The state of the game component: the roster, the index of the player whose
 * turn it is, whether a round is running, the "Top Players" board, and what was
 * last written to browser storage. Each handler of the component is a method
 * that updates this state in place.
 */
module GameState {
  import opened Players
  import opened Roster
  import opened Leaderboard

  datatype Option<T> = None | Some(value: T)

  class Game {
    var players: seq<Player>
    /** Index of the player whose turn it is. */
    var current: nat
    /** Whether a round is running (the boards are shown) or players are registering. */
    var started: bool
    var topPlayers: seq<Entry>
    /** The roster last written under the storage key "players"; None while the key is absent. */
    var storedPlayers: Option<seq<Player>>
    /** The board last written under the storage key "topPlayers". */
    var storedTop: Option<seq<Entry>>

    /**
     * The turn index names a player, or is 0 when the roster is empty; outside a
     * round it is 0, which is why starting a round needs no reset of the turn index.
     */
    ghost predicate Valid()
      reads this
    {
      (current == 0 || current < |players|) && (!started ==> current == 0)
    }

    /** Loads the roster and the board from storage; an absent key yields an empty list. */
    constructor (savedPlayers: Option<seq<Player>>, savedTop: Option<seq<Entry>>)
      ensures Valid()
      ensures players == (if savedPlayers.Some? then savedPlayers.value else [])
      ensures topPlayers == (if savedTop.Some? then savedTop.value else [])
      ensures current == 0 && !started
      ensures storedPlayers == savedPlayers && storedTop == savedTop
    {
      players := if savedPlayers.Some? then savedPlayers.value else [];
      topPlayers := if savedTop.Some? then savedTop.value else [];
      current := 0;
      started := false;
      storedPlayers := savedPlayers;
      storedTop := savedTop;
    }

    /** Adds a player with no score, no turns and no history, unless eight are registered. */
    method Register(name: string)
      requires Valid()
      modifies this
      ensures Valid()
      ensures players == Registered(old(players), name)
      ensures |old(players)| <= MaxPlayers ==> |players| <= MaxPlayers
      ensures storedPlayers == if |old(players)| < MaxPlayers then Some(players) else old(storedPlayers)
      ensures current == old(current) && started == old(started)
      ensures topPlayers == old(topPlayers) && storedTop == old(storedTop)
    {
      if |players| < MaxPlayers {
        players := players + [Player(name, 0, 0, [])];
        storedPlayers := Some(players);
      }
    }

    /** Opens a round: every player gets the drawn score at their position and no turns yet. */
    method StartGame(scores: seq<int>)
      requires Valid()
      requires |scores| == |players|
      requires forall k :: 0 <= k < |scores| ==> 0 <= scores[k] < ScoreBound
      modifies this
      ensures Valid() && started
      ensures players == StartRoster(old(players), scores)
      ensures current == old(current)
      ensures topPlayers == old(topPlayers)
      ensures storedPlayers == old(storedPlayers) && storedTop == old(storedTop)
    {
      started := true;
      players := StartRoster(players, scores);
    }

    /**
     * One button press by the player whose turn it is. The score changes by `op`
     * and the turn is counted. Below or above 100 the turn passes to the next
     * player. On exactly 100 the round is recorded, the board is recomputed and
     * both are stored; then the winner either plays on with the score `redraw`
     * and no turns, keeping the turn, or leaves the roster, and the turn passes
     * to whoever followed. A roster left empty ends the round.
     */
    method Play(op: Op, endTime: Timestamp, continuePlaying: bool, redraw: int)
      requires Valid() && started && players != []
      requires 0 <= redraw < ScoreBound
      modifies this
      ensures Valid()
      ensures var i := old(current);
        var acted := Act(old(players)[i], op);
        if acted.score != Target then
          players == old(players)[i := acted] && current == NextTurn(i, |players|) && started &&
          topPlayers == old(topPlayers) &&
          storedPlayers == old(storedPlayers) && storedTop == old(storedTop)
        else
          var atWin := old(players)[i := RecordWin(acted, endTime)];
          topPlayers == TopPlayers(atWin) &&
          storedTop == Some(topPlayers) && storedPlayers == Some(atWin) &&
          players == (if continuePlaying then atWin[i := Rejoin(atWin[i], redraw)] else RemoveAt(atWin, i)) &&
          if players != [] then current == i % |players| && started else !started
      ensures started ==> current < |players|
      ensures |players| == |old(players)| || (|players| == |old(players)| - 1 && !continuePlaying)
    {
      var i := current;
      var acted := Act(players[i], op);
      if acted.score == Target {
        var atWin := players[i := RecordWin(acted, endTime)];
        var top := TopPlayers(atWin);
        topPlayers, storedTop, storedPlayers := top, Some(top), Some(atWin);
        if continuePlaying {
          players := atWin[i := Rejoin(atWin[i], redraw)];
        } else {
          players := RemoveAt(atWin, i);
        }
        if |players| > 0 {
          current := i % |players|;
        } else {
          started := false;
        }
      } else {
        players := players[i := acted];
        current := NextTurn(i, |players|);
      }
    }

    /** Ends the round: scores, turn counts and the turn index go back to 0; histories stay. */
    method ResetGame()
      modifies this
      ensures Valid() && !started && current == 0
      ensures players == ResetRoster(old(players))
      ensures topPlayers == old(topPlayers)
      ensures storedPlayers == old(storedPlayers) && storedTop == old(storedTop)
    {
      started := false;
      current := 0;
      players := ResetRoster(players);
    }

    /**
     * The player whose turn it is leaves; nobody's history or the board changes.
     * The turn passes to whoever followed, and a roster left empty ends the round.
     */
    method Withdraw()
      requires Valid()
      modifies this
      ensures Valid()
      ensures players == if old(players) == [] then [] else RemoveAt(old(players), old(current))
      ensures if players != [] then current == old(current) % |players| && started == old(started)
              else !started && current == old(current)
      ensures topPlayers == old(topPlayers)
      ensures storedPlayers == old(storedPlayers) && storedTop == old(storedTop)
    {
      if |players| > 0 {
        players := RemoveAt(players, current);
      }
      if |players| > 0 {
        current := current % |players|;
      } else {
        started := false;
      }
    }
  }

  /** A lone player starting at 99 wins with '+1', declines to go on, and the round ends. */
  method SoleWinnerLeaves(name: string, endTime: Timestamp)
  {
    var g := new Game(None, None);
    g.Register(name);
    assert g.players == [Player(name, 0, 0, [])];
    g.StartGame([99]);
    var before := g.players;
    assert before == [Player(name, 99, 0, [])];
    assert Act(before[0], Inc) == Player(name, Target, 1, []);
    g.Play(Inc, endTime, false, 0);
    var atWin := before[0 := RecordWin(Act(before[0], Inc), endTime)];
    assert g.storedPlayers == Some(atWin);
    assert atWin[0].games == [GameRecord(1, endTime)];
    assert g.players == [] && !g.started;
    SoleWinnerLeads(atWin, 0);
    assert g.topPlayers == [Entry(name, 1.0)];
  }

  /** Doubling 60 overshoots to 120: no win, and the turn passes to the second player. */
  method OvershootIsNoWin(endTime: Timestamp)
  {
    var g := new Game(None, None);
    g.Register("Alice");
    g.Register("Bob");
    g.StartGame([60, 10]);
    g.Play(Double, endTime, true, 0);
    assert g.players[0].score == 120 && g.players[0].actions == 1 && g.players[0].games == [];
    assert g.current == 1 && g.started;
  }
}
