/**
 * The "Top Players" board, recomputed from the whole roster whenever a round
 * is won: players with at least one completed round, ranked by the average
 * number of turns per round (fewer is better), the first three kept.
 */
module Leaderboard {
  import opened Players

  /** A line of the board. */
  datatype Entry = Entry(name: string, averageActions: real)

  /** How many lines the board keeps. */
  const Shown: nat := 3

  /** Turns summed over a game history. */
  function TotalActions(games: seq<GameRecord>): nat
  {
    if games == [] then 0 else games[0].actions + TotalActions(games[1..])
  }

  /** A new record adds its turns to the sum. */
  lemma {:induction false} TotalActionsAppend(games: seq<GameRecord>, g: GameRecord)
    ensures TotalActions(games + [g]) == TotalActions(games) + g.actions
  {
    if games != [] {
      assert (games + [g])[1..] == games[1..] + [g];
      TotalActionsAppend(games[1..], g);
    }
  }

  /** When every record lies in [lo, hi], the sum lies between lo and hi times the number of records. */
  lemma {:induction false} TotalActionsBetween(games: seq<GameRecord>, lo: int, hi: int)
    requires forall k :: 0 <= k < |games| ==> lo <= games[k].actions <= hi
    ensures lo * |games| <= TotalActions(games) <= hi * |games|
  {
    if games != [] {
      var tail := games[1..];
      assert forall k :: 0 <= k < |tail| ==> tail[k] == games[k + 1];
      TotalActionsBetween(tail, lo, hi);
      assert lo * |games| == lo * |tail| + lo;
      assert hi * |games| == hi * |tail| + hi;
    }
  }

  predicate HasCompleted(p: Player)
  {
    |p.games| > 0
  }

  /** Mean turns per won round. */
  function Average(games: seq<GameRecord>): real
    requires |games| > 0
  {
    TotalActions(games) as real / |games| as real
  }

  /**
   * The average never falls below the fewest turns of any round and never
   * exceeds the most; in particular a single round is its own average.
   */
  lemma AverageWithinRecords(games: seq<GameRecord>, lo: nat, hi: nat)
    requires |games| > 0
    requires forall k :: 0 <= k < |games| ==> lo <= games[k].actions <= hi
    ensures lo as real <= Average(games) <= hi as real
  {
    TotalActionsBetween(games, lo, hi);
    QuotientBetween(TotalActions(games), |games|, lo, hi);
  }

  /** A total between lo and hi times a positive count averages to between lo and hi. */
  lemma QuotientBetween(total: nat, count: nat, lo: nat, hi: nat)
    requires count > 0 && lo * count <= total <= hi * count
    ensures lo as real <= total as real / count as real <= hi as real
  {
    var n, q := count as real, total as real / count as real;
    assert q * n == total as real;
    assert (lo * count) as real == lo as real * n;
    assert (hi * count) as real == hi as real * n;
    PositiveProduct(lo as real - q, n);
    PositiveProduct(q - hi as real, n);
  }

  lemma PositiveProduct(d: real, n: real)
    requires n > 0.0
    ensures d > 0.0 ==> d * n > 0.0
  {
  }

  /** The board line of a player with a completed round: their name and their average. */
  function EntryOf(p: Player): Entry
    requires HasCompleted(p)
  {
    Entry(p.name, Average(p.games))
  }

  /**
   * Right after a win, the winner's line carries the winner's name, and its
   * average weighs the new round's turns together with every earlier round.
   */
  lemma WinnerEntry(p: Player, endTime: Timestamp)
    ensures var e := EntryOf(RecordWin(p, endTime));
      e.name == p.name &&
      e.averageActions * (|p.games| + 1) as real == (TotalActions(p.games) + p.actions) as real
  {
    var g := RecordWin(p, endTime).games;
    assert g == p.games + [GameRecord(p.actions, endTime)];
    TotalActionsAppend(p.games, GameRecord(p.actions, endTime));
    var n := |g| as real;
    assert (TotalActions(g) as real / n) * n == TotalActions(g) as real;
  }

  /** How many players of the roster have completed a round. */
  function CountCompleted(ps: seq<Player>): (n: nat)
    ensures n <= |ps|
  {
    if ps == [] then 0
    else (if HasCompleted(ps[0]) then 1 else 0) + CountCompleted(ps[1..])
  }

  /** The players who have won at least once, in roster order, as board lines. */
  function Entries(ps: seq<Player>): (es: seq<Entry>)
    ensures |es| == CountCompleted(ps)
  {
    if ps == [] then []
    else (if HasCompleted(ps[0]) then [EntryOf(ps[0])] else []) + Entries(ps[1..])
  }

  /**
   * Each line comes from a roster player with a completed round, under that
   * player's average, and every such player has a line.
   */
  lemma {:induction false} EntriesMembership(ps: seq<Player>)
    ensures forall e :: e in Entries(ps) ==> exists p :: p in ps && HasCompleted(p) && e == EntryOf(p)
    ensures forall p :: p in ps && HasCompleted(p) ==> EntryOf(p) in Entries(ps)
  {
    if ps != [] {
      EntriesMembership(ps[1..]);
      assert ps == [ps[0]] + ps[1..];
    }
  }

  /** A roster where nobody has completed a round has an empty board. */
  lemma {:induction false} NoEntries(ps: seq<Player>)
    requires forall k :: 0 <= k < |ps| ==> !HasCompleted(ps[k])
    ensures Entries(ps) == []
  {
    if ps != [] {
      NoEntries(ps[1..]);
    }
  }

  /**
   * The lines keep roster order: the lines of a roster split in two are the
   * lines of the first part followed by those of the second.
   */
  lemma {:induction false} EntriesAppend(ps: seq<Player>, qs: seq<Player>)
    ensures Entries(ps + qs) == Entries(ps) + Entries(qs)
  {
    if ps == [] {
      assert ps + qs == qs;
    } else {
      var head := if HasCompleted(ps[0]) then [EntryOf(ps[0])] else [];
      var rest := ps[1..] + qs;
      assert ps + qs == [ps[0]] + rest;
      assert (ps + qs)[1..] == rest;
      EntriesAppend(ps[1..], qs);
      var front, back := Entries(ps[1..]), Entries(qs);
      assert Entries(ps + qs) == head + (front + back);
      assert Entries(ps) == head + front;
      assert head + (front + back) == (head + front) + back;
    }
  }

  /** Non-decreasing by average turns. */
  predicate SortedByAverage(es: seq<Entry>)
  {
    forall j, k :: 0 <= j < k < |es| ==> es[j].averageActions <= es[k].averageActions
  }

  /** Puts `x` in front of the first line whose average is not below its own. */
  function Insert(x: Entry, es: seq<Entry>): (r: seq<Entry>)
    requires SortedByAverage(es)
    ensures SortedByAverage(r)
    ensures multiset(r) == multiset(es) + multiset{x}
    ensures |r| == |es| + 1 && (r[0] == x || (es != [] && r[0] == es[0]))
  {
    if es == [] || x.averageActions <= es[0].averageActions then [x] + es
    else
      var rest := Insert(x, es[1..]);
      assert es == [es[0]] + es[1..];
      assert es[0].averageActions <= rest[0].averageActions;
      [es[0]] + rest
  }

  /** Insertion sort, stable: lines of equal average keep their roster order. */
  function SortByAverage(es: seq<Entry>): (r: seq<Entry>)
    ensures SortedByAverage(r)
    ensures multiset(r) == multiset(es)
  {
    if es == [] then []
    else
      assert es == [es[0]] + es[1..];
      Insert(es[0], SortByAverage(es[1..]))
  }

  /**
   * The board after a win: at most three lines, ranked, each the line of a
   * roster player who has completed a round.
   */
  function TopPlayers(ps: seq<Player>): (top: seq<Entry>)
    ensures |top| <= Shown
    ensures SortedByAverage(top)
    ensures multiset(top) <= multiset(Entries(ps))
  {
    var ranked := SortByAverage(Entries(ps));
    if |ranked| <= Shown then ranked
    else
      assert ranked == ranked[..Shown] + ranked[Shown..];
      ranked[..Shown]
  }

  /** Only players with a completed round appear on the board, under their own average. */
  lemma TopPlayersQualify(ps: seq<Player>, e: Entry)
    requires e in TopPlayers(ps)
    ensures exists p :: p in ps && HasCompleted(p) && e == EntryOf(p)
  {
    var all := Entries(ps);
    assert e in multiset(TopPlayers(ps));
    assert e in multiset(all);
    assert e in all;
    EntriesMembership(ps);
  }

  /**
   * The board holds the best lines: as many as there are (up to three), and
   * no line left off ranks above one kept.
   */
  lemma TopPlayersAreBest(ps: seq<Player>)
    ensures var top := TopPlayers(ps);
      var all := Entries(ps);
      |top| == (if CountCompleted(ps) < Shown then CountCompleted(ps) else Shown) &&
      forall e, k :: e in multiset(all) - multiset(top) && 0 <= k < |top| ==>
        top[k].averageActions <= e.averageActions
  {
    var all := Entries(ps);
    var ranked := SortByAverage(all);
    var m := if |ranked| <= Shown then |ranked| else Shown;
    assert TopPlayers(ps) == ranked[..m];
    PrefixRanksFirst(ranked, m);
  }

  /** In a ranked list, every line of a prefix ranks at or above every line after it. */
  lemma PrefixRanksFirst(ranked: seq<Entry>, m: nat)
    requires SortedByAverage(ranked) && m <= |ranked|
    ensures multiset(ranked) - multiset(ranked[..m]) == multiset(ranked[m..])
    ensures forall e, k :: e in multiset(ranked[m..]) && 0 <= k < m ==>
      ranked[k].averageActions <= e.averageActions
  {
    assert ranked == ranked[..m] + ranked[m..];
    forall e: Entry, k | e in multiset(ranked[m..]) && 0 <= k < m
      ensures ranked[k].averageActions <= e.averageActions
    {
      assert e in ranked[m..];
      var j :| 0 <= j < |ranked[m..]| && ranked[m..][j] == e;
      assert ranked[m + j] == e;
    }
  }

  /**
   * When the winner is the only player with a completed round and it was their
   * first, the board is that player alone, with this round's turn count as average.
   */
  lemma SoleWinnerLeads(ps: seq<Player>, i: nat)
    requires i < |ps|
    requires forall k :: 0 <= k < |ps| && k != i ==> !HasCompleted(ps[k])
    requires |ps[i].games| == 1
    ensures TopPlayers(ps) == [Entry(ps[i].name, ps[i].games[0].actions as real)]
  {
    SoleEntry(ps, i);
    var e := EntryOf(ps[i]);
    assert SortByAverage([e]) == [e];
    SingleGameAverage(ps[i].games);
  }

  lemma {:induction false} SoleEntry(ps: seq<Player>, i: nat)
    requires i < |ps|
    requires forall k :: 0 <= k < |ps| && k != i ==> !HasCompleted(ps[k])
    requires HasCompleted(ps[i])
    ensures Entries(ps) == [EntryOf(ps[i])]
  {
    var tail := ps[1..];
    assert forall k :: 0 <= k < |tail| ==> tail[k] == ps[k + 1];
    if i == 0 {
      NoEntries(tail);
    } else {
      SoleEntry(tail, i - 1);
    }
  }

  lemma SingleGameAverage(g: seq<GameRecord>)
    requires |g| == 1
    ensures Average(g) == g[0].actions as real
  {
    assert g[1..] == [];
    assert TotalActions(g) == g[0].actions;
  }
}
