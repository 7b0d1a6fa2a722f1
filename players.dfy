/** Player records of the "Reach 100" game and the arithmetic of one turn. */
module Players {

  /** The moment a round was won; the application records an ISO-8601 string. */
  type Timestamp = string

  /** One completed round: how many turns the winner took, and when it ended. */
  datatype GameRecord = GameRecord(actions: nat, endTime: Timestamp)

  /**
   * A registered player: the running score of the current round, the number
   * of turns taken in it, and the history of rounds this player has won.
   */
  datatype Player = Player(name: string, score: int, actions: nat, games: seq<GameRecord>)

  /** The four buttons of a board: '+1', '-1', '*2' and '/2'. */
  datatype Op = Inc | Dec | Double | Halve

  /** The score that wins a round; only an exact hit counts. */
  const Target: int := 100

  /** Initial and redrawn scores are taken from [0, ScoreBound). */
  const ScoreBound: int := 100

  /** The new score after pressing `op` with score `s`. */
  function Apply(op: Op, s: int): (r: int)
    ensures op == Inc ==> r == s + 1
    ensures op == Dec ==> (r == s - 1 || r == s) && (r == s <==> s <= 1)
    ensures op == Double ==> r == 2 * s
    // '/2' rounds down, also for negative scores
    ensures op == Halve ==> 2 * r <= s < 2 * r + 2
  {
    match op
    case Inc => s + 1
    case Dec => if s > 1 then s - 1 else s
    case Double => s * 2
    case Halve => s / 2
  }

  /** A score that starts non-negative stays so, and '-1' never takes a score below 1. */
  lemma ScoreNeverNegative(op: Op, s: int)
    requires s >= 0
    ensures Apply(op, s) >= 0
    ensures op == Dec && s >= 1 ==> Apply(op, s) >= 1
  {
  }

  /** The only ways to land exactly on the target in one turn. */
  lemma WinningMoves(op: Op, s: int)
    ensures Apply(op, s) == Target <==>
      (op == Inc && s == 99) || (op == Dec && s == 101) ||
      (op == Double && s == 50) || (op == Halve && (s == 200 || s == 201))
  {
  }

  /** '-1' undoes '+1' exactly when the score was at least 1. */
  lemma DecUndoesInc(s: int)
    ensures Apply(Dec, Apply(Inc, s)) == s <==> s >= 1
  {
  }

  /** '/2' always undoes '*2'; '*2' undoes '/2' exactly on even scores. */
  lemma HalveUndoesDouble(s: int)
    ensures Apply(Halve, Apply(Double, s)) == s
    ensures Apply(Double, Apply(Halve, s)) == s <==> s % 2 == 0
  {
  }

  /**
   * The acting player after one button press: the score follows `op`, the turn
   * is counted even when the score does not move, and nothing else changes.
   */
  function Act(p: Player, op: Op): (q: Player)
    ensures q.score == Apply(op, p.score) && q.actions == p.actions + 1
    ensures q.name == p.name && q.games == p.games
  {
    p.(score := Apply(op, p.score), actions := p.actions + 1)
  }

  /**
   * The winner's bookkeeping: the history grows by exactly one record, holding
   * this round's turn count and the end time; the earlier history and everything
   * else are kept.
   */
  function RecordWin(p: Player, endTime: Timestamp): (w: Player)
    ensures |w.games| == |p.games| + 1 && w.games[..|p.games|] == p.games
    ensures w.games[|p.games|] == GameRecord(p.actions, endTime)
    ensures w.name == p.name && w.score == p.score && w.actions == p.actions
  {
    p.(games := p.games + [GameRecord(p.actions, endTime)])
  }

  /**
   * A winner who keeps playing starts over with the given score and no turns;
   * name and history are kept. Starting a round does the same for every player.
   */
  function Rejoin(p: Player, score: int): (q: Player)
    ensures q.score == score && q.actions == 0
    ensures q.name == p.name && q.games == p.games
  {
    p.(score := score, actions := 0)
  }

  /**
   * A turn counts exactly once, whatever the operation did, and a winning turn
   * appends one record whose count includes that winning turn.
   */
  lemma WinRecordCountsWinningTurn(p: Player, op: Op, endTime: Timestamp)
    ensures Act(p, op).actions == p.actions + 1
    ensures var w := RecordWin(Act(p, op), endTime);
      w.name == p.name && |w.games| == |p.games| + 1 && w.games[..|p.games|] == p.games &&
      w.games[|p.games|] == GameRecord(p.actions + 1, endTime) && w.games[|p.games|].actions >= 1
  {
  }
}
