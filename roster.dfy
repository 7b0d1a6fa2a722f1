/**
 * The ordered roster of players and the turn index into it: registration,
 * the whole-roster updates of starting and resetting a round, removal of one
 * player, and how the turn index moves.
 */
module Roster {
  import opened Players

  /** At most this many players may register. */
  const MaxPlayers: nat := 8

  /**
   * The roster after asking to register `name`. A full roster refuses the
   * newcomer, so a roster of at most eight never grows past eight. Below
   * capacity the earlier players are untouched and the newcomer comes last with
   * score 0, no turns and no history.
   */
  function Registered(ps: seq<Player>, name: string): (r: seq<Player>)
    ensures |ps| <= MaxPlayers ==> |r| <= MaxPlayers
    ensures |ps| >= MaxPlayers ==> r == ps
    ensures |ps| < MaxPlayers ==>
      |r| == |ps| + 1 && r[..|ps|] == ps &&
      r[|ps|].name == name && r[|ps|].score == 0 && r[|ps|].actions == 0 && r[|ps|].games == []
  {
    if |ps| < MaxPlayers then ps + [Player(name, 0, 0, [])] else ps
  }

  /**
   * Every player gets the drawn score of the same position and a zero turn
   * count; names and game histories are kept.
   */
  function StartRoster(ps: seq<Player>, scores: seq<int>): (r: seq<Player>)
    requires |scores| == |ps|
    requires forall k :: 0 <= k < |scores| ==> 0 <= scores[k] < ScoreBound
    ensures |r| == |ps|
    ensures forall k :: 0 <= k < |r| ==>
      r[k].name == ps[k].name && r[k].games == ps[k].games &&
      r[k].score == scores[k] && 0 <= r[k].score < ScoreBound && r[k].actions == 0
  {
    seq(|ps|, k requires 0 <= k < |ps| => Rejoin(ps[k], scores[k]))
  }

  /** Every score and turn count is zeroed; names and game histories are kept. */
  function ResetRoster(ps: seq<Player>): (r: seq<Player>)
    ensures |r| == |ps|
    ensures forall k :: 0 <= k < |r| ==>
      r[k].name == ps[k].name && r[k].games == ps[k].games && r[k].score == 0 && r[k].actions == 0
  {
    seq(|ps|, k requires 0 <= k < |ps| => Rejoin(ps[k], 0))
  }

  /** Resetting forgets everything a start did, and resetting twice is resetting once. */
  lemma ResetForgetsStart(ps: seq<Player>, scores: seq<int>)
    requires |scores| == |ps|
    requires forall k :: 0 <= k < |scores| ==> 0 <= scores[k] < ScoreBound
    ensures ResetRoster(StartRoster(ps, scores)) == ResetRoster(ps)
    ensures ResetRoster(ResetRoster(ps)) == ResetRoster(ps)
    ensures StartRoster(ResetRoster(ps), scores) == StartRoster(ps, scores)
  {
  }

  /** The sequence without its element at `i`. */
  function RemoveAt<T>(s: seq<T>, i: nat): (r: seq<T>)
    requires i < |s|
    ensures |r| == |s| - 1
    ensures forall k :: 0 <= k < i ==> r[k] == s[k]
    ensures forall k :: i <= k < |r| ==> r[k] == s[k + 1]
    ensures multiset(r) + multiset{s[i]} == multiset(s)
  {
    assert s == s[..i] + [s[i]] + s[i + 1..];
    s[..i] + s[i + 1..]
  }

  /** Removing what was just inserted at `i` gives back the original sequence. */
  lemma RemoveUndoesInsert<T>(s: seq<T>, i: nat, x: T)
    requires i <= |s|
    ensures RemoveAt(s[..i] + [x] + s[i..], i) == s
  {
  }

  /** Withdrawing the newest player undoes a successful registration. */
  lemma WithdrawUndoesRegister(ps: seq<Player>, name: string)
    requires |ps| < MaxPlayers
    ensures RemoveAt(Registered(ps, name), |ps|) == ps
  {
  }

  /** The turn index after an ordinary turn: the next player, wrapping to the first. */
  function NextTurn(i: nat, n: nat): (j: nat)
    requires i < n
    ensures j < n
    ensures j == i + 1 || (i == n - 1 && j == 0)
  {
    (i + 1) % n
  }

  /** The turn index after `k` ordinary turns starting with player `i` of `n`. */
  function Advance(i: nat, n: nat, k: nat): (j: nat)
    requires i < n
    ensures j < n
  {
    if k == 0 then i else NextTurn(Advance(i, n, k - 1), n)
  }

  /** Division by a positive `n` is determined by any quotient and remainder that fit. */
  lemma DivModUnique(a: int, n: int, q: int, r: int)
    requires n > 0 && 0 <= r < n && a == q * n + r
    ensures a % n == r && a / n == q
  {
    var q0, r0 := a / n, a % n;
    assert (q - q0) * n == r0 - r;
    ProductBound(q - q0, n);
  }

  lemma ProductBound(d: int, n: int)
    requires n > 0
    ensures d >= 1 ==> d * n >= n
    ensures d <= -1 ==> d * n <= -n
  {
  }

  lemma SuccessorMod(a: nat, n: nat)
    requires n > 0
    ensures (a % n + 1) % n == (a + 1) % n
  {
    var q, r := a / n, a % n;
    if r + 1 < n {
      DivModUnique(a + 1, n, q, r + 1);
      DivModUnique(r + 1, n, 0, r + 1);
    } else {
      DivModUnique(a + 1, n, q + 1, 0);
      DivModUnique(r + 1, n, 1, 0);
    }
  }

  /** Ordinary turns go round the table: after `k` of them it is player `(i + k) % n`'s turn. */
  lemma {:induction false} RoundRobin(i: nat, n: nat, k: nat)
    requires i < n
    ensures Advance(i, n, k) == (i + k) % n
  {
    if k > 0 {
      RoundRobin(i, n, k - 1);
      SuccessorMod(i + k - 1, n);
    }
  }

  /** Without a win, every player's turn comes up within `n` turns. */
  lemma EveryoneGetsATurn(i: nat, n: nat, j: nat)
    requires i < n && j < n
    ensures exists k: nat :: k < n && Advance(i, n, k) == j
  {
    var k: nat := if i <= j then j - i else j + n - i;
    RoundRobin(i, n, k);
    if i <= j {
      DivModUnique(i + k, n, 0, j);
    } else {
      DivModUnique(i + k, n, 1, j);
    }
  }

  /**
   * When the player at `i` leaves a roster of at least two, the turn index `i % (n - 1)`
   * names the player who would have moved next, so the turn passes on in order.
   */
  lemma TurnPassesToSuccessor<T>(s: seq<T>, i: nat)
    requires i < |s| && |s| >= 2
    ensures RemoveAt(s, i)[i % (|s| - 1)] == s[NextTurn(i, |s|)]
  {
    if i == |s| - 1 {
      assert i % (|s| - 1) == 0;
    } else {
      assert i % (|s| - 1) == i;
    }
  }
}
