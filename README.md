# Reach 100 — a verified model of the game state

"Reach 100" is a browser game for up to eight players. Players register, a
round starts with every player on a random score in [0, 100), and in turn
each player presses one of four buttons ('+1', '-1', '*2', '/2') to change
their own score. Landing on exactly 100 wins the round. The winner's turn
count is recorded in their history, the "Top Players" board is recomputed,
and the winner either plays on with a fresh score or leaves. A player may
also withdraw on their turn, and the round can be reset.

All of this lives in the `App` component (`src/App.jsx`). The model keeps its
shape:

- `players.dfy` (module `Players`): player records, game records, the four
  operations and what one turn does to a player.
- `roster.dfy` (module `Roster`): the roster-wide updates that the component
  builds with spread and `map` (registration, starting and resetting a
  round), removal with `splice`, and how the turn index moves.
- `leaderboard.dfy` (module `Leaderboard`): the board as the
  filter / map / reduce / sort / slice pipeline it is in the code, written
  as functions.
- `game.dfy` (module `GameState`): class `Game`. Its fields are the
  component's state (`players`, `currentPlayerIndex` as `current`,
  `isGameStarted` as `started`, `topPlayers`). Two more fields stand for the
  two browser-storage keys. Each handler is a method that updates the
  fields in place. Two client methods, `SoleWinnerLeaves` and
  `OvershootIsNoWin`, replay short games against the method contracts.

The object invariant `Game.Valid()` says two things. The turn index names a
player, or is 0 on an empty roster. Outside a round the turn index is 0. The
second part explains why `startGame` never resets the turn index: every path
that ends a round leaves it at 0.

Nondeterminism and the browser become parameters:

- the random initial scores become `StartGame(scores)`, each in [0, 100);
- the winner's redrawn score becomes `Play(.., redraw)`;
- the continue/stop answer of the confirmation dialog becomes
  `Play(.., continuePlaying, ..)`;
- the end-of-round timestamp becomes `Play(endTime, ..)`, an opaque string;
- the stored data at start-up becomes the constructor's arguments. `None`
  means the key is absent, which gives an empty list.

Some guards are absent from the handlers themselves; the model follows the
handlers:

- Starting a round has no guard against an empty roster in the code. Only the
  start button is disabled. `StartGame` on an empty roster opens a round
  with nobody in it.
- Names are checked only for being non-empty, and only by the registration
  form (`src/Register.jsx:15`). The handler accepts any name and does not
  reject names made only of whitespace. `Register` takes any name.
- The turn handler has no guard for "no round running" or "empty roster". It
  is only reachable from a board, and boards exist only in a running round.
  `Play` therefore requires `started` and a non-empty roster, and does not
  model a silent no-op.
- Withdrawal and the non-winning turn write nothing to storage. Registration
  writes the roster. A win writes the board and the roster as they stand
  before the winner is reset or removed, so a winner who leaves is still in
  the stored roster. `storedPlayers` and `storedTop` record exactly this.

## Model

| member | source | states |
|---|---|---|
| `Players.Apply` | src/App.jsx:48-62 | '+1' adds one. '*2' doubles. '/2' rounds down, also below zero. '-1' subtracts one exactly when the score is above 1 and otherwise leaves it unchanged. |
| `Players.ScoreNeverNegative` | src/App.jsx:52-56 | From a non-negative score no operation goes below 0. '-1' never takes a score of 1 or more below 1. |
| `Players.WinningMoves` | src/App.jsx:73 | One turn lands exactly on 100 iff it is '+1' from 99, '-1' from 101, '*2' from 50, or '/2' from 200 or 201. An overshoot such as 60 doubled is not a win. |
| `Players.DecUndoesInc` | src/App.jsx:49-56 | '-1' after '+1' restores the score iff the score was at least 1. |
| `Players.HalveUndoesDouble` | src/App.jsx:57-62 | '/2' after '*2' always restores the score. '*2' after '/2' restores it iff the score is even. |
| `Players.Act` | src/App.jsx:48-67 | The acting player's score becomes the result of the operation. The turn count goes up by one even when the score does not move. Name and history are kept. |
| `Players.RecordWin` | src/App.jsx:79 | The winner's history grows by exactly one record, holding the current turn count and the end time. The earlier records, name, score and turn count are kept. |
| `Players.Rejoin` | src/App.jsx:105-106 | A winner who plays on gets the given score and a turn count of 0, and keeps name and history. |
| `Players.WinRecordCountsWinningTurn` | src/App.jsx:67-79 | Every turn adds exactly one to the turn count. A win appends exactly one record, keeps the earlier history, and records the count including the winning turn, which is at least 1. |
| `Roster.Registered` | src/App.jsx:126-134 | A roster of at most 8 stays at most 8, and from 8 players on registration changes nothing. Below 8 the earlier players are untouched and the newcomer is last with score 0, no turns and no history. |
| `Roster.StartRoster` | src/App.jsx:139-145 | Same length. Every player gets the drawn score of their position, in [0, 100), and zero turns. Names and histories are kept. |
| `Roster.ResetRoster` | src/App.jsx:155-161 | Same length. Every score and turn count is 0. Names and histories are kept. |
| `Roster.ResetForgetsStart` | src/App.jsx:137-162 | Resetting after a start equals resetting the original roster. Reset is idempotent. Starting after a reset equals starting directly. |
| `Roster.RemoveAt` | src/App.jsx:171 | One element shorter. Elements before the index are kept, elements after it shift down by one in order, and the multiset loses exactly the removed element. |
| `Roster.RemoveUndoesInsert` | src/App.jsx:171 | Removing at an index what was just inserted there gives back the original sequence. |
| `Roster.WithdrawUndoesRegister` | src/App.jsx:126-134 | When there is room, removing the newest player undoes a registration. |
| `Roster.NextTurn` | src/App.jsx:121 | The turn index after an ordinary turn stays in range and is either the next index or, from the last player, 0. |
| `Roster.Advance` | src/App.jsx:119-122 | After any number of ordinary turns the turn index is in range. |
| `Roster.RoundRobin` | src/App.jsx:121 | After k ordinary turns from player i of n, it is player (i + k) mod n's turn. |
| `Roster.EveryoneGetsATurn` | src/App.jsx:121 | Without a win, every player's turn comes within n turns. |
| `Roster.TurnPassesToSuccessor` | src/App.jsx:175-178 | When the current player of at least two leaves (by withdrawal, or by declining after a win), the new turn index i mod (n - 1) names the player who would have moved next. |
| `Leaderboard.TotalActionsAppend` | src/App.jsx:79-87 | Appending a record adds exactly its turn count to the summed turns. |
| `Leaderboard.TotalActionsBetween` | src/App.jsx:87 | When every record's turn count lies in [lo, hi], the sum lies between lo and hi times the number of records. |
| `Leaderboard.AverageWithinRecords` | src/App.jsx:87 | The average turns per round is never below the fewest turns of any round and never above the most. |
| `Leaderboard.SingleGameAverage` | src/App.jsx:87 | A history of one round averages to that round's turn count. |
| `Leaderboard.WinnerEntry` | src/App.jsx:79-87 | Right after a win, the winner's line carries the winner's name, and its average times the number of rounds equals the earlier summed turns plus this round's turns. |
| `Leaderboard.CountCompleted` | src/App.jsx:83 | The number of players with a completed round is at most the roster size. |
| `Leaderboard.Entries` | src/App.jsx:82-88 | There is exactly one line per roster player with a completed round. |
| `Leaderboard.EntriesMembership` | src/App.jsx:83-87 | Each line comes from a roster player with at least one completed round, under that player's name and average. Every such player has a line. |
| `Leaderboard.EntriesAppend` | src/App.jsx:82-88 | The lines keep roster order: the lines of two rosters joined are the lines of the first followed by those of the second. |
| `Leaderboard.NoEntries` | src/App.jsx:83 | A roster where nobody has completed a round yields no lines. |
| `Leaderboard.Insert` | src/App.jsx:89 | Inserting into a ranked list keeps it ranked and adds exactly that line. The new first line is the inserted one or the old first line. |
| `Leaderboard.SortByAverage` | src/App.jsx:89 | The result is non-decreasing by average turns per round and is a permutation of the input. |
| `Leaderboard.TopPlayers` | src/App.jsx:82-90 | At most 3 lines, non-decreasing by average, drawn (as a sub-multiset) from the roster's lines. |
| `Leaderboard.TopPlayersQualify` | src/App.jsx:83-87 | Every board line belongs to a roster player with at least one completed round and carries that player's average. |
| `Leaderboard.TopPlayersAreBest` | src/App.jsx:89-90 | The board has min(3, number of roster players with a completed round) lines. No line left off ranks better than any line kept. |
| `Leaderboard.PrefixRanksFirst` | src/App.jsx:90 | Taking a prefix of a ranked list leaves behind only lines that rank no better than any line kept. |
| `Leaderboard.SoleWinnerLeads` | src/App.jsx:79-90 | If the winner is the only player with a completed round and this was their first win, the board is that player alone, with this round's turn count as average. |
| `GameState.Game.constructor` | src/App.jsx:8-22 | The roster and board are loaded from storage, or are empty when the key is absent. The turn index is 0 and no round is running. |
| `GameState.Game.Register` | src/App.jsx:126-134 | The roster becomes `Registered(old roster, name)`, and is written to storage only when a player was added. It never grows past 8 from at most 8. Turn index, round flag and board are unchanged. |
| `GameState.Game.StartGame` | src/App.jsx:137-146 | A round is running. The roster becomes `StartRoster(old roster, scores)`. The turn index, the board and storage are unchanged. |
| `GameState.Game.Play` | src/App.jsx:43-123 | Only the current player changes: new score, one more turn. Below or above 100 the turn index moves to (i + 1) mod n and nothing is stored. On exactly 100 the winner gets one record, the board is recomputed from the roster at that moment, and both are stored. A continuing winner gets the redrawn score and zero turns and keeps the turn. A declining winner is removed and the turn index becomes i mod (n - 1). An emptied roster ends the round. |
| `GameState.Game.ResetGame` | src/App.jsx:149-162 | No round is running, the turn index is 0, and the roster becomes `ResetRoster(old roster)`. The board and storage are unchanged. |
| `GameState.Game.Withdraw` | src/App.jsx:165-182 | Exactly the current player is removed and the others keep their order. The turn index becomes i mod (n - 1) in range, or an emptied roster ends the round. Histories, the board and storage are unchanged. |

## Left out

- Browser storage is modelled only as the last value written under each key.
  Serialisation to JSON, the round trip through it, and a stored value that
  fails to parse (which throws in the code) are not modelled.
- The win notification (`alert`) has no effect on the state and is not
  modelled.
- The effect hook at `src/App.jsx:25-35` repeats `startGame`'s randomisation
  after React re-renders. It is rendering plumbing, and the model takes the
  scores of one draw.
- Averages are exact rationals (`real`), not IEEE doubles. The two-decimal
  display (`toFixed(2)`) is rendering.
- `Players.Apply`: scores are unbounded integers. JavaScript numbers lose
  integer precision above 2^53, which takes about fifty doublings.
- `Players.Apply`: the `default` branch of the operation switch is not
  modelled. It leaves the score as is but still counts a turn. The boards
  only ever send the four labels.
- `GameState.Game.Play`: the code mutates the current player's object in
  place. That object is shared with the roster array of the previous
  render. The model updates the roster by value, so this aliasing is not
  captured. It has no effect on the state that follows.
- React's asynchronous state updates are not modelled. Each handler is
  treated as completing before the next event, which is how the handlers
  read their closure state.
- `Leaderboard.SortByAverage` is stable by construction, like the engine's
  `Array.prototype.sort`. Its contract states ranking and permutation but
  not stability.
- All rendering (`src/App.jsx:184-218`), `src/Register.jsx` and
  `src/Board.jsx` are UI components and not part of this model. This
  includes the form state, the enabling of buttons and the show-games
  toggle.
