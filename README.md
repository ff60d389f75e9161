# Gomoku rules engine, modelled in Dafny

This project models the rules engine of a Gomoku (five-in-a-row) environment
built for self-play training. The engine is a stateless object. Its methods
take a game state and return a new one:

- `reset` builds the initial state.
- `step` plays one move and returns the next state, a reward vector and a
  done flag.
- `possible_actions` lists the legal moves.
- `fast_forward` replays a list of moves.
- `copy` duplicates a state.
- A set of getters reads the state's components and the engine's shapes.

A state is the triple (history, board, free cells):

- The history starts with the sentinel entry `(-1, -1)` and then lists the
  moves in order.
- The board has three planes of `size` by `size` integers. Plane 0 holds
  player 0's stones and plane 1 holds player 1's. Plane 2, the turn plane,
  is uniform. It holds the player to move, or 255 once the game is over.
- The free cells are a set of `(row, column)` pairs.

After a move, the win detector scans the row, the column and the two
diagonals through the played cell. Each scan walks backwards and then
forwards while the mover's plane is non-zero. The move wins when the two
stopping points are more than five apart.

## Structure

| module | file | what it holds |
|---|---|---|
| `Types` | `types.dfy` | action, history, board, reward, free-cell set, state, the error result |
| `Config` | `config.dfy` | board edge 19, plane counts, turn-plane index, two players, five to win, terminal value 255, the outcome enumeration |
| `Grid` | `grid.dfy` | the effect of the numeric-array operations the engine uses, on plain sequences, and the set of all cells with its size |
| `WinDetector` | `win_detector.dfy` | the four directional scans and the classification of a move, each proved against a declarative definition of "five in a line through the played cell" |
| `Engine` | `engine.dfy` | reset, step, possible actions, copy, fast-forward and the getters. The loops are methods proved against ghost specification functions |
| `Invariants` | `invariants.dfy` | the invariant of every state reachable from the initial one, and what a move does to such a state |

The operations take the board edge `size` as a parameter. The shipped engine
is the instance `size == 19` (`Engine.ShippedInstance`).

Every board read in the scans and in `step` is checked by Dafny to be in
range. Every loop is checked to terminate.

### Behaviour reproduced as the code has it

- The history of the initial state is `[(-1, -1)]`, not empty. So the
  history after `n` moves has `n + 1` entries. Move `k` (for `k >= 1`) was
  made by player `(k - 1) % 2`.
- A scan reports a win when the stopping indices differ by more than five.
  Both stopping indices lie outside the run. So a run of five or more wins:
  exactly five wins, and so does an overline (`WinDetector.RunThrough`,
  `WinDetector.ExactlyFiveWins`, `WinDetector.FourDoesNotWin`).
- The detector answers Draw only when both stone planes are zero everywhere.
  In `step` the stone has just been placed, so this never happens there
  (`WinDetector.NoDrawAfterPlacing`, `Invariants.StepJudgement`). A full
  board with no line of five therefore ends with `done == false` and no free
  cell, and every later move is rejected
  (`Invariants.FullBoardWithoutWinStalls`).
- The engine has no guard against playing on after the game has ended.
  There, the turn plane holds 255. A move that is not a free cell is still
  rejected, because the legality test comes first; the model keeps that
  rejection (`Invariants.OccupiedMoveRejected`). A free-cell move would make
  the engine use 255 as a plane index. For a free-cell move the model
  therefore requires the turn plane to name player 0 or 1
  (`Engine.Steppable`).
- A move outside the free-cell set makes the engine throw. The model
  returns `Err(InvalidAction)` instead. `Engine.FastForward` passes such an
  error on at the first rejected move, as the exception would propagate.

## Model

| member | source | states |
|---|---|---|
| `Grid.Place` | gomoku.cpp:57-60 | the written board keeps its shape. Exactly the entry (player, row, column) becomes 1, and every other entry is unchanged |
| `Grid.Zeros` | gomoku.cpp:29 | the initial board has shape (3, size, size) and every entry is 0 |
| `Grid.Fill` | gomoku.cpp:68 | the plane written into the turn plane is size by size and holds the given value everywhere |
| `Grid.CellsMembership` | gomoku.cpp:32-36 | a pair is one of the cells `reset` inserts exactly when both coordinates are in `[0, size)` |
| `Grid.CellsCount` | gomoku.cpp:32-36 | `reset` inserts `size * size` distinct cells |
| `Engine.Reset` | gomoku.cpp:26-38 | the nested loops build the initial state: history `[(-1,-1)]`, an all-zero board and every cell free, so `size * size` free cells. Loop invariant: the cells inserted so far are the full rows above the current one plus a prefix of the current row |
| `Engine.Initial` | gomoku.cpp:26-38 | the initial state has history `[(-1,-1)]`, a zero board of shape (3, size, size) and free cells equal to exactly the on-board pairs |
| `Engine.PossibleActions` | gomoku.cpp:83-86 | the legal moves are the free cells, whatever player is passed |
| `Engine.Copy` | gomoku.cpp:162-168 | the copy equals the original component by component |
| `Engine.GetNumPlayers` | gomoku.cpp:93-96 | there are two players |
| `Engine.GetPlayer` | gomoku.cpp:108-111 | the player to move is read at cell (2, 0, 0), the turn plane. What that value is in a reachable state is stated by `Invariants.GetPlayerReadsTurnPlane` and `Invariants.ConsistentSteppable` |
| `Engine.GettersProjectState` | gomoku.cpp:98-106 | history, board and free cells are the state's components 0, 1 and 2 |
| `Engine.ShippedInstance` | gomoku.hpp:38-45 | edge 19, 3 state planes, 1 action plane, turn plane index 2, two players, board shape `[3,19,19]`, action shape `[1,19,19]`, as the shape and size getters return them |
| `Engine.RewardFor` | gomoku.cpp:70-77 | the reward has two entries. It is `[0,0]` unless the move won. On a win the mover gets +1 and the other player -1 |
| `Engine.StepSpec` | gomoku.cpp:40-81 | a move is rejected exactly when it is not a free cell. Otherwise the history gains the move at its end and the free cells lose exactly that cell, one fewer. The stone planes change only at (player, row, column), which becomes 1. The turn plane becomes 255 everywhere if the game is done, else the other player |
| `Engine.Step` | gomoku.cpp:40-81 | the imperative move returns exactly `StepSpec`. This covers copying, the membership test, erasing, placing the stone, classification, the turn-plane write and the reward negation for player 1 |
| `Engine.Replay` | gomoku.cpp:146-153 | replaying moves one after another stops at the first rejection. A successful replay has the old history followed by the moves, and as many fewer free cells as there were moves |
| `Engine.FastForward` | gomoku.cpp:146-153 | the loop returns exactly `Replay` of the moves |
| `WinDetector.Judge` | gomoku.cpp:211-225 | a move is classified Win exactly when one of the four lines holds five through the played cell. It is never Lose. It is Draw only when both stone planes are entirely zero |
| `WinDetector.RunThrough` | gomoku.cpp:265-281 | if the stopping points of a scan lie `back` cells before and `fwd` cells after the played cell, then a window of five of the mover's stones through that cell exists exactly when `back + fwd > 5`. So the source's `r - l > criteria` means a run of at least five |
| `WinDetector.CheckRow` | gomoku.cpp:265-281 | the row scan answers true exactly when the mover's run along the row through the cell has at least five stones. Loop invariant: every cell between the scan index and the played cell is the mover's |
| `WinDetector.CheckColumn` | gomoku.cpp:283-299 | the same for the column |
| `WinDetector.CheckMainDiagonal` | gomoku.cpp:227-244 | the same for the up-left to down-right diagonal |
| `WinDetector.CheckAntiDiagonal` | gomoku.cpp:246-263 | the same for the up-right to down-left diagonal |
| `WinDetector.AnyStone` | gomoku.cpp:220-221 | true exactly when some cell holds a non-zero sum of the two stone planes |
| `WinDetector.CheckWin` | gomoku.cpp:211-225 | the scans, tried in order with short-circuit, then the empty-board test, return exactly `Judge` |
| `WinDetector.NoDrawAfterPlacing` | gomoku.cpp:60-62 | once the mover's stone is on the board, the classification is Win or Continue and never Draw |
| `WinDetector.ExactlyFiveWins` | gomoku.cpp:280 | five of the mover's stones in a line, with the played cell among them, is a win in that direction |
| `WinDetector.FourDoesNotWin` | gomoku.cpp:280 | a maximal run of four through the played cell, with empty or off-board cells at both ends, is not a win in that direction |
| `Invariants.InitialConsistent` | gomoku.cpp:26-38 | the initial state satisfies the reachable-state invariant. Nobody has played, and `get_player` reads 0 |
| `Invariants.ConsistentSteppable` | gomoku.cpp:108-111 | in a consistent state that is not over, `get_player` reads `(length of history - 1) % 2`, and every move can be stepped from it |
| `Invariants.GetPlayerReadsTurnPlane` | gomoku.cpp:108-111 | in a consistent state, the value `get_player` reads at (2, 0, 0) is what the whole turn plane holds. It is 255 or the player `(length of history - 1) % 2` |
| `Invariants.StepPreservesConsistent` | gomoku.cpp:40-81 | a free-cell move from a consistent, unfinished state is accepted and yields a consistent state |
| `Invariants.StepOutcome` | gomoku.cpp:62-77 | after a legal move, done holds exactly when the mover has five in a line through the played cell. The reward is `[1,-1]` for a player-0 win, `[-1,1]` for a player-1 win, else `[0,0]`. The turn passes to the other player, or becomes 255 when done |
| `Invariants.StepJudgement` | gomoku.cpp:60-64 | a legal move from a consistent state is classified Win or Continue, never Draw |
| `Invariants.CompletingFiveWins` | gomoku.cpp:60-77 | playing the missing cell of a window of five along any of the four lines ends the game and rewards the mover |
| `Invariants.OccupiedMoveRejected` | gomoku.cpp:50-53 | in a consistent state, finished or not, a move that is not a free cell is rejected |
| `Invariants.SameCellTwiceRejected` | gomoku.cpp:50-54 | after any legal move, including one that ends the game, playing the same cell again is rejected |
| `Invariants.FullBoardWithoutWinStalls` | gomoku.cpp:62-68 | playing the last free cell without making five gives done false, reward `[0,0]` and no free cell. Every further move is rejected |
| `Invariants.StonePlanesExclusive` | gomoku.cpp:60 | in a consistent state no cell holds stones of both players, and stone entries are 0 or 1 |
| `Invariants.OccupiedIffPlayed` | gomoku.cpp:54-60 | in a consistent state a cell is occupied exactly when it appears in the history after the sentinel, and it is free exactly when it is unoccupied |
| `Invariants.ReplayPreservesConsistent` | gomoku.cpp:146-153 | replaying moves from a consistent state yields a consistent state whose history is the old one followed by the moves |
| `Invariants.ReplayFromInitial` | gomoku.cpp:26-38 | a state replayed from the initial state has history `[(-1,-1)]` followed by the moves, and is consistent |

## Left out

- `print` and `action_string`: console and debug formatting only.
- `to_string`: declared in `gomoku.hpp` without a definition. Its definition is not part of this model.
- `main.cpp`: the interactive loop, the input decoding and the exception handling around `step` are not part of this model.
- The singleton accessor `Gomoku::get()` and the platform-dependent `shape_type` are lifecycle and portability glue.
- The numeric-array library is not modelled as such. Its effect on the board (zero fill, whole-plane assignment, single-cell write, the "any non-zero" test) is stated on plain sequences in `Grid`.
- The reward's float element type: the reward is modelled with integers, since its entries are only -1, 0 and 1.
- The lexicographic order of the free-cell set: nothing in the engine depends on it, so it is a plain `set`.
- The `check_*` scans are declared as returning `int` in the header and defined as returning `bool`. They are modelled as returning `bool`.
- Playing a free cell in a finished game: the code has undefined behaviour there (an out-of-range plane index). For a free-cell move the model requires the turn plane to name player 0 or 1, and gives no result otherwise. A move that is not a free cell is rejected in a finished game too, as in the code.
- A throwing `step` is modelled as an `Err` result, not as an exception.
- The invariant `Invariants.Consistent` does not include "a finished state's last move won". This holds move by move (`Invariants.StepOutcome`), but it is not carried along as part of the reachable-state invariant.
