/**
 * What holds of every state reached from the initial state by moves: the
 * stone planes record exactly the moves of the history after the sentinel,
 * player 0 having made the odd-numbered ones and player 1 the even-numbered
 * ones; no cell carries two stones; the free cells are the complement of
 * the history; the turn plane is uniform and names the next player, or the
 * terminal value after a winning move.
 */
module Invariants {
  import opened Types
  import opened Config
  import opened Grid
  import opened WinDetector
  import opened Engine

  /** Cells of the history that player `p` played (entry 0 is the sentinel). */
  ghost function MovesOf(id: ID, p: int): set<Action> {
    set k | 1 <= k < |id| && (k - 1) % 2 == p :: id[k]
  }

  /** Cells of the history after the sentinel. */
  ghost function Played(id: ID): set<Action> {
    set k | 1 <= k < |id| :: id[k]
  }

  /** The history starts with the sentinel and then lists distinct cells of the board. */
  ghost predicate HistoryWellFormed(size: nat, id: ID) {
    && |id| >= 1 && id[0] == Sentinel
    && (forall k :: 1 <= k < |id| ==> InBounds(size, id[k]))
    && (forall k1, k2 :: 1 <= k1 < k2 < |id| ==> id[k1] != id[k2])
  }

  /** Each stone plane holds 1 exactly on the cells its player has played, 0 elsewhere. */
  ghost predicate StonesMatchHistory(size: nat, b: Board, id: ID)
    requires Shaped(b, size)
  {
    forall p, r, c :: 0 <= p < Turn && 0 <= r < size && 0 <= c < size ==>
      b[p][r][c] == if (r, c) in MovesOf(id, p) then 1 else 0
  }

  /** The free cells are the cells not in the history; together they cover the board. */
  ghost predicate FreeCellsMatchHistory(size: nat, positions: Positions, id: ID) {
    && positions == Cells(size) - Played(id)
    && |positions| + |id| == |Cells(size)| + 1
  }

  /**
   * The turn plane is uniform; it names the player whose turn the history
   * gives, or holds the terminal value.
   */
  ghost predicate TurnMatchesHistory(size: nat, b: Board, id: ID)
    requires size >= 1 && Shaped(b, size) && |id| >= 1
  {
    && (forall r, c :: 0 <= r < size && 0 <= c < size ==> b[Turn][r][c] == b[Turn][0][0])
    && (b[Turn][0][0] == Terminal || b[Turn][0][0] == (|id| - 1) % 2)
  }

  ghost predicate Consistent(size: nat, s: State) {
    && size >= 1
    && Shaped(s.board, size)
    && HistoryWellFormed(size, s.id)
    && StonesMatchHistory(size, s.board, s.id)
    && FreeCellsMatchHistory(size, s.positions, s.id)
    && TurnMatchesHistory(size, s.board, s.id)
  }

  /* ---------------------------------------------------------------------
   * Helper facts about the history sets
   * ------------------------------------------------------------------- */

  lemma MovesOfAppend(id: ID, a: Action, p: int)
    requires |id| >= 1
    ensures MovesOf(id + [a], p) == MovesOf(id, p) + (if (|id| - 1) % 2 == p then {a} else {})
  {
    var id' := id + [a];
    forall x | x in MovesOf(id', p)
      ensures x in MovesOf(id, p) + (if (|id| - 1) % 2 == p then {a} else {})
    {
      var k :| 1 <= k < |id'| && (k - 1) % 2 == p && id'[k] == x;
      if k < |id| {
        assert id[k] == x;
      }
    }
    forall x | x in MovesOf(id, p)
      ensures x in MovesOf(id', p)
    {
      var k :| 1 <= k < |id| && (k - 1) % 2 == p && id[k] == x;
      assert id'[k] == x;
    }
    if (|id| - 1) % 2 == p {
      assert id'[|id|] == a;
    }
  }

  lemma PlayedAppend(id: ID, a: Action)
    requires |id| >= 1
    ensures Played(id + [a]) == Played(id) + {a}
  {
    var id' := id + [a];
    forall x | x in Played(id')
      ensures x in Played(id) + {a}
    {
      var k :| 1 <= k < |id'| && id'[k] == x;
      if k < |id| {
        assert id[k] == x;
      }
    }
    forall x | x in Played(id)
      ensures x in Played(id')
    {
      var k :| 1 <= k < |id| && id[k] == x;
      assert id'[k] == x;
    }
    assert id'[|id|] == a;
  }

  /** The history is split between the players: every move is one of theirs. */
  lemma PlayedSplits(id: ID)
    ensures Played(id) == MovesOf(id, 0) + MovesOf(id, 1)
  {
    forall x | x in Played(id)
      ensures x in MovesOf(id, 0) + MovesOf(id, 1)
    {
      var k :| 1 <= k < |id| && id[k] == x;
      if (k - 1) % 2 == 0 {
        assert x in MovesOf(id, 0);
      } else {
        assert x in MovesOf(id, 1);
      }
    }
  }

  /** Distinct history entries: no cell is played by both players. */
  lemma MovesDisjoint(id: ID)
    requires forall k1, k2 :: 1 <= k1 < k2 < |id| ==> id[k1] != id[k2]
    ensures MovesOf(id, 0) !! MovesOf(id, 1)
  {
    forall x | x in MovesOf(id, 0)
      ensures x !in MovesOf(id, 1)
    {
      var k0 :| 1 <= k0 < |id| && (k0 - 1) % 2 == 0 && id[k0] == x;
    }
  }

  /** Two boards that agree on the player's plane agree on whether the player wins. */
  lemma WinsReadsOnlyPlayerPlane(b1: Board, b2: Board, size: nat, player: int, a: Action)
    requires Shaped(b1, size) && Shaped(b2, size) && IsPlayer(player)
    requires b1[player] == b2[player]
    ensures Wins(b1, size, player, a) == Wins(b2, size, player, a)
  {
    forall d: Direction, t0: int
      ensures Window(b1, size, player, a, d, t0) == Window(b2, size, player, a, d, t0)
    {
      assert forall t :: StoneAlong(b1, size, player, a, d, t) == StoneAlong(b2, size, player, a, d, t);
    }
  }

  /* ---------------------------------------------------------------------
   * The initial state and one move
   * ------------------------------------------------------------------- */

  /** The initial state is consistent, nobody has played, and player 0 moves first. */
  lemma InitialConsistent(size: nat)
    requires size >= 1
    ensures Consistent(size, Initial(size))
    ensures GetPlayer(Initial(size)) == 0
    ensures Played(Initial(size).id) == {}
  {
    var s := Initial(size);
    assert Played(s.id) == {};
    assert forall p :: MovesOf(s.id, p) == {};
    forall a ensures a in s.positions <==> a in Cells(size) {
      CellsMembership(size, a);
    }
  }

  /**
   * A consistent state that is not finished can be stepped from with any
   * move: the player `get_player` reads is the one the history gives.
   */
  lemma ConsistentSteppable(size: nat, s: State)
    requires Consistent(size, s) && GetPlayer(s) != Terminal
    ensures WellFormed(size, s) && IsPlayer(GetPlayer(s))
    ensures GetPlayer(s) == (|s.id| - 1) % 2
  {
  }

  /**
   * What `get_player` reads at cell (0, 0) of the turn plane is what the
   * whole plane holds: in a consistent state it is the terminal value or
   * the player the history gives.
   */
  lemma GetPlayerReadsTurnPlane(size: nat, s: State, r: int, c: int)
    requires Consistent(size, s) && InBounds(size, (r, c))
    ensures s.board[Turn][r][c] == GetPlayer(s)
    ensures GetPlayer(s) == Terminal || GetPlayer(s) == (|s.id| - 1) % 2
  {
  }

  /** A legal move, spelled out: the placed stone, the classification, the new turn plane. */
  lemma StepUnfold(size: nat, s: State, a: Action)
    requires Steppable(size, s, a) && a in s.positions
    ensures InBounds(size, a)
    ensures var player := GetPlayer(s);
      var placed := Place(s.board, size, player, a);
      var status := Judge(placed, size, player, a);
      var done := status != Continue;
      StepSpec(size, s, a) ==
        Ok(Transition(
             State(s.id + [a], placed[Turn := Fill(size, if done then Terminal else (player + 1) % 2)], s.positions - {a}),
             RewardFor(status, player), done))
  {
    CellsMembership(size, a);
  }

  lemma HistoryAppend(size: nat, id: ID, a: Action)
    requires HistoryWellFormed(size, id) && InBounds(size, a) && a !in Played(id)
    ensures HistoryWellFormed(size, id + [a])
  {
    forall k | 1 <= k < |id|
      ensures id[k] != a
    {
      assert id[k] in Played(id);
    }
  }

  lemma StonesAppend(size: nat, b: Board, id: ID, a: Action, v: int)
    requires Shaped(b, size) && |id| >= 1 && InBounds(size, a)
    requires StonesMatchHistory(size, b, id)
    ensures var b' := Place(b, size, (|id| - 1) % 2, a)[Turn := Fill(size, v)];
      Shaped(b', size) && StonesMatchHistory(size, b', id + [a])
  {
    MovesOfAppend(id, a, 0);
    MovesOfAppend(id, a, 1);
  }

  lemma FreeCellsAppend(size: nat, positions: Positions, id: ID, a: Action)
    requires |id| >= 1 && FreeCellsMatchHistory(size, positions, id) && a in positions
    ensures FreeCellsMatchHistory(size, positions - {a}, id + [a])
  {
    PlayedAppend(id, a);
  }

  lemma TurnAppend(size: nat, placed: Board, b': Board, id: ID, a: Action, player: int, done: bool)
    requires size >= 1 && Shaped(placed, size) && |id| >= 1
    requires player == (|id| - 1) % 2
    requires b' == placed[Turn := Fill(size, if done then Terminal else (player + 1) % 2)]
    ensures Shaped(b', size) && TurnMatchesHistory(size, b', id + [a])
  {
  }

  /**
   * A legal move from a consistent, unfinished state: the stone goes on a
   * cell both planes have empty, so the move is classified as a win or
   * neither, never as a draw.
   */
  lemma StepJudgement(size: nat, s: State, a: Action)
    requires Consistent(size, s) && GetPlayer(s) != Terminal && a in s.positions
    ensures Steppable(size, s, a) && InBounds(size, a)
    ensures var player := GetPlayer(s);
      var status := Judge(Place(s.board, size, player, a), size, player, a);
      status == Win || status == Continue
  {
    ConsistentSteppable(size, s);
    FreeCellEmpty(size, s, a);
    var player := GetPlayer(s);
    var placed := Place(s.board, size, player, a);
    assert placed[player][a.0][a.1] == 1;
    assert placed[1 - player][a.0][a.1] == 0;
    NoDrawAfterPlacing(placed, size, player, a);
  }

  /** A free cell of a consistent state is on the board and holds no stone. */
  lemma FreeCellEmpty(size: nat, s: State, a: Action)
    requires Consistent(size, s) && a in s.positions
    ensures InBounds(size, a)
    ensures s.board[0][a.0][a.1] == 0 && s.board[1][a.0][a.1] == 0
  {
    CellsMembership(size, a);
    PlayedSplits(s.id);
  }

  /** The state a legal move builds, from its parts, is consistent. */
  lemma AppendPreservesConsistent(size: nat, s: State, a: Action, player: int, placed: Board, done: bool, b': Board)
    requires Consistent(size, s) && a in s.positions && InBounds(size, a)
    requires player == (|s.id| - 1) % 2
    requires placed == Place(s.board, size, player, a)
    requires b' == placed[Turn := Fill(size, if done then Terminal else (player + 1) % 2)]
    ensures Consistent(size, State(s.id + [a], b', s.positions - {a}))
  {
    assert a !in Played(s.id);
    HistoryAppend(size, s.id, a);
    StonesAppend(size, s.board, s.id, a, if done then Terminal else (player + 1) % 2);
    FreeCellsAppend(size, s.positions, s.id, a);
    TurnAppend(size, placed, b', s.id, a, player, done);
    ConsistentFromParts(size, State(s.id + [a], b', s.positions - {a}));
  }

  /**
   * A legal move from a consistent, unfinished state is accepted and leads
   * to a consistent state.
   */
  lemma StepPreservesConsistent(size: nat, s: State, a: Action)
    requires Consistent(size, s) && GetPlayer(s) != Terminal
    requires a in s.positions
    ensures StepSpec(size, s, a).Ok?
    ensures Consistent(size, StepSpec(size, s, a).value.next)
  {
    ConsistentSteppable(size, s);
    FreeCellEmpty(size, s, a);
    var player := GetPlayer(s);
    var placed := Place(s.board, size, player, a);
    var done := Judge(placed, size, player, a) != Continue;
    var b' := placed[Turn := Fill(size, if done then Terminal else (player + 1) % 2)];
    StepNext(size, s, a, b');
    AppendPreservesConsistent(size, s, a, player, placed, done, b');
  }

  /** The state a legal move leads to, with the new board named. */
  lemma StepNext(size: nat, s: State, a: Action, b': Board)
    requires Steppable(size, s, a) && a in s.positions && InBounds(size, a)
    requires var player := GetPlayer(s);
      var placed := Place(s.board, size, player, a);
      var done := Judge(placed, size, player, a) != Continue;
      b' == placed[Turn := Fill(size, if done then Terminal else (player + 1) % 2)]
    ensures StepSpec(size, s, a).Ok?
    ensures StepSpec(size, s, a).value.next == State(s.id + [a], b', s.positions - {a})
  {
    StepUnfold(size, s, a);
  }

  lemma ConsistentFromParts(size: nat, s: State)
    requires size >= 1 && Shaped(s.board, size)
    requires HistoryWellFormed(size, s.id)
    requires StonesMatchHistory(size, s.board, s.id)
    requires FreeCellsMatchHistory(size, s.positions, s.id)
    requires TurnMatchesHistory(size, s.board, s.id)
    ensures Consistent(size, s)
  {
  }

  /**
   * The outcome of a legal move from a consistent, unfinished state: the
   * game is over exactly when the mover now has a line of `Criteria` through
   * the played cell; the winner gets +1 and the other player -1, otherwise
   * both get 0; the turn passes to the other player or becomes terminal.
   * A move never ends the game in a draw.
   */
  lemma StepOutcome(size: nat, s: State, a: Action)
    requires Consistent(size, s) && GetPlayer(s) != Terminal
    requires a in s.positions
    ensures StepSpec(size, s, a).Ok?
    ensures var t := StepSpec(size, s, a).value;
      && (t.done <==> Wins(t.next.board, size, GetPlayer(s), a))
      && t.reward == (if !t.done then [0, 0] else if GetPlayer(s) == 0 then [1, -1] else [-1, 1])
      && GetPlayer(t.next) == (if t.done then Terminal else 1 - GetPlayer(s))
  {
    StepJudgement(size, s, a);
    StepUnfold(size, s, a);
    var player := GetPlayer(s);
    var placed := Place(s.board, size, player, a);
    var t := StepSpec(size, s, a).value;
    WinsReadsOnlyPlayerPlane(placed, t.next.board, size, player, a);
  }

  /**
   * Completing `Criteria` in a row: the player to move already has stones on
   * the other cells of a window of `Criteria` cells through the free cell
   * `a`; playing `a` ends the game with the mover rewarded.
   */
  lemma CompletingFiveWins(size: nat, s: State, a: Action, d: Direction, k: int)
    requires Consistent(size, s) && GetPlayer(s) != Terminal
    requires a in s.positions
    requires d == Row || d == Column || d == MainDiagonal || d == AntiDiagonal
    requires 0 <= k < Criteria
    requires forall t :: -k <= t < Criteria - k && t != 0 ==> StoneAlong(s.board, size, GetPlayer(s), a, d, t)
    ensures StepSpec(size, s, a).Ok?
    ensures StepSpec(size, s, a).value.done
    ensures StepSpec(size, s, a).value.reward == if GetPlayer(s) == 0 then [1, -1] else [-1, 1]
  {
    StepOutcome(size, s, a);
    var n := StepSpec(size, s, a).value.next;
    var player := GetPlayer(s);
    CellsMembership(size, a);
    forall t | -k <= t < Criteria - k
      ensures StoneAlong(n.board, size, player, a, d, t)
    {
      if t != 0 {
        assert StoneAlong(s.board, size, player, a, d, t);
      } else {
        assert CellAlong(a, d, 0) == a;
      }
    }
    ExactlyFiveWins(n.board, size, player, a, d, k);
  }

  /**
   * In a consistent state, finished or not, a move that is not a free cell
   * is rejected: the legality test comes before the turn plane is used.
   */
  lemma OccupiedMoveRejected(size: nat, s: State, a: Action)
    requires Consistent(size, s) && a !in s.positions
    ensures Steppable(size, s, a)
    ensures StepSpec(size, s, a).Err?
  {
  }

  /**
   * A cell that was just played cannot be played again, whether or not the
   * first move ended the game: the second move is rejected.
   */
  lemma SameCellTwiceRejected(size: nat, s: State, a: Action)
    requires Consistent(size, s) && GetPlayer(s) != Terminal && a in s.positions
    ensures Steppable(size, StepSpec(size, s, a).value.next, a)
    ensures StepSpec(size, StepSpec(size, s, a).value.next, a).Err?
  {
    StepPreservesConsistent(size, s, a);
    OccupiedMoveRejected(size, StepSpec(size, s, a).value.next, a);
  }

  /**
   * The last free cell, played without completing a line: the game is not
   * reported as over, no free cell is left, and every further move is
   * rejected. The empty-board test never fires after a move, so a full
   * board without a winner never yields done.
   */
  lemma FullBoardWithoutWinStalls(size: nat, s: State, a: Action)
    requires Consistent(size, s) && GetPlayer(s) != Terminal
    requires s.positions == {a}
    requires !Wins(Place(s.board, size, GetPlayer(s), a), size, GetPlayer(s), a)
    ensures StepSpec(size, s, a).Ok?
    ensures !StepSpec(size, s, a).value.done
    ensures StepSpec(size, s, a).value.next.positions == {}
    ensures StepSpec(size, s, a).value.reward == [0, 0]
    ensures forall a' :: StepSpec(size, StepSpec(size, s, a).value.next, a').Err?
  {
    StepOutcome(size, s, a);
    StepPreservesConsistent(size, s, a);
    var t := StepSpec(size, s, a).value;
    CellsMembership(size, a);
    WinsReadsOnlyPlayerPlane(Place(s.board, size, GetPlayer(s), a), t.next.board, size, GetPlayer(s), a);
    ConsistentSteppable(size, t.next);
  }

  /* ---------------------------------------------------------------------
   * Derived facts about consistent states
   * ------------------------------------------------------------------- */

  /** No cell holds a stone of both players; stone entries are 0 or 1. */
  lemma StonePlanesExclusive(size: nat, s: State, r: int, c: int)
    requires Consistent(size, s) && InBounds(size, (r, c))
    ensures s.board[0][r][c] + s.board[1][r][c] <= 1
    ensures s.board[0][r][c] in {0, 1} && s.board[1][r][c] in {0, 1}
  {
    MovesDisjoint(s.id);
  }

  /**
   * A cell is occupied exactly when it appears in the history after the
   * sentinel, and it is free exactly when it is not occupied.
   */
  lemma OccupiedIffPlayed(size: nat, s: State, r: int, c: int)
    requires Consistent(size, s) && InBounds(size, (r, c))
    ensures s.board[0][r][c] + s.board[1][r][c] != 0 <==> (r, c) in Played(s.id)
    ensures (r, c) in s.positions <==> s.board[0][r][c] + s.board[1][r][c] == 0
  {
    PlayedSplits(s.id);
    MovesDisjoint(s.id);
    CellsMembership(size, (r, c));
  }

  /**
   * Replaying legal moves from a consistent state: the result is
   * consistent and its history is the old one followed by the moves.
   */
  lemma {:induction false} ReplayPreservesConsistent(size: nat, s: State, actions: seq<Action>)
    requires Consistent(size, s) && CanReplay(size, s, actions)
    requires Replay(size, s, actions).Ok?
    ensures Consistent(size, Replay(size, s, actions).value)
    ensures Replay(size, s, actions).value.id == s.id + actions
    decreases |actions|
  {
    if |actions| > 0 {
      var t := StepSpec(size, s, actions[0]);
      assert t.Ok?;
      StepPreservesConsistent(size, s, actions[0]);
      ReplayPreservesConsistent(size, t.value.next, actions[1..]);
    }
  }

  /**
   * The state reached from the initial state by a list of moves has that
   * list, after the sentinel, as its history, and is consistent.
   */
  lemma ReplayFromInitial(size: nat, actions: seq<Action>)
    requires size >= 1 && CanReplay(size, Initial(size), actions)
    requires Replay(size, Initial(size), actions).Ok?
    ensures Replay(size, Initial(size), actions).value.id == [Sentinel] + actions
    ensures Consistent(size, Replay(size, Initial(size), actions).value)
  {
    InitialConsistent(size);
    ReplayPreservesConsistent(size, Initial(size), actions);
  }
}
