/**
 * The transition engine and its query surface: the initial state, the move
 * transition, the legal-move query, the getters, the state copy and the
 * replay of a move list. Every operation depends on its arguments only.
 */
module Engine {
  import opened Types
  import opened Config
  import opened Grid
  import opened WinDetector

  /** The entry that every history starts with. */
  const Sentinel: Action := (-1, -1)

  /** What a move returns: the next state, the reward and the done flag. */
  datatype Transition = Transition(next: State, reward: Reward, done: bool)

  /* ---------------------------------------------------------------------
   * Getters
   * ------------------------------------------------------------------- */

  function GetNumPlayers(): (n: nat)
    ensures n == 2
  {
    NumPlayers
  }

  function GetId(s: State): ID {
    s.id
  }

  function GetBoard(s: State): Board {
    s.board
  }

  function GetPositions(s: State): Positions {
    s.positions
  }

  /** The player to move, read from cell (0, 0) of the turn plane. */
  function GetPlayer(s: State): int
    requires |s.board| == CIn && |s.board[Turn]| > 0 && |s.board[Turn][0]| > 0
  {
    GetBoard(s)[Turn][0][0]
  }

  function GetBoardShape(): seq<nat> {
    BoardShape(Size)
  }

  function GetActionShape(): seq<nat> {
    ActionShape(Size)
  }

  function GetStateChannels(): nat {
    CIn
  }

  function GetActionChannels(): nat {
    COut
  }

  function GetBoardSize(): nat {
    Size
  }

  /** The shipped engine: 19 by 19 board, three input planes, one output plane, five to win. */
  lemma ShippedInstance()
    ensures GetBoardSize() == 19 && Criteria == 5
    ensures GetBoardShape() == [3, 19, 19] && GetActionShape() == [1, 19, 19]
    ensures GetStateChannels() == 3 && GetActionChannels() == 1
    ensures GetNumPlayers() == 2 && Turn == 2
  {
  }

  /** The triple's three components are what the getters return, in order. */
  lemma GettersProjectState(s: State)
    ensures State(GetId(s), GetBoard(s), GetPositions(s)) == s
  {
  }

  /**
   * The legal moves: the free cells, whoever asks. The player argument is
   * accepted and not used.
   */
  function PossibleActions(s: State, player: int): (actions: Positions)
    ensures actions == s.positions
  {
    GetPositions(s)
  }

  /** A componentwise copy, equal to the original. */
  function Copy(s: State): (c: State)
    ensures c == s
    ensures c.id == s.id && c.board == s.board && c.positions == s.positions
  {
    State(GetId(s), GetBoard(s), GetPositions(s))
  }

  /* ---------------------------------------------------------------------
   * Reset
   * ------------------------------------------------------------------- */

  /** The initial state: sentinel history, all-zero board, every cell free. */
  ghost function Initial(size: nat): (s: State)
    ensures s.id == [Sentinel]
    ensures Shaped(s.board, size)
    ensures forall p, r, c :: 0 <= p < CIn && 0 <= r < size && 0 <= c < size ==> s.board[p][r][c] == 0
    ensures forall a :: a in s.positions <==> InBounds(size, a)
    ensures |s.positions| == size * size
  {
    CellsCount(size);
    forall a ensures a in Cells(size) <==> InBounds(size, a) {
      CellsMembership(size, a);
    }
    State([Sentinel], Zeros(size), Cells(size))
  }

  /** Builds the initial state, inserting the free cells row by row. */
  method Reset(size: nat) returns (s: State)
    ensures s == Initial(size)
    ensures |s.positions| == size * size
  {
    var id: ID := [Sentinel];
    var board := Zeros(size);
    var pos: Positions := {};
    var i := 0;
    while i < size
      invariant 0 <= i <= size
      invariant pos == RowsBelow(i, size)
      invariant |pos| == i * size
    {
      var j := 0;
      while j < size
        invariant 0 <= j <= size
        invariant pos == RowsBelow(i, size) + RowPrefix(i, j)
        invariant |pos| == i * size + j
      {
        NextCellIsNew(i, j, size);
        RowPrefixGrow(i, j);
        pos := pos + {(i, j)};
        j := j + 1;
      }
      RowsBelowGrow(i, size);
      assert (i + 1) * size == i * size + size;
      i := i + 1;
    }
    s := State(id, board, pos);
  }

  /* ---------------------------------------------------------------------
   * Step
   * ------------------------------------------------------------------- */

  /** The board has its shape and every free cell is on the board. */
  ghost predicate WellFormed(size: nat, s: State) {
    && size >= 1
    && Shaped(s.board, size)
    && s.positions <= Cells(size)
  }

  /**
   * What a state must satisfy before the move `a`: it is well formed, and
   * when `a` is a free cell the turn plane names a player. A finished game
   * holds the terminal value there, which the engine would use as a plane
   * index once the move passed the legality test; a move that is not a free
   * cell is rejected before that, finished game or not.
   */
  ghost predicate Steppable(size: nat, s: State, a: Action) {
    && WellFormed(size, s)
    && (a in s.positions ==> IsPlayer(s.board[Turn][0][0]))
  }

  /** The reward vector: +1 for the winner and -1 for the other player, or all zero. */
  function RewardFor(status: Status, player: int): (rw: Reward)
    requires IsPlayer(player)
    ensures |rw| == NumPlayers
    ensures status != Win ==> rw == [0, 0]
    ensures status == Win ==> rw[player] == 1 && rw[1 - player] == -1
  {
    if status == Win then (if player == 0 then [1, -1] else [-1, 1]) else [0, 0]
  }

  /** The outcome of playing `a` in `s`. */
  ghost function StepSpec(size: nat, s: State, a: Action): (r: Result<Transition>)
    requires Steppable(size, s, a)
    ensures r.Err? <==> a !in PossibleActions(s, GetPlayer(s))
    ensures r.Ok? ==> r.value.next.id == s.id + [a]
    ensures r.Ok? ==> r.value.next.positions == s.positions - {a}
    ensures r.Ok? ==> |r.value.next.positions| == |s.positions| - 1
    ensures r.Ok? ==> Shaped(r.value.next.board, size)
    ensures r.Ok? ==> forall p, row, col :: 0 <= p < Turn && 0 <= row < size && 0 <= col < size ==>
              r.value.next.board[p][row][col] ==
                if (p, row, col) == (GetPlayer(s), a.0, a.1) then 1 else s.board[p][row][col]
    ensures r.Ok? ==> forall row, col :: 0 <= row < size && 0 <= col < size ==>
              r.value.next.board[Turn][row][col] ==
                if r.value.done then Terminal else (GetPlayer(s) + 1) % 2
  {
    var player := GetPlayer(s);
    if a !in PossibleActions(s, player) then Err(InvalidAction)
    else
      CellsMembership(size, a);
      var placed := Place(s.board, size, player, a);
      var status := Judge(placed, size, player, a);
      var done := status != Continue;
      var board := placed[Turn := Fill(size, if done then Terminal else (player + 1) % 2)];
      Ok(Transition(State(s.id + [a], board, s.positions - {a}), RewardFor(status, player), done))
  }

  /**
   * Plays `a` in `s`: rejects a move outside the free cells, otherwise
   * copies history and board, puts the stone down, classifies the move,
   * writes the next turn (or the terminal value) into the turn plane and
   * computes the reward.
   */
  method Step(size: nat, s: State, a: Action) returns (r: Result<Transition>)
    requires Steppable(size, s, a)
    ensures r == StepSpec(size, s, a)
  {
    var id := GetId(s) + [a];
    var board := GetBoard(s);

    var player := GetPlayer(s);
    var nextPlayer := (player + 1) % 2;

    var actions := PossibleActions(s, player);
    if a !in actions {
      return Err(InvalidAction);
    }
    actions := actions - {a};

    CellsMembership(size, a);
    var i, j := a.0, a.1;
    board := board[player := board[player][i := board[player][i][j := 1]]];

    var status := CheckWin(board, size, player, a);
    var finished := false;
    if status != Continue {
      finished := true;
      nextPlayer := Terminal;
    }
    board := board[Turn := Fill(size, nextPlayer)];

    var reward: Reward := [0, 0];
    if status == Win {
      reward := [1, -1];
      if player != 0 {
        reward := [-reward[0], -reward[1]];
      }
    }

    r := Ok(Transition(State(id, board, actions), reward, finished));
  }

  /* ---------------------------------------------------------------------
   * Fast-forward
   * ------------------------------------------------------------------- */

  /**
   * Every move of `actions` is made from a state the engine can step from,
   * until the list is exhausted or a move is rejected.
   */
  ghost predicate CanReplay(size: nat, s: State, actions: seq<Action>)
    decreases |actions|
  {
    || |actions| == 0
    || (&& Steppable(size, s, actions[0])
        && match StepSpec(size, s, actions[0])
           case Err(_) => true
           case Ok(t) => CanReplay(size, t.next, actions[1..]))
  }

  /** The moves of `actions` made one after another; the first rejection is the result. */
  ghost function Replay(size: nat, s: State, actions: seq<Action>): (r: Result<State>)
    requires CanReplay(size, s, actions)
    ensures r.Ok? ==> r.value.id == s.id + actions
    ensures r.Ok? ==> |r.value.positions| == |s.positions| - |actions|
    decreases |actions|
  {
    if |actions| == 0 then Ok(s)
    else
      match StepSpec(size, s, actions[0])
      case Err(e) => Err(e)
      case Ok(t) =>
        assert actions == [actions[0]] + actions[1..];
        Replay(size, t.next, actions[1..])
  }

  /** Makes the moves of `actions` in order, keeping only the final state. */
  method FastForward(size: nat, s: State, actions: seq<Action>) returns (r: Result<State>)
    requires CanReplay(size, s, actions)
    ensures r == Replay(size, s, actions)
  {
    var state := s;
    var k := 0;
    while k < |actions|
      invariant 0 <= k <= |actions|
      invariant CanReplay(size, state, actions[k..])
      invariant Replay(size, s, actions) == Replay(size, state, actions[k..])
    {
      assert actions[k..][1..] == actions[k + 1..];
      var t := Step(size, state, actions[k]);
      if t.Err? {
        return Err(t.error);
      }
      state := t.value.next;
      k := k + 1;
    }
    r := Ok(state);
  }
}
