/**
 * The win detector: four directional scans rooted at the cell just played,
 * and the classification of the move as a win, a draw or neither.
 *
 * Each scan walks backwards from the played cell while the player's plane
 * is non-zero, then forwards under the same condition; both walks stop at
 * the first empty or off-board cell, and the scan reports a win when the
 * two stopping points are more than `Criteria` apart, i.e. when the run
 * through the played cell holds at least `Criteria` stones.
 */
module WinDetector {
  import opened Types
  import opened Config
  import opened Grid

  /** A scan direction; cell `t` of the line through `a` is `a + t * d`. */
  datatype Direction = Direction(dr: int, dc: int)

  /** Along a row: columns to the left, then to the right. */
  const Row: Direction := Direction(0, 1)
  /** Along a column: rows above, then below. */
  const Column: Direction := Direction(1, 0)
  /** Up-left, then down-right. */
  const MainDiagonal: Direction := Direction(1, 1)
  /** Up-right, then down-left. */
  const AntiDiagonal: Direction := Direction(1, -1)

  function CellAlong(a: Action, d: Direction, t: int): Action {
    (a.0 + t * d.dr, a.1 + t * d.dc)
  }

  /** The cell is on the board and the player's plane is non-zero there. */
  ghost predicate Stone(b: Board, size: nat, player: int, cell: Action)
    requires Shaped(b, size) && IsPlayer(player)
  {
    InBounds(size, cell) && b[player][cell.0][cell.1] != 0
  }

  ghost predicate StoneAlong(b: Board, size: nat, player: int, a: Action, d: Direction, t: int)
    requires Shaped(b, size) && IsPlayer(player)
  {
    Stone(b, size, player, CellAlong(a, d, t))
  }

  /** Cells t0 .. t0 + Criteria - 1 of the line through `a` are all the player's. */
  ghost predicate Window(b: Board, size: nat, player: int, a: Action, d: Direction, t0: int)
    requires Shaped(b, size) && IsPlayer(player)
  {
    forall t :: t0 <= t < t0 + Criteria ==> StoneAlong(b, size, player, a, d, t)
  }

  /**
   * Some `Criteria` consecutive cells of the line through `a` in direction
   * `d`, one of them `a` itself, all hold the player's stones: the player's
   * run through `a` in that direction is at least `Criteria` long.
   */
  ghost predicate FiveThrough(b: Board, size: nat, player: int, a: Action, d: Direction)
    requires Shaped(b, size) && IsPlayer(player)
  {
    exists t0 :: -(Criteria as int) < t0 <= 0 && Window(b, size, player, a, d, t0)
  }

  /** The player's run through `a` reaches `Criteria` along some of the four lines. */
  ghost predicate Wins(b: Board, size: nat, player: int, a: Action)
    requires Shaped(b, size) && IsPlayer(player)
  {
    || FiveThrough(b, size, player, a, Row)
    || FiveThrough(b, size, player, a, Column)
    || FiveThrough(b, size, player, a, MainDiagonal)
    || FiveThrough(b, size, player, a, AntiDiagonal)
  }

  /** What the detector answers for a move. */
  ghost function Judge(b: Board, size: nat, player: int, a: Action): (st: Status)
    requires Shaped(b, size) && IsPlayer(player)
    ensures st != Lose
    ensures st == Draw ==> NoStones(b, size)
    ensures st == Win <==> Wins(b, size, player, a)
  {
    if Wins(b, size, player, a) then Win
    else if NoStones(b, size) then Draw
    else Continue
  }

  /**
   * The run through `a` extends exactly `back` cells backwards (counting `a`)
   * and `fwd` cells forwards (counting `a`), the cells beyond being empty or
   * off the board. Then the run holds `back + fwd - 1` stones, and a window
   * of `Criteria` stones through `a` exists exactly when the two stopping
   * points `-back` and `fwd` are more than `Criteria` apart.
   */
  lemma RunThrough(b: Board, size: nat, player: int, a: Action, d: Direction, back: int, fwd: int)
    requires Shaped(b, size) && IsPlayer(player)
    requires back >= 0 && fwd >= 0
    requires forall t :: -back < t <= 0 ==> StoneAlong(b, size, player, a, d, t)
    requires forall t :: 0 <= t < fwd ==> StoneAlong(b, size, player, a, d, t)
    requires !StoneAlong(b, size, player, a, d, -back)
    requires !StoneAlong(b, size, player, a, d, fwd)
    ensures FiveThrough(b, size, player, a, d) <==> back + fwd > Criteria
  {
    var k := Criteria as int;
    if back + fwd > k {
      assert back >= 1 && fwd >= 1;
      var t0 := if 1 - back < 1 - k then 1 - k else 1 - back;
      forall t | t0 <= t < t0 + k
        ensures StoneAlong(b, size, player, a, d, t)
      {
        if t <= 0 {
          assert -back < t;
        } else {
          assert t < fwd;
        }
      }
      assert Window(b, size, player, a, d, t0);
    }
    if FiveThrough(b, size, player, a, d) {
      var t0 :| -k < t0 <= 0 && Window(b, size, player, a, d, t0);
      assert -back < t0;
      assert t0 + k <= fwd;
    }
  }

  /** Scans the row through `a` (the engine's check_row). */
  method CheckRow(b: Board, size: nat, player: int, a: Action) returns (win: bool)
    requires Shaped(b, size) && IsPlayer(player) && InBounds(size, a)
    ensures win <==> FiveThrough(b, size, player, a, Row)
  {
    var i, j := a.0, a.1;
    var l := j;
    while l >= 0
      invariant -1 <= l <= j
      invariant forall t :: l - j < t <= 0 ==> StoneAlong(b, size, player, a, Row, t)
    {
      assert CellAlong(a, Row, l - j) == (i, l);
      if b[player][i][l] == 0 {
        break;
      }
      l := l - 1;
    }
    var r := j;
    while r < size
      invariant j <= r <= size
      invariant forall t :: 0 <= t < r - j ==> StoneAlong(b, size, player, a, Row, t)
    {
      assert CellAlong(a, Row, r - j) == (i, r);
      if b[player][i][r] == 0 {
        break;
      }
      r := r + 1;
    }
    assert CellAlong(a, Row, l - j) == (i, l) && CellAlong(a, Row, r - j) == (i, r);
    RunThrough(b, size, player, a, Row, j - l, r - j);
    win := r - l > Criteria;
  }

  /** Scans the column through `a` (the engine's check_column). */
  method CheckColumn(b: Board, size: nat, player: int, a: Action) returns (win: bool)
    requires Shaped(b, size) && IsPlayer(player) && InBounds(size, a)
    ensures win <==> FiveThrough(b, size, player, a, Column)
  {
    var i, j := a.0, a.1;
    var u := i;
    while u >= 0
      invariant -1 <= u <= i
      invariant forall t :: u - i < t <= 0 ==> StoneAlong(b, size, player, a, Column, t)
    {
      assert CellAlong(a, Column, u - i) == (u, j);
      if b[player][u][j] == 0 {
        break;
      }
      u := u - 1;
    }
    var d := i;
    while d < size
      invariant i <= d <= size
      invariant forall t :: 0 <= t < d - i ==> StoneAlong(b, size, player, a, Column, t)
    {
      assert CellAlong(a, Column, d - i) == (d, j);
      if b[player][d][j] == 0 {
        break;
      }
      d := d + 1;
    }
    assert CellAlong(a, Column, u - i) == (u, j) && CellAlong(a, Column, d - i) == (d, j);
    RunThrough(b, size, player, a, Column, i - u, d - i);
    win := d - u > Criteria;
  }

  /** Scans the diagonal through `a` running up-left to down-right (check_main_diagonal). */
  method CheckMainDiagonal(b: Board, size: nat, player: int, a: Action) returns (win: bool)
    requires Shaped(b, size) && IsPlayer(player) && InBounds(size, a)
    ensures win <==> FiveThrough(b, size, player, a, MainDiagonal)
  {
    var i, j := a.0, a.1;
    var p, q := i, j;
    while p >= 0 && q >= 0
      invariant p <= i && i - p == j - q && -1 <= q
      invariant forall t :: p - i < t <= 0 ==> StoneAlong(b, size, player, a, MainDiagonal, t)
    {
      assert CellAlong(a, MainDiagonal, p - i) == (p, q);
      if b[player][p][q] == 0 {
        break;
      }
      p, q := p - 1, q - 1;
    }
    var r, s := i, j;
    while r < size && s < size
      invariant i <= r && r - i == s - j && s <= size
      invariant forall t :: 0 <= t < r - i ==> StoneAlong(b, size, player, a, MainDiagonal, t)
    {
      assert CellAlong(a, MainDiagonal, r - i) == (r, s);
      if b[player][r][s] == 0 {
        break;
      }
      r, s := r + 1, s + 1;
    }
    assert CellAlong(a, MainDiagonal, p - i) == (p, q) && CellAlong(a, MainDiagonal, r - i) == (r, s);
    RunThrough(b, size, player, a, MainDiagonal, i - p, r - i);
    win := r - p > Criteria;
  }

  /** Scans the diagonal through `a` running up-right to down-left (check_anti_diagonal). */
  method CheckAntiDiagonal(b: Board, size: nat, player: int, a: Action) returns (win: bool)
    requires Shaped(b, size) && IsPlayer(player) && InBounds(size, a)
    ensures win <==> FiveThrough(b, size, player, a, AntiDiagonal)
  {
    var i, j := a.0, a.1;
    var p, q := i, j;
    while p >= 0 && q < size
      invariant p <= i && i - p == q - j && q <= size
      invariant forall t :: p - i < t <= 0 ==> StoneAlong(b, size, player, a, AntiDiagonal, t)
    {
      assert CellAlong(a, AntiDiagonal, p - i) == (p, q);
      if b[player][p][q] == 0 {
        break;
      }
      p, q := p - 1, q + 1;
    }
    var r, s := i, j;
    while r < size && s >= 0
      invariant i <= r && r - i == j - s && -1 <= s
      invariant forall t :: 0 <= t < r - i ==> StoneAlong(b, size, player, a, AntiDiagonal, t)
    {
      assert CellAlong(a, AntiDiagonal, r - i) == (r, s);
      if b[player][r][s] == 0 {
        break;
      }
      r, s := r + 1, s - 1;
    }
    assert CellAlong(a, AntiDiagonal, p - i) == (p, q) && CellAlong(a, AntiDiagonal, r - i) == (r, s);
    RunThrough(b, size, player, a, AntiDiagonal, i - p, r - i);
    win := r - p > Criteria;
  }

  /** Tests whether some cell has a non-zero sum of the two stone planes. */
  function AnyStone(b: Board, size: nat): (any: bool)
    requires Shaped(b, size)
    ensures any <==> !NoStones(b, size)
  {
    exists r, c :: 0 <= r < size && 0 <= c < size && b[0][r][c] + b[1][r][c] != 0
  }

  /**
   * Classifies the move just played at `a` (the engine's check_win): the four
   * scans, tried in order until one succeeds, then the empty-board test.
   */
  method CheckWin(b: Board, size: nat, player: int, a: Action) returns (status: Status)
    requires Shaped(b, size) && IsPlayer(player) && InBounds(size, a)
    ensures status == Judge(b, size, player, a)
  {
    var won := CheckRow(b, size, player, a);
    if !won {
      won := CheckColumn(b, size, player, a);
    }
    if !won {
      won := CheckMainDiagonal(b, size, player, a);
    }
    if !won {
      won := CheckAntiDiagonal(b, size, player, a);
    }
    if won {
      return Win;
    }
    if !AnyStone(b, size) {
      return Draw;
    }
    return Continue;
  }

  /**
   * A stone of the player on a cell whose other plane is not negative makes
   * the board non-empty, so the detector never answers Draw for the move
   * that put it there.
   */
  lemma NoDrawAfterPlacing(b: Board, size: nat, player: int, a: Action)
    requires Shaped(b, size) && IsPlayer(player) && InBounds(size, a)
    requires b[player][a.0][a.1] == 1 && b[1 - player][a.0][a.1] >= 0
    ensures Judge(b, size, player, a) == Win || Judge(b, size, player, a) == Continue
  {
    assert b[0][a.0][a.1] + b[1][a.0][a.1] != 0;
  }

  /**
   * Exactly `Criteria` of the player's stones in a line, the cells before the
   * first and after the last not the player's: the move at any of them wins.
   */
  lemma ExactlyFiveWins(b: Board, size: nat, player: int, a: Action, d: Direction, k: int)
    requires Shaped(b, size) && IsPlayer(player)
    requires 0 <= k < Criteria
    requires forall t :: -k <= t < Criteria - k ==> StoneAlong(b, size, player, a, d, t)
    ensures FiveThrough(b, size, player, a, d)
  {
    assert Window(b, size, player, a, d, -k);
  }

  /**
   * A maximal run of `Criteria - 1` stones through `a` (empty or off-board
   * cells at both ends) does not win in that direction.
   */
  lemma FourDoesNotWin(b: Board, size: nat, player: int, a: Action, d: Direction, k: int)
    requires Shaped(b, size) && IsPlayer(player)
    requires 0 <= k < Criteria - 1
    requires forall t :: -k <= t < Criteria - 1 - k ==> StoneAlong(b, size, player, a, d, t)
    requires !StoneAlong(b, size, player, a, d, -k - 1)
    requires !StoneAlong(b, size, player, a, d, Criteria - 1 - k)
    ensures !FiveThrough(b, size, player, a, d)
  {
    RunThrough(b, size, player, a, d, k + 1, Criteria - 1 - k);
  }
}
