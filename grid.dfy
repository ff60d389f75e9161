/**
 * What the engine does with its numeric-array library, stated on plain
 * sequences: the board's shape, an all-zero board, a constant plane, a
 * single-cell write, the "any stone on the board" test, and the set of all
 * cells of the board.
 */
module Grid {
  import opened Types
  import opened Config

  predicate InBounds(size: int, a: Action) {
    0 <= a.0 < size && 0 <= a.1 < size
  }

  /** The board has shape (CIn, size, size). */
  ghost predicate Shaped(b: Board, size: nat) {
    && |b| == CIn
    && forall p :: 0 <= p < CIn ==>
         |b[p]| == size && forall r :: 0 <= r < size ==> |b[p][r]| == size
  }

  /** A size-by-size plane holding `v` everywhere. */
  function Fill(size: nat, v: int): (plane: seq<seq<int>>)
    ensures |plane| == size
    ensures forall r :: 0 <= r < size ==> |plane[r]| == size
    ensures forall r, c :: 0 <= r < size && 0 <= c < size ==> plane[r][c] == v
  {
    seq(size, _ => seq(size, _ => v))
  }

  /** The all-zero board of shape (CIn, size, size). */
  function Zeros(size: nat): (b: Board)
    ensures Shaped(b, size)
    ensures forall p, r, c :: 0 <= p < CIn && 0 <= r < size && 0 <= c < size ==> b[p][r][c] == 0
  {
    seq(CIn, _ => Fill(size, 0))
  }

  /** Writes 1 at (p, a.0, a.1) and leaves every other entry as it was. */
  function Place(b: Board, size: nat, p: int, a: Action): (b': Board)
    requires Shaped(b, size) && 0 <= p < CIn && InBounds(size, a)
    ensures Shaped(b', size)
    ensures forall q, r, c :: 0 <= q < CIn && 0 <= r < size && 0 <= c < size ==>
              b'[q][r][c] == if (q, r, c) == (p, a.0, a.1) then 1 else b[q][r][c]
  {
    b[p := b[p][a.0 := b[p][a.0][a.1 := 1]]]
  }

  /** The sum of the two stone planes is zero at every cell: the board holds no stone. */
  ghost predicate NoStones(b: Board, size: nat)
    requires Shaped(b, size)
  {
    forall r, c :: 0 <= r < size && 0 <= c < size ==> b[0][r][c] + b[1][r][c] == 0
  }

  /** The cells of the first `rows` rows, each row `size` wide. */
  function RowsBelow(rows: int, size: int): set<Action> {
    set r, c | 0 <= r < rows && 0 <= c < size :: (r, c)
  }

  /** The first `cols` cells of row `r`. */
  function RowPrefix(r: int, cols: int): set<Action> {
    set c | 0 <= c < cols :: (r, c)
  }

  /** Every cell of the board. */
  function Cells(size: nat): set<Action> {
    RowsBelow(size, size)
  }

  lemma CellsMembership(size: nat, a: Action)
    ensures a in Cells(size) <==> InBounds(size, a)
  {
    if InBounds(size, a) {
      var (r, c) := a;
      assert (r, c) in RowsBelow(size, size);
    }
  }

  lemma RowPrefixGrow(r: int, cols: int)
    requires cols >= 0
    ensures RowPrefix(r, cols + 1) == RowPrefix(r, cols) + {(r, cols)}
  {
  }

  lemma RowsBelowGrow(rows: int, size: int)
    requires rows >= 0
    ensures RowsBelow(rows + 1, size) == RowsBelow(rows, size) + RowPrefix(rows, size)
  {
    forall a | a in RowsBelow(rows + 1, size)
      ensures a in RowsBelow(rows, size) + RowPrefix(rows, size)
    {
      if a.0 == rows {
        assert a in RowPrefix(rows, size);
      }
    }
  }

  /** The next cell `reset` inserts is not yet in the set it has built. */
  lemma NextCellIsNew(rows: int, cols: int, size: int)
    ensures (rows, cols) !in RowsBelow(rows, size) + RowPrefix(rows, cols)
  {
  }

  lemma {:induction false} RowPrefixCount(r: int, cols: nat)
    ensures |RowPrefix(r, cols)| == cols
  {
    if cols == 0 {
      assert RowPrefix(r, 0) == {};
    } else {
      RowPrefixCount(r, cols - 1);
      RowPrefixGrow(r, cols - 1);
      NextCellIsNew(r, cols - 1, 0);
    }
  }

  lemma {:induction false} RowsBelowCount(rows: nat, size: nat)
    ensures |RowsBelow(rows, size)| == rows * size
  {
    if rows == 0 {
      assert RowsBelow(0, size) == {};
    } else {
      RowsBelowCount(rows - 1, size);
      RowPrefixCount(rows - 1, size);
      RowsBelowGrow(rows - 1, size);
      assert RowsBelow(rows - 1, size) !! RowPrefix(rows - 1, size);
      assert rows * size == (rows - 1) * size + size;
    }
  }

  /** The board has size * size cells. */
  lemma CellsCount(size: nat)
    ensures |Cells(size)| == size * size
  {
    RowsBelowCount(size, size);
  }
}
