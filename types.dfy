/**
 * The value types of the engine: a move, the move history, the three-plane
 * board, the reward vector, the set of free cells and the state triple.
 */
module Types {

  /** A move: (row, column). */
  type Action = (int, int)

  /** The move history, in the order the moves were made. */
  type ID = seq<Action>

  /** A rank-3 grid indexed (plane, row, column). */
  type Board = seq<seq<seq<int>>>

  /** One entry per player; the entries are -1, 0 or 1. */
  type Reward = seq<int>

  /** The free cells. A set: no cell appears twice. */
  type Positions = set<Action>

  /** The state triple, read back by position: id, board, positions. */
  datatype State = State(id: ID, board: Board, positions: Positions)

  /** The only failure the engine reports: a move that is not a free cell. */
  datatype Error = InvalidAction

  datatype Result<T> = Ok(value: T) | Err(error: Error)
}
