/**
 * The engine's fixed parameters and its outcome enumeration.
 * The board edge is 19 in the shipped engine; the operations take the edge
 * as a parameter and `Size` is that instance.
 */
module Config {

  /** Outcome of the win detector. `Lose` is declared but never produced. */
  datatype Status = Draw | Win | Lose | Continue

  /** Width and height of the board. */
  const Size: nat := 19
  /** Planes of the board: one per player and one for the turn. */
  const CIn: nat := 3
  /** Planes of an action grid. */
  const COut: nat := 1
  /** Index of the turn plane. */
  const Turn: nat := 2
  const NumPlayers: nat := 2
  /** Stones in a line needed to win. */
  const Criteria: nat := 5

  /** Turn-plane value once the game is over. */
  const Terminal: int := 255

  predicate IsPlayer(p: int) {
    p == 0 || p == 1
  }

  function BoardShape(size: nat): seq<nat> {
    [CIn, size, size]
  }

  function ActionShape(size: nat): seq<nat> {
    [COut, size, size]
  }
}
