/**
 * The value types of the game: who moved, and which cell a move claims.
 * A Swift `struct` with `let` fields is an immutable value, so both are
 * datatypes here: a `Move` cannot change after it is built.
 */
module GameModel {

  /** The two sides of the game. */
  datatype Player = Human | Computer

  /** One player's claim on one cell of the 3x3 board (cells 0..8, row-major). */
  datatype Move = Move(player: Player, boardIndex: int) {

    /** The name of the symbol drawn in the cell: a cross for the human, a circle for the computer. */
    function Indicator(): (symbol: string)
      ensures symbol == "xmark" <==> player == Human
      ensures symbol == "circle" <==> player == Computer
    {
      if player == Human then "xmark"
      else assert player == Computer; "circle"
    }
  }

  /** There is no third kind of player. */
  lemma PlayerHasTwoCases(p: Player)
    ensures p == Human || p == Computer
  {
  }

  /** Where a move is placed never affects how it is drawn. */
  lemma IndicatorIgnoresBoardIndex(p: Player, i: int, j: int)
    ensures Move(p, i).Indicator() == Move(p, j).Indicator()
  {
  }

  /** Two moves are drawn alike exactly when the same player made them. */
  lemma IndicatorsTellPlayersApart(m: Move, n: Move)
    ensures m.Indicator() == n.Indicator() <==> m.player == n.player
  {
  }
}
