/** The two game variants: the board bounds and the length of a winning run. */
module Games {
  import opened Numbers

  datatype Game = Game(minX: int8, maxX: int8, minY: int8, maxY: int8, goal: int8)

  /** Three in a row on a 3 by 3 board centred on the origin. */
  const TicTacToe: Game := Game(-1, 1, -1, 1, 3)

  /** Five in a row on a 15 by 15 board centred on the origin. */
  const Gomoku: Game := Game(-7, 7, -7, 7, 5)

  /** As many columns as rows: the diagonals' pairing of x and y offsets needs it. */
  predicate Square(g: Game) {
    g.maxX as int - g.minX as int == g.maxY as int - g.minY as int
  }

  /** A winning run is at least one cell long and fits on the board. */
  predicate GoalFits(g: Game) {
    1 <= g.goal as int <= g.maxX as int - g.minX as int + 1
  }

  /** Both presets are square and their goals fit. */
  lemma PresetsWellShaped()
    ensures Square(TicTacToe) && GoalFits(TicTacToe)
    ensures Square(Gomoku) && GoalFits(Gomoku)
    ensures TicTacToe.maxX - TicTacToe.minX == 2 && TicTacToe.goal == 3
    ensures Gomoku.maxX - Gomoku.minX == 14 && Gomoku.goal == 5
  {
  }
}
