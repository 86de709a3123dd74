/** The phases a game goes through, from the opening to the end. */
module States {
  import opened Players
  import opened Boards

  /**
   * `StartGame` before the first move, `NextTurn` while `player` is to move
   * on `board`, `Won` and `Draw` once a move decided the game, and `EndGame`
   * once nothing more happens.
   */
  datatype State =
    | StartGame
    | NextTurn(player: Player, board: Board)
    | Won(player: Player)
    | Draw
    | EndGame
}
