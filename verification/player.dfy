/** The two players and the order in which they take turns. */
module Players {

  datatype Player = X | O

  /** The player who opens every game. */
  function First(): (p: Player)
    ensures p == X
  {
    X
  }

  /** The player whose turn comes after `p`'s: always the other one. */
  function Next(p: Player): (q: Player)
    ensures q != p
  {
    match p
    case O => X
    case X => O
  }

  /** Two turns later it is the same player's move again. */
  lemma NextInvolution(p: Player)
    ensures Next(Next(p)) == p
  {
  }

  /**
   * `format!("{:?}", p)`: the variant name, as the board shows an occupied
   * cell; one character, `X` for `X` and `O` for `O`, so the two differ.
   */
  function Tag(p: Player): (s: string)
    ensures |s| == 1
    ensures s[0] == 'X' <==> p == X
    ensures s[0] == 'O' <==> p == O
  {
    match p
    case X => "X"
    case O => "O"
  }
}
