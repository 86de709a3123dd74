/**
 * The unit tests of `board.rs` and `coordinates.rs`, stated as facts about
 * the model on the concrete boards they build.
 */
module Cases {
  import opened Wrappers
  import opened Numbers
  import opened Players
  import opened Coords
  import opened Games
  import opened Sequences
  import opened Boards
  import opened BoardText

  /** A new board is empty and takes the game's bounds. */
  lemma NewBoardIsEmpty()
    ensures New(TicTacToe).cells == map[]
    ensures New(TicTacToe).minX == -1 && New(TicTacToe).maxX == 1
    ensures New(TicTacToe).minY == -1 && New(TicTacToe).maxY == 1
    ensures New(Gomoku).cells == map[]
    ensures New(Gomoku).minX == -7 && New(Gomoku).maxX == 7
    ensures New(Gomoku).minY == -7 && New(Gomoku).maxY == 7
  {
  }

  /** Moves just outside each bound of the 3 by 3 board are refused. */
  lemma InsertOutsideRefused()
    ensures Insert(New(TicTacToe), Coordinates(-2, 0), X) == Err(OutOfBounds)
    ensures Insert(New(TicTacToe), Coordinates(0, -2), X) == Err(OutOfBounds)
    ensures Insert(New(TicTacToe), Coordinates(2, 0), X) == Err(OutOfBounds)
    ensures Insert(New(TicTacToe), Coordinates(0, 2), X) == Err(OutOfBounds)
  {
  }

  /** A move on a free cell records the player; the same cell twice is refused. */
  lemma InsertThenTaken()
    ensures Insert(New(TicTacToe), Coordinates(0, 0), X).Ok?
    ensures Insert(New(TicTacToe), Coordinates(0, 0), X).value.cells[Coordinates(0, 0)] == X
    ensures Insert(Insert(New(TicTacToe), Coordinates(0, 0), X).value, Coordinates(0, 0), X) == Err(AlreadyDefined)
    ensures Insert(Insert(New(TicTacToe), Coordinates(0, 0), X).value, Coordinates(0, 0), O) == Err(AlreadyDefined)
  {
  }

  /** The 3 by 3 board with no move made. */
  const Board3: Board := New(TicTacToe)

  /** The chain `b.insert(c0, p).unwrap().insert(c1, p).unwrap()…` of a test. */
  function InsertAll(b: Board, cs: seq<Coordinates>, p: Player): Result<Board>
    decreases |cs|
  {
    if cs == [] then Ok(b)
    else match Insert(b, cs[0], p)
      case Err(e) => Err(e)
      case Ok(nb) => InsertAll(nb, cs[1..], p)
  }

  /** Distinct free on-board cells are all taken, one more occupied cell each. */
  lemma {:induction false} InsertAllCount(b: Board, cs: seq<Coordinates>, p: Player)
    requires Distinct(cs)
    requires forall i :: 0 <= i < |cs| ==> OnBoard(b, cs[i]) && cs[i] !in b.cells
    ensures InsertAll(b, cs, p).Ok?
    ensures |InsertAll(b, cs, p).value.cells| == |b.cells| + |cs|
    ensures InsertAll(b, cs, p).value.minX == b.minX && InsertAll(b, cs, p).value.maxX == b.maxX
    ensures InsertAll(b, cs, p).value.minY == b.minY && InsertAll(b, cs, p).value.maxY == b.maxY
    decreases |cs|
  {
    if cs != [] {
      var nb := Insert(b, cs[0], p).value;
      assert forall i :: 0 <= i < |cs[1..]| ==> cs[1..][i] == cs[i + 1];
      InsertAllCount(nb, cs[1..], p);
    }
  }

  /** The nine cells of the 3 by 3 board, row by row. */
  const Cells3: seq<Coordinates> := [
    Coordinates(-1, -1), Coordinates(0, -1), Coordinates(1, -1),
    Coordinates(-1, 0), Coordinates(0, 0), Coordinates(1, 0),
    Coordinates(-1, 1), Coordinates(0, 1), Coordinates(1, 1)]

  /** No cell is listed twice. */
  lemma Cells3Distinct()
    ensures Distinct(Cells3)
  {
  }

  /** An empty board is no draw. */
  lemma EmptyIsNoDraw()
    ensures !IsDraw(Board3)
  {
  }

  /** Eight marks leave a cell free: no draw. */
  lemma EightMarksNoDraw()
    ensures InsertAll(Board3, Cells3[..8], X).Ok? && !IsDraw(InsertAll(Board3, Cells3[..8], X).value)
  {
    Cells3Distinct();
    InsertAllCount(Board3, Cells3[..8], X);
  }

  /**
   * Nine marks fill the board: a draw. (`Cells3[..9]` is all of `Cells3`;
   * the slice keeps the solver from unrolling the chain on a literal.)
   */
  lemma NineMarksDraw()
    ensures InsertAll(Board3, Cells3[..9], X).Ok? && IsDraw(InsertAll(Board3, Cells3[..9], X).value)
  {
    Cells3Distinct();
    InsertAllCount(Board3, Cells3[..9], X);
  }

  /** `b` has the bounds of the 3 by 3 board, whatever its marks. */
  predicate Bounds3(b: Board) {
    b.minX == -1 && b.maxX == 1 && b.minY == -1 && b.maxY == 1
  }

  /** Every cell of the 3 by 3 board can have its lines enumerated. */
  lemma Enumerable3(b: Board, c: Coordinates)
    requires Bounds3(b) && OnBoard(b, c)
    ensures Enumerable(b, c)
  {
  }

  /** The rows and columns through the cells the tests play. */
  lemma StraightLines3(b: Board)
    requires Bounds3(b)
    ensures RowLine(b, -1) == [Coordinates(-1, -1), Coordinates(0, -1), Coordinates(1, -1)]
    ensures RowLine(b, 0) == [Coordinates(-1, 0), Coordinates(0, 0), Coordinates(1, 0)]
    ensures ColumnLine(b, -1) == [Coordinates(-1, -1), Coordinates(-1, 0), Coordinates(-1, 1)]
    ensures ColumnLine(b, 0) == [Coordinates(0, -1), Coordinates(0, 0), Coordinates(0, 1)]
    ensures ColumnLine(b, 1) == [Coordinates(1, -1), Coordinates(1, 0), Coordinates(1, 1)]
  {
  }

  /** The diagonal from `(-1,-1)` to `(1,1)`: the ends of the offset range fall off the board. */
  lemma Diagonal3(b: Board)
    requires Bounds3(b)
    ensures KeepOnBoard(b, RawDiagonal(b)) == [Coordinates(-1, -1), Coordinates(0, 0), Coordinates(1, 1)]
  {
    var s := RawDiagonal(b);
    assert s == [Coordinates(-2, -2), Coordinates(-1, -1), Coordinates(0, 0), Coordinates(1, 1), Coordinates(2, 2)];
    KeepOnBoardBlock(b, s, 1, 4);
  }

  /** The diagonal from `(-1,1)` to `(1,-1)`. */
  lemma AntiDiagonal3(b: Board)
    requires Bounds3(b)
    ensures KeepOnBoard(b, RawAntiDiagonal(b)) == [Coordinates(-1, 1), Coordinates(0, 0), Coordinates(1, -1)]
  {
    var s := RawAntiDiagonal(b);
    assert s == [Coordinates(-2, 2), Coordinates(-1, 1), Coordinates(0, 0), Coordinates(1, -1), Coordinates(2, -2)];
    KeepOnBoardBlock(b, s, 1, 4);
  }

  /** The four candidate lines through `c` on the 3 by 3 board. */
  lemma Candidates3(b: Board, c: Coordinates)
    requires Bounds3(b) && Enumerable(b, c) && OnBoard(b, c)
    ensures Candidates(b, c) == [RowLine(b, c.y), ColumnLine(b, c.x),
      [Coordinates(-1, -1), Coordinates(0, 0), Coordinates(1, 1)],
      [Coordinates(-1, 1), Coordinates(0, 0), Coordinates(1, -1)]]
  {
    Diagonal3(b);
    AntiDiagonal3(b);
    RowCandidate(b, c);
    ColumnCandidate(b, c);
  }

  /** Whatever the marks, the centre lies on four lines: its row, its column and both diagonals. */
  lemma CentreLines(b: Board)
    requires Bounds3(b)
    ensures AffectedRows(b, Coordinates(0, 0)) == [
      [Coordinates(-1, 0), Coordinates(0, 0), Coordinates(1, 0)],
      [Coordinates(0, -1), Coordinates(0, 0), Coordinates(0, 1)],
      [Coordinates(-1, -1), Coordinates(0, 0), Coordinates(1, 1)],
      [Coordinates(-1, 1), Coordinates(0, 0), Coordinates(1, -1)]]
  {
    StraightLines3(b);
    Candidates3(b, Coordinates(0, 0));
    AllKept(
      [Coordinates(-1, 0), Coordinates(0, 0), Coordinates(1, 0)],
      [Coordinates(0, -1), Coordinates(0, 0), Coordinates(0, 1)],
      [Coordinates(-1, -1), Coordinates(0, 0), Coordinates(1, 1)],
      [Coordinates(-1, 1), Coordinates(0, 0), Coordinates(1, -1)],
      Coordinates(0, 0));
  }

  /** Four different lines that all hold `c` are all kept, in order. */
  lemma AllKept(l0: seq<Coordinates>, l1: seq<Coordinates>, l2: seq<Coordinates>, l3: seq<Coordinates>, c: Coordinates)
    requires c in l0 && c in l1 && c in l2 && c in l3
    requires l0 != l1 && l0 != l2 && l0 != l3 && l1 != l2 && l1 != l3 && l2 != l3
    ensures Unique(Containing([l0, l1, l2, l3], c)) == [l0, l1, l2, l3]
  {
    var lines := [l0, l1, l2, l3];
    ContainingAll(lines, c);
    DistinctFour(l0, l1, l2, l3);
    UniqueOfDistinct(lines);
  }

  /** Whatever the marks, a corner lies on three lines: its row, its column and one diagonal. */
  lemma CornerLines(b: Board)
    requires Bounds3(b)
    ensures AffectedRows(b, Coordinates(-1, -1)) == [
      [Coordinates(-1, -1), Coordinates(0, -1), Coordinates(1, -1)],
      [Coordinates(-1, -1), Coordinates(-1, 0), Coordinates(-1, 1)],
      [Coordinates(-1, -1), Coordinates(0, 0), Coordinates(1, 1)]]
  {
    var row := [Coordinates(-1, -1), Coordinates(0, -1), Coordinates(1, -1)];
    var col := [Coordinates(-1, -1), Coordinates(-1, 0), Coordinates(-1, 1)];
    var diag := [Coordinates(-1, -1), Coordinates(0, 0), Coordinates(1, 1)];
    var anti := [Coordinates(-1, 1), Coordinates(0, 0), Coordinates(1, -1)];
    StraightLines3(b);
    Candidates3(b, Coordinates(-1, -1));
    assert row[1] != col[1] && row[1] != diag[1] && col[1] != diag[1];
    FirstThreeKept(row, col, diag, anti, Coordinates(-1, -1));
  }

  lemma DistinctFour<T>(a: T, b: T, c: T, d: T)
    requires a != b && a != c && a != d && b != c && b != d && c != d
    ensures Distinct([a, b, c, d])
  {
  }

  /** Of four lines of which the first three, all different, hold `c`, those three are kept. */
  lemma FirstThreeKept(l0: seq<Coordinates>, l1: seq<Coordinates>, l2: seq<Coordinates>, l3: seq<Coordinates>, c: Coordinates)
    requires c in l0 && c in l1 && c in l2 && c !in l3
    requires l0 != l1 && l0 != l2 && l1 != l2
    ensures Unique(Containing([l0, l1, l2, l3], c)) == [l0, l1, l2]
  {
    ContainingNone([l3], c);
    assert [l2, l3][1..] == [l3];
    assert Containing([l2, l3], c) == [l2];
    assert [l1, l2, l3][1..] == [l2, l3];
    assert Containing([l1, l2, l3], c) == [l1, l2];
    assert [l0, l1, l2, l3][1..] == [l1, l2, l3];
    assert Containing([l0, l1, l2, l3], c) == [l0, l1, l2];
    assert Distinct([l0, l1, l2]);
    UniqueOfDistinct([l0, l1, l2]);
  }

  /** Whatever the marks, a cell in the middle of an edge lies on two lines: its row and its column. */
  lemma EdgeLines(b: Board)
    requires Bounds3(b)
    ensures AffectedRows(b, Coordinates(-1, 0)) == [
      [Coordinates(-1, 0), Coordinates(0, 0), Coordinates(1, 0)],
      [Coordinates(-1, -1), Coordinates(-1, 0), Coordinates(-1, 1)]]
  {
    StraightLines3(b);
    OffDiagonalCellLines(b, Coordinates(-1, 0));
  }

  /** `X` on the two left cells of the top row. */
  const TwoInRow: Board := Insert(Insert(Board3, Coordinates(-1, -1), X).value, Coordinates(0, -1), X).value

  /** The same, with `O` on the right cell of that row. */
  const Blocked: Board := Insert(TwoInRow, Coordinates(1, -1), O).value

  /** The same, with `X` on the right cell of that row. */
  const ThreeInRow: Board := Insert(TwoInRow, Coordinates(1, -1), X).value

  /** The right cell of the top row is no win while it is empty. */
  lemma WinningMoveMissing()
    ensures !IsWinningMove(TwoInRow, Coordinates(1, -1), 3)
  {
    UnoccupiedNeverWins(TwoInRow, Coordinates(1, -1), 3);
  }

  /** The marks of the blocked top row. */
  lemma BlockedMarks()
    ensures Bounds3(Blocked)
    ensures Blocked.cells == map[Coordinates(-1, -1) := X, Coordinates(0, -1) := X, Coordinates(1, -1) := O]
  {
  }

  /** The marks of the full top row. */
  lemma ThreeInRowMarks()
    ensures Bounds3(ThreeInRow)
    ensures ThreeInRow.cells == map[Coordinates(-1, -1) := X, Coordinates(0, -1) := X, Coordinates(1, -1) := X]
  {
  }

  /** Two `X` and an `O` in a row are no win for anybody. */
  lemma WinningMoveBlocked()
    ensures !IsWinningMove(Blocked, Coordinates(1, -1), 3)
  {
    BlockedMarks();
    NoRunThroughTopRight(Blocked);
  }

  /**
   * With different players at the two ends of the top row, and the middle of
   * the right column and the bottom left corner empty, no line through the
   * top right cell is held by one player.
   */
  lemma NoRunThroughTopRight(b: Board)
    requires Bounds3(b)
    requires Coordinates(-1, -1) in b.cells && Coordinates(1, -1) in b.cells
    requires b.cells[Coordinates(-1, -1)] != b.cells[Coordinates(1, -1)]
    requires Coordinates(1, 0) !in b.cells && Coordinates(-1, 1) !in b.cells
    ensures !IsWinningMove(b, Coordinates(1, -1), 3)
  {
    var c := Coordinates(1, -1);
    AffectedRowsOfOnBoardCell(b, c);
    IsWinningMoveMeaning(b, c, 3);
    forall l, lo, p | l in AffectedRows(b, c)
      ensures !HeldRunAt(b, c, l, lo, 3, p)
    {
      if l == RowLine(b, -1) {
        MixedRowNotHeld(b, lo, p);
      } else if l == ColumnLine(b, 1) {
        GapNotHeld(b, l, 1, lo, p);
      } else {
        AntiDiagonal3(b);
        GapNotHeld(b, l, 0, lo, p);
      }
    }
  }

  /** Different players at the two ends of the top row: no player holds it. */
  lemma MixedRowNotHeld(b: Board, lo: int, p: Player)
    requires Bounds3(b)
    requires Coordinates(-1, -1) in b.cells && Coordinates(1, -1) in b.cells
    requires b.cells[Coordinates(-1, -1)] != b.cells[Coordinates(1, -1)]
    ensures !HeldRunAt(b, Coordinates(1, -1), RowLine(b, -1), lo, 3, p)
  {
    var row := RowLine(b, -1);
    if 0 <= lo && lo + 3 <= |row| {
      assert lo == 0 && row[0..3] == row;
      assert row[0] == Coordinates(-1, -1) && row[2] == Coordinates(1, -1);
      assert row[0] in row && row[2] in row;
    }
  }

  /** A line of three with its cell `i` empty is held by nobody. */
  lemma GapNotHeld(b: Board, l: seq<Coordinates>, i: nat, lo: int, p: Player)
    requires |l| == 3 && i < 3 && l[i] !in b.cells
    ensures !HeldRunAt(b, Coordinates(1, -1), l, lo, 3, p)
  {
    if 0 <= lo && lo + 3 <= |l| {
      assert lo == 0 && l[0..3] == l;
      assert l[i] in l;
    }
  }

  /** Three `X` in the top row: playing its right cell wins. */
  lemma WinningMoveFound()
    ensures IsWinningMove(ThreeInRow, Coordinates(1, -1), 3)
  {
    ThreeInRowMarks();
    TopRowWins(ThreeInRow);
  }

  /** A top row held by `X` wins through its right cell. */
  lemma TopRowWins(b: Board)
    requires Bounds3(b)
    requires forall d :: d in RowLine(b, -1) ==> d in b.cells && b.cells[d] == X
    ensures IsWinningMove(b, Coordinates(1, -1), 3)
  {
    TopRowRun(b);
    IsWinningMoveMeaning(b, Coordinates(1, -1), 3);
  }

  /** Such a top row is a run of three through its right cell held by `X`. */
  lemma TopRowRun(b: Board)
    requires Bounds3(b)
    requires forall d :: d in RowLine(b, -1) ==> d in b.cells && b.cells[d] == X
    ensures Enumerable(b, Coordinates(1, -1))
    ensures exists l, lo, p :: l in AffectedRows(b, Coordinates(1, -1)) && HeldRunAt(b, Coordinates(1, -1), l, lo, 3, p)
  {
    var c, row := Coordinates(1, -1), RowLine(b, -1);
    Enumerable3(b, c);
    RowCandidate(b, c);
    assert row in Candidates(b, c);
    assert |row| == 3 && row[2] == c;
    assert row[0..3] == row;
    assert HeldRunAt(b, c, row, 0, 3, X);
  }

  /** The text `-1,-1` reads as that cell. */
  lemma ParseMinusOneMinusOne()
    ensures FromStr("-1,-1") == Ok(Coordinates(-1, -1))
  {
    LabelRoundTrip(-1, -1);
    assert Label(-1, -1) == "-1,-1";
  }

  /** The text `-1,0` reads as that cell. */
  lemma ParseMinusOneZero()
    ensures FromStr("-1,0") == Ok(Coordinates(-1, 0))
  {
    LabelRoundTrip(-1, 0);
    assert Label(-1, 0) == "-1,0";
  }

  /** The text `-1,1` reads as that cell. */
  lemma ParseMinusOneOne()
    ensures FromStr("-1,1") == Ok(Coordinates(-1, 1))
  {
    LabelRoundTrip(-1, 1);
    assert Label(-1, 1) == "-1,1";
  }

  /** A sign other than `-` is refused. */
  lemma ParseRefusesPlus()
    ensures FromStr("+1,1") == Err(ParseError)
  {
  }

  /** Surrounding space is refused: the pattern is anchored at both ends. */
  lemma ParseRefusesSpace()
    ensures FromStr(" 1,1") == Err(ParseError)
  {
  }

  /** Letters, a missing number and a missing comma are refused. */
  lemma ParseRefusesNonNumerals()
    ensures FromStr("a,b") == Err(ParseError)
    ensures FromStr("1,") == Err(ParseError)
    ensures FromStr("1;1") == Err(ParseError)
  {
  }

  /** A numeral beyond `i8` is refused although it matches the pattern. */
  lemma ParseOutOfRange()
    ensures FromStr("128,0") == Err(ParseError)
  {
    var s := "128,0";
    assert MatchesAt(s, 3);
    DigitsValueOfThree('1', '2', '8');
    assert s[..3] == ['1', '2', '8'];
    FromStrMeaning(s);
  }

  /** The cell size of the 3 by 3 board: twice the width of `-1`, plus three. */
  lemma CellSize3(b: Board)
    requires Bounds3(b)
    ensures CellSize(b) == 7
  {
    assert ToDecimal(-1) == "-1" && ToDecimal(1) == "1";
  }

  /** The labels of the top row. */
  lemma TopRowLabels()
    ensures Label(-1, -1) == "-1,-1" && Label(0, -1) == "0,-1" && Label(1, -1) == "1,-1"
  {
    assert ToDecimal(-1) == "-1" && ToDecimal(0) == "0" && ToDecimal(1) == "1";
  }

  /** The first row of the empty 3 by 3 board. */
  lemma FirstRowText()
    ensures BoardText.RowCells(Board3, -1) == [" -1,-1 ", " 0,-1  ", " 1,-1  "]
  {
    var cells := BoardText.RowCells(Board3, -1);
    CellSize3(Board3);
    RowCellsAt(Board3, -1, 0);
    RowCellsAt(Board3, -1, 1);
    RowCellsAt(Board3, -1, 2);
    TopRowLabels();
    assert CellText(Board3, -1, -1) == "-1,-1" && CellText(Board3, 0, -1) == "0,-1" && CellText(Board3, 1, -1) == "1,-1";
    CenterPads("-1,-1", 7);
    CenterPads("0,-1", 7);
    CenterPads("1,-1", 7);
    assert cells[0] == " -1,-1 " && cells[1] == " 0,-1  " && cells[2] == " 1,-1  ";
  }

  /** The text of the empty 3 by 3 board has five lines; the first is a row of labels. */
  lemma FirstLineText()
    ensures |TextLines(Board3)| == 5
    ensures TextLines(Board3)[0] == " -1,-1 | 0,-1  | 1,-1  "
  {
    var lines := Lines(Board3);
    assert |lines| == 5;
    LineAt(Board3, 0);
    FirstRowText();
    JoinThree(" -1,-1 ", " 0,-1  ", " 1,-1  ", "|");
    assert TextLines(Board3)[0] == Join(lines[0], "|");
  }

  /** The second line of that text is dashes and bars. */
  lemma SecondLineText()
    ensures |TextLines(Board3)| == 5
    ensures TextLines(Board3)[1] == "-------|-------|-------"
  {
    var lines := Lines(Board3);
    assert |lines| == 5;
    LineAt(Board3, 1);
    CellSize3(Board3);
    var dashes := Repeat('-', 7);
    assert dashes == "-------";
    assert Separator(Board3) == [dashes, dashes, dashes];
    JoinThree(dashes, dashes, dashes, "|");
    assert TextLines(Board3)[1] == Join(lines[1], "|");
  }

  lemma JoinThree(a: string, b: string, c: string, sep: string)
    ensures Join([a, b, c], sep) == a + sep + b + sep + c
  {
    assert [b, c][1..] == [c];
    assert Join([b, c], sep) == b + sep + c;
    assert [a, b, c][1..] == [b, c];
  }
}
