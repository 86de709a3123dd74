/**
 * `Board::to_string`: the board as a text grid, one line of cells per row
 * from `min_y` to `max_y`, rows separated by lines of dashes, cells by `|`.
 */
module BoardText {
  import opened Wrappers
  import opened Numbers
  import opened Players
  import opened Coords
  import opened Sequences
  import opened Boards

  function Repeat(ch: char, n: nat): (r: string)
    ensures |r| == n && forall i :: 0 <= i < n ==> r[i] == ch
  {
    seq(n, _ => ch)
  }

  /** `format!("{: ^1$}", s, w)`: `s` centred in `w` columns, the odd space on the right. */
  function Center(s: string, w: nat): (r: string)
    ensures |r| == if |s| >= w then |s| else w
    ensures |s| >= w ==> r == s
  {
    if |s| >= w then s
    else
      var pad := w - |s|;
      Repeat(' ', pad / 2) + s + Repeat(' ', pad - pad / 2)
  }

  function Max(a: nat, b: nat): nat {
    if a >= b then a else b
  }

  /** Twice the longest text of the four bounds, plus three. */
  function CellSize(b: Board): nat {
    var widest := Max(Max(|ToDecimal(b.minX)|, |ToDecimal(b.maxX)|),
                      Max(|ToDecimal(b.minY)|, |ToDecimal(b.maxY)|));
    widest * 2 + 3
  }

  /** The occupant's name, or the cell's own `x,y` label when it is empty. */
  function CellText(b: Board, x: int8, y: int8): string {
    match Get(b.cells, Coordinates(x, y))
    case None => Label(x, y)
    case Some(p) => Tag(p)
  }

  /** The centred cells of row `y`, from `min_x` to `max_x`. */
  function RowCells(b: Board, y: int8): (r: seq<string>)
    ensures |r| == RangeLen(b.minX as int, b.maxX as int)
  {
    var cs := CellSize(b);
    seq(RangeLen(b.minX as int, b.maxX as int), i requires 0 <= i < RangeLen(b.minX as int, b.maxX as int) =>
      Center(CellText(b, (b.minX as int + i) as int8, y), cs))
  }

  /** One dash run per column: the line between two rows. */
  function Separator(b: Board): (r: seq<string>)
    ensures |r| == RangeLen(b.minX as int, b.maxX as int)
  {
    seq(RangeLen(b.minX as int, b.maxX as int), _ => Repeat('-', CellSize(b)))
  }

  /** The rows from `min_y` to `max_y` with a separator between each two. */
  function Lines(b: Board): seq<seq<string>> {
    Intersperse(Rows(b), Separator(b))
  }

  /** The rows of cells from `min_y` to `max_y`. */
  function Rows(b: Board): (r: seq<seq<string>>)
    ensures |r| == RangeLen(b.minY as int, b.maxY as int)
  {
    seq(RangeLen(b.minY as int, b.maxY as int), j requires 0 <= j < RangeLen(b.minY as int, b.maxY as int) =>
      RowCells(b, (b.minY as int + j) as int8))
  }

  /** Each line's cells joined by `|`. */
  function TextLines(b: Board): (r: seq<string>)
    ensures |r| == |Lines(b)|
  {
    var lines := Lines(b);
    seq(|lines|, i requires 0 <= i < |lines| => Join(lines[i], "|"))
  }

  /** `Board::to_string`: the lines joined by newlines. */
  function ToString(b: Board): string {
    Join(TextLines(b), "\n")
  }

  /** A label of an on-board cell always fits in a cell. */
  lemma LabelFits(b: Board, x: int8, y: int8)
    requires b.minX <= x <= b.maxX && b.minY <= y <= b.maxY
    ensures |Label(x, y)| < CellSize(b)
  {
    ToDecimalDenotes(x);
    ToDecimalDenotes(y);
    ToDecimalDenotes(b.minX);
    ToDecimalDenotes(b.maxX);
    ToDecimalDenotes(b.minY);
    ToDecimalDenotes(b.maxY);
    DecimalWidthBetween(b.minX as int, x as int, b.maxX as int);
    DecimalWidthBetween(b.minY as int, y as int, b.maxY as int);
  }

  /** The text of an on-board cell fits in a cell. */
  lemma CellTextFits(b: Board, x: int8, y: int8)
    requires b.minX <= x <= b.maxX && b.minY <= y <= b.maxY
    ensures |CellText(b, x, y)| < CellSize(b)
  {
    if Coordinates(x, y) !in b.cells {
      LabelFits(b, x, y);
    }
  }

  /** Every cell of every row is exactly one cell size wide. */
  lemma RowCellsWidth(b: Board, y: int8)
    requires b.minY <= y <= b.maxY
    ensures forall i :: 0 <= i < |RowCells(b, y)| ==> |RowCells(b, y)[i]| == CellSize(b)
  {
    var cells := RowCells(b, y);
    forall i | 0 <= i < |cells| ensures |cells[i]| == CellSize(b) {
      var x := (b.minX as int + i) as int8;
      CellTextFits(b, x, y);
      assert cells[i] == Center(CellText(b, x, y), CellSize(b));
    }
  }

  /** Row `j` of the grid holds the cells of `y = min_y + j`. */
  lemma RowsAt(b: Board, j: nat)
    requires j < RangeLen(b.minY as int, b.maxY as int)
    ensures b.minY as int + j <= b.maxY as int
    ensures Rows(b)[j] == RowCells(b, (b.minY as int + j) as int8)
  {
  }

  /** Line `i` is a row of cells when `i` is even and a separator when it is odd. */
  lemma LineAt(b: Board, i: nat)
    requires b.minY <= b.maxY && i < |Lines(b)|
    ensures i % 2 == 0 ==> b.minY as int + i / 2 <= b.maxY as int
    ensures i % 2 == 0 ==> Lines(b)[i] == RowCells(b, (b.minY as int + i / 2) as int8)
    ensures i % 2 == 1 ==> Lines(b)[i] == Separator(b)
  {
    var rows := Rows(b);
    IntersperseAt(rows, Separator(b), i);
    if i % 2 == 0 {
      RowsAt(b, i / 2);
    }
  }

  /** A row of cells, joined by bars, is `w` cells and `w - 1` bars wide. */
  lemma RowTextWidth(b: Board, y: int8)
    requires b.minX <= b.maxX && b.minY <= y <= b.maxY
    ensures var w := RangeLen(b.minX as int, b.maxX as int);
      |Join(RowCells(b, y), "|")| == w * CellSize(b) + (w - 1)
  {
    RowCellsWidth(b, y);
    JoinLength(RowCells(b, y), "|", CellSize(b));
  }

  /** A separator line is exactly as wide as a row. */
  lemma SeparatorTextWidth(b: Board)
    requires b.minX <= b.maxX
    ensures var w := RangeLen(b.minX as int, b.maxX as int);
      |Join(Separator(b), "|")| == w * CellSize(b) + (w - 1)
  {
    JoinLength(Separator(b), "|", CellSize(b));
  }

  /** Every line of the text has the same width. */
  lemma LineWidth(b: Board, i: nat)
    requires b.minX <= b.maxX && b.minY <= b.maxY && i < |TextLines(b)|
    ensures var w := RangeLen(b.minX as int, b.maxX as int);
      |TextLines(b)[i]| == w * CellSize(b) + (w - 1)
  {
    LineAt(b, i);
    assert TextLines(b)[i] == Join(Lines(b)[i], "|");
    if i % 2 == 0 {
      RowTextWidth(b, (b.minY as int + i / 2) as int8);
    } else {
      SeparatorTextWidth(b);
    }
  }

  /**
   * The text is a rectangle: `2h - 1` lines for `h` rows, every line `w`
   * cells of one size and `w - 1` bars wide.
   */
  lemma RenderedShape(b: Board)
    requires b.minX <= b.maxX && b.minY <= b.maxY
    ensures var w, h := RangeLen(b.minX as int, b.maxX as int), RangeLen(b.minY as int, b.maxY as int);
      |TextLines(b)| == 2 * h - 1
      && forall i :: 0 <= i < |TextLines(b)| ==> |TextLines(b)[i]| == w * CellSize(b) + (w - 1)
  {
    var w := RangeLen(b.minX as int, b.maxX as int);
    var text := TextLines(b);
    forall i | 0 <= i < |text| ensures |text[i]| == w * CellSize(b) + (w - 1) {
      LineWidth(b, i);
    }
  }

  /** Cell `i` of row `y` is the text of `x = min_x + i`, centred in a cell. */
  lemma RowCellsAt(b: Board, y: int8, i: nat)
    requires i < RangeLen(b.minX as int, b.maxX as int)
    ensures b.minX as int + i <= b.maxX as int
    ensures RowCells(b, y)[i] == Center(CellText(b, (b.minX as int + i) as int8, y), CellSize(b))
  {
  }

  /** A text shorter than the width is padded on both sides. */
  lemma CenterPads(s: string, w: nat)
    requires |s| < w
    ensures Center(s, w) == Repeat(' ', (w - |s|) / 2) + s + Repeat(' ', (w - |s|) - (w - |s|) / 2)
  {
  }

  /** A centred text shorter than the width is that text with spaces on both sides. */
  lemma CenteredIsPadded(s: string, w: nat)
    requires |s| < w
    ensures exists l: nat, r: nat :: Center(s, w) == Repeat(' ', l) + s + Repeat(' ', r)
  {
    CenterPads(s, w);
    var l, r := (w - |s|) / 2, (w - |s|) - (w - |s|) / 2;
    assert Center(s, w) == Repeat(' ', l) + s + Repeat(' ', r);
  }

  /**
   * An empty on-board cell shows its own label, centred; the label reads
   * back as that cell's coordinates.
   */
  lemma EmptyCellShowsLabel(b: Board, x: int8, y: int8)
    requires b.minX <= x <= b.maxX && b.minY <= y <= b.maxY
    requires Coordinates(x, y) !in b.cells
    ensures var cell := RowCells(b, y)[x as int - b.minX as int];
      exists l: nat, r: nat :: cell == Repeat(' ', l) + Label(x, y) + Repeat(' ', r)
    ensures FromStr(Label(x, y)) == Ok(Coordinates(x, y))
  {
    LabelFits(b, x, y);
    LabelRoundTrip(x, y);
    RowCellsAt(b, y, x as int - b.minX as int);
    assert CellText(b, x, y) == Label(x, y);
    CenteredIsPadded(Label(x, y), CellSize(b));
  }

  /** An occupied on-board cell shows its occupant's name, centred. */
  lemma OccupiedCellShowsTag(b: Board, x: int8, y: int8)
    requires b.minX <= x <= b.maxX && b.minY <= y <= b.maxY
    requires Coordinates(x, y) in b.cells
    ensures var cell := RowCells(b, y)[x as int - b.minX as int];
      exists l: nat, r: nat :: cell == Repeat(' ', l) + Tag(b.cells[Coordinates(x, y)]) + Repeat(' ', r)
  {
    CellTextFits(b, x, y);
    RowCellsAt(b, y, x as int - b.minX as int);
    assert CellText(b, x, y) == Tag(b.cells[Coordinates(x, y)]);
    CenteredIsPadded(CellText(b, x, y), CellSize(b));
  }
}
