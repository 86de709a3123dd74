/**
 * The board: an immutable map from occupied cells to players, with four
 * inclusive bounds. Every change yields a new board; the old one is untouched.
 */
module Boards {
  import opened Wrappers
  import opened Numbers
  import opened Players
  import opened Coords
  import opened Games
  import opened Sequences

  datatype Board = Board(cells: map<Coordinates, Player>, minX: int8, maxX: int8, minY: int8, maxY: int8)

  const OutOfBounds: string := "OutOfBounds"
  const AlreadyDefined: string := "AlreadyDefined"

  /** `c` lies within the board's bounds. */
  predicate OnBoard(b: Board, c: Coordinates) {
    b.minX <= c.x <= b.maxX && b.minY <= c.y <= b.maxY
  }

  /** Every occupied cell lies within the bounds. */
  ghost predicate WellFormed(b: Board) {
    forall c :: c in b.cells ==> OnBoard(b, c)
  }

  /** `Board::new`: no occupied cell, the game's bounds. */
  function New(g: Game): (b: Board)
    ensures |b.cells| == 0 && WellFormed(b)
    ensures b.minX == g.minX && b.maxX == g.maxX && b.minY == g.minY && b.maxY == g.maxY
  {
    Board(map[], g.minX, g.maxX, g.minY, g.maxY)
  }

  /**
   * `Board::insert`: refuses a cell outside the bounds (checked first), then
   * an occupied cell; otherwise a new board with one more occupied cell.
   */
  function Insert(b: Board, c: Coordinates, p: Player): (r: Result<Board>)
    ensures !OnBoard(b, c) ==> r == Err(OutOfBounds)
    ensures OnBoard(b, c) && c in b.cells ==> r == Err(AlreadyDefined)
    ensures OnBoard(b, c) && c !in b.cells ==>
      r.Ok? && r.value.cells == b.cells[c := p]
      && r.value.minX == b.minX && r.value.maxX == b.maxX
      && r.value.minY == b.minY && r.value.maxY == b.maxY
  {
    if !OnBoard(b, c) then Err(OutOfBounds)
    else if c in b.cells then Err(AlreadyDefined)
    else Ok(b.(cells := b.cells[c := p]))
  }

  /** A successful insert keeps every occupied cell on the board and adds exactly one. */
  lemma InsertKeepsWellFormed(b: Board, c: Coordinates, p: Player)
    requires WellFormed(b) && Insert(b, c, p).Ok?
    ensures WellFormed(Insert(b, c, p).value)
    ensures |Insert(b, c, p).value.cells| == |b.cells| + 1
    ensures Insert(b, c, p).value.cells.Keys == b.cells.Keys + {c}
  {
  }

  /** `(lo..=hi).len()`: the number of integers from `lo` to `hi`. */
  function RangeLen(lo: int, hi: int): nat {
    if lo <= hi then hi - lo + 1 else 0
  }

  /** `Board::is_draw`: at least as many occupied cells as the bounds enclose. */
  function IsDraw(b: Board): bool {
    |b.cells| >= RangeLen(b.minX as int, b.maxX as int) * RangeLen(b.minY as int, b.maxY as int)
  }

  // ---------------------------------------------------------------------------
  // The set of all cells, and why `is_draw` means "no empty cell left"

  ghost function RowCells(x0: int, x1: int, y: int8): (r: set<Coordinates>)
    requires -128 <= x0 && x1 <= 127
  {
    set x: int8 | x0 <= x as int <= x1 :: Coordinates(x, y)
  }

  ghost function RectCells(x0: int, x1: int, y0: int, y1: int): (r: set<Coordinates>)
    requires -128 <= x0 && x1 <= 127 && -128 <= y0 && y1 <= 127
  {
    set x: int8, y: int8 | x0 <= x as int <= x1 && y0 <= y as int <= y1 :: Coordinates(x, y)
  }

  /** Every cell within the bounds. */
  ghost function AllCells(b: Board): (r: set<Coordinates>)
    ensures forall c :: c in r <==> OnBoard(b, c)
  {
    RectCells(b.minX as int, b.maxX as int, b.minY as int, b.maxY as int)
  }

  lemma {:induction false} RowCellsCount(x0: int, x1: int, y: int8)
    requires -128 <= x0 && x1 <= 127
    ensures |RowCells(x0, x1, y)| == RangeLen(x0, x1)
    decreases x1 - x0
  {
    if x0 <= x1 {
      RowCellsCount(x0, x1 - 1, y);
      assert RowCells(x0, x1, y) == RowCells(x0, x1 - 1, y) + {Coordinates(x1 as int8, y)};
    } else {
      assert RowCells(x0, x1, y) == {};
    }
  }

  lemma {:induction false} RectCellsCount(x0: int, x1: int, y0: int, y1: int)
    requires -128 <= x0 && x1 <= 127 && -128 <= y0 && y1 <= 127
    ensures |RectCells(x0, x1, y0, y1)| == RangeLen(x0, x1) * RangeLen(y0, y1)
    decreases y1 - y0
  {
    if y0 <= y1 {
      var below, top := RectCells(x0, x1, y0, y1 - 1), RowCells(x0, x1, y1 as int8);
      RectCellsCount(x0, x1, y0, y1 - 1);
      RowCellsCount(x0, x1, y1 as int8);
      RectSplitsIntoRows(x0, x1, y0, y1);
      assert |below + top| == |below| + |top|;
      var w, h := RangeLen(x0, x1), RangeLen(y0, y1);
      assert RangeLen(y0, y1 - 1) == h - 1;
      MulSucc(w, h - 1);
    } else {
      assert RectCells(x0, x1, y0, y1) == {};
    }
  }

  lemma MulSucc(w: int, h: int)
    ensures w * h + w == w * (h + 1)
  {
  }

  lemma RectSplitsIntoRows(x0: int, x1: int, y0: int, y1: int)
    requires -128 <= x0 && x1 <= 127 && -128 <= y0 <= y1 <= 127
    ensures RectCells(x0, x1, y0, y1) == RectCells(x0, x1, y0, y1 - 1) + RowCells(x0, x1, y1 as int8)
    ensures RectCells(x0, x1, y0, y1 - 1) !! RowCells(x0, x1, y1 as int8)
  {
  }

  /**
   * On a well-formed board the `>=` of `is_draw` can only be met with
   * equality: the board is a draw exactly when every cell is occupied.
   */
  lemma DrawIffFull(b: Board)
    requires WellFormed(b)
    ensures IsDraw(b) <==> b.cells.Keys == AllCells(b)
    ensures |b.cells| <= RangeLen(b.minX as int, b.maxX as int) * RangeLen(b.minY as int, b.maxY as int)
  {
    RectCellsCount(b.minX as int, b.maxX as int, b.minY as int, b.maxY as int);
    assert b.cells.Keys <= AllCells(b);
    assert |b.cells.Keys| == |b.cells|;
    if b.cells.Keys != AllCells(b) {
      var missing := AllCells(b) - b.cells.Keys;
      assert AllCells(b) == b.cells.Keys + missing;
      assert missing != {};
    }
  }

  // ---------------------------------------------------------------------------
  // The lines through a cell (`affected_rows`)

  /** `max - min` of one axis. */
  function Span(lo: int8, hi: int8): int {
    hi as int - lo as int
  }

  /**
   * The two diagonals can be built without a panic: `max - min` and its
   * negation fit in `i8` on both axes, and `zip_eq` pairs ranges of equal length.
   */
  predicate DiagonalsDefined(b: Board) {
    var xs, ys := Span(b.minX, b.maxX), Span(b.minY, b.maxY);
    && -127 <= xs <= 127 && -127 <= ys <= 127
    && RangeLen(-xs, xs) == RangeLen(-ys, ys)
  }

  /**
   * `affected_rows(c)` runs without a panic: besides the diagonals, adding
   * every offset to `c.x` and to `c.y` stays within `i8`.
   */
  predicate Enumerable(b: Board, c: Coordinates) {
    var xs, ys := Span(b.minX, b.maxX), Span(b.minY, b.maxY);
    && DiagonalsDefined(b)
    && (xs >= 0 ==> InInt8(c.x as int - xs) && InInt8(c.x as int + xs))
    && (ys >= 0 ==> InInt8(c.y as int - ys) && InInt8(c.y as int + ys))
  }

  /** The cells `(c.x + dx, c.y)` for each offset `dx` in `-(max_x - min_x)..=(max_x - min_x)`. */
  function RawRow(b: Board, c: Coordinates): (r: seq<Coordinates>)
    requires Enumerable(b, c)
  {
    var xs := Span(b.minX, b.maxX);
    seq(RangeLen(-xs, xs), i requires 0 <= i < RangeLen(-xs, xs) => Coordinates((i - xs + c.x as int) as int8, c.y))
  }

  /** The cells `(c.x, c.y + dy)` for each offset `dy` in `-(max_y - min_y)..=(max_y - min_y)`. */
  function RawColumn(b: Board, c: Coordinates): (r: seq<Coordinates>)
    requires Enumerable(b, c)
  {
    var ys := Span(b.minY, b.maxY);
    seq(RangeLen(-ys, ys), i requires 0 <= i < RangeLen(-ys, ys) => Coordinates(c.x, (i - ys + c.y as int) as int8))
  }

  /**
   * The x offsets zipped with the y offsets: the cells `(d, d)` around the
   * origin. They are not shifted by the played cell.
   */
  function RawDiagonal(b: Board): (r: seq<Coordinates>)
    requires DiagonalsDefined(b)
  {
    var xs, ys := Span(b.minX, b.maxX), Span(b.minY, b.maxY);
    seq(RangeLen(-xs, xs), i requires 0 <= i < RangeLen(-xs, xs) => Coordinates((i - xs) as int8, (i - ys) as int8))
  }

  /**
   * The x offsets zipped with the reversed y offsets: the cells `(d, -d)`
   * around the origin, again not shifted by the played cell.
   */
  function RawAntiDiagonal(b: Board): (r: seq<Coordinates>)
    requires DiagonalsDefined(b)
  {
    var xs, ys := Span(b.minX, b.maxX), Span(b.minY, b.maxY);
    seq(RangeLen(-xs, xs), i requires 0 <= i < RangeLen(-xs, xs) => Coordinates((i - xs) as int8, (ys - i) as int8))
  }

  /** `filter(on_board)`: the on-board cells of `s`, in order. */
  function KeepOnBoard(b: Board, s: seq<Coordinates>): (r: seq<Coordinates>)
    ensures forall c :: c in r <==> c in s && OnBoard(b, c)
    ensures |r| <= |s|
  {
    if s == [] then []
    else (if OnBoard(b, s[0]) then [s[0]] else []) + KeepOnBoard(b, s[1..])
  }

  /** `filter(|row| row.contains(c))`: the lines that hold `c`, in order. */
  function Containing(lines: seq<seq<Coordinates>>, c: Coordinates): (r: seq<seq<Coordinates>>)
    ensures forall l :: l in r <==> l in lines && c in l
    ensures |r| <= |lines|
  {
    if lines == [] then []
    else (if c in lines[0] then [lines[0]] else []) + Containing(lines[1..], c)
  }

  /** The four candidate lines, each cut down to its on-board cells. */
  function Candidates(b: Board, c: Coordinates): seq<seq<Coordinates>>
    requires Enumerable(b, c)
  {
    [ KeepOnBoard(b, RawRow(b, c)), KeepOnBoard(b, RawColumn(b, c)),
      KeepOnBoard(b, RawDiagonal(b)), KeepOnBoard(b, RawAntiDiagonal(b)) ]
  }

  /**
   * `Board::affected_rows`: at most four pairwise distinct lines, each made
   * of on-board cells only and each holding `c`; exactly the candidates that
   * hold `c`.
   */
  function AffectedRows(b: Board, c: Coordinates): (r: seq<seq<Coordinates>>)
    requires Enumerable(b, c)
    ensures |r| <= 4 && Distinct(r)
    ensures forall l :: l in r <==> l in Candidates(b, c) && c in l
    ensures forall l, d :: l in r && d in l ==> OnBoard(b, d)
  {
    Unique(Containing(Candidates(b, c), c))
  }

  // ---------------------------------------------------------------------------
  // What the lines are

  /** Row `y` of the board, from `min_x` to `max_x`. */
  function RowLine(b: Board, y: int8): (r: seq<Coordinates>)
  {
    seq(RangeLen(b.minX as int, b.maxX as int), i requires 0 <= i < RangeLen(b.minX as int, b.maxX as int) =>
      Coordinates((b.minX as int + i) as int8, y))
  }

  /** Column `x` of the board, from `min_y` to `max_y`. */
  function ColumnLine(b: Board, x: int8): (r: seq<Coordinates>)
  {
    seq(RangeLen(b.minY as int, b.maxY as int), i requires 0 <= i < RangeLen(b.minY as int, b.maxY as int) =>
      Coordinates(x, (b.minY as int + i) as int8))
  }

  /** Filtering a sequence whose on-board cells form one block keeps that block. */
  lemma {:induction false} KeepOnBoardBlock(b: Board, s: seq<Coordinates>, lo: nat, hi: nat)
    requires lo <= hi <= |s|
    requires forall i :: 0 <= i < |s| ==> (OnBoard(b, s[i]) <==> lo <= i < hi)
    ensures KeepOnBoard(b, s) == s[lo..hi]
    decreases |s|
  {
    if s != [] {
      var t := s[1..];
      var lo', hi' := if lo > 0 then lo - 1 else 0, if hi > 0 then hi - 1 else 0;
      assert KeepOnBoard(b, t) == t[lo'..hi'] by {
        assert forall i :: 0 <= i < |t| ==> t[i] == s[i + 1];
        KeepOnBoardBlock(b, t, lo', hi');
      }
      assert OnBoard(b, s[0]) <==> lo == 0 && hi > 0;
      if lo == 0 && hi > 0 {
        calc {
          KeepOnBoard(b, s);
          [s[0]] + KeepOnBoard(b, t);
          [s[0]] + t[..hi - 1];
          { assert [s[0]] + t[..hi - 1] == s[..hi]; }
          s[lo..hi];
        }
      } else {
        calc {
          KeepOnBoard(b, s);
          KeepOnBoard(b, t);
          t[lo'..hi'];
          { assert t[lo'..hi'] == s[lo..hi]; }
          s[lo..hi];
        }
      }
    }
  }

  /** A run of consecutive cells of row `y` that spans the bounds filters down to the board row. */
  lemma KeepOnBoardRowRun(b: Board, s: seq<Coordinates>, start: int, y: int8)
    requires b.minY <= y <= b.maxY
    requires start <= b.minX as int <= b.maxX as int < start + |s|
    requires forall i :: 0 <= i < |s| ==> s[i].x as int == start + i && s[i].y == y
    ensures KeepOnBoard(b, s) == RowLine(b, y)
  {
    var lo, hi := b.minX as int - start, b.maxX as int - start + 1;
    KeepOnBoardBlock(b, s, lo, hi);
    assert forall i :: 0 <= i < hi - lo ==> s[lo..hi][i] == RowLine(b, y)[i];
  }

  /** A run of consecutive cells of column `x` that spans the bounds filters down to the board column. */
  lemma KeepOnBoardColumnRun(b: Board, s: seq<Coordinates>, start: int, x: int8)
    requires b.minX <= x <= b.maxX
    requires start <= b.minY as int <= b.maxY as int < start + |s|
    requires forall i :: 0 <= i < |s| ==> s[i].y as int == start + i && s[i].x == x
    ensures KeepOnBoard(b, s) == ColumnLine(b, x)
  {
    var lo, hi := b.minY as int - start, b.maxY as int - start + 1;
    KeepOnBoardBlock(b, s, lo, hi);
    assert forall i :: 0 <= i < hi - lo ==> s[lo..hi][i] == ColumnLine(b, x)[i];
  }

  /** Through an on-board cell, the row candidate is the whole board row. */
  lemma RowCandidate(b: Board, c: Coordinates)
    requires Enumerable(b, c) && OnBoard(b, c)
    ensures KeepOnBoard(b, RawRow(b, c)) == RowLine(b, c.y)
    ensures c in RowLine(b, c.y)
  {
    var xs := Span(b.minX, b.maxX);
    KeepOnBoardRowRun(b, RawRow(b, c), c.x as int - xs, c.y);
    assert RowLine(b, c.y)[c.x as int - b.minX as int] == c;
  }

  /** Through an on-board cell, the column candidate is the whole board column. */
  lemma ColumnCandidate(b: Board, c: Coordinates)
    requires Enumerable(b, c) && OnBoard(b, c)
    ensures KeepOnBoard(b, RawColumn(b, c)) == ColumnLine(b, c.x)
    ensures c in ColumnLine(b, c.x)
  {
    var ys := Span(b.minY, b.maxY);
    KeepOnBoardColumnRun(b, RawColumn(b, c), c.y as int - ys, c.x);
    assert ColumnLine(b, c.x)[c.y as int - b.minY as int] == c;
  }

  /**
   * The diagonal candidates hold only cells of the two diagonals through the
   * origin: `c` is on the first iff it is on the board and `x = y`, on the
   * second iff it is on the board and `x = -y` (within the offset range).
   */
  lemma DiagonalMembership(b: Board, c: Coordinates)
    requires DiagonalsDefined(b)
    ensures var xs := Span(b.minX, b.maxX);
      c in KeepOnBoard(b, RawDiagonal(b)) <==>
        OnBoard(b, c) && c.x == c.y && -xs <= c.x as int <= xs
    ensures var xs := Span(b.minX, b.maxX);
      c in KeepOnBoard(b, RawAntiDiagonal(b)) <==>
        OnBoard(b, c) && c.x as int == -(c.y as int) && -xs <= c.x as int <= xs
  {
    var xs := Span(b.minX, b.maxX);
    if -xs <= c.x as int <= xs {
      var i := c.x as int + xs;
      if c.x == c.y {
        assert RawDiagonal(b)[i] == c;
      }
      if c.x as int == -(c.y as int) {
        assert RawAntiDiagonal(b)[i] == c;
      }
    }
  }

  /** An off-board cell has no line through it. */
  lemma OffBoardHasNoLines(b: Board, c: Coordinates)
    requires Enumerable(b, c) && !OnBoard(b, c)
    ensures AffectedRows(b, c) == []
  {
    var cands := Candidates(b, c);
    assert forall l :: l in cands ==> c !in l;
    ContainingNone(cands, c);
  }

  /**
   * Every line through an on-board cell is its board row, its board column,
   * or one of the two diagonals through the origin when the cell lies on it;
   * the row and the column are always there.
   */
  lemma AffectedRowsOfOnBoardCell(b: Board, c: Coordinates)
    requires Enumerable(b, c) && OnBoard(b, c)
    ensures RowLine(b, c.y) in AffectedRows(b, c) && ColumnLine(b, c.x) in AffectedRows(b, c)
    ensures forall l :: l in AffectedRows(b, c) ==>
      || l == RowLine(b, c.y) || l == ColumnLine(b, c.x)
      || (c.x == c.y && l == KeepOnBoard(b, RawDiagonal(b)))
      || (c.x as int == -(c.y as int) && l == KeepOnBoard(b, RawAntiDiagonal(b)))
  {
    RowCandidate(b, c);
    ColumnCandidate(b, c);
    DiagonalMembership(b, c);
  }

  /**
   * A cell on neither diagonal through the origin gets only its row and its
   * column (a single line when the board is one cell).
   */
  lemma OffDiagonalCellLines(b: Board, c: Coordinates)
    requires Enumerable(b, c) && OnBoard(b, c)
    requires c.x != c.y && c.x as int != -(c.y as int)
    ensures var row, col := RowLine(b, c.y), ColumnLine(b, c.x);
      AffectedRows(b, c) == if row == col then [row] else [row, col]
  {
    var row, col := RowLine(b, c.y), ColumnLine(b, c.x);
    RowCandidate(b, c);
    ColumnCandidate(b, c);
    DiagonalMembership(b, c);
    var diag, anti := KeepOnBoard(b, RawDiagonal(b)), KeepOnBoard(b, RawAntiDiagonal(b));
    assert Candidates(b, c) == [row, col, diag, anti];
    ContainingFirstTwo(row, col, diag, anti, c);
    UniqueOfTwo(row, col);
  }

  /** Of four lines of which only the first two hold `c`, those two are kept. */
  lemma ContainingFirstTwo(l0: seq<Coordinates>, l1: seq<Coordinates>, l2: seq<Coordinates>, l3: seq<Coordinates>, c: Coordinates)
    requires c in l0 && c in l1 && c !in l2 && c !in l3
    ensures Containing([l0, l1, l2, l3], c) == [l0, l1]
  {
    ContainingNone([l2, l3], c);
    assert [l1, l2, l3][1..] == [l2, l3];
    assert [l0, l1, l2, l3][1..] == [l1, l2, l3];
  }

  /** No line holds `c`, so none is kept. */
  lemma ContainingNone(lines: seq<seq<Coordinates>>, c: Coordinates)
    requires forall l :: l in lines ==> c !in l
    ensures Containing(lines, c) == []
  {
  }

  /** Every line holds `c`, so all are kept. */
  lemma ContainingAll(lines: seq<seq<Coordinates>>, c: Coordinates)
    requires forall l :: l in lines ==> c in l
    ensures Containing(lines, c) == lines
  {
  }

  lemma UniqueOfTwo(l0: seq<Coordinates>, l1: seq<Coordinates>)
    ensures Unique([l0, l1]) == if l0 == l1 then [l0] else [l0, l1]
  {
    assert [l0, l1][..1] == [l0];
    assert [l0][..0] == [];
  }

  // ---------------------------------------------------------------------------
  // Winning moves

  /** `goal as usize` on a 64-bit target: a negative goal wraps to a length no line reaches. */
  function WindowLength(goal: int8): (k: nat)
    ensures goal != 0 ==> k > 0
  {
    if goal < 0 then goal as int + 0x1_0000_0000_0000_0000 else goal as int
  }

  /** `w` is the run of `|w|` consecutive cells of `l` starting at `lo`. */
  ghost predicate IsWindowOf(w: seq<Coordinates>, l: seq<Coordinates>, lo: int) {
    0 <= lo && lo + |w| <= |l| && w == l[lo..lo + |w|]
  }

  /** `flat_map(windows(k)).filter(contains(c))`: the `k`-windows of the lines that hold `c`. */
  function WindowsContaining(lines: seq<seq<Coordinates>>, k: nat, c: Coordinates): seq<seq<Coordinates>>
    requires k > 0
  {
    if lines == [] then []
    else Containing(Windows(lines[0], k), c) + WindowsContaining(lines[1..], k, c)
  }

  /** The windows of one line are its runs of `k` consecutive cells. */
  lemma WindowsMembers(l: seq<Coordinates>, k: nat, w: seq<Coordinates>)
    requires k > 0
    ensures w in Windows(l, k) <==> |w| == k && exists lo :: IsWindowOf(w, l, lo)
  {
    var ws := Windows(l, k);
    if w in ws {
      var i :| 0 <= i < |ws| && ws[i] == w;
      assert IsWindowOf(w, l, i);
    }
    if |w| == k && exists lo :: IsWindowOf(w, l, lo) {
      var lo :| IsWindowOf(w, l, lo);
      assert ws[lo] == w;
    }
  }

  /** The windows kept are exactly the runs of `k` cells of some line that include `c`. */
  lemma {:induction false} WindowsContainingMembers(lines: seq<seq<Coordinates>>, k: nat, c: Coordinates, w: seq<Coordinates>)
    requires k > 0
    ensures w in WindowsContaining(lines, k, c) <==>
      |w| == k && c in w && exists l, lo :: l in lines && IsWindowOf(w, l, lo)
    decreases |lines|
  {
    if lines != [] {
      WindowsMembers(lines[0], k, w);
      WindowsContainingMembers(lines[1..], k, c, w);
      if |w| == k && c in w && exists l, lo :: l in lines && IsWindowOf(w, l, lo) {
        var l, lo :| l in lines && IsWindowOf(w, l, lo);
        if l != lines[0] {
          assert l in lines[1..];
        }
      }
    }
  }

  /** The player occupying each cell of a window, `None` where it is empty. */
  function Occupants(b: Board, w: seq<Coordinates>): (r: seq<Option<Player>>)
    ensures |r| == |w|
  {
    seq(|w|, i requires 0 <= i < |w| => Get(b.cells, w[i]))
  }

  /** `sequence.iter().all_equal() && !sequence.contains(&None)`. */
  predicate OnePlayerThroughout(occupants: seq<Option<Player>>) {
    AllEqual(occupants) && None !in occupants
  }

  /**
   * `Board::is_winning_move`: some `goal`-window through `c` of some line
   * through `c` is held entirely by one player.
   */
  function IsWinningMove(b: Board, c: Coordinates, goal: int8): bool
    requires Enumerable(b, c) && goal != 0
  {
    var windows := WindowsContaining(AffectedRows(b, c), WindowLength(goal), c);
    exists i :: 0 <= i < |windows| && OnePlayerThroughout(Occupants(b, windows[i]))
  }

  /** Every cell of `w` is occupied by `p`. */
  ghost predicate HeldBy(b: Board, w: seq<Coordinates>, p: Player) {
    forall d :: d in w ==> d in b.cells && b.cells[d] == p
  }

  /** A non-empty window's occupants are one player throughout iff that player holds every cell. */
  lemma OnePlayerMeansHeld(b: Board, w: seq<Coordinates>)
    requires w != []
    ensures OnePlayerThroughout(Occupants(b, w)) <==> exists p :: HeldBy(b, w, p)
  {
    var occ := Occupants(b, w);
    if OnePlayerThroughout(occ) {
      assert occ[0] == Get(b.cells, w[0]);
      var p := occ[0].value;
      forall d | d in w ensures d in b.cells && b.cells[d] == p {
        var i :| 0 <= i < |w| && w[i] == d;
        assert occ[i] == Get(b.cells, w[i]);
      }
      assert HeldBy(b, w, p);
    }
    if p :| HeldBy(b, w, p) {
      forall i | 0 <= i < |occ| ensures occ[i] == Some(p) {
        assert w[i] in w;
      }
    }
  }

  /** The `k` cells of `l` from `lo` on include `c` and are all held by `p`. */
  ghost predicate HeldRunAt(b: Board, c: Coordinates, l: seq<Coordinates>, lo: int, k: nat, p: Player) {
    0 <= lo && lo + k <= |l| && c in l[lo..lo + k] && HeldBy(b, l[lo..lo + k], p)
  }

  /** A window through `c` held by one player is such a run. */
  lemma HeldWindowIsRun(b: Board, c: Coordinates, lines: seq<seq<Coordinates>>, k: nat, w: seq<Coordinates>)
    requires k > 0 && w in WindowsContaining(lines, k, c) && OnePlayerThroughout(Occupants(b, w))
    ensures exists l, lo, p :: l in lines && HeldRunAt(b, c, l, lo, k, p)
  {
    WindowsContainingMembers(lines, k, c, w);
    var l, lo :| l in lines && IsWindowOf(w, l, lo);
    OnePlayerMeansHeld(b, w);
    var p :| HeldBy(b, w, p);
    assert HeldRunAt(b, c, l, lo, k, p);
  }

  /** Such a run is a window through `c` held by one player. */
  lemma RunIsHeldWindow(b: Board, c: Coordinates, lines: seq<seq<Coordinates>>, k: nat, l: seq<Coordinates>, lo: int, p: Player)
    requires k > 0 && l in lines && HeldRunAt(b, c, l, lo, k, p)
    ensures var w := l[lo..lo + k]; w in WindowsContaining(lines, k, c) && OnePlayerThroughout(Occupants(b, w))
  {
    var w := l[lo..lo + k];
    assert IsWindowOf(w, l, lo);
    WindowsContainingMembers(lines, k, c, w);
    OnePlayerMeansHeld(b, w);
  }

  /** Some window of a line in `lines` is a run of `k` cells through `c` held by one player. */
  lemma WindowsMeaning(b: Board, c: Coordinates, lines: seq<seq<Coordinates>>, k: nat)
    requires k > 0
    ensures (exists i :: 0 <= i < |WindowsContaining(lines, k, c)| &&
               OnePlayerThroughout(Occupants(b, WindowsContaining(lines, k, c)[i])))
      <==> exists l, lo, p :: l in lines && HeldRunAt(b, c, l, lo, k, p)
  {
    var windows := WindowsContaining(lines, k, c);
    if exists i :: 0 <= i < |windows| && OnePlayerThroughout(Occupants(b, windows[i])) {
      var i :| 0 <= i < |windows| && OnePlayerThroughout(Occupants(b, windows[i]));
      HeldWindowIsRun(b, c, lines, k, windows[i]);
    }
    if exists l, lo, p :: l in lines && HeldRunAt(b, c, l, lo, k, p) {
      var l, lo, p :| l in lines && HeldRunAt(b, c, l, lo, k, p);
      RunIsHeldWindow(b, c, lines, k, l, lo, p);
      var i :| 0 <= i < |windows| && windows[i] == l[lo..lo + k];
    }
  }

  /**
   * The meaning of a winning move: some line through `c` has a run of `goal`
   * consecutive cells that includes `c` and is held entirely by one player.
   */
  lemma IsWinningMoveMeaning(b: Board, c: Coordinates, goal: int8)
    requires Enumerable(b, c) && goal != 0
    ensures IsWinningMove(b, c, goal) <==>
      exists l, lo, p :: l in AffectedRows(b, c) && HeldRunAt(b, c, l, lo, WindowLength(goal), p)
  {
    WindowsMeaning(b, c, AffectedRows(b, c), WindowLength(goal));
  }

  /** A move into a cell that holds no mark never wins. */
  lemma UnoccupiedNeverWins(b: Board, c: Coordinates, goal: int8)
    requires Enumerable(b, c) && goal != 0 && c !in b.cells
    ensures !IsWinningMove(b, c, goal)
  {
    IsWinningMoveMeaning(b, c, goal);
  }

  /**
   * A negative goal never wins: `goal as usize` wraps to a window longer
   * than any line, since a line has at most 255 cells.
   */
  lemma NegativeGoalNeverWins(b: Board, c: Coordinates, goal: int8)
    requires Enumerable(b, c) && goal < 0
    ensures !IsWinningMove(b, c, goal)
  {
    var k := WindowLength(goal);
    var lines := AffectedRows(b, c);
    var windows := WindowsContaining(lines, k, c);
    if IsWinningMove(b, c, goal) {
      var i :| 0 <= i < |windows| && OnePlayerThroughout(Occupants(b, windows[i]));
      WindowsContainingMembers(lines, k, c, windows[i]);
    }
  }
}
