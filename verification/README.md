# Tic-tac-toe and gomoku rule engine

A Dafny model of the rule engine of a console tic-tac-toe game written in
Rust. Two players, `X` and `O`, take turns marking cells of a board whose
bounds and winning run length come from a game preset (`TIC_TAC_TOE`: 3 by 3,
three in a row; `GOMOKU`: 15 by 15, five in a row). A move is typed as `x,y`;
a move that cannot be read or placed asks "Try again ?". The game ends with a
win, a draw, or a refusal to try again.

The model follows the program file by file:

- `player.dfy` (`Players`): the two players, the opener and the turn swap.
- `game.dfy` (`Games`): the game record and the two presets.
- `coordinates.dfy` (`Coords`): cell coordinates and the `x,y` parser, with
  the regular expression written out as a recogniser of numerals.
- `numbers.dfy` (`Numbers`): `i8` as a newtype, decimal numerals, `str::parse`
  for `i8` and `format!("{}")` for `i8`.
- `board.dfy` (`Boards`): the board value, `insert`, `is_draw`, the lines
  through a cell (`affected_rows`) and the win check (`is_winning_move`).
- `board_text.dfy` (`BoardText`): the text grid of `Board::to_string`.
- `state.dfy` (`States`): the five game states.
- `input.dfy` (`Input`): `read_input`, over a sequence of input lines:
  `read_line`, `str::trim` and the two parsers it is used with.
- `driver.dfy` (`Driver`): `turn` and its helpers `start_game`, `next_turn`,
  `won`, `draw`, `end_game`, and the `main` loop as an imperative method over
  a finite input, proved equal to a recursive trace function.
- `sequences.dfy` (`Sequences`) and `wrappers.dfy` (`Wrappers`): the
  iterator adaptors the code uses (`unique`, `windows`, `intersperse`,
  `join`) and `Option`/`Result`.
- `cases.dfy` (`Cases`): the unit tests of `board.rs` and `coordinates.rs`,
  stated as lemmas about the model; the one test of `player.rs` is
  `Players.NextInvolution`.

The board, the parser and the players are pure values in the source too.
`next_turn` reads standard input and prints, and `won`, `draw` and
`end_game` print; the model makes them pure by passing the lines still to
be read in and out of each turn and by leaving printing out. What is left
is functions and lemmas plus one method with a `while` loop, the `main`
loop (`Driver.PlayGame`).

The source is followed as written where it surprises:

- The two diagonals `affected_rows` builds are the diagonals through the
  origin, not through the played cell. A cell on neither of them gets only
  its row and its column (`Boards.OffDiagonalCellLines`,
  `Boards.DiagonalMembership`).
- `goal as usize` of a negative goal wraps around to a length no line has,
  so such a goal never wins (`Boards.WindowLength`,
  `Boards.NegativeGoalNeverWins`).
- `is_draw` compares with `>=`; on a board built by `insert` this is the
  same as every cell being occupied (`Boards.DrawIffFull`).

## Model

| member | source | states |
|---|---|---|
| Players.First | src/lib/player.rs:8-10 | The opening player is `X`. |
| Players.Next | src/lib/player.rs:12-17 | The next player is always the other one. |
| Players.NextInvolution | src/lib/player.rs:25-28 | Two turns on, the same player moves again. |
| Players.Tag | src/lib/board.rs:124 | An occupied cell shows its player's name, one character: `X` exactly for `X` and `O` exactly for `O`, so the two players show differently. |
| Games.PresetsWellShaped | src/lib/game.rs:11-25 | Both presets are square, their goal is between 1 and the board width, and they have widths 3 and 15 and goals 3 and 5. |
| Numbers.ToDecimalDenotes | src/lib/board.rs:124 | The decimal text of an `i8` is a numeral that denotes it, holds no comma and is as wide as its sign and digits. |
| Numbers.DecimalWidthBetween | src/lib/board.rs:108-114 | A value between two bounds prints no wider than one of the bounds. |
| Numbers.ParseInt8 | src/lib/coordinates.rs:18-19 | `str::parse::<i8>` of a numeral; its meaning, the value when it fits in `i8` and an error otherwise, is proved in `Coords.FromStrMeaning`. |
| Numbers.ToDecimal | src/lib/board.rs:110 | `to_string` of an `i8`; its meaning is proved in `Numbers.ToDecimalDenotes`. |
| Coords.Label | src/lib/board.rs:124 | The `x,y` label of an empty cell; it reads back as the cell by `Coords.LabelRoundTrip`. |
| Coords.FirstComma | src/lib/coordinates.rs:14 | Finds the first comma of a text, or reports that there is none. |
| Coords.FromStr | src/lib/coordinates.rs:13-28 | Every failure of the parser is the one error `Coordinates can't be parsed`. |
| Coords.MatchedCommaIsFirst | src/lib/coordinates.rs:14 | In a text of the form `numeral,numeral` the separating comma is the first comma. |
| Coords.FromStrMeaning | src/lib/coordinates.rs:13-28 | The parser accepts exactly the texts of the form `-?digits,-?digits` whose two values fit in `i8`, and returns those values, with no bounds check; it refuses everything else. |
| Coords.FromStrOnlyMatches | src/lib/coordinates.rs:14-16 | Only texts of the form `-?digits,-?digits` are ever accepted. |
| Coords.LabelRoundTrip | src/lib/coordinates.rs:13-28 | Parsing the `x,y` label of any `i8` pair gives that pair back. |
| Sequences.Unique | src/lib/board.rs:84 | Dropping repeated lines keeps exactly the same lines, without repeats. |
| Sequences.UniqueSnoc | src/lib/board.rs:84 | Each line stays where it first occurs: a line seen before adds nothing, a new one goes to the end. |
| Sequences.UniqueOfDistinct | src/lib/board.rs:84 | A sequence without repeats is left as it is. |
| Sequences.Windows | src/lib/board.rs:92 | The windows of length `k` are the runs of `k` consecutive elements, from the left. |
| Sequences.Intersperse | src/lib/board.rs:130 | Putting a separator between neighbours turns `n` items into `2n - 1`. |
| Sequences.IntersperseAt | src/lib/board.rs:130 | Even positions hold the items in order, odd positions the separator. |
| Sequences.JoinLength | src/lib/board.rs:131-132 | Joining `n` texts of width `w` gives `n * w` characters plus `n - 1` separators. |
| Boards.New | src/lib/board.rs:26-35 | A new board has no marks and the game's bounds. |
| Boards.Insert | src/lib/board.rs:37-51 | A cell off the board is refused with `OutOfBounds`, even when occupied; an occupied cell with `AlreadyDefined`, whoever plays; otherwise the new board has the old marks plus this one and the same bounds. |
| Boards.InsertKeepsWellFormed | src/lib/board.rs:42-50 | A placed mark keeps every mark on the board and adds exactly one occupied cell. |
| Boards.OnBoard | src/lib/board.rs:19-24 | A cell lies within the four bounds; `Boards.AllCells` gives the set of such cells. |
| Boards.IsDraw | src/lib/board.rs:53-56 | At least as many marks as cells; `Boards.DrawIffFull` proves this means a full board. |
| Boards.AllCells | src/lib/board.rs:19-24 | The cells of the board are exactly the cells within its bounds. |
| Boards.RectCellsCount | src/lib/board.rs:53-56 | The cells within the bounds number width times height. |
| Boards.DrawIffFull | src/lib/board.rs:53-56 | On a board built by `insert`, `is_draw` holds exactly when every cell is occupied, and the marks never outnumber the cells. |
| Boards.RawRow | src/lib/board.rs:65-67 | The row offsets added to the cell; `Boards.RowCandidate` proves it filters to the board row. |
| Boards.RawColumn | src/lib/board.rs:68-70 | The column offsets added to the cell; `Boards.ColumnCandidate` proves it filters to the board column. |
| Boards.RawDiagonal | src/lib/board.rs:71 | The x offsets zipped with the y offsets; `Boards.DiagonalMembership` proves which cells it holds. |
| Boards.RawAntiDiagonal | src/lib/board.rs:72-74 | The x offsets zipped with the reversed y offsets; `Boards.DiagonalMembership` proves which cells it holds. |
| Boards.Candidates | src/lib/board.rs:64-82 | The four lines, each cut to its on-board cells; `Boards.AffectedRows` and `Boards.AffectedRowsOfOnBoardCell` state what survives. |
| Boards.KeepOnBoard | src/lib/board.rs:77-82 | Filtering a line keeps exactly its on-board cells. |
| Boards.KeepOnBoardBlock | src/lib/board.rs:77-82 | Filtering a line whose on-board cells form one block keeps that block. |
| Boards.Containing | src/lib/board.rs:83 | Exactly the lines that hold the cell are kept. |
| Boards.AffectedRows | src/lib/board.rs:58-86 | At most four pairwise distinct lines, exactly the candidate lines that hold the cell, made of on-board cells only. |
| Boards.RowCandidate | src/lib/board.rs:65-67 | Through an on-board cell the row candidate is the whole board row, from `min_x` to `max_x`. |
| Boards.ColumnCandidate | src/lib/board.rs:68-70 | Through an on-board cell the column candidate is the whole board column, from `min_y` to `max_y`. |
| Boards.DiagonalMembership | src/lib/board.rs:71-74 | A cell is on the first diagonal candidate iff it is on the board with `x = y`, on the second iff it is on the board with `x = -y`, within the offset range. |
| Boards.OffBoardHasNoLines | src/lib/board.rs:58-86 | An off-board cell has no lines. |
| Boards.AffectedRowsOfOnBoardCell | src/lib/board.rs:58-86 | An on-board cell always gets its row and its column, and any other line is a diagonal through the origin that holds the cell. |
| Boards.OffDiagonalCellLines | src/lib/board.rs:71-83 | A cell on neither diagonal through the origin gets exactly its row and its column (one line when they coincide). |
| Boards.ContainingFirstTwo | src/lib/board.rs:83 | Of four lines of which only the first two hold the cell, those two are kept. |
| Boards.ContainingNone | src/lib/board.rs:83 | When no line holds the cell, none is kept. |
| Boards.ContainingAll | src/lib/board.rs:83 | When every line holds the cell, all are kept. |
| Boards.UniqueOfTwo | src/lib/board.rs:84 | Of two lines, a repeat is dropped and two different lines are both kept. |
| Boards.WindowLength | src/lib/board.rs:92 | A goal other than zero gives a window length of at least one. |
| Boards.WindowsMembers | src/lib/board.rs:92 | A window of a line is a run of `k` consecutive cells of it, and every such run is a window. |
| Boards.WindowsContaining | src/lib/board.rs:89-96 | The windows of the lines that hold the cell; `Boards.WindowsContainingMembers` proves which they are. |
| Boards.WindowsContainingMembers | src/lib/board.rs:89-96 | The windows kept are exactly the runs of `k` cells of some line that include the cell. |
| Boards.Occupants | src/lib/board.rs:97-101 | One occupant per cell of the window. |
| Boards.OnePlayerThroughout | src/lib/board.rs:102 | All occupants equal and none empty; `Boards.OnePlayerMeansHeld` proves this means one player holds the window. |
| Boards.OnePlayerMeansHeld | src/lib/board.rs:102 | The occupants are all equal and none is empty exactly when one player holds every cell of the window. |
| Boards.IsWinningMove | src/lib/board.rs:88-103 | Some checked window is held by one player; its meaning is `Boards.IsWinningMoveMeaning`. |
| Boards.HeldWindowIsRun | src/lib/board.rs:88-103 | A window through the cell held by one player is a held run of a line. |
| Boards.RunIsHeldWindow | src/lib/board.rs:88-103 | A held run through the cell is one of the windows checked. |
| Boards.WindowsMeaning | src/lib/board.rs:88-103 | Some checked window is held by one player iff some line has a held run of `k` cells through the cell. |
| Boards.IsWinningMoveMeaning | src/lib/board.rs:88-103 | A move wins iff some line through the cell has `goal` consecutive cells, including the cell, all held by one player. |
| Boards.UnoccupiedNeverWins | src/lib/board.rs:88-103 | A move into an empty cell never wins. |
| Boards.NegativeGoalNeverWins | src/lib/board.rs:92 | A negative goal, wrapped by `as usize`, is longer than any line, so no move wins with it. |
| BoardText.Repeat | src/lib/board.rs:115 | `n` copies of one character. |
| BoardText.CellSize | src/lib/board.rs:108-114 | Twice the widest bound's text plus three; `BoardText.LabelFits` proves every label is narrower. |
| BoardText.CellText | src/lib/board.rs:120-124 | The occupant's name or the cell's label; `BoardText.CellTextFits` bounds its width. |
| BoardText.Center | src/lib/board.rs:126 | Centring pads a text to the cell size, and a text already as wide is left as it is. |
| BoardText.CenterPads | src/lib/board.rs:126 | A shorter text gets half the padding on the left and the rest on the right. |
| BoardText.CenteredIsPadded | src/lib/board.rs:126 | A shorter text comes out as itself with spaces on both sides. |
| BoardText.RowCells | src/lib/board.rs:119-128 | A row has one cell per column. |
| BoardText.RowCellsAt | src/lib/board.rs:119-128 | Cell `i` of a row shows the cell `min_x + i`, centred. |
| BoardText.Separator | src/lib/board.rs:115 | A separator has one run of dashes per column. |
| BoardText.Rows | src/lib/board.rs:117-127 | One row of cells per row of the board. |
| BoardText.RowsAt | src/lib/board.rs:117-127 | Row `j` holds the cells of `y = min_y + j`. |
| BoardText.Lines | src/lib/board.rs:117-130 | Rows interspersed with separators; `BoardText.LineAt` says which line is which. |
| BoardText.TextLines | src/lib/board.rs:131 | One text line per row or separator. |
| BoardText.LabelFits | src/lib/board.rs:108-114 | The label of any on-board cell is narrower than the cell size. |
| BoardText.CellTextFits | src/lib/board.rs:119-124 | The text of any on-board cell is narrower than the cell size. |
| BoardText.RowCellsWidth | src/lib/board.rs:119-128 | Every cell of every row is exactly the cell size wide. |
| BoardText.LineAt | src/lib/board.rs:130 | Line `i` is a row of cells when `i` is even and a separator when it is odd. |
| BoardText.RowTextWidth | src/lib/board.rs:131 | A row is `w` cells and `w - 1` bars wide. |
| BoardText.SeparatorTextWidth | src/lib/board.rs:131 | A separator is as wide as a row. |
| BoardText.LineWidth | src/lib/board.rs:107-134 | Every line of the text has the same width. |
| BoardText.RenderedShape | src/lib/board.rs:107-134 | The text has `2h - 1` lines for `h` rows, each `w` cells and `w - 1` bars wide. |
| BoardText.ToString | src/lib/board.rs:107-134 | The lines joined by newlines; their shape is `BoardText.RenderedShape`. |
| BoardText.EmptyCellShowsLabel | src/lib/board.rs:119-124 | An empty cell shows its own label padded with spaces, and that label reads back as the cell. |
| BoardText.OccupiedCellShowsTag | src/lib/board.rs:119-124 | An occupied cell shows its occupant's name padded with spaces. |
| Input.Leading | src/main.rs:78 | Counts the whitespace a text starts with. |
| Input.Trailing | src/main.rs:78 | Counts the whitespace a text ends with. |
| Input.TrimMatches | src/main.rs:78 | Trimming never lengthens a text. |
| Input.Trim | src/main.rs:78 | Trimming the Unicode whitespace never lengthens a line. |
| Input.TrimCut | src/main.rs:78 | Trimming cuts at the first and after the last character that is not whitespace. |
| Input.TrimmedAtUnique | src/main.rs:78 | Only one cut has those properties. |
| Input.TrimMatchesAt | src/main.rs:78 | Any cut with those properties is what trimming returns. |
| Input.TrimIdempotent | src/main.rs:78 | Trimming twice is trimming once. |
| Input.TrimKeepsInner | src/main.rs:78 | A line without whitespace at its ends is read as it is. |
| Input.TrimPadded | src/main.rs:78 | Whitespace padding around a text that starts and ends otherwise is cut off again. |
| Input.SignOrDigitIsNotWhitespace | src/main.rs:78 | Neither a digit nor a minus sign is whitespace. |
| Input.NumeralEnds | src/main.rs:78 | A numeral neither starts nor ends with whitespace. |
| Input.LabelEnds | src/main.rs:78 | A cell label neither starts nor ends with whitespace. |
| Input.ReadLine | src/main.rs:72-75 | A read takes the next line and leaves the rest; at the end of the input it yields the empty line. |
| Input.ParseBool | src/main.rs:78-80 | `str::parse::<bool>`: only `true` and `false`; `Driver.RetryOutcome` proves only `true` retries. |
| Input.ReadCoordinates | src/main.rs:71-82 | Reading a move consumes one line, and any failure is `Input can't be parsed`. |
| Input.ReadBool | src/main.rs:71-82 | Reading an answer consumes one line, and any failure is `Input can't be parsed`. |
| Input.EndOfInput | src/main.rs:71-82 | At the end of the input neither a move nor an answer can be read. |
| Input.ReadLabel | src/main.rs:71-82 | Typing a cell's label, with any whitespace around it, reads as that cell. |
| Driver.PlayableEnumerable | src/lib/board.rs:58-74 | On a playable board every cell's lines can be enumerated without an overflow or a length mismatch. |
| Driver.PresetsRunnable | src/lib/game.rs:11-25 | Both presets can be played without a panic. |
| Driver.AfterMove | src/main.rs:27-35 | Judges a placed mark; its meaning is `Driver.AfterMoveMeaning`. |
| Driver.Retry | src/main.rs:36-43 | Asks to try again; its meaning is `Driver.RetryOutcome`. |
| Driver.Accepted | src/main.rs:21-26 | The move read parses and the cell takes the mark. |
| Driver.PlayTurn | src/main.rs:16-44 | `next_turn`; its meaning is `Driver.PlayTurnBranches` and `Driver.PlayTurnOutcomes`. |
| Driver.Turn | src/main.rs:61-69 | `turn`; its meaning is `Driver.TurnOutsidePlay` and `Driver.PlayTurnOutcomes`. |
| Driver.TurnOutsidePlay | src/main.rs:61-69 | Outside play a turn reads nothing; the start puts `X` to move on an empty board with the game's bounds; `Won`, `Draw` and `EndGame` lead to `EndGame`. |
| Driver.RetryProgress | src/main.rs:36-43 | The retry question reads a suffix of the input. |
| Driver.RetryOutcome | src/main.rs:36-43 | After a failed move the same player gets the same board again exactly when the next line reads `true`; any other answer, or none, ends the game. |
| Driver.PlayTurnProgress | src/main.rs:16-44 | A turn in play reads at least one line, and at the end of the input it ends the game. |
| Driver.TurnProgress | src/main.rs:61-69 | Every turn reads a suffix of the input, and each one but the last reads a line or moves closer to the end. |
| Driver.RunHolderHoldsCell | src/lib/board.rs:88-103 | A run through a cell is held by whoever holds that cell. |
| Driver.WinningMoveIsMoversRun | src/main.rs:28 | The win check after a move answers whether the mover completed a run through the cell just played. |
| Driver.AfterMoveMeaning | src/main.rs:27-35 | After a move: `Won` of the mover iff it completed a run; `Draw` iff it did not and the board is full; the other player's turn on the new board iff neither. The win is checked first. |
| Driver.AfterMoveShape | src/main.rs:27-35 | A judged move gives a win for the mover, a draw, or the other player's turn on the new board. |
| Driver.AcceptedMoveOutcomes | src/main.rs:22-35 | The outcomes of an accepted move, stated against the board before it. |
| Driver.PlayTurnBranches | src/main.rs:16-44 | When the move read parses and the cell takes the mark, the turn judges the new board with the rest of the input; on any failure, of the parse or of the insert, it asks whether to try again. |
| Driver.PlayTurnOutcomes | src/main.rs:16-44 | In terms of the move read: a win for the mover iff it was accepted and completed a run; a draw iff it was accepted, completed no run and filled the board; the other player's turn, on the board with that move marked, iff it was accepted and did neither; after a failed move the same turn again iff the next line reads `true`, the end otherwise; never the start. |
| Driver.InsertMarks | src/lib/board.rs:42-50 | A placed mark adds to its player's marks and leaves the other's alone. |
| Driver.MoveKeepsConsistent | src/main.rs:33 | After a move the other player is to move on a board with the game's bounds, no mark off the board, and balanced marks. |
| Driver.AcceptedMoveKeepsConsistent | src/main.rs:27-35 | Any judged move leads to a consistent state. |
| Driver.PlayTurnKeepsConsistent | src/main.rs:16-44 | A turn in play leads to a consistent state. |
| Driver.TurnKeepsConsistent | src/main.rs:61-69 | Every turn keeps the state consistent. |
| Driver.Trace | src/main.rs:84-91 | The states of the loop start at the given state and end at `EndGame`. |
| Driver.TraceStep | src/main.rs:88-90 | Away from `EndGame`, the trace is the state followed by the trace from the next one, and the loop makes progress. |
| Driver.TurnNeverRestarts | src/main.rs:61-69 | No turn leads back to `StartGame`. |
| Driver.TraceFacts | src/main.rs:84-91 | Along the loop every state is consistent, the game never restarts, and `EndGame` comes only at the end. |
| Driver.PlayGame | src/main.rs:84-91 | The loop from `StartGame` stops, and the states it goes through are the trace. |
| Cases.NewBoardIsEmpty | src/lib/board.rs:140-162 | New boards of both presets are empty with the game's bounds. |
| Cases.InsertOutsideRefused | src/lib/board.rs:164-218 | A move past each bound of the 3 by 3 board is refused with `OutOfBounds`. |
| Cases.InsertThenTaken | src/lib/board.rs:220-242 | A move records its player; the same cell again is refused with `AlreadyDefined`, for the same player as in the test and for the other. |
| Cases.InsertAllCount | src/lib/board.rs:253-299 | A chain of moves on distinct free on-board cells succeeds and adds one occupied cell per move. |
| Cases.EmptyIsNoDraw | src/lib/board.rs:244-250 | An empty board is no draw. |
| Cases.EightMarksNoDraw | src/lib/board.rs:252-274 | Eight marks on the 3 by 3 board are no draw. |
| Cases.NineMarksDraw | src/lib/board.rs:276-300 | Nine marks on the 3 by 3 board are a draw. |
| Cases.CentreLines | src/lib/board.rs:302-329 | The centre gets its row, its column and both diagonals. |
| Cases.CornerLines | src/lib/board.rs:331-353 | A corner gets its row, its column and one diagonal. |
| Cases.EdgeLines | src/lib/board.rs:355-372 | The middle of an edge gets only its row and its column. |
| Cases.WinningMoveMissing | src/lib/board.rs:374-387 | Two marks in a row and an empty third cell are no win. |
| Cases.WinningMoveBlocked | src/lib/board.rs:389-404 | Two `X` and an `O` in a row are no win. |
| Cases.WinningMoveFound | src/lib/board.rs:406-418 | Three `X` in a row win. |
| Cases.ParseMinusOneMinusOne | src/lib/coordinates.rs:36-40 | `-1,-1` reads as that cell. |
| Cases.ParseMinusOneZero | src/lib/coordinates.rs:41-44 | `-1,0` reads as that cell. |
| Cases.ParseMinusOneOne | src/lib/coordinates.rs:45-48 | `-1,1` reads as that cell. |
| Cases.ParseRefusesPlus | src/lib/coordinates.rs:14 | A `+` sign is refused. |
| Cases.ParseRefusesSpace | src/lib/coordinates.rs:14 | Space inside the text given to the parser is refused. |
| Cases.ParseRefusesNonNumerals | src/lib/coordinates.rs:14 | Letters, a missing number and a missing comma are refused. |
| Cases.ParseOutOfRange | src/lib/coordinates.rs:18-23 | `128,0` is refused although it has the right form. |
| Cases.CellSize3 | src/lib/board.rs:108-114 | The cells of the 3 by 3 board are seven characters wide. |
| Cases.FirstRowText | src/lib/board.rs:421-434 | The top row of the empty 3 by 3 board shows its labels centred. |
| Cases.FirstLineText | src/lib/board.rs:421-434 | The empty 3 by 3 board renders as five lines, the first ` -1,-1 | 0,-1  | 1,-1  `. |
| Cases.SecondLineText | src/lib/board.rs:421-434 | The second line is three runs of seven dashes joined by bars. |

## Left out

- Console output: every `println!` of `next_turn`, `draw`, `won` and `end_game` (the prompts, the board printout and the messages). The model keeps the board's text as a function (`BoardText.ToString`) but not the act of printing it.
- Read errors of standard input (`Input can't be read: …`): input is a finite sequence of lines that cannot fail; at its end a read yields the empty line, as `read_line` does at end of file.
- The `main` loop over an endless console: `Driver.PlayGame` runs over a finite sequence of lines, which is what makes it terminate.
- `end_game` is modelled inside `Driver.Turn`, but the loop stops before it is ever called.
- Panics: `zip_eq` on bounds of different sizes, `windows(0)` for a zero goal and `i8` overflow in `max - min` or in the offsets added to a cell are preconditions (`Boards.Enumerable`, `Driver.Playable`, `Driver.Runnable`, a non-zero goal), not modelled behaviour.
- `Boards.WindowLength`: `goal as usize` is modelled for a 64-bit target.
- `Numbers.ParseInt8`: `str::parse::<i8>` is modelled by the value a numeral denotes, not by the digit-by-digit loop of the standard library.
- `Input.Trim`: whitespace is the fixed set of Unicode White_Space characters; there is no decoding of bytes.
- `BoardText.RenderedShape`: the shape of the text is proved for every board, but the exact text is checked against the tests only for the first two lines of the empty 3 by 3 board; the gomoku rendering test is not restated.
- src/state.rs is not part of this model: `main.rs` builds with `src/lib/state.rs`, which the model follows.
- The regular-expression engine, `HashMap` and the itertools internals: the pattern is a recogniser of numerals, the map a Dafny `map`, `unique` a deduplication that keeps the first occurrence.
