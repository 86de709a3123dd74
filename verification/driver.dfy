/**
 * `main`: the game loop. Each turn reads the lines it needs from the input
 * and moves the state on; the loop stops at `EndGame`.
 */
module Driver {
  import opened Wrappers
  import opened Numbers
  import opened Players
  import opened Coords
  import opened Games
  import opened Boards
  import opened States
  import opened Input

  /**
   * The bounds let `affected_rows` run for every cell on the board: the
   * diagonals are defined and no row or column offset leaves `i8`.
   */
  predicate Playable(b: Board) {
    var xs, ys := Span(b.minX, b.maxX), Span(b.minY, b.maxY);
    && DiagonalsDefined(b)
    && (xs >= 0 ==> -128 <= b.minX as int - xs && b.maxX as int + xs <= 127)
    && (ys >= 0 ==> -128 <= b.minY as int - ys && b.maxY as int + ys <= 127)
  }

  /** On a playable board every cell can be checked for a win. */
  lemma PlayableEnumerable(b: Board, c: Coordinates)
    requires Playable(b) && OnBoard(b, c)
    ensures Enumerable(b, c)
  {
  }

  /** A game the loop can run without a panic: a playable board and a non-zero goal. */
  predicate Runnable(g: Game) {
    g.goal != 0 && Playable(New(g))
  }

  /** Both presets can be played to the end. */
  lemma PresetsRunnable()
    ensures Runnable(TicTacToe) && Runnable(Gomoku)
  {
  }

  /** The state after a move at `c` made `nb`: a win, a full board, or the other player's turn. */
  function AfterMove(g: Game, p: Player, nb: Board, c: Coordinates): (s: State)
    requires g.goal != 0 && Enumerable(nb, c)
  {
    if IsWinningMove(nb, c, g.goal) then Won(p)
    else if IsDraw(nb) then Draw
    else NextTurn(Next(p), nb)
  }

  /** How far a state is from the end when no more input is read. */
  function Rank(s: State): nat {
    match s
    case StartGame => 3
    case NextTurn(_, _) => 2
    case Won(_) => 1
    case Draw => 1
    case EndGame => 0
  }

  /**
   * The error path of `next_turn`: ask whether to try again; only the
   * answer `true` gives the same player the same board once more.
   */
  function Retry(p: Player, b: Board, inputs: seq<string>): (r: (State, seq<string>))
  {
    var (answer, rest) := ReadBool(inputs);
    if answer == Ok(true) then (NextTurn(p, b), rest) else (EndGame, rest)
  }

  /** `next_turn`: read a cell, mark it for `p`, and judge the new board. */
  function PlayTurn(g: Game, p: Player, b: Board, inputs: seq<string>): (r: (State, seq<string>))
    requires g.goal != 0 && Playable(b)
  {
    var (mv, rest) := ReadCoordinates(inputs);
    var placed := if mv.Err? then Err(mv.error) else Insert(b, mv.value, p);
    if placed.Ok? then
      PlayableEnumerable(placed.value, mv.value);
      (AfterMove(g, p, placed.value, mv.value), rest)
    else
      Retry(p, b, rest)
  }

  /** `turn`: one step of the loop, with the lines left to read after it. */
  function Turn(g: Game, s: State, inputs: seq<string>): (r: (State, seq<string>))
    requires g.goal != 0
    requires s.NextTurn? ==> Playable(s.board)
  {
    match s
    case StartGame => (NextTurn(First(), New(g)), inputs)
    case NextTurn(p, b) => PlayTurn(g, p, b, inputs)
    case Won(_) => (EndGame, inputs)
    case Draw => (EndGame, inputs)
    case EndGame => (EndGame, inputs)
  }

  /**
   * Outside play a turn reads nothing: the start puts `X` to move on an
   * empty board with the game's bounds, and a finished game ends.
   */
  lemma TurnOutsidePlay(g: Game, s: State, inputs: seq<string>)
    requires g.goal != 0 && !s.NextTurn?
    ensures Turn(g, s, inputs).1 == inputs
    ensures s == StartGame ==> Turn(g, s, inputs).0 == NextTurn(X, New(g))
    ensures New(g).cells == map[]
    ensures New(g).minX == g.minX && New(g).maxX == g.maxX && New(g).minY == g.minY && New(g).maxY == g.maxY
    ensures s != StartGame ==> Turn(g, s, inputs).0 == EndGame
  {
  }

  /** The answer to "Try again ?" reads one line. */
  lemma RetryProgress(p: Player, b: Board, inputs: seq<string>)
    ensures var r := Retry(p, b, inputs);
      |r.1| <= |inputs| && r.1 == inputs[|inputs| - |r.1|..]
  {
    assert inputs[|inputs| - |inputs|..] == inputs;
  }

  /** A turn in play reads at least one line; at the end of the input it gives up. */
  lemma PlayTurnProgress(g: Game, p: Player, b: Board, inputs: seq<string>)
    requires g.goal != 0 && Playable(b)
    ensures var r := PlayTurn(g, p, b, inputs);
      |r.1| <= |inputs| && r.1 == inputs[|inputs| - |r.1|..]
    ensures inputs != [] ==> |PlayTurn(g, p, b, inputs).1| < |inputs|
    ensures inputs == [] ==> PlayTurn(g, p, b, inputs) == (EndGame, [])
  {
    if inputs == [] {
      EndOfInput();
    } else {
      var rest := ReadCoordinates(inputs).1;
      assert rest == inputs[1..];
      RetryProgress(p, b, rest);
    }
  }

  /**
   * Each turn reads a suffix of the input, and one that is not the last
   * either reads a line or moves closer to the end.
   */
  lemma TurnProgress(g: Game, s: State, inputs: seq<string>)
    requires g.goal != 0
    requires s.NextTurn? ==> Playable(s.board)
    ensures var r := Turn(g, s, inputs);
      |r.1| <= |inputs| && r.1 == inputs[|inputs| - |r.1|..]
    ensures var r := Turn(g, s, inputs);
      s != EndGame ==> |r.1| < |inputs| || Rank(r.0) < Rank(s)
  {
    assert inputs[|inputs| - |inputs|..] == inputs;
    if s.NextTurn? {
      PlayTurnProgress(g, s.player, s.board, inputs);
    }
  }

  /** Placing `c` completed a run of `k` cells through `c` held by `p`. */
  ghost predicate CompletesRun(b: Board, c: Coordinates, k: nat, p: Player) {
    Enumerable(b, c) && exists l, lo :: l in AffectedRows(b, c) && HeldRunAt(b, c, l, lo, k, p)
  }

  /** A run through `c` is held by whoever holds `c`. */
  lemma RunHolderHoldsCell(b: Board, c: Coordinates, l: seq<Coordinates>, lo: int, k: nat, q: Player)
    requires HeldRunAt(b, c, l, lo, k, q)
    ensures c in b.cells && b.cells[c] == q
  {
  }

  /** The win check answers whether the mover completed a run through the cell just played. */
  lemma WinningMoveIsMoversRun(g: Game, p: Player, nb: Board, c: Coordinates)
    requires g.goal != 0 && Enumerable(nb, c) && c in nb.cells && nb.cells[c] == p
    ensures IsWinningMove(nb, c, g.goal) <==> CompletesRun(nb, c, WindowLength(g.goal), p)
  {
    var k := WindowLength(g.goal);
    IsWinningMoveMeaning(nb, c, g.goal);
    if IsWinningMove(nb, c, g.goal) {
      var l, lo, q :| l in AffectedRows(nb, c) && HeldRunAt(nb, c, l, lo, k, q);
      RunHolderHoldsCell(nb, c, l, lo, k, q);
      assert HeldRunAt(nb, c, l, lo, k, p);
    }
  }

  /**
   * After `p` moved at `c`: `Won(p)` exactly when the move completed a run
   * of `goal` cells, `Draw` exactly when it did not and the board is full,
   * and otherwise the other player's turn on the new board.
   */
  lemma AfterMoveMeaning(g: Game, p: Player, nb: Board, c: Coordinates)
    requires g.goal != 0 && Enumerable(nb, c) && WellFormed(nb)
    requires c in nb.cells && nb.cells[c] == p
    ensures var k := WindowLength(g.goal);
      AfterMove(g, p, nb, c) == Won(p) <==> CompletesRun(nb, c, k, p)
    ensures var k := WindowLength(g.goal);
      AfterMove(g, p, nb, c) == Draw <==> !CompletesRun(nb, c, k, p) && nb.cells.Keys == AllCells(nb)
    ensures var k := WindowLength(g.goal);
      AfterMove(g, p, nb, c) == NextTurn(Next(p), nb) <==>
        !CompletesRun(nb, c, k, p) && nb.cells.Keys != AllCells(nb)
  {
    WinningMoveIsMoversRun(g, p, nb, c);
    DrawIffFull(nb);
    AfterMoveShape(g, p, nb, c);
  }

  /** The outcomes of an accepted move at `c`, in terms of the board before it. */
  lemma AcceptedMoveOutcomes(g: Game, p: Player, b: Board, c: Coordinates)
    requires g.goal != 0 && Playable(b) && WellFormed(b) && Insert(b, c, p).Ok?
    ensures var nb := Insert(b, c, p).value; Enumerable(nb, c) && AllCells(nb) == AllCells(b)
    ensures var nb, k := Insert(b, c, p).value, WindowLength(g.goal);
      var r := AfterMove(g, p, nb, c);
      && (r.Won? ==> r.player == p && CompletesRun(nb, c, k, p))
      && (r.Draw? ==> !CompletesRun(nb, c, k, p) && nb.cells.Keys == AllCells(b))
      && (r.NextTurn? ==> r == NextTurn(Next(p), nb) && !CompletesRun(nb, c, k, p) && nb.cells.Keys != AllCells(b))
      && !r.StartGame? && !r.EndGame?
  {
    var nb := Insert(b, c, p).value;
    InsertKeepsWellFormed(b, c, p);
    PlayableEnumerable(nb, c);
    AfterMoveMeaning(g, p, nb, c);
    AfterMoveShape(g, p, nb, c);
  }

  /** The move `next_turn` reads is accepted: it parses and the cell takes the mark. */
  predicate Accepted(b: Board, p: Player, inputs: seq<string>) {
    var mv := ReadCoordinates(inputs).0;
    mv.Ok? && Insert(b, mv.value, p).Ok?
  }

  /**
   * The two branches of `next_turn`: an accepted move is judged on the new
   * board, with the rest of the input; a failed one, whether the line did
   * not parse or the cell was refused, asks whether to try again.
   */
  lemma PlayTurnBranches(g: Game, p: Player, b: Board, inputs: seq<string>)
    requires g.goal != 0 && Playable(b)
    ensures var (mv, rest) := ReadCoordinates(inputs);
      Accepted(b, p, inputs) ==> Enumerable(Insert(b, mv.value, p).value, mv.value)
    ensures var (mv, rest) := ReadCoordinates(inputs);
      Accepted(b, p, inputs) ==>
        PlayTurn(g, p, b, inputs) == (AfterMove(g, p, Insert(b, mv.value, p).value, mv.value), rest)
    ensures var rest := ReadCoordinates(inputs).1;
      !Accepted(b, p, inputs) ==> PlayTurn(g, p, b, inputs) == Retry(p, b, rest)
  {
    var (mv, rest) := ReadCoordinates(inputs);
    if Accepted(b, p, inputs) {
      PlayableEnumerable(Insert(b, mv.value, p).value, mv.value);
    }
  }

  /**
   * What a turn in play leads to, in terms of the move `mv` it reads. A win
   * for the mover exactly when `mv` was accepted and completed a run; a
   * draw exactly when it was accepted, completed no run and filled the
   * board; the other player's turn on the board with `mv` marked when it was
   * accepted and did neither; and after a failed move the same turn again
   * exactly when the next line reads `true`, the end otherwise. It never
   * goes back to the start.
   */
  lemma PlayTurnOutcomes(g: Game, p: Player, b: Board, inputs: seq<string>)
    requires g.goal != 0 && Playable(b) && WellFormed(b)
    ensures var (r, mv) := (PlayTurn(g, p, b, inputs).0, ReadCoordinates(inputs).0);
      r.Won? <==> (Accepted(b, p, inputs)
        && CompletesRun(Insert(b, mv.value, p).value, mv.value, WindowLength(g.goal), p))
    ensures PlayTurn(g, p, b, inputs).0.Won? ==> PlayTurn(g, p, b, inputs).0.player == p
    ensures var (r, mv) := (PlayTurn(g, p, b, inputs).0, ReadCoordinates(inputs).0);
      r.Draw? <==> (Accepted(b, p, inputs)
        && !CompletesRun(Insert(b, mv.value, p).value, mv.value, WindowLength(g.goal), p)
        && Insert(b, mv.value, p).value.cells.Keys == AllCells(b))
    ensures var (r, mv) := (PlayTurn(g, p, b, inputs).0, ReadCoordinates(inputs).0);
      r.NextTurn? && r.player != p <==> (Accepted(b, p, inputs)
        && !CompletesRun(Insert(b, mv.value, p).value, mv.value, WindowLength(g.goal), p)
        && Insert(b, mv.value, p).value.cells.Keys != AllCells(b))
    ensures var (r, mv) := (PlayTurn(g, p, b, inputs).0, ReadCoordinates(inputs).0);
      Accepted(b, p, inputs) && r.NextTurn? ==> r == NextTurn(Next(p), Insert(b, mv.value, p).value)
    ensures var (r, rest) := (PlayTurn(g, p, b, inputs).0, ReadCoordinates(inputs).1);
      !Accepted(b, p, inputs) ==> (r == NextTurn(p, b) <==> rest != [] && Trim(rest[0]) == "true")
    ensures var r := PlayTurn(g, p, b, inputs).0;
      !Accepted(b, p, inputs) ==> r == NextTurn(p, b) || r == EndGame
    ensures !PlayTurn(g, p, b, inputs).0.StartGame?
  {
    var (mv, rest) := ReadCoordinates(inputs);
    PlayTurnBranches(g, p, b, inputs);
    if Accepted(b, p, inputs) {
      AcceptedMoveOutcomes(g, p, b, mv.value);
    } else {
      RetryOutcome(p, b, rest);
    }
  }

  /** The marks `p` has on `b`. */
  ghost function Marks(b: Board, p: Player): set<Coordinates> {
    set c | c in b.cells && b.cells[c] == p
  }

  /**
   * What holds of every state the loop reaches: a board in play has the
   * game's bounds, no mark outside them, and as many marks of `X` as of `O`
   * when `X` is to move, one more when `O` is.
   */
  ghost predicate Consistent(g: Game, s: State) {
    s.NextTurn? ==>
      var b := s.board;
      && b.minX == g.minX && b.maxX == g.maxX && b.minY == g.minY && b.maxY == g.maxY
      && WellFormed(b)
      && |Marks(b, X)| == |Marks(b, O)| + (if s.player == O then 1 else 0)
  }

  /** A mark of `p` adds to `p`'s marks and leaves the other player's alone. */
  lemma InsertMarks(b: Board, c: Coordinates, p: Player)
    requires Insert(b, c, p).Ok?
    ensures Marks(Insert(b, c, p).value, p) == Marks(b, p) + {c} && c !in Marks(b, p)
    ensures Marks(Insert(b, c, p).value, Next(p)) == Marks(b, Next(p))
  {
  }

  /** After a successful move the other player is to move on the new board, consistently. */
  lemma MoveKeepsConsistent(g: Game, p: Player, b: Board, c: Coordinates)
    requires Runnable(g) && Consistent(g, NextTurn(p, b)) && Insert(b, c, p).Ok?
    ensures Consistent(g, NextTurn(Next(p), Insert(b, c, p).value))
  {
    InsertKeepsWellFormed(b, c, p);
    InsertMarks(b, c, p);
    NextInvolution(p);
  }

  /**
   * A refused move repeats the turn unchanged exactly when the next line
   * reads `true` once trimmed; any other answer, or none, ends the game.
   */
  lemma RetryOutcome(p: Player, b: Board, inputs: seq<string>)
    ensures Retry(p, b, inputs).0 == NextTurn(p, b) || Retry(p, b, inputs).0 == EndGame
    ensures Retry(p, b, inputs).0 == NextTurn(p, b) <==> inputs != [] && Trim(inputs[0]) == "true"
  {
    if inputs == [] {
      EndOfInput();
    }
  }

  /** A judged move wins, draws, or hands the turn to the other player on the new board. */
  lemma AfterMoveShape(g: Game, p: Player, nb: Board, c: Coordinates)
    requires g.goal != 0 && Enumerable(nb, c)
    ensures var s := AfterMove(g, p, nb, c);
      s == Won(p) || s == Draw || s == NextTurn(Next(p), nb)
  {
  }

  /** An accepted move leads to a consistent state. */
  lemma AcceptedMoveKeepsConsistent(g: Game, p: Player, b: Board, c: Coordinates)
    requires Runnable(g) && Consistent(g, NextTurn(p, b)) && Playable(b) && Insert(b, c, p).Ok?
    ensures var nb := Insert(b, c, p).value;
      Enumerable(nb, c) && Consistent(g, AfterMove(g, p, nb, c))
  {
    var nb := Insert(b, c, p).value;
    PlayableEnumerable(nb, c);
    AfterMoveShape(g, p, nb, c);
    MoveKeepsConsistent(g, p, b, c);
  }

  /** A turn in play leads to a consistent state. */
  lemma PlayTurnKeepsConsistent(g: Game, p: Player, b: Board, inputs: seq<string>)
    requires Runnable(g) && Consistent(g, NextTurn(p, b)) && Playable(b)
    ensures Consistent(g, PlayTurn(g, p, b, inputs).0)
  {
    var r := ReadCoordinates(inputs);
    if r.0.Ok? && Insert(b, r.0.value, p).Ok? {
      AcceptedMoveKeepsConsistent(g, p, b, r.0.value);
    } else {
      RetryOutcome(p, b, r.1);
    }
  }

  /** Every turn keeps the state consistent. */
  lemma TurnKeepsConsistent(g: Game, s: State, inputs: seq<string>)
    requires Runnable(g) && Consistent(g, s)
    ensures s.NextTurn? ==> Playable(s.board)
    ensures Consistent(g, Turn(g, s, inputs).0)
  {
    if s.NextTurn? {
      PlayTurnKeepsConsistent(g, s.player, s.board, inputs);
    }
  }

  /**
   * The loop's states from `s` on, one per call of `turn`, ending at the
   * `EndGame` that stops the loop.
   */
  function Trace(g: Game, s: State, inputs: seq<string>): (t: seq<State>)
    requires Runnable(g) && Consistent(g, s)
    ensures |t| > 0 && t[0] == s && t[|t| - 1] == EndGame
    decreases |inputs|, Rank(s)
  {
    if s == EndGame then [s]
    else
      TurnKeepsConsistent(g, s, inputs);
      TurnProgress(g, s, inputs);
      var r := Turn(g, s, inputs);
      [s] + Trace(g, r.0, r.1)
  }

  /** Away from the end, the trace is the state followed by the trace from the next one. */
  lemma TraceStep(g: Game, s: State, inputs: seq<string>)
    requires Runnable(g) && Consistent(g, s) && s != EndGame
    ensures Consistent(g, Turn(g, s, inputs).0)
    ensures var r := Turn(g, s, inputs);
      Trace(g, s, inputs) == [s] + Trace(g, r.0, r.1)
      && (|r.1| < |inputs| || (|r.1| == |inputs| && Rank(r.0) < Rank(s)))
  {
    TurnKeepsConsistent(g, s, inputs);
    TurnProgress(g, s, inputs);
  }

  /** No turn leads back to `StartGame`. */
  lemma TurnNeverRestarts(g: Game, s: State, inputs: seq<string>)
    requires Runnable(g) && Consistent(g, s)
    ensures !Turn(g, s, inputs).0.StartGame?
  {
    if s.NextTurn? {
      PlayTurnOutcomes(g, s.player, s.board, inputs);
    }
  }

  /**
   * Along the loop every state is consistent, the game is never restarted,
   * and `EndGame` comes only at the end.
   */
  lemma {:induction false} TraceFacts(g: Game, s: State, inputs: seq<string>)
    requires Runnable(g) && Consistent(g, s)
    ensures var t := Trace(g, s, inputs);
      forall i :: 0 <= i < |t| ==> Consistent(g, t[i])
    ensures var t := Trace(g, s, inputs);
      forall i :: 0 <= i < |t| - 1 ==> t[i] != EndGame
    ensures var t := Trace(g, s, inputs);
      forall i :: 0 < i < |t| ==> !t[i].StartGame?
    decreases |inputs|, Rank(s)
  {
    if s != EndGame {
      TraceStep(g, s, inputs);
      var r := Turn(g, s, inputs);
      TraceFacts(g, r.0, r.1);
      TurnNeverRestarts(g, s, inputs);
      var t, t' := Trace(g, s, inputs), Trace(g, r.0, r.1);
      assert forall i :: 0 < i < |t| ==> t[i] == t'[i - 1];
    }
  }

  /** `main`'s loop: turns from `StartGame` until `EndGame`, recording each state it reaches. */
  method PlayGame(g: Game, inputs: seq<string>) returns (trace: seq<State>)
    requires Runnable(g)
    ensures trace == Trace(g, StartGame, inputs)
  {
    var state := StartGame;
    var rest := inputs;
    trace := [];
    while state != EndGame
      invariant Consistent(g, state)
      invariant trace + Trace(g, state, rest) == Trace(g, StartGame, inputs)
      decreases |rest|, Rank(state)
    {
      TraceStep(g, state, rest);
      var next := Turn(g, state, rest);
      trace := trace + [state];
      state, rest := next.0, next.1;
    }
    trace := trace + [state];
  }
}
