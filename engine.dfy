/**
 * The game engine: a 15x15 board, the game-over flag, the winner and a stack
 * of the moves played.  The abstract state and the pure functions below say
 * what each operation of the `GomokuEngine` class does to it; the class's
 * methods are proved against them.
 */
module Engine {
  import opened Board
  import opened Win
  import opened Candidates
  import opened Score

  /** The smallest value of C++ `int`. */
  const INT_MIN: int := -0x8000_0000

  /** The engine's difficulty enum; its integer value is the search depth. */
  datatype Difficulty = Easy | Medium | Hard {
    function Level(): (n: int)
      ensures n in {1, 3, 5}
    {
      match this
      case Easy => 1
      case Medium => 3
      case Hard => 5
    }
  }

  /** Everything a game changes: board, game-over flag, winner, move stack (top last). */
  datatype EngineState = EngineState(board: Grid, gameOver: bool, winner: int, history: seq<Move>)

  /** The board has the right shape and every recorded move is on it. */
  ghost predicate WellFormed(s: EngineState) {
    IsGrid(s.board) &&
    forall i :: 0 <= i < |s.history| ==> IsValidPosition(s.history[i].row, s.history[i].col)
  }

  /** The state `resetGame` produces. */
  function Fresh(): (s: EngineState)
    ensures IsGrid(s.board) && !s.gameOver && s.winner == EMPTY && s.history == []
  {
    EngineState(EmptyBoard(), false, EMPTY, [])
  }

  /** `makeMove` accepts (row, col): on the board, on an EMPTY cell, and the game not over. */
  ghost predicate Accepts(s: EngineState, row: int, col: int)
    requires IsGrid(s.board)
  {
    IsValidPosition(row, col) && s.board[row][col] == EMPTY && !s.gameOver
  }

  /** A move off the board is refused, and offering it leaves the state as it was. */
  lemma OffBoardMoveRefused(s: EngineState, m: Move)
    requires WellFormed(s) && !IsValidPosition(m.row, m.col)
    ensures !Accepts(s, m.row, m.col) && ApplyMove(s, m) == s
  {
  }

  /** An accepted move: the stone lands, is pushed, and a five through it ends the game. */
  ghost function Place(s: EngineState, m: Move): (t: EngineState)
    requires WellFormed(s) && IsValidPosition(m.row, m.col)
    ensures WellFormed(t)
  {
    var b := SetCell(s.board, m.row, m.col, m.player);
    var won := IsWin(b, m.row, m.col, m.player);
    EngineState(b, won || s.gameOver, if won then m.player else s.winner, s.history + [m])
  }

  /** What `makeMove` does to the state: place the stone if accepted, otherwise nothing. */
  ghost function ApplyMove(s: EngineState, m: Move): (t: EngineState)
    requires WellFormed(s)
    ensures WellFormed(t)
  {
    if Accepts(s, m.row, m.col) then Place(s, m) else s
  }

  /** The state reached by offering the moves ms, in order, to a fresh engine. */
  ghost function Replay(ms: seq<Move>): (s: EngineState)
    ensures WellFormed(s) && |s.history| <= |ms|
  {
    if ms == [] then Fresh() else ApplyMove(Replay(ms[..|ms| - 1]), ms[|ms| - 1])
  }

  /** One pop of the move stack, clearing the popped move's cell. */
  ghost function PopOnce(s: EngineState): (t: EngineState)
    requires WellFormed(s)
    ensures WellFormed(t)
  {
    if s.history == [] then s
    else
      var m := s.history[|s.history| - 1];
      s.(board := SetCell(s.board, m.row, m.col, EMPTY), history := s.history[..|s.history| - 1])
  }

  /** n pops of the move stack, each stopping at an empty stack. */
  ghost function Unwind(s: EngineState, n: nat): (t: EngineState)
    requires WellFormed(s)
    ensures WellFormed(t)
  {
    if n == 0 then s else PopOnce(Unwind(s, n - 1))
  }

  /** What a successful `undoMove` does: pop two moves and clear a finished game's result. */
  ghost function UndoSpec(s: EngineState): (t: EngineState)
    requires WellFormed(s)
    ensures WellFormed(t)
  {
    var u := Unwind(s, 2);
    if s.gameOver then u.(gameOver := false, winner := EMPTY) else u
  }

  /** How many moves of a stack of length len survive n pops. */
  function Kept(len: nat, n: nat): (k: nat)
    ensures k <= len && (k == 0 || k + n == len)
  {
    if n <= len then len - n else 0
  }

  /** Unwinding n times pops min(n, |history|) moves and keeps the flags. */
  lemma {:induction false} UnwindPops(s: EngineState, n: nat)
    requires WellFormed(s)
    ensures var t := Unwind(s, n);
      t.history == s.history[..Kept(|s.history|, n)] && t.gameOver == s.gameOver && t.winner == s.winner
  {
    if n > 0 {
      UnwindPops(s, n - 1);
    }
  }

  /** One pop clears the cell of the top move and no other. */
  lemma PopOnceCell(s: EngineState, r: int, c: int)
    requires WellFormed(s) && IsValidPosition(r, c)
    ensures PopOnce(s).board[r][c] ==
      if s.history != [] && At(s.history, |s.history| - 1, r, c) then EMPTY else s.board[r][c]
  {
  }

  /** Some move at index k or later is on (r, c). */
  ghost predicate PlayedFrom(h: seq<Move>, k: int, r: int, c: int) {
    exists i :: 0 <= k <= i < |h| && At(h, i, r, c)
  }

  /**
   * Unwinding n moves clears exactly the cells of the popped moves: a cell is
   * EMPTY afterwards if a popped move was on it, and unchanged otherwise.
   */
  lemma {:induction false} UnwindClearsPopped(s: EngineState, n: nat, r: int, c: int)
    requires WellFormed(s) && IsValidPosition(r, c)
    ensures Unwind(s, n).board[r][c] ==
      if PlayedFrom(s.history, Kept(|s.history|, n), r, c) then EMPTY else s.board[r][c]
  {
    if n > 0 {
      UnwindClearsPopped(s, n - 1, r, c);
      UnwindPops(s, n - 1);
      PopClearsPlayed(Unwind(s, n - 1), s.history, Kept(|s.history|, n - 1), r, c);
    }
  }

  /**
   * Popping a stack that is the first k moves of h clears the cell of move
   * k - 1: a cell is then cleared by a move from index k - 1 on iff it was
   * by a move from k on or it is that move's cell.
   */
  lemma PopClearsPlayed(u: EngineState, h: seq<Move>, k: int, r: int, c: int)
    requires WellFormed(u) && IsValidPosition(r, c) && 0 <= k <= |h| && u.history == h[..k]
    ensures k > 0 ==> PopOnce(u).board[r][c] == if At(h, k - 1, r, c) then EMPTY else u.board[r][c]
    ensures k > 0 ==> (PlayedFrom(h, k - 1, r, c) <==> At(h, k - 1, r, c) || PlayedFrom(h, k, r, c))
    ensures k == 0 ==> PopOnce(u) == u
  {
    if k > 0 {
      assert u.history[|u.history| - 1] == h[k - 1];
      PopOnceCell(u, r, c);
      PlayedFromStep(h, k, r, c);
    }
  }

  /** A move from index k - 1 on is on (r, c) iff move k - 1 is or one from index k on is. */
  lemma PlayedFromStep(h: seq<Move>, k: int, r: int, c: int)
    requires 0 < k <= |h|
    ensures PlayedFrom(h, k - 1, r, c) <==> At(h, k - 1, r, c) || PlayedFrom(h, k, r, c)
  {
    if PlayedFrom(h, k - 1, r, c) && !At(h, k - 1, r, c) {
      var i :| 0 <= k - 1 <= i < |h| && At(h, i, r, c);
      assert i != k - 1;
    }
  }

  /** The i-th move of ms is on (r, c). */
  predicate At(ms: seq<Move>, i: int, r: int, c: int)
    requires 0 <= i < |ms|
  {
    ms[i].row == r && ms[i].col == c
  }

  /** No two moves of ms share a cell. */
  predicate Distinct(ms: seq<Move>) {
    forall i, j :: 0 <= i < j < |ms| ==> !(ms[i].row == ms[j].row && ms[i].col == ms[j].col)
  }

  /** Replaying moves never leaves a winner without the game being over. */
  lemma {:induction false} ReplayQuiet(ms: seq<Move>)
    ensures !Replay(ms).gameOver ==> Replay(ms).winner == EMPTY
  {
    if ms != [] {
      ReplayQuiet(ms[..|ms| - 1]);
    }
  }

  /** The engine's winner is never EMPTY after a game ends, as long as stones of a real player were played. */
  lemma {:induction false} ReplayWinnerPlayed(ms: seq<Move>)
    ensures Replay(ms).gameOver ==> exists i :: 0 <= i < |ms| && ms[i].player == Replay(ms).winner
  {
    if ms != [] {
      var p := ms[..|ms| - 1];
      ReplayWinnerPlayed(p);
      if Replay(p).gameOver {
        var i :| 0 <= i < |p| && p[i].player == Replay(p).winner;
        assert ms[i] == p[i];
      }
    }
  }

  /** If a replay accepted every move, it accepted the last one and every move before it. */
  lemma ReplayAcceptedLast(ms: seq<Move>)
    requires ms != [] && Replay(ms).history == ms
    ensures Replay(ms[..|ms| - 1]).history == ms[..|ms| - 1]
    ensures Accepts(Replay(ms[..|ms| - 1]), ms[|ms| - 1].row, ms[|ms| - 1].col)
  {
    var p := ms[..|ms| - 1];
    var s := Replay(p);
    assert |s.history| <= |p|;
    if !Accepts(s, ms[|ms| - 1].row, ms[|ms| - 1].col) {
      assert false;
    }
    assert s.history + [ms[|ms| - 1]] == ms;
  }

  /** If a replay accepted every move, it accepted every move of each prefix. */
  lemma {:induction false} ReplayAcceptedPrefixes(ms: seq<Move>)
    requires Replay(ms).history == ms
    ensures forall i :: 0 <= i <= |ms| ==> Replay(ms[..i]).history == ms[..i]
  {
    if ms != [] {
      var p := ms[..|ms| - 1];
      ReplayAcceptedLast(ms);
      ReplayAcceptedPrefixes(p);
      forall i | 0 <= i <= |ms| ensures Replay(ms[..i]).history == ms[..i] {
        if i < |ms| {
          assert ms[..i] == p[..i];
        } else {
          assert ms[..i] == ms;
        }
      }
    }
  }

  /**
   * If a replay accepted every move and no move used the EMPTY code, each
   * move's stone is on the board and no two moves share a cell.
   */
  lemma {:induction false} ReplayStones(ms: seq<Move>)
    requires Replay(ms).history == ms
    requires forall i :: 0 <= i < |ms| ==> ms[i].player != EMPTY
    ensures Distinct(ms)
    ensures forall i :: 0 <= i < |ms| ==> Replay(ms).board[ms[i].row][ms[i].col] == ms[i].player
  {
    if ms != [] {
      var p := ms[..|ms| - 1];
      var s := Replay(p);
      var m := ms[|ms| - 1];
      ReplayAcceptedLast(ms);
      ReplayStones(p);
      forall i | 0 <= i < |p|
        ensures !(p[i].row == m.row && p[i].col == m.col)
      {
        assert s.board[p[i].row][p[i].col] == p[i].player;
      }
      forall i | 0 <= i < |ms|
        ensures Replay(ms).board[ms[i].row][ms[i].col] == ms[i].player
      {
        if i < |p| {
          assert ms[i] == p[i];
        }
      }
      forall i, j | 0 <= i < j < |ms|
        ensures !(ms[i].row == ms[j].row && ms[i].col == ms[j].col)
      {
        assert ms[i] == p[i];
        if j < |p| {
          assert ms[j] == p[j];
        }
      }
    }
  }

  /** Every move in a replay's history is one of the moves offered. */
  lemma {:induction false} ReplayHistoryFromLedger(ms: seq<Move>)
    ensures forall m :: m in Replay(ms).history ==> m in ms
  {
    if ms != [] {
      ReplayHistoryFromLedger(ms[..|ms| - 1]);
    }
  }

  /** The board of a replay holds a stone on a cell only where some offered move was. */
  lemma {:induction false} ReplayCellsFromMoves(ms: seq<Move>, r: int, c: int)
    requires IsValidPosition(r, c) && Replay(ms).board[r][c] != EMPTY
    ensures exists i :: 0 <= i < |ms| && At(ms, i, r, c)
  {
    if ms != [] {
      var p := ms[..|ms| - 1];
      if Replay(p).board[r][c] != EMPTY {
        ReplayCellsFromMoves(p, r, c);
        var i :| 0 <= i < |p| && At(p, i, r, c);
        assert At(ms, i, r, c);
      } else {
        assert At(ms, |ms| - 1, r, c);
      }
    }
  }

  /** The engine class of the backend. */
  class GomokuEngine {
    var board: Grid
    var gameOver: bool
    var winner: int
    var difficulty: Difficulty
    var moveHistory: seq<Move>

    ghost function State(): EngineState
      reads this
    {
      EngineState(board, gameOver, winner, moveHistory)
    }

    ghost predicate Valid()
      reads this
    {
      WellFormed(State())
    }

    /** A new engine holds a fresh game at MEDIUM difficulty. */
    constructor ()
      ensures Valid() && State() == Fresh() && difficulty == Medium
    {
      new;
      ResetGame();
      difficulty := Medium;
    }

    /** Empties the board, clears the result and pops the whole move stack. */
    method ResetGame()
      modifies this
      ensures Valid() && State() == Fresh() && difficulty == old(difficulty)
    {
      board := EmptyBoard();
      gameOver := false;
      winner := EMPTY;
      while moveHistory != []
        invariant board == EmptyBoard() && !gameOver && winner == EMPTY
        invariant difficulty == old(difficulty)
        decreases |moveHistory|
      {
        moveHistory := moveHistory[..|moveHistory| - 1];
      }
    }

    method SetDifficulty(level: Difficulty)
      modifies this`difficulty
      ensures difficulty == level
    {
      difficulty := level;
    }

    /** The difficulty the search depth is taken from. */
    function GetDifficulty(): (d: Difficulty)
      reads this
      ensures d == difficulty && d.Level() in {1, 3, 5}
    {
      difficulty
    }

    /** True exactly when there is a move to undo. */
    function CanUndo(): (can: bool)
      reads this
      ensures can <==> |moveHistory| > 0
    {
      moveHistory != []
    }

    /** True exactly when a five has been made. */
    function IsGameOver(): (over: bool)
      reads this
      ensures over <==> State().gameOver
    {
      gameOver
    }

    /** The winner's colour, EMPTY while nobody has won. */
    function GetWinner(): (w: int)
      reads this
      ensures w == State().winner
    {
      winner
    }

    /** The board, handed out read-only. */
    function GetBoard(): (g: Grid)
      reads this
      ensures g == State().board
      ensures Valid() ==> IsGrid(g)
    {
      board
    }

    /**
     * Pops up to two moves, clearing their cells, and clears a finished game's
     * result; refuses with no change when the stack is empty.
     */
    method UndoMove() returns (ok: bool)
      requires Valid()
      modifies this
      ensures Valid() && difficulty == old(difficulty)
      ensures ok <==> old(moveHistory) != []
      ensures State() == if ok then UndoSpec(old(State())) else old(State())
    {
      if moveHistory == [] {
        return false;
      }
      for i := 0 to 2
        invariant Valid() && difficulty == old(difficulty)
        invariant State() == Unwind(old(State()), i)
      {
        if moveHistory == [] {
          assert Unwind(old(State()), 2) == State();
          break;
        }
        var lastMove := moveHistory[|moveHistory| - 1];
        moveHistory := moveHistory[..|moveHistory| - 1];
        board := SetCell(board, lastMove.row, lastMove.col, EMPTY);
      }
      UnwindPops(old(State()), 2);
      if gameOver {
        gameOver := false;
        winner := EMPTY;
      }
      return true;
    }

    /**
     * Places player's stone on (row, col) if the cell is on the board and
     * EMPTY and the game is not over; a five through it ends the game with
     * player as the winner.
     */
    method MakeMove(row: int, col: int, player: int) returns (ok: bool)
      requires Valid()
      modifies this
      ensures Valid() && difficulty == old(difficulty)
      ensures ok <==> Accepts(old(State()), row, col)
      ensures State() == ApplyMove(old(State()), Move(row, col, player))
      ensures !ok ==> State() == old(State())
      ensures ok ==> moveHistory == old(moveHistory) + [Move(row, col, player)]
      ensures ok ==> forall r, c :: IsValidPosition(r, c) ==>
        board[r][c] == if r == row && c == col then player else old(board[r][c])
      ensures ok ==> (gameOver <==> IsWin(board, row, col, player))
      ensures ok ==> winner == if gameOver then player else old(winner)
    {
      if !IsValidPosition(row, col) || board[row][col] != EMPTY || gameOver {
        return false;
      }
      board := SetCell(board, row, col, player);
      moveHistory := moveHistory + [Move(row, col, player)];
      var won := CheckWin(row, col, player);
      if won {
        gameOver := true;
        winner := player;
      }
      return true;
    }

    /** True exactly when five of player's stones in a row pass within four cells of (row, col). */
    method CheckWin(row: int, col: int, player: int) returns (win: bool)
      requires Valid()
      ensures win <==> IsWin(board, row, col, player)
    {
      win := ScanLine(Horizontal, row, col, player);
      if win { return; }
      win := ScanLine(Vertical, row, col, player);
      if win { return; }
      win := ScanLine(Diagonal, row, col, player);
      if win { return; }
      win := ScanLine(AntiDiagonal, row, col, player);
    }

    /**
     * One of the four scans of `checkWin`: walks offsets -4 .. 4 along d,
     * skipping cells off the board, counting consecutive stones of player.
     */
    method ScanLine(d: Direction, row: int, col: int, player: int) returns (found: bool)
      requires IsGrid(board)
      ensures found <==> FiveInLine(board, d, row, col, player)
    {
      var count := 0;
      var i := -4;
      while i <= 4
        invariant -4 <= i <= 5
        invariant count == ScanCount(board, d, row, col, player, i)
        invariant ScanBelowFive(board, d, row, col, player, i)
      {
        var r, c := d.RowAt(row, i), d.ColAt(col, i);
        if IsValidPosition(r, c) {
          if board[r][c] == player {
            count := count + 1;
            if count >= 5 {
              ScanFindsFive(board, d, row, col, player, i + 1);
              return true;
            }
          } else {
            count := 0;
          }
        }
        i := i + 1;
      }
      ScanMissesFive(board, d, row, col, player);
      return false;
    }

    /** True exactly when one of the eight cells around (row, col) holds a stone. */
    method HasNeighbors(row: int, col: int) returns (found: bool)
      requires Valid()
      ensures found <==> HasNeighbour(board, row, col)
    {
      for dr := -1 to 2
        invariant forall a, b :: -1 <= a < dr && -1 <= b <= 1 ==> !NeighbourOccupied(board, row, col, a, b)
      {
        for dc := -1 to 2
          invariant forall a, b :: (-1 <= a < dr && -1 <= b <= 1) || (a == dr && -1 <= b < dc) ==>
            !NeighbourOccupied(board, row, col, a, b)
        {
          if dr == 0 && dc == 0 {
            continue;
          }
          var r, c := row + dr, col + dc;
          if IsValidPosition(r, c) && board[r][c] != EMPTY {
            assert NeighbourOccupied(board, row, col, dr, dc);
            return true;
          }
        }
      }
      return false;
    }

    /**
     * The EMPTY cells next to a stone in row-major order, or every EMPTY cell
     * when there is none.
     */
    method GenerateMoves() returns (moves: seq<(int, int)>)
      requires Valid()
      ensures moves == CandidateMoves(board)
    {
      moves := [];
      for row := 0 to BOARD_SIZE
        invariant moves == Scan(board, true, row, 0)
      {
        for col := 0 to BOARD_SIZE
          invariant moves == Scan(board, true, row, col)
        {
          if board[row][col] == EMPTY {
            var near := HasNeighbors(row, col);
            if near {
              moves := moves + [(row, col)];
            }
          }
        }
      }
      if moves == [] {
        for row := 0 to BOARD_SIZE
          invariant moves == Scan(board, false, row, 0)
        {
          for col := 0 to BOARD_SIZE
            invariant moves == Scan(board, false, row, col)
          {
            if board[row][col] == EMPTY {
              moves := moves + [(row, col)];
            }
          }
        }
      }
    }

    /** The sum of the window scores over every row, column and diagonal window. */
    method EvaluateBoard() returns (score: int)
      requires Valid()
      ensures score == BoardScore(board)
    {
      score := 0;
      score := AddDirection(Horizontal, score);
      score := AddDirection(Vertical, score);
      score := AddDirection(Diagonal, score);
      score := AddDirection(AntiDiagonal, score);
    }

    /** One loop nest of `evaluateBoard`: adds the scores of the windows along d. */
    method AddDirection(d: Direction, score0: int) returns (score: int)
      requires Valid()
      ensures score == score0 + DirectionScore(board, d)
    {
      score := score0;
      for o := 0 to OuterCount(d)
        invariant score == score0 + OuterSum(board, d, o)
      {
        for i := 0 to INNER_COUNT
          invariant score == score0 + OuterSum(board, d, o) + InnerSum(board, d, o, i)
        {
          var (r, c) := Origin(d, o, i);
          WindowOnBoard(d, o, i);
          var aiCount, playerCount := CountWindow(d, r, c);
          score := score + EvaluateSequence(aiCount, playerCount);
        }
      }
    }

    /** Counts the AI and player stones in the five cells from (row, col) along d. */
    method CountWindow(d: Direction, row: int, col: int) returns (aiCount: int, playerCount: int)
      requires Valid()
      requires forall k :: 0 <= k < 5 ==> InRange(d, row, col, k)
      ensures aiCount == Count(board, d, row, col, AI, 5)
      ensures playerCount == Count(board, d, row, col, PLAYER, 5)
    {
      aiCount, playerCount := 0, 0;
      for i := 0 to 5
        invariant aiCount == Count(board, d, row, col, AI, i)
        invariant playerCount == Count(board, d, row, col, PLAYER, i)
      {
        assert InRange(d, row, col, i);
        var v := board[d.RowAt(row, i)][d.ColAt(col, i)];
        if v == AI {
          aiCount := aiCount + 1;
        } else if v == PLAYER {
          playerCount := playerCount + 1;
        }
      }
    }

    /**
     * The depth-limited alpha-beta search.  At depth 0 or in a finished game
     * the value is the heuristic; otherwise each candidate is tried in turn
     * (AI stones at maximizing nodes, player stones at minimizing ones), the
     * best child value is kept, and the scan stops once beta <= alpha.  The
     * search never sets the game-over flag, so when the depth exceeds the
     * number of EMPTY cells every line of play fills the board before the
     * horizon and ends at a node without candidates, which keeps its initial
     * bound: the value is then `FullBoardValue`.  Otherwise every line ends
     * at the horizon and the value is a heuristic score.
     */
    method AlphaBetaPruning(depth: int, alpha0: int, beta0: int, maximizing: bool) returns (value: int)
      requires Valid() && depth >= 0
      modifies this`board
      decreases depth, 2
      ensures Valid() && board == old(board)
      ensures depth == 0 || gameOver ==> value == BoardScore(board)
      ensures !gameOver && depth > |EmptyCells(board)| ==>
        value == FullBoardValue(maximizing, |EmptyCells(board)|)
      ensures gameOver || depth <= |EmptyCells(board)| ==> HeuristicRange(value)
      ensures INT_MIN <= value <= INT_MAX
    {
      if depth == 0 || gameOver {
        value := EvaluateBoard();
        BoardScoreFitsInt(board);
        return;
      }
      var moves := GenerateMoves();
      value := SearchMoves(moves, depth, alpha0, beta0, maximizing);
    }

    /**
     * The loop of `alphaBetaPruning` over the candidates: each is tried in
     * turn, the best child value is kept and the scan stops once
     * beta <= alpha.  A node without candidates keeps its initial bound.
     */
    method SearchMoves(moves: seq<(int, int)>, depth: int, alpha0: int, beta0: int, maximizing: bool)
      returns (value: int)
      requires Valid() && depth >= 1 && !gameOver && moves == CandidateMoves(board)
      modifies this`board
      decreases depth, 1
      ensures Valid() && board == old(board)
      ensures SearchValue(depth > |EmptyCells(board)|, maximizing, |EmptyCells(board)|, value)
    {
      CandidatesInEmptyCells(board);
      CandidatesIffEmptyCell(board);
      ghost var b0 := board;
      ghost var e := |EmptyCells(board)|;
      ghost var full := depth > e;
      var alpha, beta := alpha0, beta0;
      value := if maximizing then INT_MIN else INT_MAX;
      for i := 0 to |moves|
        invariant Valid() && board == b0
        invariant i == 0 ==> value == if maximizing then INT_MIN else INT_MAX
        invariant i > 0 ==> SearchValue(full, maximizing, e, value)
      {
        var (row, col) := moves[i];
        assert moves[i] in CandidateMoves(b0);
        var eval := TryMove(row, col, if maximizing then AI else PLAYER, depth - 1, alpha, beta, !maximizing);
        assert !gameOver;
        assert board == b0;
        assert |EmptyCells(board)| == e;
        assert (depth - 1 >= e <==> full);
        assert SearchValue(depth - 1 >= |EmptyCells(board)|, !maximizing, |EmptyCells(board)| - 1, eval);
        assert SearchValue(full, !maximizing, e - 1, eval);
        KeepBest(full, maximizing, e, i == 0, value, eval);
        if maximizing {
          value := Max(value, eval);
          alpha := Max(alpha, eval);
        } else {
          value := Min(value, eval);
          beta := Min(beta, eval);
        }
        if beta <= alpha {
          break;
        }
      }
      if moves == [] {
        assert EmptyCells(b0) == {};
      }
    }

    /**
     * One trial of the search: writes stone on the EMPTY cell (row, col),
     * searches the position to the given depth and erases the stone again.
     * The position searched has one EMPTY cell fewer than the board.
     */
    method TryMove(row: int, col: int, stone: int, depth: int, alpha: int, beta: int, maximizing: bool)
      returns (eval: int)
      requires Valid() && depth >= 0 && IsValidPosition(row, col) && board[row][col] == EMPTY
      modifies this`board
      decreases depth + 1, 0
      ensures Valid() && board == old(board)
      ensures INT_MIN <= eval <= INT_MAX
      ensures stone != EMPTY && !gameOver ==>
        SearchValue(depth >= |EmptyCells(board)|, maximizing, |EmptyCells(board)| - 1, eval)
      ensures stone != EMPTY && gameOver ==> HeuristicRange(eval)
    {
      ghost var b0 := board;
      board := SetCell(board, row, col, stone);
      if stone != EMPTY {
        EmptyCellsAfterPlace(b0, row, col, stone);
      }
      eval := AlphaBetaPruning(depth, alpha, beta, maximizing);
      board := SetCell(board, row, col, EMPTY);
      SetCellRestores(b0, row, col, stone);
    }

    /**
     * The AI's choice: the candidate whose search value is strictly the
     * greatest, earliest first, or (-1, -1) when no candidate beats INT_MIN.
     * That happens on a full board, and also whenever the number of EMPTY
     * cells is even and at most the search depth: each trial then fills the
     * board at a node where the player has just moved, worth INT_MIN.  The
     * centre branch for a board without candidates is never taken, since
     * such a board is full.
     */
    method GetBestMove() returns (row: int, col: int)
      requires Valid()
      modifies this`board
      ensures Valid() && board == old(board)
      ensures (row, col) == (-1, -1) <==> NoBestMove(board, gameOver, difficulty)
      ensures (row, col) != (-1, -1) ==> (row, col) in CandidateMoves(board)
      ensures (row, col) != (-1, -1) ==> IsValidPosition(row, col) && board[row][col] == EMPTY
    {
      var moves := GenerateMoves();
      CandidatesAreEmptyCells(board);
      CandidatesIffEmptyCell(board);
      if moves == [] {
        CentreTakenWithoutCandidates(board);
        if board[BOARD_SIZE / 2][BOARD_SIZE / 2] == EMPTY {
          assert false;
        }
      }
      row, col := ScoreCandidates(moves);
    }

    /**
     * The loop of `getBestMove`: each candidate is searched with an AI stone
     * from a minimizing node, and one scoring strictly above the best so far
     * (initially INT_MIN) becomes the choice.
     */
    method ScoreCandidates(moves: seq<(int, int)>) returns (row: int, col: int)
      requires Valid() && moves == CandidateMoves(board)
      modifies this`board
      ensures Valid() && board == old(board)
      ensures (row, col) == (-1, -1) <==> NoBestMove(board, gameOver, difficulty)
      ensures (row, col) == (-1, -1) || (row, col) in moves
    {
      var bestScore := INT_MIN;
      row, col := -1, -1;
      ghost var b0 := board;
      ghost var none := NoBestMove(board, gameOver, difficulty);
      for i := 0 to |moves|
        invariant Valid() && board == b0
        invariant (row, col) == (-1, -1) || (row, col) in moves
        invariant (row, col) == (-1, -1) <==> bestScore == INT_MIN
        invariant bestScore == INT_MIN <==> i == 0 || none
        invariant bestScore >= INT_MIN
      {
        var (r, c) := moves[i];
        assert IsValidPosition(r, c) && b0[r][c] == EMPTY by {
          assert moves[i] in CandidateMoves(b0);
          CandidatesAreEmptyCells(b0);
        }
        var score := RootTrial(r, c);
        if score > bestScore {
          bestScore := score;
          row, col := r, c;
        }
      }
      if moves == [] {
        assert NoBestMove(b0, gameOver, difficulty) by {
          CandidatesIffEmptyCell(b0);
        }
      }
    }

    /**
     * One trial of `getBestMove`: an AI stone on the EMPTY cell (row, col),
     * searched to the difficulty's depth from a minimizing node.  It scores
     * INT_MIN exactly when `getBestMove` finds no move on this board.
     */
    method RootTrial(row: int, col: int) returns (score: int)
      requires Valid() && IsValidPosition(row, col) && board[row][col] == EMPTY
      modifies this`board
      ensures Valid() && board == old(board)
      ensures score >= INT_MIN
      ensures score == INT_MIN <==> NoBestMove(board, gameOver, difficulty)
    {
      score := TryMove(row, col, AI, difficulty.Level(), INT_MIN, INT_MAX, false);
      assert (row, col) in EmptyCells(board);
      TrialScore(board, gameOver, difficulty, score);
    }

    /**
     * `getBestMove` with the first candidate as the initial choice: a move
     * is returned whenever the board has an EMPTY cell, and it is a
     * candidate.
     */
    method GetBestMoveFixed() returns (row: int, col: int)
      requires Valid()
      modifies this`board
      ensures Valid() && board == old(board)
      ensures (row, col) == (-1, -1) <==> EmptyCells(board) == {}
      ensures (row, col) != (-1, -1) ==> (row, col) in CandidateMoves(board)
      ensures (row, col) != (-1, -1) ==> IsValidPosition(row, col) && board[row][col] == EMPTY
    {
      var bestScore := INT_MIN;
      row, col := -1, -1;
      var moves := GenerateMoves();
      CandidatesAreEmptyCells(board);
      CandidatesIffEmptyCell(board);
      if moves == [] {
        CentreTakenWithoutCandidates(board);
        return;
      }
      row, col := moves[0].0, moves[0].1;
      ghost var b0 := board;
      for i := 0 to |moves|
        invariant Valid() && board == b0
        invariant (row, col) in moves
      {
        var (r, c) := moves[i];
        assert moves[i] in CandidateMoves(b0);
        var score := TryMove(r, c, AI, difficulty.Level(), INT_MIN, INT_MAX, false);
        if score > bestScore {
          bestScore := score;
          row, col := r, c;
        }
      }
    }
  }

  /**
   * Without candidates the board is full, so the centre branch of
   * `getBestMove` never returns the centre.
   */
  lemma CentreTakenWithoutCandidates(g: Grid)
    requires IsGrid(g) && CandidateMoves(g) == []
    ensures g[BOARD_SIZE / 2][BOARD_SIZE / 2] != EMPTY
  {
    CandidatesEmptyIffFull(g);
  }

  /**
   * The value of a search node whose every line fills the board before the
   * horizon: the full board is reached at a maximizing node, worth INT_MIN,
   * exactly when an even number of EMPTY cells is left to fill.
   */
  function FullBoardValue(maximizing: bool, e: int): int {
    if maximizing == (e % 2 == 0) then INT_MIN else INT_MAX
  }

  /** The bound on a heuristic score; it keeps clear of INT_MIN and INT_MAX. */
  predicate HeuristicRange(v: int) {
    -572 * 100000 <= v <= 572 * 100000
  }

  /** What a node's value is once one child has been searched. */
  predicate SearchValue(full: bool, maximizing: bool, e: int, v: int) {
    if full then v == FullBoardValue(maximizing, e) else HeuristicRange(v)
  }

  /**
   * A child's value, for the node of the other kind with one EMPTY cell
   * fewer, satisfies the parent's `SearchValue`; keeping the better of the
   * node's value so far and that child's value preserves it.
   */
  lemma KeepBest(full: bool, maximizing: bool, e: int, first: bool, value: int, eval: int)
    requires first ==> value == if maximizing then INT_MIN else INT_MAX
    requires !first ==> SearchValue(full, maximizing, e, value)
    requires SearchValue(full, !maximizing, e - 1, eval)
    ensures SearchValue(full, maximizing, e, if maximizing then Max(value, eval) else Min(value, eval))
  {
    FullBoardValueStep(maximizing, e);
  }

  /** A child, one cell fuller and of the other kind, has the same full-board value. */
  lemma FullBoardValueStep(maximizing: bool, e: int)
    ensures FullBoardValue(!maximizing, e - 1) == FullBoardValue(maximizing, e)
  {
  }

  /**
   * `getBestMove` finds no move: the board is full, or the game is not over
   * and the number of EMPTY cells is even and at most the search depth.
   */
  ghost predicate NoBestMove(g: Grid, gameOver: bool, d: Difficulty)
    requires IsGrid(g)
  {
    var e := |EmptyCells(g)|;
    e == 0 || (!gameOver && e % 2 == 0 && e <= d.Level())
  }

  /**
   * Boards on which `getBestMove` gives up although there are candidates:
   * two EMPTY cells at MEDIUM or HARD, four at HARD.
   */
  lemma NoBestMoveWithCandidates(g: Grid, d: Difficulty)
    requires IsGrid(g)
    requires (|EmptyCells(g)| == 2 && d != Easy) || (|EmptyCells(g)| == 4 && d == Hard)
    ensures NoBestMove(g, false, d) && CandidateMoves(g) != []
  {
    CandidatesIffEmptyCell(g);
  }

  /**
   * A root trial, an AI stone searched at the difficulty's depth from a
   * minimizing node, scores INT_MIN exactly when `getBestMove` finds no move.
   */
  lemma TrialScore(g: Grid, gameOver: bool, d: Difficulty, score: int)
    requires IsGrid(g) && EmptyCells(g) != {}
    requires !gameOver ==> SearchValue(d.Level() >= |EmptyCells(g)|, false, |EmptyCells(g)| - 1, score)
    requires gameOver ==> HeuristicRange(score)
    ensures score == INT_MIN <==> NoBestMove(g, gameOver, d)
  {
  }

  /** At EASY, `getBestMove` gives up only on a full board. */
  lemma EasyFindsMove(g: Grid, gameOver: bool)
    requires IsGrid(g)
    ensures NoBestMove(g, gameOver, Easy) <==> EmptyCells(g) == {}
  {
  }

  function Max(a: int, b: int): (m: int)
    ensures m >= a && m >= b && (m == a || m == b)
  {
    if a < b then b else a
  }

  function Min(a: int, b: int): (m: int)
    ensures m <= a && m <= b && (m == a || m == b)
  {
    if b < a then b else a
  }
}
