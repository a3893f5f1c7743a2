/**
 * The C interface of the engine library: every entry point takes the engine
 * handle and exchanges plain C `int`s, booleans becoming 1 or 0 and the
 * difficulty enum its integer value.
 */
module Wrapper {
  import opened Board
  import opened Candidates
  import opened Engine

  /** A C++ `bool` returned as a C `int`. */
  function BoolToInt(b: bool): (n: int)
    ensures n == 0 || n == 1
    ensures n != 0 <==> b
  {
    if b then 1 else 0
  }

  /**
   * The difficulty a numeric level selects: levels up to 1 are EASY, levels
   * from 5 up are HARD, everything between is MEDIUM.
   */
  function DifficultyFromLevel(level: int): (d: Difficulty)
    ensures d == Easy <==> level <= 1
    ensures d == Hard <==> level >= 5
    ensures d.Level() == level <==> level in {1, 3, 5}
  {
    if level <= 1 then Easy
    else if level >= 5 then Hard
    else Medium
  }

  /** Reading the difficulty back as a level and setting it again changes nothing. */
  lemma LevelRoundTrip(d: Difficulty)
    ensures DifficultyFromLevel(d.Level()) == d
  {
  }

  /** A higher level never selects an easier difficulty. */
  lemma LevelMonotone(a: int, b: int)
    requires a <= b
    ensures DifficultyFromLevel(a).Level() <= DifficultyFromLevel(b).Level()
  {
  }

  function Distance(a: int, b: int): nat {
    if a < b then b - a else a - b
  }

  /** The level a difficulty reads back as is one of 1, 3, 5 nearest to the level set. */
  lemma LevelNearest(level: int)
    ensures forall m :: m in {1, 3, 5} ==>
      Distance(level, DifficultyFromLevel(level).Level()) <= Distance(level, m)
  {
  }

  /** `create_engine`: a new engine with a fresh game at MEDIUM difficulty. */
  method CreateEngine() returns (e: GomokuEngine)
    ensures fresh(e) && e.Valid() && e.State() == Fresh() && e.difficulty == Medium
  {
    e := new GomokuEngine();
  }

  /** `reset_game` */
  method ResetGame(e: GomokuEngine)
    modifies e
    ensures e.Valid() && e.State() == Fresh() && e.difficulty == old(e.difficulty)
  {
    e.ResetGame();
  }

  /** `make_move`: 1 when the engine accepted the move, 0 when it refused it. */
  method MakeMove(e: GomokuEngine, row: int, col: int, player: int) returns (accepted: int)
    requires e.Valid()
    modifies e
    ensures e.Valid() && e.difficulty == old(e.difficulty)
    ensures accepted == BoolToInt(Accepts(old(e.State()), row, col))
    ensures e.State() == ApplyMove(old(e.State()), Move(row, col, player))
  {
    var ok := e.MakeMove(row, col, player);
    accepted := BoolToInt(ok);
  }

  /**
   * `get_best_move`: the engine's choice written to the two out-parameters;
   * (-1, -1) on a full board, and also on a board whose number of EMPTY
   * cells is even and at most the search depth.
   */
  method GetBestMove(e: GomokuEngine) returns (row: int, col: int)
    requires e.Valid()
    modifies e`board
    ensures e.Valid() && e.board == old(e.board)
    ensures (row, col) == (-1, -1) <==> NoBestMove(e.board, e.gameOver, e.difficulty)
    ensures EmptyCells(e.board) == {} ==> (row, col) == (-1, -1)
    ensures (row, col) != (-1, -1) ==> (row, col) in CandidateMoves(e.board)
    ensures (row, col) != (-1, -1) ==> IsValidPosition(row, col) && e.board[row][col] == EMPTY
  {
    row, col := e.GetBestMove();
  }

  /** `is_game_over` */
  function IsGameOver(e: GomokuEngine): (over: int)
    reads e
    ensures over == 0 || over == 1
    ensures over != 0 <==> e.gameOver
  {
    BoolToInt(e.IsGameOver())
  }

  /** `get_winner`: the winner's colour code, EMPTY (0) while nobody has won. */
  function GetWinner(e: GomokuEngine): (w: int)
    reads e
    ensures w == e.winner
  {
    e.GetWinner()
  }

  /** `get_board_value`: the cell's code on the board, -1 off the board. */
  function GetBoardValue(e: GomokuEngine, row: int, col: int): (v: int)
    requires e.Valid()
    reads e
    ensures IsValidPosition(row, col) ==> v == e.board[row][col]
    ensures !IsValidPosition(row, col) ==> v == -1
  {
    var board := e.GetBoard();
    if 0 <= row < BOARD_SIZE && 0 <= col < BOARD_SIZE then board[row][col] else -1
  }

  /** `set_difficulty`: the level is mapped onto the enum before it is stored. */
  method SetDifficulty(e: GomokuEngine, level: int)
    modifies e`difficulty
    ensures e.difficulty == DifficultyFromLevel(level)
  {
    e.SetDifficulty(DifficultyFromLevel(level));
  }

  /** `get_difficulty`: the enum's integer value, 1, 3 or 5. */
  function GetDifficulty(e: GomokuEngine): (level: int)
    reads e
    ensures level in {1, 3, 5}
    ensures DifficultyFromLevel(level) == e.difficulty
  {
    e.GetDifficulty().Level()
  }

  /** `undo_move`: 1 when moves were undone, 0 when the history was empty. */
  method UndoMove(e: GomokuEngine) returns (undone: int)
    requires e.Valid()
    modifies e
    ensures e.Valid() && e.difficulty == old(e.difficulty)
    ensures undone == BoolToInt(old(e.moveHistory) != [])
    ensures e.State() == if undone != 0 then UndoSpec(old(e.State())) else old(e.State())
  {
    var ok := e.UndoMove();
    undone := BoolToInt(ok);
  }

  /** `can_undo` */
  function CanUndo(e: GomokuEngine): (can: int)
    reads e
    ensures can == 0 || can == 1
    ensures can != 0 <==> e.moveHistory != []
  {
    BoolToInt(e.CanUndo())
  }
}
