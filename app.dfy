/**
 * The session controller of the desktop front end: the board widget's game
 * logic (turns, the move ledger, undo per game mode, replay navigation and
 * the outcome counters) and the two window slots that compute values
 * (difficulty selection and the game clock).  Widgets, dialogs, status
 * texts and timers are not modelled; the engine is reached through the C
 * interface, Python's `bool(...)` of a returned `int` being `!= 0`.
 */
module App {
  import opened Board
  import opened Candidates
  import opened Engine
  import Wrapper

  /** The three game modes of the mode selector, in its order. */
  datatype Mode = PlayerVsAi | PlayerVsPlayer | AiVsAi

  datatype Option<T> = None | Some(value: T)

  /** Every ledger entry is a stone of one of the two players. */
  predicate Players(ms: seq<Move>) {
    forall i :: 0 <= i < |ms| ==> ms[i].player == PLAYER || ms[i].player == AI
  }

  /** A replay of moves by the two players only ever names one of them as winner. */
  lemma ReplayWinnerIsPlayer(ms: seq<Move>)
    requires Players(ms)
    ensures Replay(ms).gameOver ==> Replay(ms).winner == PLAYER || Replay(ms).winner == AI
  {
    ReplayWinnerPlayed(ms);
  }

  /** The board widget with its game state. */
  class GomokuBoard {
    const engine: GomokuEngine
    var playerTurn: bool
    var gameInProgress: bool
    var gameMode: Mode
    var gamesPlayed: nat
    var playerWins: nat
    var aiWins: nat
    var draws: nat
    var moveHistory: seq<Move>
    var currentMoveIndex: int
    var replayMode: bool
    var lastMovePosition: Option<(int, int)>

    /** The engine is well formed and only the two players' stones are recorded. */
    ghost predicate Ready()
      reads this, engine
    {
      engine.Valid() && Players(moveHistory) &&
      (engine.gameOver ==> engine.winner == PLAYER || engine.winner == AI)
    }

    /** The ledger moves the replay cursor covers: those up to and including currentMoveIndex. */
    ghost function Shown(): seq<Move>
      requires currentMoveIndex >= -1
      reads this
    {
      moveHistory[..Min(currentMoveIndex + 1, |moveHistory|)]
    }

    /** In replay mode the engine holds exactly the replay of the moves up to the cursor. */
    ghost predicate Valid()
      reads this, engine
    {
      Ready() && currentMoveIndex >= -1 &&
      (replayMode ==> engine.State() == Replay(Shown()))
    }

    /** The ledger and the engine's move stack agree. */
    ghost predicate InSync()
      reads this, engine
    {
      engine.moveHistory == moveHistory
    }

    /** The colour whose turn it is. */
    function CurrentPlayer(): (p: int)
      reads this
      ensures p == PLAYER || p == AI
    {
      if playerTurn then PLAYER else AI
    }

    ghost function Counters(): (nat, nat, nat, nat)
      reads this
    {
      (gamesPlayed, playerWins, aiWins, draws)
    }

    /**
     * The counters relative to c0 after a turn: a finished game is counted
     * once, as a win for the engine's winner; otherwise they are c0.
     */
    ghost predicate Counted(c0: (nat, nat, nat, nat))
      reads this, engine
    {
      if engine.gameOver then
        gamesPlayed == c0.0 + 1 &&
        playerWins == c0.1 + (if engine.winner == PLAYER then 1 else 0) &&
        aiWins == c0.2 + (if engine.winner == AI then 1 else 0) &&
        draws == c0.3
      else
        Counters() == c0
    }

    /** A new board: player-versus-AI mode, no game in progress, the player to move. */
    constructor ()
      ensures Valid() && InSync() && fresh(engine)
      ensures engine.State() == Fresh() && engine.difficulty == Medium
      ensures playerTurn && !gameInProgress && gameMode == PlayerVsAi
      ensures Counters() == (0, 0, 0, 0)
      ensures moveHistory == [] && currentMoveIndex == -1 && !replayMode && lastMovePosition == None
    {
      var e := Wrapper.CreateEngine();
      engine := e;
      playerTurn := true;
      gameInProgress := false;
      gameMode := PlayerVsAi;
      gamesPlayed, playerWins, aiWins, draws := 0, 0, 0, 0;
      moveHistory := [];
      currentMoveIndex := -1;
      replayMode := false;
      lastMovePosition := None;
    }

    /** Starts a new game in the current mode, keeping the counters and the difficulty. */
    method ResetGame()
      requires Valid()
      modifies this, engine
      ensures Valid() && InSync()
      ensures engine.State() == Fresh() && engine.difficulty == old(engine.difficulty)
      ensures playerTurn && gameInProgress && !replayMode
      ensures moveHistory == [] && currentMoveIndex == -1 && lastMovePosition == None
      ensures gameMode == old(gameMode) && Counters() == old(Counters())
    {
      Wrapper.ResetGame(engine);
      playerTurn := true;
      gameInProgress := true;
      replayMode := false;
      moveHistory := [];
      currentMoveIndex := -1;
      lastMovePosition := None;
    }

    /** Switches to mode and starts a new game, unless that mode's game is already in progress. */
    method SetGameMode(mode: Mode)
      requires Valid()
      modifies this, engine
      ensures Valid()
      ensures old(gameMode) == mode && old(gameInProgress) ==> unchanged(this) && unchanged(engine)
      ensures old(gameMode) != mode || !old(gameInProgress) ==>
        gameMode == mode && engine.State() == Fresh() && moveHistory == [] && gameInProgress &&
        playerTurn && !replayMode && currentMoveIndex == -1 && lastMovePosition == None &&
        Counters() == old(Counters()) && engine.difficulty == old(engine.difficulty)
    {
      if gameMode != mode || !gameInProgress {
        gameMode := mode;
        ResetGame();
      }
    }

    /** The clicked cell is not played: replay, a finished game, the AI's turn or an occupied cell. */
    ghost predicate IgnoresClick(row: int, col: int)
      requires engine.Valid()
      reads this, engine
    {
      replayMode || engine.gameOver || (gameMode == PlayerVsAi && !playerTurn) ||
      gameMode == AiVsAi || Wrapper.GetBoardValue(engine, row, col) != EMPTY
    }

    /**
     * Offers player's stone on (row, col) to the engine and, if it is
     * accepted, records it: ledger entry, replay cursor, highlight.
     */
    method PlayMove(row: int, col: int, player: int) returns (accepted: bool)
      requires Valid() && !replayMode && (player == PLAYER || player == AI)
      modifies this`moveHistory, this`currentMoveIndex, this`lastMovePosition, engine
      ensures Valid() && engine.difficulty == old(engine.difficulty)
      ensures accepted <==> Accepts(old(engine.State()), row, col)
      ensures engine.State() == ApplyMove(old(engine.State()), Move(row, col, player))
      ensures accepted ==>
        moveHistory == old(moveHistory) + [Move(row, col, player)] &&
        currentMoveIndex == |moveHistory| - 1 && lastMovePosition == Some((row, col))
      ensures !accepted ==>
        moveHistory == old(moveHistory) && currentMoveIndex == old(currentMoveIndex) &&
        lastMovePosition == old(lastMovePosition)
      ensures old(InSync()) ==> InSync()
    {
      var made := Wrapper.MakeMove(engine, row, col, player);
      accepted := made != 0;
      if accepted {
        moveHistory := moveHistory + [Move(row, col, player)];
        currentMoveIndex := |moveHistory| - 1;
        lastMovePosition := Some((row, col));
      }
    }

    /** After a move: a finished game is counted, otherwise the turn passes. */
    method EndTurn() returns (over: bool)
      requires Valid()
      modifies this`gamesPlayed, this`playerWins, this`aiWins, this`draws, this`gameInProgress, this`playerTurn
      ensures Valid()
      ensures over <==> engine.gameOver
      ensures Counted(old(Counters()))
      ensures over ==> !gameInProgress && playerTurn == old(playerTurn)
      ensures !over ==> gameInProgress == old(gameInProgress) && playerTurn == !old(playerTurn)
    {
      over := Wrapper.IsGameOver(engine) != 0;
      if over {
        GameOver();
        return;
      }
      playerTurn := !playerTurn;
    }

    /**
     * A click on (row, col).  An ignored click changes nothing.  Otherwise
     * the stone of the player to move is placed and recorded; a finished
     * game is counted, else the turn passes, and in player-versus-AI mode
     * the AI replies at once.
     */
    method CellClicked(row: int, col: int)
      requires Valid()
      modifies this, engine
      ensures Valid()
      ensures old(IgnoresClick(row, col)) ==> unchanged(this) && unchanged(engine)
      ensures !old(IgnoresClick(row, col)) ==>
        |moveHistory| > |old(moveHistory)| &&
        moveHistory[..|old(moveHistory)| + 1] == old(moveHistory) + [Move(row, col, old(CurrentPlayer()))]
      ensures !old(IgnoresClick(row, col)) && old(gameMode) == PlayerVsPlayer ==>
        engine.State() == Place(old(engine.State()), Move(row, col, old(CurrentPlayer()))) &&
        moveHistory == old(moveHistory) + [Move(row, col, old(CurrentPlayer()))] &&
        currentMoveIndex == |moveHistory| - 1 && lastMovePosition == Some((row, col)) &&
        playerTurn == (if engine.gameOver then old(playerTurn) else !old(playerTurn))
      ensures !old(IgnoresClick(row, col)) && old(gameMode) == PlayerVsAi ==>
        |moveHistory| <= |old(moveHistory)| + 2 && (!engine.gameOver ==> playerTurn)
      ensures !old(IgnoresClick(row, col)) ==>
        Counted(old(Counters())) &&
        (engine.gameOver ==> !gameInProgress) &&
        (!engine.gameOver ==> gameInProgress == old(gameInProgress))
      ensures old(InSync()) ==> InSync()
      ensures gameMode == old(gameMode) && replayMode == old(replayMode)
      ensures engine.difficulty == old(engine.difficulty)
    {
      if replayMode || Wrapper.IsGameOver(engine) != 0 {
        return;
      }
      if gameMode == PlayerVsAi && !playerTurn {
        return;
      }
      if gameMode == AiVsAi {
        return;
      }
      if Wrapper.GetBoardValue(engine, row, col) != EMPTY {
        return;
      }
      var currentPlayer := CurrentPlayer();
      var accepted := PlayMove(row, col, currentPlayer);
      if accepted {
        var over := EndTurn();
        if !over && gameMode == PlayerVsAi && !playerTurn {
          AiMove();
        }
      }
    }

    /**
     * The AI's turn, for the colour whose turn it is.  Nothing happens in
     * replay or after the game ended.  Otherwise the AI's move is placed and
     * recorded, unless the engine finds none (on a full board, and on one
     * whose number of EMPTY cells is even and at most the search depth); a
     * finished game is counted, else the turn passes, even when no stone
     * was placed.
     */
    method AiMove()
      requires Valid()
      modifies this, engine
      ensures Valid()
      ensures old(replayMode || engine.gameOver) ==> unchanged(this) && unchanged(engine)
      ensures !old(replayMode || engine.gameOver) ==>
        |moveHistory| == |old(moveHistory)| +
          (if NoBestMove(old(engine.board), old(engine.gameOver), old(engine.difficulty)) then 0 else 1)
      ensures !old(replayMode || engine.gameOver) && |moveHistory| == |old(moveHistory)| ==>
        moveHistory == old(moveHistory) && engine.State() == old(engine.State()) &&
        currentMoveIndex == old(currentMoveIndex) && lastMovePosition == old(lastMovePosition)
      ensures !old(replayMode || engine.gameOver) && |moveHistory| > |old(moveHistory)| ==>
        var m := moveHistory[|moveHistory| - 1];
        moveHistory == old(moveHistory) + [m] && m.player == old(CurrentPlayer()) &&
        (m.row, m.col) in CandidateMoves(old(engine.board)) && IsValidPosition(m.row, m.col) &&
        engine.State() == Place(old(engine.State()), m) &&
        currentMoveIndex == |moveHistory| - 1 && lastMovePosition == Some((m.row, m.col))
      ensures !old(replayMode || engine.gameOver) ==>
        Counted(old(Counters())) &&
        (engine.gameOver ==> !gameInProgress && playerTurn == old(playerTurn)) &&
        (!engine.gameOver ==> gameInProgress == old(gameInProgress) && playerTurn == !old(playerTurn))
      ensures old(InSync()) ==> InSync()
      ensures gameMode == old(gameMode) && replayMode == old(replayMode)
      ensures engine.difficulty == old(engine.difficulty)
    {
      if replayMode || Wrapper.IsGameOver(engine) != 0 {
        return;
      }
      AiTurn();
    }

    /** The AI's turn once replay and a finished game are ruled out. */
    method AiTurn()
      requires Valid() && !replayMode && !engine.gameOver
      modifies this, engine
      ensures Valid()
      ensures |moveHistory| == |old(moveHistory)| +
        (if NoBestMove(old(engine.board), old(engine.gameOver), old(engine.difficulty)) then 0 else 1)
      ensures |moveHistory| == |old(moveHistory)| ==>
        moveHistory == old(moveHistory) && engine.State() == old(engine.State()) &&
        currentMoveIndex == old(currentMoveIndex) && lastMovePosition == old(lastMovePosition)
      ensures |moveHistory| > |old(moveHistory)| ==>
        var m := moveHistory[|moveHistory| - 1];
        moveHistory == old(moveHistory) + [m] && m.player == old(CurrentPlayer()) &&
        (m.row, m.col) in CandidateMoves(old(engine.board)) && IsValidPosition(m.row, m.col) &&
        engine.State() == Place(old(engine.State()), m) &&
        currentMoveIndex == |moveHistory| - 1 && lastMovePosition == Some((m.row, m.col))
      ensures Counted(old(Counters()))
      ensures engine.gameOver ==> !gameInProgress && playerTurn == old(playerTurn)
      ensures !engine.gameOver ==> gameInProgress == old(gameInProgress) && playerTurn == !old(playerTurn)
      ensures old(InSync()) ==> InSync()
      ensures gameMode == old(gameMode) && replayMode == old(replayMode)
      ensures engine.difficulty == old(engine.difficulty)
    {
      var placed, row, col := AiPlay();
      var over := EndTurn();
    }

    /**
     * Asks the engine for its move and plays it for the colour to move; a
     * move is placed exactly when the engine finds one, which it never does
     * on a full board.
     */
    method AiPlay() returns (placed: bool, row: int, col: int)
      requires Valid() && !replayMode && !engine.gameOver
      modifies this`moveHistory, this`currentMoveIndex, this`lastMovePosition, engine
      ensures Valid() && engine.difficulty == old(engine.difficulty)
      ensures placed <==> !NoBestMove(old(engine.board), old(engine.gameOver), old(engine.difficulty))
      ensures EmptyCells(old(engine.board)) == {} ==> !placed
      ensures !placed ==>
        moveHistory == old(moveHistory) && engine.State() == old(engine.State()) &&
        currentMoveIndex == old(currentMoveIndex) && lastMovePosition == old(lastMovePosition)
      ensures placed ==>
        IsValidPosition(row, col) && (row, col) in CandidateMoves(old(engine.board)) &&
        moveHistory == old(moveHistory) + [Move(row, col, CurrentPlayer())] &&
        engine.State() == Place(old(engine.State()), Move(row, col, CurrentPlayer())) &&
        currentMoveIndex == |moveHistory| - 1 && lastMovePosition == Some((row, col))
      ensures old(InSync()) ==> InSync()
    {
      row, col := Wrapper.GetBestMove(engine);
      var currentPlayer := CurrentPlayer();
      placed := false;
      if row >= 0 && col >= 0 {
        placed := PlayMove(row, col, currentPlayer);
      }
    }

    /**
     * Counts a finished game: one more game played, and one more win for the
     * engine's winner or, without a winner, one more draw.
     */
    method GameOver()
      requires Valid()
      modifies this`gamesPlayed, this`playerWins, this`aiWins, this`draws, this`gameInProgress
      ensures Valid()
      ensures gamesPlayed == old(gamesPlayed) + 1 && !gameInProgress
      ensures playerWins == old(playerWins) + (if engine.winner == PLAYER then 1 else 0)
      ensures aiWins == old(aiWins) + (if engine.winner == AI then 1 else 0)
      ensures draws == old(draws) + (if engine.winner != PLAYER && engine.winner != AI then 1 else 0)
      ensures engine.gameOver ==> draws == old(draws)
    {
      var winner := Wrapper.GetWinner(engine);
      gamesPlayed := gamesPlayed + 1;
      gameInProgress := false;
      if winner == PLAYER {
        playerWins := playerWins + 1;
      } else if winner == AI {
        aiWins := aiWins + 1;
      } else {
        draws := draws + 1;
      }
    }

    /** Passes the level from the difficulty selector to the engine. */
    method SetDifficulty(difficulty: int)
      modifies engine`difficulty
      ensures engine.difficulty == Wrapper.DifficultyFromLevel(difficulty)
    {
      Wrapper.SetDifficulty(engine, difficulty);
    }

    /**
     * Undo.  Refused in replay and in AI-versus-AI mode.  In player-versus-AI
     * mode it needs a move to undo, a game in progress and the player to
     * move; in player-versus-player mode a game in progress and a move to
     * undo, and the turn passes back.  Either way the engine undoes up to two
     * moves while the ledger loses one.
     */
    method UndoLastMove() returns (ok: bool)
      requires Valid()
      modifies this, engine
      ensures Valid()
      ensures !ok ==> unchanged(this) && unchanged(engine)
      ensures ok <==>
        !old(replayMode) && old(engine.moveHistory) != [] && old(gameInProgress) &&
        ((old(gameMode) == PlayerVsAi && old(playerTurn)) || old(gameMode) == PlayerVsPlayer)
      ensures ok ==> engine.State() == UndoSpec(old(engine.State()))
      ensures ok ==> moveHistory == if old(moveHistory) == [] then [] else old(moveHistory)[..|old(moveHistory)| - 1]
      ensures ok ==> playerTurn == (if old(gameMode) == PlayerVsPlayer then !old(playerTurn) else old(playerTurn))
      ensures ok ==>
        lastMovePosition == if moveHistory == [] then old(lastMovePosition)
        else Some((moveHistory[|moveHistory| - 1].row, moveHistory[|moveHistory| - 1].col))
      ensures ok && old(InSync()) && |old(moveHistory)| >= 2 ==> |engine.moveHistory| + 1 == |moveHistory|
      ensures gameMode == old(gameMode) && replayMode == old(replayMode) && Counters() == old(Counters())
      ensures gameInProgress == old(gameInProgress) && currentMoveIndex == old(currentMoveIndex)
      ensures engine.difficulty == old(engine.difficulty)
    {
      if replayMode {
        return false;
      }
      if gameMode == PlayerVsAi {
        if Wrapper.CanUndo(engine) != 0 && gameInProgress && playerTurn {
          var undone := UndoEngine();
          if undone != 0 {
            PopLedger();
            return true;
          }
        }
      } else if gameMode == PlayerVsPlayer && gameInProgress {
        if Wrapper.CanUndo(engine) != 0 {
          var undone := UndoEngine();
          if undone != 0 {
            playerTurn := !playerTurn;
            PopLedger();
            return true;
          }
        }
      }
      return false;
    }

    /** The engine's undo when it has a move to undo: it succeeds and pops up to two moves. */
    method UndoEngine() returns (undone: int)
      requires Valid() && !replayMode && engine.moveHistory != []
      modifies engine
      ensures Valid() && undone != 0
      ensures engine.State() == UndoSpec(old(engine.State())) && engine.difficulty == old(engine.difficulty)
      ensures |engine.moveHistory| == if |old(engine.moveHistory)| >= 2 then |old(engine.moveHistory)| - 2 else 0
    {
      undone := Wrapper.UndoMove(engine);
      UnwindPops(old(engine.State()), 2);
    }

    /** Drops the newest ledger entry, if any, and highlights the entry before it. */
    method PopLedger()
      modifies this`moveHistory, this`lastMovePosition
      ensures moveHistory == if old(moveHistory) == [] then [] else old(moveHistory)[..|old(moveHistory)| - 1]
      ensures lastMovePosition ==
        if moveHistory == [] then old(lastMovePosition)
        else Some((moveHistory[|moveHistory| - 1].row, moveHistory[|moveHistory| - 1].col))
    {
      if moveHistory != [] {
        moveHistory := moveHistory[..|moveHistory| - 1];
        if moveHistory != [] {
          var last := moveHistory[|moveHistory| - 1];
          lastMovePosition := Some((last.row, last.col));
        }
      }
    }

    /** Enters replay at the empty board; refused while the ledger is empty. */
    method EnterReplayMode() returns (ok: bool)
      requires Valid()
      modifies this, engine
      ensures Valid()
      ensures ok <==> old(moveHistory) != []
      ensures !ok ==> unchanged(this) && unchanged(engine)
      ensures ok ==> replayMode && currentMoveIndex == -1 && engine.State() == Fresh()
      ensures moveHistory == old(moveHistory) && engine.difficulty == old(engine.difficulty)
      ensures gameMode == old(gameMode) && playerTurn == old(playerTurn) && Counters() == old(Counters())
      ensures gameInProgress == old(gameInProgress) && lastMovePosition == old(lastMovePosition)
    {
      if moveHistory == [] {
        return false;
      }
      replayMode := true;
      ResetBoardToMove(-1);
      return true;
    }

    /** Leaves replay, restoring the engine to the replay of the whole ledger. */
    method ExitReplayMode()
      requires Valid()
      modifies this, engine
      ensures Valid()
      ensures !old(replayMode) ==> unchanged(this) && unchanged(engine)
      ensures old(replayMode) ==>
        !replayMode && engine.State() == Replay(moveHistory) && currentMoveIndex == |moveHistory| - 1
      ensures moveHistory == old(moveHistory) && engine.difficulty == old(engine.difficulty)
      ensures gameMode == old(gameMode) && playerTurn == old(playerTurn) && Counters() == old(Counters())
      ensures gameInProgress == old(gameInProgress) && lastMovePosition == old(lastMovePosition)
    {
      if !replayMode {
        return;
      }
      replayMode := false;
      ResetBoardToMove(|moveHistory| - 1);
      assert moveHistory[..|moveHistory|] == moveHistory;
    }

    /**
     * Rebuilds the engine from a reset by offering it the ledger's moves up
     * to index moveIndex; a negative index leaves the board empty and the
     * cursor at -1, any other index becomes the cursor as given.
     */
    method ResetBoardToMove(moveIndex: int)
      requires Ready()
      modifies this`currentMoveIndex, engine
      ensures Valid()
      ensures currentMoveIndex == if moveIndex < 0 then -1 else moveIndex
      ensures engine.State() == Replay(Shown())
      ensures engine.difficulty == old(engine.difficulty)
    {
      Wrapper.ResetGame(engine);
      if moveIndex < 0 {
        currentMoveIndex := -1;
        assert moveHistory[..0] == [];
        return;
      }
      var n := Min(moveIndex + 1, |moveHistory|);
      for i := 0 to n
        invariant engine.Valid() && engine.State() == Replay(moveHistory[..i])
        invariant engine.difficulty == old(engine.difficulty)
      {
        var m := moveHistory[i];
        var accepted := Wrapper.MakeMove(engine, m.row, m.col, m.player);
        assert moveHistory[..i + 1][..i] == moveHistory[..i];
      }
      currentMoveIndex := moveIndex;
      assert Players(Shown()) by {
        assert forall j :: 0 <= j < |Shown()| ==> Shown()[j] == moveHistory[j];
      }
      ReplayWinnerIsPlayer(Shown());
    }

    /** Steps the replay forward by offering the engine the next ledger move. */
    method NextMove() returns (ok: bool)
      requires Valid()
      modifies this, engine
      ensures Valid()
      ensures ok <==> old(replayMode) && old(currentMoveIndex) < |old(moveHistory)| - 1
      ensures !ok ==> unchanged(this) && unchanged(engine)
      ensures moveHistory == old(moveHistory) && replayMode == old(replayMode)
      ensures ok ==>
        currentMoveIndex == old(currentMoveIndex) + 1 &&
        engine.State() == Replay(moveHistory[..currentMoveIndex + 1]) &&
        lastMovePosition == Some((moveHistory[currentMoveIndex].row, moveHistory[currentMoveIndex].col))
      ensures gameMode == old(gameMode) && playerTurn == old(playerTurn) && Counters() == old(Counters())
      ensures gameInProgress == old(gameInProgress) && engine.difficulty == old(engine.difficulty)
    {
      if !replayMode || currentMoveIndex >= |moveHistory| - 1 {
        return false;
      }
      currentMoveIndex := currentMoveIndex + 1;
      var m := moveHistory[currentMoveIndex];
      var accepted := Wrapper.MakeMove(engine, m.row, m.col, m.player);
      lastMovePosition := Some((m.row, m.col));
      assert moveHistory[..currentMoveIndex + 1][..currentMoveIndex] == moveHistory[..currentMoveIndex];
      assert Players(Shown()) by {
        assert forall j :: 0 <= j < |Shown()| ==> Shown()[j] == moveHistory[j];
      }
      ReplayWinnerIsPlayer(Shown());
      return true;
    }

    /** Steps the replay back by rebuilding the engine up to the previous move. */
    method PreviousMove() returns (ok: bool)
      requires Valid()
      modifies this, engine
      ensures Valid()
      ensures ok <==> old(replayMode) && old(currentMoveIndex) >= 0
      ensures !ok ==> unchanged(this) && unchanged(engine)
      ensures ok ==> currentMoveIndex == old(currentMoveIndex) - 1 && engine.State() == Replay(Shown())
      ensures moveHistory == old(moveHistory) && replayMode == old(replayMode)
      ensures gameMode == old(gameMode) && playerTurn == old(playerTurn) && Counters() == old(Counters())
      ensures gameInProgress == old(gameInProgress) && lastMovePosition == old(lastMovePosition)
      ensures engine.difficulty == old(engine.difficulty)
    {
      if !replayMode || currentMoveIndex < 0 {
        return false;
      }
      currentMoveIndex := currentMoveIndex - 1;
      ResetBoardToMove(currentMoveIndex);
      return true;
    }
  }

  /**
   * Python's `[EASY, MEDIUM, HARD][index]`: indexes 0, 1, 2 select levels
   * 1, 3, 5, negative indexes count from the end, and any other index
   * raises IndexError (None here).
   */
  function LevelAt(index: int): (level: Option<int>)
    ensures level.Some? <==> -3 <= index < 3
    ensures 0 <= index < 3 ==> level == Some(2 * index + 1)
    ensures -3 <= index < 0 ==> level == Some(2 * (index + 3) + 1)
  {
    var levels := [Easy.Level(), Medium.Level(), Hard.Level()];
    if 0 <= index < |levels| then Some(levels[index])
    else if -|levels| <= index < 0 then Some(levels[|levels| + index])
    else None
  }

  /** The main window's slots that compute values. */
  class GomokuWindow {
    const board: GomokuBoard
    var gameTimeSeconds: nat

    ghost predicate Valid()
      reads this, board, board.engine
    {
      board.Valid()
    }

    constructor ()
      ensures Valid() && fresh(board) && fresh(board.engine) && gameTimeSeconds == 0
    {
      board := new GomokuBoard();
      gameTimeSeconds := 0;
    }

    /** One clock tick: the elapsed seconds grow by one and are shown as minutes and seconds. */
    method UpdateTimer() returns (minutes: int, seconds: int)
      modifies this`gameTimeSeconds
      ensures gameTimeSeconds == old(gameTimeSeconds) + 1
      ensures minutes * 60 + seconds == gameTimeSeconds && 0 <= seconds < 60 && minutes >= 0
    {
      gameTimeSeconds := gameTimeSeconds + 1;
      minutes := gameTimeSeconds / 60;
      seconds := gameTimeSeconds % 60;
    }

    /** Starts a new game; the clock is zeroed and then ticks once, so it shows one second. */
    method ResetGame()
      requires Valid()
      modifies this, board, board.engine
      ensures Valid() && board.InSync()
      ensures board.engine.State() == Fresh() && board.moveHistory == [] && !board.replayMode
      ensures board.gameInProgress && board.playerTurn
      ensures board.currentMoveIndex == -1 && board.lastMovePosition == None
      ensures board.gameMode == old(board.gameMode) && board.Counters() == old(board.Counters())
      ensures board.engine.difficulty == old(board.engine.difficulty)
      ensures gameTimeSeconds == 1
    {
      board.ResetGame();
      gameTimeSeconds := 0;
      var minutes, seconds := UpdateTimer();
    }

    /**
     * The difficulty selector's index becomes a level through the level
     * list; an index the list does not have raises (raised) and changes
     * nothing.
     */
    method ChangeDifficulty(index: int) returns (raised: bool)
      modifies board.engine`difficulty
      ensures raised <==> LevelAt(index) == None
      ensures raised ==> board.engine.difficulty == old(board.engine.difficulty)
      ensures !raised ==> board.engine.difficulty == Wrapper.DifficultyFromLevel(LevelAt(index).value)
      ensures 0 <= index < 3 ==> board.engine.difficulty.Level() == 2 * index + 1
    {
      var level := LevelAt(index);
      if level == None {
        return true;
      }
      board.SetDifficulty(level.value);
      return false;
    }

    /**
     * The replay button.  Checking it with moves recorded enters replay and
     * then jumps to the last move, so replay opens on the current position;
     * with no moves it stays unchecked.  Unchecking it leaves replay.
     * The result is the button's checked state afterwards.
     */
    method ToggleReplay(checked: bool) returns (checkedAfter: bool)
      requires Valid()
      modifies board, board.engine
      ensures Valid()
      ensures checkedAfter <==> checked && old(board.moveHistory) != []
      ensures checked && old(board.moveHistory) == [] ==> unchanged(board) && unchanged(board.engine)
      ensures checkedAfter ==>
        board.replayMode && board.currentMoveIndex == |board.moveHistory| - 1 &&
        board.engine.State() == Replay(board.moveHistory)
      ensures !checked ==> !board.replayMode
      ensures !checked && !old(board.replayMode) ==> unchanged(board) && unchanged(board.engine)
      ensures !checked && old(board.replayMode) ==>
        board.engine.State() == Replay(board.moveHistory) &&
        board.currentMoveIndex == |board.moveHistory| - 1
      ensures board.moveHistory == old(board.moveHistory)
      ensures board.gameMode == old(board.gameMode) && board.playerTurn == old(board.playerTurn)
      ensures board.Counters() == old(board.Counters()) && board.gameInProgress == old(board.gameInProgress)
      ensures board.lastMovePosition == old(board.lastMovePosition)
      ensures board.engine.difficulty == old(board.engine.difficulty)
    {
      if checked {
        if board.moveHistory == [] {
          return false;
        }
        var ok := board.EnterReplayMode();
        if ok {
          board.ResetBoardToMove(|board.moveHistory| - 1);
          assert board.moveHistory[..|board.moveHistory|] == board.moveHistory;
        }
        return ok;
      } else {
        board.ExitReplayMode();
        return false;
      }
    }
  }
}
