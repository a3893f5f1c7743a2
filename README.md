# Gomoku (five in a row): engine, C interface and session logic

The system is a desktop five-in-a-row game with three parts:

- A C++ engine keeps:
  - a 15x15 board whose cells hold EMPTY (0), PLAYER (1) or AI (2);
  - a game-over flag, the winner, a stack of the moves played, and a difficulty (EASY = 1, MEDIUM = 3, HARD = 5). The difficulty is also the depth of the AI's alpha-beta search.
- A C interface wraps the engine in plain `int` entry points.
- A Python/Qt front end drives the game. It has three modes: player versus AI, player versus player, and AI versus AI. It keeps its own ledger of moves, supports undo, and offers a replay mode that rebuilds the engine move by move. It also counts games, wins and draws.

The Dafny model follows the same split:

- `board.dfy` (module `Board`): the grid, the cell codes, and the four line directions.
- `win.dfy` (module `Win`): five-in-a-row detection as a specification.
- `candidates.dfy` (module `Candidates`): the candidate-move list of `generateMoves` as a specification.
- `score.dfy` (module `Score`): the window heuristic of `evaluateBoard` and `evaluateSequence`.
- `engine.dfy` (module `Engine`):
  - the abstract engine state and the pure functions that say what each operation does (`Place`, `ApplyMove`, `Unwind`, `UndoSpec`, `Replay`);
  - the `GomokuEngine` class, with the source's fields and its methods proved against those functions.
- `wrapper.dfy` (module `Wrapper`): the C entry points. A `bool` becomes 1 or 0, and an integer level becomes the difficulty enum.
- `app.dfy` (module `App`):
  - the front end's `GomokuBoard` class: turns, ledger, undo, replay and counters. It reaches the engine only through `Wrapper`, and Python's `bool(...)` of a returned `int` is modelled as `!= 0`;
  - the window slots that compute values: the difficulty selector, the game clock and the replay toggle.

## Model

| member | source | states |
|---|---|---|
| Board.EmptyBoard | src/backend/gomoku_engine.cpp:16-17 | The board after a reset is 15x15 and every cell is EMPTY. |
| Board.SetCell | src/backend/gomoku_engine.cpp:78 | Writing a stone changes exactly the one cell and keeps the board's shape. |
| Board.SetCellRestores | src/backend/gomoku_engine.cpp:159-166 | The search's write-then-erase of a trial stone restores the board exactly. |
| Win.FiveInLineIffStreak | src/backend/gomoku_engine.cpp:296-304 | The counting scan of checkWin reaches five consecutive stones iff five stones of the player lie in a row along the line within four cells of the move. |
| Win.WinNeedsStoneAtCentre | src/backend/gomoku_engine.cpp:294-348 | A win through (row, col) needs the player's own stone on (row, col), so a win is only detected for the stone just placed. |
| Win.OverlineWins | src/backend/gomoku_engine.cpp:296-304 | Six or more in a row also win: any run of five or more through the cell is detected (no exact-five rule). |
| Win.ScanCountIsStreak | src/backend/gomoku_engine.cpp:296-345 | The scan's counter, which skips off-board cells instead of resetting, never undercounts a streak, and right after an on-board cell it equals the streak of the player's stones ending there. |
| Win.ScanFindsFive | src/backend/gomoku_engine.cpp:296-345 | When the scan's counter reaches five, five of the player's stones lie in a row. |
| Win.ScanBelowFiveAt | src/backend/gomoku_engine.cpp:296-345 | A counter that stayed below five through an offset was below five at each earlier offset. |
| Win.ScanMissesFive | src/backend/gomoku_engine.cpp:296-345 | When the scan's counter never reaches five, there is no five in a row along the line. |
| Candidates.ScanMembers | src/backend/gomoku_engine.cpp:353-361 | The row-major scan lists exactly the wanted cells before the scan position. |
| Candidates.ScanAllMembers | src/backend/gomoku_engine.cpp:351-375 | A full scan lists exactly the wanted cells of the board. |
| Candidates.CandidatesAreEmptyCells | src/backend/gomoku_engine.cpp:351-375 | Every generated move is an EMPTY cell on the board. |
| Candidates.CandidatesNearStones | src/backend/gomoku_engine.cpp:355-361 | When some EMPTY cell touches a stone, the generated moves are exactly the EMPTY cells that touch one. |
| Candidates.CandidatesFallBack | src/backend/gomoku_engine.cpp:364-372 | When no EMPTY cell touches a stone, every EMPTY cell is generated. |
| Candidates.CandidatesEmptyIffFull | src/backend/gomoku_engine.cpp:351-375 | The move list is empty iff the board has no EMPTY cell. |
| Candidates.EmptyCellsAfterPlace | src/backend/gomoku_engine.cpp:78 | Placing a stone on an EMPTY cell removes exactly that cell from the EMPTY cells, so there is one fewer. |
| Candidates.CandidatesIffEmptyCell | src/backend/gomoku_engine.cpp:351-375 | There are candidate moves iff the set of EMPTY cells is non-empty. |
| Candidates.CandidatesInEmptyCells | src/backend/gomoku_engine.cpp:351-375 | Every candidate belongs to the set of EMPTY cells. |
| Score.EvaluateSequence | src/backend/gomoku_engine.cpp:268-291 | A mixed window scores 0. A score is positive iff the window holds 1 to 5 AI stones and no player stone, and negative in the mirrored case. The magnitude is at most 100000. |
| Score.SequenceScoreAntisymmetric | src/backend/gomoku_engine.cpp:268-291 | Exchanging the AI and player counts negates a window's score. |
| Score.SequenceScoreTenfold | src/backend/gomoku_engine.cpp:274-287 | Each further stone in an unmixed window multiplies its score by ten. |
| Score.WindowOnBoard | src/backend/gomoku_engine.cpp:204-262 | Every five-cell window the four loop nests visit lies wholly on the board. |
| Score.SwapColours | src/backend/gomoku_engine.cpp:201-265 | The colour-exchanged board swaps AI and player stones cell by cell. |
| Score.CountSwapped | src/backend/gomoku_engine.cpp:207-213 | Counting one colour on the colour-exchanged board gives the count of the other colour on the original board. |
| Score.InnerSumSwapped | src/backend/gomoku_engine.cpp:204-262 | One row of window scores is negated by exchanging colours. |
| Score.OuterSumSwapped | src/backend/gomoku_engine.cpp:204-262 | One direction's window scores are negated by exchanging colours. |
| Score.BoardScoreSwapped | src/backend/gomoku_engine.cpp:201-265 | The heuristic is zero-sum: exchanging all stones' colours negates evaluateBoard. |
| Score.EmptyBoardScoresZero | src/backend/gomoku_engine.cpp:201-265 | The empty board evaluates to 0. |
| Score.InnerSumBounded | src/backend/gomoku_engine.cpp:204-262 | n window scores sum to at most 100000 n in magnitude. |
| Score.OuterSumBounded | src/backend/gomoku_engine.cpp:204-262 | One direction's scores are bounded by 100000 times its window count. |
| Score.BoardScoreFitsInt | src/backend/gomoku_engine.cpp:201-265 | The 572 windows bound the total by 57,200,000 in magnitude, so the `int` accumulator of evaluateBoard never overflows. |
| Engine.Difficulty.Level | src/backend/gomoku_engine.h:25-29 | The enum's integer values, and hence the search depths, are 1, 3 and 5. |
| Engine.Fresh | src/backend/gomoku_engine.cpp:16-25 | A reset game has the board's shape, is not over, has winner EMPTY and an empty move stack. |
| Engine.Place | src/backend/gomoku_engine.cpp:78-88 | An accepted move keeps the state well formed: every stacked move stays on the board. |
| Engine.OffBoardMoveRefused | src/backend/gomoku_engine.cpp:378-380 | isValidPosition bounds row and column to 0 .. 14, and makeMove checks it first: a move outside the board is refused, and offering it leaves the state unchanged. |
| Engine.ApplyMove | src/backend/gomoku_engine.cpp:73-91 | makeMove, accepted or refused, keeps the state well formed. |
| Engine.Replay | src/frontend/gomoku_app.py:649-672 | Offering a ledger to a fresh engine gives a well-formed state whose move stack is no longer than the ledger. |
| Engine.PopOnce | src/backend/gomoku_engine.cpp:45-56 | One pop keeps the state well formed. |
| Engine.Unwind | src/backend/gomoku_engine.cpp:45-56 | Repeated pops keep the state well formed. |
| Engine.UndoSpec | src/backend/gomoku_engine.cpp:38-65 | A successful undo keeps the state well formed. |
| Engine.Kept | src/backend/gomoku_engine.cpp:45-56 | The number of moves that survive n pops is at most the stack's length, and is either 0 or exactly n fewer. |
| Engine.UnwindPops | src/backend/gomoku_engine.cpp:45-56 | Popping n times leaves the first max(0, length - n) moves of the stack and keeps the game-over flag and winner. |
| Engine.PopOnceCell | src/backend/gomoku_engine.cpp:50-55 | One pop empties the cell of the top move and no other cell. |
| Engine.UnwindClearsPopped | src/backend/gomoku_engine.cpp:45-56 | After n pops a cell is EMPTY iff a popped move was on it; every other cell is unchanged. |
| Engine.PopClearsPlayed | src/backend/gomoku_engine.cpp:50-55 | Popping a stack that is a prefix of the history clears exactly the cell of the move at the prefix's end. |
| Engine.PlayedFromStep | src/backend/gomoku_engine.cpp:45-56 | A cell is covered by the moves from index k - 1 on iff move k - 1 is on it or a move from index k on is. |
| Engine.ReplayQuiet | src/backend/gomoku_engine.cpp:18-19 | A game that is not over has winner EMPTY. |
| Engine.ReplayWinnerPlayed | src/backend/gomoku_engine.cpp:85-88 | When a game is over, its winner is the colour of one of the moves played. |
| Engine.ReplayAcceptedLast | src/backend/gomoku_engine.cpp:73-91 | If every offered move went onto the stack, the last move was accepted on the position before it. |
| Engine.ReplayAcceptedPrefixes | src/backend/gomoku_engine.cpp:73-91 | If every offered move went onto the stack, the same holds for every prefix of the moves. |
| Engine.ReplayStones | src/backend/gomoku_engine.cpp:73-91 | If every offered non-EMPTY move was accepted: no two moves share a cell, and each move's stone is on its cell. |
| Engine.ReplayHistoryFromLedger | src/backend/gomoku_engine.cpp:81-82 | Every move on the engine's stack after a replay is one of the ledger moves offered. |
| Engine.ReplayCellsFromMoves | src/backend/gomoku_engine.cpp:78 | A stone on the board after a replay lies on the cell of some offered move. |
| Engine.GomokuEngine.constructor | src/backend/gomoku_engine.cpp:10-13 | A new engine holds a fresh game at MEDIUM difficulty. |
| Engine.GomokuEngine.ResetGame | src/backend/gomoku_engine.cpp:16-25 | Empties the board, clears the result and pops the whole stack, keeping the difficulty. |
| Engine.GomokuEngine.SetDifficulty | src/backend/gomoku_engine.cpp:28-30 | The difficulty becomes the given level; nothing else changes. |
| Engine.GomokuEngine.CanUndo | src/backend/gomoku_engine.cpp:68-70 | True iff the move stack is non-empty. |
| Engine.GomokuEngine.UndoMove | src/backend/gomoku_engine.cpp:38-65 | Succeeds iff the stack was non-empty. On success it pops up to two moves, clearing their cells, and clears a finished game's result. On refusal nothing changes. |
| Engine.GomokuEngine.GetDifficulty | src/backend/gomoku_engine.cpp:33-35 | Returns the stored difficulty, whose value is 1, 3 or 5. |
| Engine.GomokuEngine.IsGameOver | src/backend/gomoku_engine.cpp:130-132 | True iff the game-over flag of the state is set. |
| Engine.GomokuEngine.GetWinner | src/backend/gomoku_engine.cpp:135-137 | Returns the winner of the state, EMPTY while nobody has won. |
| Engine.GomokuEngine.GetBoard | src/backend/gomoku_engine.cpp:140-142 | Returns the state's board, which is 15x15 in a valid engine. |
| Engine.GomokuEngine.MakeMove | src/backend/gomoku_engine.cpp:73-91 | Accepts iff the cell is on the board and EMPTY and the game is not over; otherwise nothing changes. On acceptance exactly that cell gets the stone, the move is pushed, and the game ends iff the stone completes five in a row, with the mover as winner. |
| Engine.GomokuEngine.CheckWin | src/backend/gomoku_engine.cpp:294-348 | True iff five of the player's stones in a row, in one of the four directions, pass within four cells of (row, col). |
| Engine.GomokuEngine.ScanLine | src/backend/gomoku_engine.cpp:296-345 | One directional scan finds a run of five iff the line holds five consecutive stones of the player through the window. |
| Engine.GomokuEngine.HasNeighbors | src/backend/gomoku_engine.cpp:383-398 | True iff one of the eight surrounding on-board cells holds a stone. |
| Engine.GomokuEngine.GenerateMoves | src/backend/gomoku_engine.cpp:351-375 | The list is exactly the candidate list: the EMPTY cells touching a stone in row-major order, or all EMPTY cells if there are none. |
| Engine.GomokuEngine.EvaluateBoard | src/backend/gomoku_engine.cpp:201-265 | The result is the sum of the window scores over all rows, columns and both diagonals. |
| Engine.GomokuEngine.AddDirection | src/backend/gomoku_engine.cpp:204-262 | One loop nest adds exactly its direction's window scores. |
| Engine.GomokuEngine.CountWindow | src/backend/gomoku_engine.cpp:207-213 | Counts the AI and the player stones among the five cells of a window. |
| Engine.GomokuEngine.AlphaBetaPruning | src/backend/gomoku_engine.cpp:145-198 | The search restores the board and never ends the game. At depth 0 or in a finished game it returns the heuristic. Otherwise, if the depth exceeds the number of EMPTY cells, every line fills the board first and the value is INT_MIN when an even number of cells is left at a maximising node (or odd at a minimising one), INT_MAX otherwise. If the depth does not exceed it, the value is a heuristic score within 57,200,000 in magnitude. |
| Engine.GomokuEngine.SearchMoves | src/backend/gomoku_engine.cpp:151-197 | The loop over the candidates keeps the better child value from the initial bound on, so the node's value is the full-board value or a heuristic score as stated for AlphaBetaPruning; the board is restored. |
| Engine.GomokuEngine.TryMove | src/backend/gomoku_engine.cpp:159-166 | A trial move writes the stone, searches and erases it, leaving the board as it was. The value is that of the position with one EMPTY cell fewer. |
| Engine.GomokuEngine.GetBestMove | src/backend/gomoku_engine.cpp:94-127 | The result is (-1, -1) iff the board is full, or the game is not over and the number of EMPTY cells is even and at most the search depth (two cells at MEDIUM, two or four at HARD). Any other result is a candidate move on an EMPTY cell. The board is restored. |
| Engine.GomokuEngine.ScoreCandidates | src/backend/gomoku_engine.cpp:106-124 | The loop over the candidates keeps (-1, -1) iff no trial scores above INT_MIN, which happens exactly in the cases stated for GetBestMove; otherwise the choice is one of the candidates. |
| Engine.GomokuEngine.RootTrial | src/backend/gomoku_engine.cpp:111-117 | One trial of getBestMove restores the board and scores INT_MIN exactly in the cases stated for GetBestMove. |
| Engine.GomokuEngine.GetBestMoveFixed | src/backend/gomoku_engine.cpp:94-127 | Returns (-1, -1) iff the board has no EMPTY cell; otherwise it returns a candidate move, which is an EMPTY cell. |
| Engine.CentreTakenWithoutCandidates | src/backend/gomoku_engine.cpp:99-104 | With no candidates the centre is occupied, so the centre branch of getBestMove never returns a move. |
| Engine.NoBestMoveWithCandidates | src/backend/gomoku_engine.cpp:94-127 | With two EMPTY cells at MEDIUM or HARD, or four at HARD, getBestMove gives up although the board has candidate moves. |
| Engine.EasyFindsMove | src/backend/gomoku_engine.cpp:94-127 | At EASY, getBestMove gives up only on a full board. |
| Engine.TrialScore | src/backend/gomoku_engine.cpp:111-123 | A root trial's score is INT_MIN exactly when getBestMove finds no move, given the search's full-board and heuristic values. |
| Engine.FullBoardValueStep | src/backend/gomoku_engine.cpp:160-185 | A child, one EMPTY cell fewer and of the other kind, has the same full-board value as its parent. |
| Engine.KeepBest | src/backend/gomoku_engine.cpp:168-191 | Taking std::max or std::min of the node's value so far and a child's value keeps it a full-board value or a heuristic score, as the child's is. |
| Engine.Max | src/backend/gomoku_engine.cpp:168-169 | `std::max`: the larger of the two arguments. |
| Engine.Min | src/backend/gomoku_engine.cpp:190-191 | `std::min`: the smaller of the two arguments. |
| Wrapper.BoolToInt | src/backend/gomoku_wrapper.cpp:20-22 | A C++ bool crosses the interface as 1 for true and 0 for false. |
| Wrapper.DifficultyFromLevel | src/backend/gomoku_wrapper.cpp:51-64 | Levels up to 1 select EASY, levels from 5 select HARD, and the rest MEDIUM. The enum's value equals the level iff the level is 1, 3 or 5. |
| Wrapper.LevelRoundTrip | src/backend/gomoku_wrapper.cpp:51-70 | Reading the difficulty and setting it again changes nothing. |
| Wrapper.LevelMonotone | src/backend/gomoku_wrapper.cpp:51-64 | An observation of this model, not a promise of the source: a higher level never selects an easier difficulty. |
| Wrapper.LevelNearest | src/backend/gomoku_wrapper.cpp:51-64 | An observation of this model, not a promise of the source: the difficulty selected is one of 1, 3, 5 closest to the level requested. |
| Wrapper.CreateEngine | src/backend/gomoku_wrapper.cpp:5-7 | A new engine with a fresh game at MEDIUM. |
| Wrapper.ResetGame | src/backend/gomoku_wrapper.cpp:15-17 | The engine holds a fresh game and keeps its difficulty. |
| Wrapper.MakeMove | src/backend/gomoku_wrapper.cpp:20-22 | Returns 1 iff the engine accepted the move, and the engine's new state is that of makeMove. |
| Wrapper.GetBestMove | src/backend/gomoku_wrapper.cpp:25-29 | Writes the engine's getBestMove result: (-1, -1) on a full board, and also when the game is not over and the number of EMPTY cells is even and at most the search depth; otherwise a candidate EMPTY cell. The board is unchanged. |
| Wrapper.GetWinner | src/backend/gomoku_wrapper.cpp:37-39 | Returns the engine's winner field. |
| Wrapper.IsGameOver | src/backend/gomoku_wrapper.cpp:32-34 | 1 iff the game is over, else 0. |
| Wrapper.GetBoardValue | src/backend/gomoku_wrapper.cpp:42-48 | The cell's code on the board, and -1 for coordinates off the board. |
| Wrapper.SetDifficulty | src/backend/gomoku_wrapper.cpp:51-64 | The engine's difficulty becomes the one the level selects. |
| Wrapper.GetDifficulty | src/backend/gomoku_wrapper.cpp:67-70 | Returns 1, 3 or 5, and setting the returned level selects the current difficulty again. |
| Wrapper.UndoMove | src/backend/gomoku_wrapper.cpp:73-75 | Returns 1 iff the stack was non-empty; the engine's new state is that of undoMove. |
| Wrapper.CanUndo | src/backend/gomoku_wrapper.cpp:78-80 | 1 iff the move stack is non-empty, else 0. |
| App.ReplayWinnerIsPlayer | src/frontend/gomoku_app.py:441-487 | Replaying moves by the two players only ever names PLAYER or AI as winner. |
| App.GomokuBoard.constructor | src/frontend/gomoku_app.py:251-273 | A new board has a fresh MEDIUM engine and player-versus-AI mode, with no game in progress and the player to move. Its counters are zero, its ledger empty and its replay cursor -1. |
| App.GomokuBoard.CurrentPlayer | src/frontend/gomoku_app.py:359 | The colour to move is always PLAYER or AI. |
| App.GomokuBoard.ResetGame | src/frontend/gomoku_app.py:293-323 | Starts a new game in the current mode: fresh engine, empty ledger, player to move, game in progress, replay off. The counters and the difficulty are kept. |
| App.GomokuBoard.SetGameMode | src/frontend/gomoku_app.py:325-329 | Changes nothing if that mode's game is already in progress; otherwise switches mode and starts a new game: fresh engine, empty ledger, cursor -1, no highlight, the player to move, with counters and difficulty kept. |
| App.GomokuBoard.PlayMove | src/frontend/gomoku_app.py:359-364 | The engine gets the move and accepts it iff makeMove would. An accepted move is appended to the ledger, becomes the cursor and is highlighted; a refused one changes no ledger state. Ledger and engine stay in step. |
| App.GomokuBoard.EndTurn | src/frontend/gomoku_app.py:373-379 | After a move, a finished game is counted once, as a win for the engine's winner, and leaves the turn as it was. Otherwise all counters are kept and the turn passes. |
| App.GomokuBoard.CellClicked | src/frontend/gomoku_app.py:331-391 | A click is ignored, with nothing changed, in replay, after the game ended, on the AI's turn, in AI-versus-AI mode or on an occupied cell. Otherwise the mover's stone is placed and recorded. A finished game is counted once, as a win for its winner; otherwise the counters are kept, the turn passes, and the AI replies in player-versus-AI mode. Mode, replay flag and difficulty are kept; ledger and engine stay in step. |
| App.GomokuBoard.AiMove | src/frontend/gomoku_app.py:393-439 | Outside replay and before the game ends, the AI places and records one candidate move unless getBestMove finds none (a full board, or an even number of EMPTY cells at most the search depth), in which case ledger, engine, cursor and highlight are unchanged. A finished game is counted as a win for its winner; otherwise the turn passes, even without a stone. Mode, replay flag and difficulty are kept; ledger and engine stay in step. |
| App.GomokuBoard.AiTurn | src/frontend/gomoku_app.py:403-427 | Once replay and a finished game are ruled out, the AI places one candidate move iff getBestMove finds one, and otherwise ledger, engine, cursor and highlight are kept; then the game is counted for its winner or the turn passes. |
| App.GomokuBoard.AiPlay | src/frontend/gomoku_app.py:403-413 | The engine's move is placed for the colour to move exactly when getBestMove finds one, never on a full board. It is a candidate cell, and the engine state becomes that of the placed move; otherwise nothing changes. |
| App.GomokuBoard.GameOver | src/frontend/gomoku_app.py:441-502 | Counts one more game and a win for the engine's winner, or a draw without one. When the engine reports the game over, the draw counter never moves. |
| App.GomokuBoard.SetDifficulty | src/frontend/gomoku_app.py:504-506 | The engine's difficulty becomes the one the level selects. |
| App.GomokuBoard.UndoLastMove | src/frontend/gomoku_app.py:508-557 | The conditions under which undo happens per mode. The engine undoes up to two moves while the ledger loses one, so they drift apart by one. A player-versus-player undo passes the turn back. Mode, replay flag, counters, game-in-progress flag, cursor and difficulty are kept. |
| App.GomokuBoard.UndoEngine | src/frontend/gomoku_app.py:516 | With a move to undo, the engine's undo succeeds, pops up to two moves and keeps the difficulty. |
| App.GomokuBoard.PopLedger | src/frontend/gomoku_app.py:518-523 | Drops the newest ledger entry and highlights the one before it. |
| App.GomokuBoard.EnterReplayMode | src/frontend/gomoku_app.py:615-628 | Refused with an empty ledger; otherwise replay starts on the empty board with the cursor at -1. Ledger, mode, turn, counters, game-in-progress flag, highlight and difficulty are kept. |
| App.GomokuBoard.ExitReplayMode | src/frontend/gomoku_app.py:630-647 | Leaving replay rebuilds the engine from the whole ledger and sets the cursor to the last move; outside replay nothing changes. Ledger, mode, turn, counters, game-in-progress flag, highlight and difficulty are kept. |
| App.GomokuBoard.ResetBoardToMove | src/frontend/gomoku_app.py:649-672 | The engine holds exactly the replay of the ledger up to the cursor. A negative index leaves the empty board and cursor -1. |
| App.GomokuBoard.NextMove | src/frontend/gomoku_app.py:674-704 | Steps forward iff in replay and not at the last move: the cursor advances, the engine holds the replay up to it, and that move is highlighted. Ledger, mode, turn, counters, game-in-progress flag and difficulty are kept. |
| App.GomokuBoard.PreviousMove | src/frontend/gomoku_app.py:706-732 | Steps back iff in replay with the cursor at 0 or later: the cursor moves back and the engine is rebuilt up to it. Ledger, mode, turn, counters, game-in-progress flag, highlight and difficulty are kept. |
| App.LevelAt | src/frontend/gomoku_app.py:1215-1222 | List indexing of the level list: indexes 0, 1, 2 give levels 1, 3, 5, negative indexes count from the end, and other indexes raise. |
| App.GomokuWindow.constructor | src/frontend/gomoku_app.py:1102-1106 | A new window has a new board and the clock at zero. |
| App.GomokuWindow.UpdateTimer | src/frontend/gomoku_app.py:1157-1162 | Each tick adds a second, shown as minutes and seconds under 60 that recombine to the elapsed time. |
| App.GomokuWindow.ResetGame | src/frontend/gomoku_app.py:1187-1199 | Starts a new game on the board (fresh engine, empty ledger, cursor -1, no highlight, mode, counters and difficulty kept); the clock is zeroed and ticks once, so it shows one second. |
| App.GomokuWindow.ChangeDifficulty | src/frontend/gomoku_app.py:1215-1222 | Selector indexes 0, 1, 2 set levels 1, 3, 5. An index the list lacks raises and changes nothing. |
| App.GomokuWindow.ToggleReplay | src/frontend/gomoku_app.py:1256-1304 | Checking with moves recorded enters replay on the current position (the cursor at the last move). With no moves it stays unchecked and changes nothing. Unchecking leaves replay: from replay the engine is rebuilt from the whole ledger with the cursor at the last move, otherwise nothing changes. Ledger, mode, turn, counters, game-in-progress flag, highlight and difficulty are always kept. |

## Left out

- Qt widgets, painting, sounds, dialogs, status-bar texts, menus, icons and the environment checks of the window are not modelled. They change none of the state above.
- Loading the engine library with `ctypes` and `destroy_engine` are not modelled: Dafny objects are never freed.
- Timer scheduling is not modelled:
  - the AI's delayed reply via `QTimer.singleShot`;
  - the self-rescheduling AI-versus-AI loop;
  - the clock's one-second ticks.
  - `AiMove` models one AI turn, and `UpdateTimer` one tick.
- The "play again?" question in `game_over` is a dialog. Answering yes is the same as a later `ResetGame`, because `game_over` is the last action of each caller.
- Saving and loading games and settings (files, JSON, `load_settings`) are not modelled: they are file I/O.
- The clock label's two-digit formatting is not modelled. `UpdateTimer` returns the minutes and seconds it shows.
- Engine.GomokuEngine.AlphaBetaPruning: the value is not proved equal to an independent minimax reference. Its contract states the heuristic at the horizon, the exact value when every line fills the board, the heuristic range otherwise, the `int` range, and that the board is restored.
- Engine.GomokuEngine.GetBestMove: the contract does not state that the chosen move maximises the search value. It states that a returned move is a legal candidate, and exactly when the result is (-1, -1).
- Engine.GomokuEngine.GetBestMoveFixed: optimality of the choice is not stated, for the same reason.
- App.GomokuBoard.CellClicked: in player-versus-AI mode the contract bounds the ledger growth and states that the player moves next, rather than naming the AI's reply. That reply is stated by `AiMove`.
- Replay has two starting points in the front end:
  - `enter_replay_mode` starts replay at the beginning of the game, with the cursor at -1 and the board empty (src/frontend/gomoku_app.py:622-623); `EnterReplayMode` models this;
  - the window's replay toggle then starts from the last move instead (src/frontend/gomoku_app.py:1265-1266); `ToggleReplay` models this.
- The `draws` counter is incremented only when the engine reports a game over without a winner, which never happens. The `GameOver` contract and the `Ready` invariant show it stays at zero.

## Findings

| source | as written | input that shows it | evidently intended | confidence | as-written member | corrected member |
|---|---|---|---|---|---|---|
| src/backend/gomoku_engine.cpp:94-127 | `bestMove` starts at (-1, -1) with `bestScore = INT_MIN`. A candidate replaces it only with a score strictly above INT_MIN. The search never sets the game-over flag, so when the number of EMPTY cells is even and at most the search depth, every line fills the board at a maximising node, which has no candidates and keeps INT_MIN. Every candidate then scores INT_MIN. | A game not over, difficulty MEDIUM or HARD, and exactly two EMPTY cells left (or four at HARD): getBestMove returns (-1, -1). The front end's AI then places nothing and passes the turn. | Return a legal move whenever an EMPTY cell remains, e.g. by starting from the first candidate. | not executed; the as-written result is characterised exactly, and the front end in the model calls the as-written search | Engine.GomokuEngine.GetBestMove | Engine.GomokuEngine.GetBestMoveFixed |
