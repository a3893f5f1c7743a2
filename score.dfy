/**
 * The heuristic of `evaluateBoard`: every window of five cells in a row,
 * column or diagonal is scored from its stone counts by `evaluateSequence`,
 * positive for the AI's stones and negative for the player's, and the scores
 * are summed.
 */
module Score {
  import opened Board

  /** The largest value of C++ `int`. */
  const INT_MAX: int := 0x7fff_ffff

  /**
   * The score of one window holding aiCount AI stones and playerCount player
   * stones: zero when both colours are present, 10^n for n AI stones alone
   * and -10^n for n player stones alone.
   */
  function EvaluateSequence(aiCount: int, playerCount: int): (score: int)
    ensures aiCount > 0 && playerCount > 0 ==> score == 0
    ensures score > 0 <==> 1 <= aiCount <= 5 && playerCount <= 0
    ensures score < 0 <==> 1 <= playerCount <= 5 && aiCount <= 0
    ensures -100000 <= score <= 100000
  {
    if aiCount > 0 && playerCount > 0 then 0
    else if aiCount == 5 then 100000
    else if aiCount == 4 then 10000
    else if aiCount == 3 then 1000
    else if aiCount == 2 then 100
    else if aiCount == 1 then 10
    else if playerCount == 5 then -100000
    else if playerCount == 4 then -10000
    else if playerCount == 3 then -1000
    else if playerCount == 2 then -100
    else if playerCount == 1 then -10
    else 0
  }

  /** Swapping the two colours negates a window's score. */
  lemma SequenceScoreAntisymmetric(aiCount: int, playerCount: int)
    ensures EvaluateSequence(playerCount, aiCount) == -EvaluateSequence(aiCount, playerCount)
  {
  }

  /** Each additional stone in an unmixed window is worth ten times more. */
  lemma SequenceScoreTenfold(n: int)
    requires 1 <= n < 5
    ensures EvaluateSequence(n + 1, 0) == 10 * EvaluateSequence(n, 0)
    ensures EvaluateSequence(0, n + 1) == 10 * EvaluateSequence(0, n)
  {
  }

  /** The number of the first n cells along d from (row, col) that hold p. */
  ghost function Count(g: Grid, d: Direction, row: int, col: int, p: int, n: nat): (k: nat)
    requires IsGrid(g)
    ensures k <= n
  {
    if n == 0 then 0
    else Count(g, d, row, col, p, n - 1) + (if OnLine(g, d, row, col, n - 1, p) then 1 else 0)
  }

  /** How many outer iterations the loop nest for direction d makes. */
  function OuterCount(d: Direction): int {
    if d == Horizontal || d == Vertical then BOARD_SIZE else BOARD_SIZE - 4
  }

  /** How many inner iterations each loop nest makes. */
  const INNER_COUNT: int := BOARD_SIZE - 4

  /**
   * The first cell of the window visited at outer index o and inner index i:
   * rows run outer for the horizontal and both diagonal nests, columns for the
   * vertical nest; the anti-diagonal nest starts its columns at 4.
   */
  function Origin(d: Direction, o: int, i: int): (int, int) {
    match d
    case Horizontal => (o, i)
    case Vertical => (i, o)
    case Diagonal => (o, i)
    case AntiDiagonal => (o, i + 4)
  }

  /** Every window the loop nests visit lies on the board. */
  lemma WindowOnBoard(d: Direction, o: int, i: int)
    requires 0 <= o < OuterCount(d) && 0 <= i < INNER_COUNT
    ensures forall k :: 0 <= k < 5 ==> InRange(d, Origin(d, o, i).0, Origin(d, o, i).1, k)
  {
  }

  /** The score of the window at outer index o and inner index i. */
  ghost function WindowScore(g: Grid, d: Direction, o: int, i: int): int
    requires IsGrid(g)
  {
    var (r, c) := Origin(d, o, i);
    EvaluateSequence(Count(g, d, r, c, AI, 5), Count(g, d, r, c, PLAYER, 5))
  }

  /** The scores of the first n windows of outer index o. */
  ghost function InnerSum(g: Grid, d: Direction, o: int, n: nat): int
    requires IsGrid(g)
  {
    if n == 0 then 0 else InnerSum(g, d, o, n - 1) + WindowScore(g, d, o, n - 1)
  }

  /** The scores of every window of the first n outer indices. */
  ghost function OuterSum(g: Grid, d: Direction, n: nat): int
    requires IsGrid(g)
  {
    if n == 0 then 0 else OuterSum(g, d, n - 1) + InnerSum(g, d, n - 1, INNER_COUNT)
  }

  /** The sum one loop nest of `evaluateBoard` adds to the score. */
  ghost function DirectionScore(g: Grid, d: Direction): int
    requires IsGrid(g)
  {
    OuterSum(g, d, OuterCount(d))
  }

  /** The value `evaluateBoard` computes. */
  ghost function BoardScore(g: Grid): int
    requires IsGrid(g)
  {
    DirectionScore(g, Horizontal) + DirectionScore(g, Vertical) +
    DirectionScore(g, Diagonal) + DirectionScore(g, AntiDiagonal)
  }

  /** The colour of a cell after exchanging AI and player stones. */
  function SwapColour(v: int): int {
    if v == AI then PLAYER else if v == PLAYER then AI else v
  }

  /** The board with every AI stone replaced by a player stone and vice versa. */
  function SwapColours(g: Grid): (h: Grid)
    requires IsGrid(g)
    ensures IsGrid(h)
    ensures forall r, c :: IsValidPosition(r, c) ==> h[r][c] == SwapColour(g[r][c])
  {
    seq(BOARD_SIZE, r requires 0 <= r < BOARD_SIZE =>
      seq(BOARD_SIZE, c requires 0 <= c < BOARD_SIZE => SwapColour(g[r][c])))
  }

  lemma {:induction false} CountSwapped(g: Grid, d: Direction, row: int, col: int, p: int, n: nat)
    requires IsGrid(g)
    ensures Count(SwapColours(g), d, row, col, SwapColour(p), n) == Count(g, d, row, col, p, n)
  {
    if n > 0 {
      CountSwapped(g, d, row, col, p, n - 1);
    }
  }

  lemma {:induction false} InnerSumSwapped(g: Grid, d: Direction, o: int, n: nat)
    requires IsGrid(g)
    ensures InnerSum(SwapColours(g), d, o, n) == -InnerSum(g, d, o, n)
  {
    if n > 0 {
      InnerSumSwapped(g, d, o, n - 1);
      var (r, c) := Origin(d, o, n - 1);
      CountSwapped(g, d, r, c, AI, 5);
      CountSwapped(g, d, r, c, PLAYER, 5);
      SequenceScoreAntisymmetric(Count(g, d, r, c, AI, 5), Count(g, d, r, c, PLAYER, 5));
    }
  }

  lemma {:induction false} OuterSumSwapped(g: Grid, d: Direction, n: nat)
    requires IsGrid(g)
    ensures OuterSum(SwapColours(g), d, n) == -OuterSum(g, d, n)
  {
    if n > 0 {
      OuterSumSwapped(g, d, n - 1);
      InnerSumSwapped(g, d, n - 1, INNER_COUNT);
    }
  }

  /**
   * The heuristic is zero-sum: exchanging the colours of all stones negates
   * the board's score.
   */
  lemma BoardScoreSwapped(g: Grid)
    requires IsGrid(g)
    ensures BoardScore(SwapColours(g)) == -BoardScore(g)
  {
    OuterSumSwapped(g, Horizontal, OuterCount(Horizontal));
    OuterSumSwapped(g, Vertical, OuterCount(Vertical));
    OuterSumSwapped(g, Diagonal, OuterCount(Diagonal));
    OuterSumSwapped(g, AntiDiagonal, OuterCount(AntiDiagonal));
  }

  /** The empty board scores zero. */
  lemma EmptyBoardScoresZero()
    ensures BoardScore(EmptyBoard()) == 0
  {
    var e := EmptyBoard();
    forall r | 0 <= r < BOARD_SIZE ensures SwapColours(e)[r] == e[r] {
      assert forall c :: 0 <= c < BOARD_SIZE ==> SwapColours(e)[r][c] == e[r][c];
    }
    assert SwapColours(e) == e;
    BoardScoreSwapped(e);
  }

  lemma {:induction false} InnerSumBounded(g: Grid, d: Direction, o: int, n: nat)
    requires IsGrid(g)
    ensures -100000 * n <= InnerSum(g, d, o, n) <= 100000 * n
  {
    if n > 0 {
      InnerSumBounded(g, d, o, n - 1);
    }
  }

  lemma {:induction false} OuterSumBounded(g: Grid, d: Direction, n: nat)
    requires IsGrid(g)
    ensures -100000 * INNER_COUNT * n <= OuterSum(g, d, n) <= 100000 * INNER_COUNT * n
  {
    if n > 0 {
      OuterSumBounded(g, d, n - 1);
      InnerSumBounded(g, d, n - 1, INNER_COUNT);
    }
  }

  /**
   * The 572 windows score at most 100000 each, so the sum `evaluateBoard`
   * accumulates in a C++ `int` never overflows.
   */
  lemma BoardScoreFitsInt(g: Grid)
    requires IsGrid(g)
    ensures -572 * 100000 <= BoardScore(g) <= 572 * 100000
    ensures -INT_MAX <= BoardScore(g) <= INT_MAX
  {
    OuterSumBounded(g, Horizontal, OuterCount(Horizontal));
    OuterSumBounded(g, Vertical, OuterCount(Vertical));
    OuterSumBounded(g, Diagonal, OuterCount(Diagonal));
    OuterSumBounded(g, AntiDiagonal, OuterCount(AntiDiagonal));
  }
}
