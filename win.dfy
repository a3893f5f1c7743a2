/**
 * What `checkWin` decides: a run of five stones of one player on one of the
 * four lines through a cell, looked for within four cells on either side.
 */
module Win {
  import opened Board

  /** The five cells at offsets s .. s+4 along d from (row, col) all hold p. */
  ghost predicate RunFrom(g: Grid, d: Direction, row: int, col: int, s: int, p: int)
    requires IsGrid(g)
  {
    forall k :: s <= k < s + 5 ==> OnLine(g, d, row, col, k, p)
  }

  /** Some window of five consecutive cells within offsets -4 .. 4 holds p. */
  ghost predicate FiveInLine(g: Grid, d: Direction, row: int, col: int, p: int)
    requires IsGrid(g)
  {
    exists s :: -4 <= s <= 0 && RunFrom(g, d, row, col, s, p)
  }

  /** The winning condition checked after a stone of p lands on (row, col). */
  ghost predicate IsWin(g: Grid, row: int, col: int, p: int)
    requires IsGrid(g)
  {
    FiveInLine(g, Horizontal, row, col, p) || FiveInLine(g, Vertical, row, col, p) ||
    FiveInLine(g, Diagonal, row, col, p) || FiveInLine(g, AntiDiagonal, row, col, p)
  }

  /**
   * The number of consecutive cells holding p that end just before offset j,
   * counting back no further than offset -4; an off-board cell ends the run.
   */
  ghost function Streak(g: Grid, d: Direction, row: int, col: int, p: int, j: int): nat
    requires IsGrid(g)
    decreases j + 4
  {
    if j <= -4 then 0
    else if OnLine(g, d, row, col, j - 1, p) then Streak(g, d, row, col, p, j - 1) + 1
    else 0
  }

  /** A streak of at least m ending before j is exactly m cells of p before j. */
  lemma {:induction false} StreakCovers(g: Grid, d: Direction, row: int, col: int, p: int, j: int, m: nat)
    requires IsGrid(g) && -4 <= j - m
    ensures Streak(g, d, row, col, p, j) >= m <==>
      forall k :: j - m <= k < j ==> OnLine(g, d, row, col, k, p)
    decreases m
  {
    if m > 0 {
      StreakCovers(g, d, row, col, p, j - 1, m - 1);
    }
  }

  /** A streak never reaches back past offset -4. */
  lemma {:induction false} StreakBound(g: Grid, d: Direction, row: int, col: int, p: int, j: int)
    requires IsGrid(g) && j >= -4
    ensures Streak(g, d, row, col, p, j) <= j + 4
    decreases j + 4
  {
    if j > -4 {
      StreakBound(g, d, row, col, p, j - 1);
    }
  }

  /** Five in a row within the window is a streak of five ending somewhere in 1 .. 5. */
  lemma FiveInLineIffStreak(g: Grid, d: Direction, row: int, col: int, p: int)
    requires IsGrid(g)
    ensures FiveInLine(g, d, row, col, p) <==>
      exists j :: 1 <= j <= 5 && Streak(g, d, row, col, p, j) >= 5
  {
    forall j | 1 <= j <= 5
      ensures Streak(g, d, row, col, p, j) >= 5 <==> RunFrom(g, d, row, col, j - 5, p)
    {
      StreakCovers(g, d, row, col, p, j, 5);
    }
    if FiveInLine(g, d, row, col, p) {
      var s :| -4 <= s <= 0 && RunFrom(g, d, row, col, s, p);
      assert Streak(g, d, row, col, p, s + 5) >= 5;
    }
  }

  /**
   * The counter of one `checkWin` scan after visiting offsets -4 .. j-1: an
   * on-board cell of p adds one, another on-board cell resets it, and an
   * off-board cell is skipped.
   */
  ghost function ScanCount(g: Grid, d: Direction, row: int, col: int, p: int, j: int): nat
    requires IsGrid(g)
    decreases j + 4
  {
    if j <= -4 then 0
    else if !InRange(d, row, col, j - 1) then ScanCount(g, d, row, col, p, j - 1)
    else if OnLine(g, d, row, col, j - 1, p) then ScanCount(g, d, row, col, p, j - 1) + 1
    else 0
  }

  /** Before the first on-board offset the counter is still zero. */
  lemma {:induction false} ScanCountZero(g: Grid, d: Direction, row: int, col: int, p: int, j: int)
    requires IsGrid(g) && j >= -4
    requires forall k :: -4 <= k < j ==> !InRange(d, row, col, k)
    ensures ScanCount(g, d, row, col, p, j) == 0
    decreases j + 4
  {
    if j > -4 {
      ScanCountZero(g, d, row, col, p, j - 1);
    }
  }

  /**
   * Skipping off-board cells only matters off the board: right after an
   * on-board cell the counter is the streak of p ending there.
   */
  lemma {:induction false} ScanCountIsStreak(g: Grid, d: Direction, row: int, col: int, p: int, j: int)
    requires IsGrid(g) && j >= -4
    ensures Streak(g, d, row, col, p, j) <= ScanCount(g, d, row, col, p, j)
    ensures j > -4 && InRange(d, row, col, j - 1) ==>
      Streak(g, d, row, col, p, j) == ScanCount(g, d, row, col, p, j)
    decreases j + 4
  {
    if j > -4 {
      ScanCountIsStreak(g, d, row, col, p, j - 1);
      if InRange(d, row, col, j - 1) && j - 1 > -4 && !InRange(d, row, col, j - 2) {
        RangeStartsAt(d, row, col, j - 1);
        ScanCountZero(g, d, row, col, p, j - 1);
      }
    }
  }

  /** A counter reaching five right after an on-board cell is five in a row. */
  lemma ScanFindsFive(g: Grid, d: Direction, row: int, col: int, p: int, j: int)
    requires IsGrid(g) && -4 < j <= 5 && InRange(d, row, col, j - 1)
    requires ScanCount(g, d, row, col, p, j) >= 5
    ensures FiveInLine(g, d, row, col, p)
  {
    ScanCountIsStreak(g, d, row, col, p, j);
    StreakBound(g, d, row, col, p, j);
    FiveInLineIffStreak(g, d, row, col, p);
  }

  /** The counter stayed below five after each of the offsets -4 .. j-1. */
  ghost predicate ScanBelowFive(g: Grid, d: Direction, row: int, col: int, p: int, j: int)
    requires IsGrid(g)
    decreases j + 4
  {
    j <= -4 || (ScanBelowFive(g, d, row, col, p, j - 1) && ScanCount(g, d, row, col, p, j) < 5)
  }

  lemma {:induction false} ScanBelowFiveAt(g: Grid, d: Direction, row: int, col: int, p: int, i: int, j: int)
    requires IsGrid(g) && ScanBelowFive(g, d, row, col, p, i) && -4 < j <= i
    ensures ScanCount(g, d, row, col, p, j) < 5
    decreases i - j
  {
    if j < i {
      ScanBelowFiveAt(g, d, row, col, p, i - 1, j);
    }
  }

  /** A counter staying below five through the whole scan rules out five in a row. */
  lemma ScanMissesFive(g: Grid, d: Direction, row: int, col: int, p: int)
    requires IsGrid(g) && ScanBelowFive(g, d, row, col, p, 5)
    ensures !FiveInLine(g, d, row, col, p)
  {
    forall j | 1 <= j <= 5 ensures Streak(g, d, row, col, p, j) < 5 {
      ScanBelowFiveAt(g, d, row, col, p, 5, j);
      ScanCountIsStreak(g, d, row, col, p, j);
    }
    FiveInLineIffStreak(g, d, row, col, p);
  }

  /** Every five-cell window within offsets -4 .. 4 covers offset 0, so a win needs p on (row, col). */
  lemma {:induction false} WinNeedsStoneAtCentre(g: Grid, row: int, col: int, p: int)
    requires IsGrid(g) && IsWin(g, row, col, p)
    ensures IsValidPosition(row, col) && g[row][col] == p
  {
    var d := if FiveInLine(g, Horizontal, row, col, p) then Horizontal
      else if FiveInLine(g, Vertical, row, col, p) then Vertical
      else if FiveInLine(g, Diagonal, row, col, p) then Diagonal
      else AntiDiagonal;
    var s :| -4 <= s <= 0 && RunFrom(g, d, row, col, s, p);
    assert OnLine(g, d, row, col, 0, p);
  }

  /**
   * Overlines win: six or more stones in a row through (row, col) satisfy the
   * check, since it asks for at least five consecutive stones.
   */
  lemma {:induction false} OverlineWins(g: Grid, d: Direction, row: int, col: int, p: int, s: int, n: int)
    requires IsGrid(g) && n >= 6 && s <= 0 < s + n
    requires forall k :: s <= k < s + n ==> OnLine(g, d, row, col, k, p)
    ensures IsWin(g, row, col, p)
  {
    var t := if s < -4 then -4 else s;
    assert RunFrom(g, d, row, col, t, p);
    assert FiveInLine(g, d, row, col, p);
  }
}
