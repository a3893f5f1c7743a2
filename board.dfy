/**
 * The 15x15 grid of the connect-five engine, its cell codes and the four
 * line directions that win detection and board evaluation walk along.
 */
module Board {

  const BOARD_SIZE: int := 15
  const EMPTY: int := 0
  const PLAYER: int := 1
  const AI: int := 2

  /** One entry of the engine's move history (and of the frontend's ledger). */
  datatype Move = Move(row: int, col: int, player: int)

  /** The engine's board: a vector of rows, each a vector of cell codes. */
  type Grid = seq<seq<int>>

  /** The board has BOARD_SIZE rows of BOARD_SIZE cells each. */
  predicate IsGrid(g: Grid) {
    |g| == BOARD_SIZE && forall r :: 0 <= r < BOARD_SIZE ==> |g[r]| == BOARD_SIZE
  }

  /** (row, col) is a cell of the board. */
  predicate IsValidPosition(row: int, col: int) {
    0 <= row < BOARD_SIZE && 0 <= col < BOARD_SIZE
  }

  /** A freshly allocated board: every cell EMPTY. */
  function EmptyBoard(): (g: Grid)
    ensures IsGrid(g)
    ensures forall r, c :: IsValidPosition(r, c) ==> g[r][c] == EMPTY
  {
    seq(BOARD_SIZE, _ => seq(BOARD_SIZE, _ => EMPTY))
  }

  /** The board with cell (row, col) set to v and every other cell kept. */
  function SetCell(g: Grid, row: int, col: int, v: int): (h: Grid)
    requires IsGrid(g) && IsValidPosition(row, col)
    ensures IsGrid(h)
    ensures forall r, c :: IsValidPosition(r, c) ==>
      h[r][c] == if r == row && c == col then v else g[r][c]
  {
    g[row := g[row][col := v]]
  }

  /** Writing back a cell's old value after overwriting it restores the board. */
  lemma SetCellRestores(g: Grid, row: int, col: int, v: int)
    requires IsGrid(g) && IsValidPosition(row, col)
    ensures SetCell(SetCell(g, row, col, v), row, col, g[row][col]) == g
  {
    assert g[row][col := v][col := g[row][col]] == g[row];
  }

  /** The cell k steps away from an anchor along one of the four lines. */
  datatype Direction = Horizontal | Vertical | Diagonal | AntiDiagonal {
    function RowAt(row: int, k: int): int {
      if this == Horizontal then row else row + k
    }
    function ColAt(col: int, k: int): int {
      match this
      case Horizontal => col + k
      case Vertical => col
      case Diagonal => col + k
      case AntiDiagonal => col - k
    }
  }

  /** The k-th cell along d from (row, col) lies on the board. */
  predicate InRange(d: Direction, row: int, col: int, k: int) {
    IsValidPosition(d.RowAt(row, k), d.ColAt(col, k))
  }

  /** The k-th cell along d from (row, col) lies on the board and holds p. */
  predicate OnLine(g: Grid, d: Direction, row: int, col: int, k: int, p: int)
    requires IsGrid(g)
  {
    InRange(d, row, col, k) && g[d.RowAt(row, k)][d.ColAt(col, k)] == p
  }

  /** Along a straight line the on-board offsets form an interval. */
  lemma InRangeConvex(d: Direction, row: int, col: int, a: int, k: int, b: int)
    requires InRange(d, row, col, a) && InRange(d, row, col, b) && a <= k <= b
    ensures InRange(d, row, col, k)
  {
  }

  /** An on-board offset whose predecessor is off the board starts the on-board interval. */
  lemma RangeStartsAt(d: Direction, row: int, col: int, i: int)
    requires InRange(d, row, col, i) && !InRange(d, row, col, i - 1)
    ensures forall k :: k < i ==> !InRange(d, row, col, k)
  {
    forall k | k < i ensures !InRange(d, row, col, k) {
      if InRange(d, row, col, k) {
        InRangeConvex(d, row, col, k, i - 1, i);
      }
    }
  }
}
