/**
 * The move list that `generateMoves` builds: the empty cells next to a stone,
 * in row-major order, or every empty cell when there is no such cell.
 */
module Candidates {
  import opened Board

  /** (row, col) is on the board and not EMPTY. */
  predicate Occupied(g: Grid, row: int, col: int)
    requires IsGrid(g)
  {
    IsValidPosition(row, col) && g[row][col] != EMPTY
  }

  /** The neighbour (row + dr, col + dc), other than the cell itself, is occupied. */
  predicate NeighbourOccupied(g: Grid, row: int, col: int, dr: int, dc: int)
    requires IsGrid(g)
  {
    !(dr == 0 && dc == 0) && Occupied(g, row + dr, col + dc)
  }

  /** One of the eight cells around (row, col) holds a stone. */
  ghost predicate HasNeighbour(g: Grid, row: int, col: int)
    requires IsGrid(g)
  {
    exists dr, dc :: -1 <= dr <= 1 && -1 <= dc <= 1 && NeighbourOccupied(g, row, col, dr, dc)
  }

  /** The cell is kept by the scan: EMPTY, and next to a stone when near is set. */
  ghost predicate Wanted(g: Grid, row: int, col: int, near: bool)
    requires IsGrid(g) && IsValidPosition(row, col)
  {
    g[row][col] == EMPTY && (near ==> HasNeighbour(g, row, col))
  }

  /** (r, c) comes strictly before (row, col) in row-major order. */
  predicate Before(r: int, c: int, row: int, col: int) {
    r < row || (r == row && c < col)
  }

  /**
   * The wanted cells that come before (row, col) in row-major order, in that
   * order: what the nested scan has collected on reaching (row, col).
   */
  ghost function Scan(g: Grid, near: bool, row: int, col: int): seq<(int, int)>
    requires IsGrid(g)
    requires 0 <= row <= BOARD_SIZE && 0 <= col <= BOARD_SIZE && (row == BOARD_SIZE ==> col == 0)
    decreases row, col
  {
    if col == 0 then
      (if row == 0 then [] else Scan(g, near, row - 1, BOARD_SIZE))
    else
      Scan(g, near, row, col - 1) + (if Wanted(g, row, col - 1, near) then [(row, col - 1)] else [])
  }

  /** The complete scan of the board. */
  ghost function ScanAll(g: Grid, near: bool): seq<(int, int)>
    requires IsGrid(g)
  {
    Scan(g, near, BOARD_SIZE, 0)
  }

  /** The list `generateMoves` returns. */
  ghost function CandidateMoves(g: Grid): seq<(int, int)>
    requires IsGrid(g)
  {
    if ScanAll(g, true) != [] then ScanAll(g, true) else ScanAll(g, false)
  }

  /** A cell is collected by the scan exactly when it is wanted and comes earlier. */
  lemma {:induction false} ScanMembers(g: Grid, near: bool, row: int, col: int, r: int, c: int)
    requires IsGrid(g)
    requires 0 <= row <= BOARD_SIZE && 0 <= col <= BOARD_SIZE && (row == BOARD_SIZE ==> col == 0)
    ensures (r, c) in Scan(g, near, row, col) <==>
      IsValidPosition(r, c) && Before(r, c, row, col) && Wanted(g, r, c, near)
    decreases row, col
  {
    if col == 0 {
      if row > 0 {
        ScanMembers(g, near, row - 1, BOARD_SIZE, r, c);
      }
    } else {
      ScanMembers(g, near, row, col - 1, r, c);
    }
  }

  /** A cell is in the complete scan exactly when it is wanted. */
  lemma ScanAllMembers(g: Grid, near: bool)
    requires IsGrid(g)
    ensures forall r, c :: (r, c) in ScanAll(g, near) <==> IsValidPosition(r, c) && Wanted(g, r, c, near)
  {
    forall r, c ensures (r, c) in ScanAll(g, near) <==> IsValidPosition(r, c) && Wanted(g, r, c, near) {
      ScanMembers(g, near, BOARD_SIZE, 0, r, c);
    }
  }

  /** Every candidate move is an EMPTY cell on the board. */
  lemma CandidatesAreEmptyCells(g: Grid)
    requires IsGrid(g)
    ensures forall m :: m in CandidateMoves(g) ==> IsValidPosition(m.0, m.1) && g[m.0][m.1] == EMPTY
  {
    ScanAllMembers(g, true);
    ScanAllMembers(g, false);
  }

  /**
   * When some EMPTY cell touches a stone, the candidates are exactly the EMPTY
   * cells that touch a stone.
   */
  lemma CandidatesNearStones(g: Grid, row: int, col: int)
    requires IsGrid(g) && IsValidPosition(row, col) && Wanted(g, row, col, true)
    ensures forall r, c :: (r, c) in CandidateMoves(g) <==>
      IsValidPosition(r, c) && g[r][c] == EMPTY && HasNeighbour(g, r, c)
  {
    ScanAllMembers(g, true);
    assert (row, col) in ScanAll(g, true);
    assert CandidateMoves(g) == ScanAll(g, true);
  }

  /** When no EMPTY cell touches a stone, the candidates are exactly the EMPTY cells. */
  lemma CandidatesFallBack(g: Grid)
    requires IsGrid(g)
    requires forall r, c :: IsValidPosition(r, c) ==> !Wanted(g, r, c, true)
    ensures forall r, c :: (r, c) in CandidateMoves(g) <==> IsValidPosition(r, c) && g[r][c] == EMPTY
  {
    assert ScanAll(g, true) == [] by {
      if ScanAll(g, true) != [] {
        var m := ScanAll(g, true)[0];
        ScanMembers(g, true, BOARD_SIZE, 0, m.0, m.1);
        assert false;
      }
    }
    ScanAllMembers(g, false);
  }

  /** No candidate is returned only when the board is full. */
  lemma CandidatesEmptyIffFull(g: Grid)
    requires IsGrid(g)
    ensures CandidateMoves(g) == [] <==> forall r, c :: IsValidPosition(r, c) ==> g[r][c] != EMPTY
  {
    ScanAllMembers(g, false);
    if CandidateMoves(g) == [] {
      assert ScanAll(g, false) == [];
    } else {
      CandidatesAreEmptyCells(g);
      var m := CandidateMoves(g)[0];
      assert m in CandidateMoves(g);
    }
  }

  /** The EMPTY cells of the board. */
  ghost function EmptyCells(g: Grid): set<(int, int)>
    requires IsGrid(g)
  {
    set r, c | 0 <= r < BOARD_SIZE && 0 <= c < BOARD_SIZE && g[r][c] == EMPTY :: (r, c)
  }

  /** Putting a stone on an EMPTY cell removes exactly that cell from the EMPTY cells. */
  lemma EmptyCellsAfterPlace(g: Grid, row: int, col: int, v: int)
    requires IsGrid(g) && IsValidPosition(row, col) && g[row][col] == EMPTY && v != EMPTY
    ensures (row, col) in EmptyCells(g)
    ensures EmptyCells(SetCell(g, row, col, v)) == EmptyCells(g) - {(row, col)}
    ensures |EmptyCells(SetCell(g, row, col, v))| == |EmptyCells(g)| - 1
  {
    var h := SetCell(g, row, col, v);
    assert (row, col) in EmptyCells(g);
    forall m ensures m in EmptyCells(h) <==> m in EmptyCells(g) - {(row, col)} {
      if m in EmptyCells(h) {
        var r, c :| 0 <= r < BOARD_SIZE && 0 <= c < BOARD_SIZE && h[r][c] == EMPTY && m == (r, c);
        assert m in EmptyCells(g);
      }
      if m in EmptyCells(g) - {(row, col)} {
        var r, c :| 0 <= r < BOARD_SIZE && 0 <= c < BOARD_SIZE && g[r][c] == EMPTY && m == (r, c);
        assert m in EmptyCells(h);
      }
    }
  }

  /** There is a candidate move exactly when some cell is EMPTY. */
  lemma CandidatesIffEmptyCell(g: Grid)
    requires IsGrid(g)
    ensures CandidateMoves(g) != [] <==> EmptyCells(g) != {}
  {
    CandidatesEmptyIffFull(g);
    if EmptyCells(g) != {} {
      var m :| m in EmptyCells(g);
      var r, c :| 0 <= r < BOARD_SIZE && 0 <= c < BOARD_SIZE && g[r][c] == EMPTY && m == (r, c);
      assert IsValidPosition(r, c);
    } else {
      forall r, c | IsValidPosition(r, c) ensures g[r][c] != EMPTY {
        assert (r, c) !in EmptyCells(g);
      }
    }
  }

  /** Every candidate is one of the EMPTY cells. */
  lemma CandidatesInEmptyCells(g: Grid)
    requires IsGrid(g)
    ensures forall m :: m in CandidateMoves(g) ==> m in EmptyCells(g)
  {
    CandidatesAreEmptyCells(g);
  }
}
