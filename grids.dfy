/** The square board shared by every component: an N x N grid of cell values
    {EMPTY, P1, P2}, addressed as board[r][c]. */
module Grids {
  import opened Defines

  type Cell = (int, int)
  type Grid = seq<seq<int>>

  predicate IsSquare(g: Grid, n: int) {
    |g| == n && forall r :: 0 <= r < n ==> |g[r]| == n
  }

  predicate InBounds(n: int, r: int, c: int) {
    0 <= r < n && 0 <= c < n
  }

  predicate CellInBounds(n: int, x: Cell) {
    InBounds(n, x.0, x.1)
  }

  /** `board[r][c] === EMPTY`, false for a cell outside the grid. */
  predicate IsEmptyAt(g: Grid, x: Cell) {
    0 <= x.0 < |g| && 0 <= x.1 < |g[x.0]| && g[x.0][x.1] == EMPTY
  }

  /** `board[r][c] = v` */
  function Write(g: Grid, r: int, c: int, v: int): (g': Grid)
    requires 0 <= r < |g| && 0 <= c < |g[r]|
    ensures |g'| == |g| && forall i :: 0 <= i < |g| ==> |g'[i]| == |g[i]|
    ensures g'[r][c] == v
    ensures forall i, j :: 0 <= i < |g| && 0 <= j < |g[i]| && (i, j) != (r, c) ==> g'[i][j] == g[i][j]
  {
    g[r := g[r][c := v]]
  }

  /** Writing a piece on an empty cell and then EMPTY over it gives the
      grid back. */
  lemma WriteBack(g: Grid, x: Cell, piece: int)
    requires 0 <= x.0 < |g| && 0 <= x.1 < |g[x.0]| && g[x.0][x.1] == EMPTY
    ensures Write(Write(g, x.0, x.1, piece), x.0, x.1, EMPTY) == g
  {
    var row := g[x.0];
    assert row[x.1 := piece][x.1 := EMPTY] == row;
    assert g[x.0 := row[x.1 := piece]][x.0 := row] == g;
  }

  /** Coordinate x moved m steps in direction d (d < 0, d == 0 or d > 0). */
  function Offset(x: int, d: int, m: int): int {
    if d > 0 then x + m else if d < 0 then x - m else x
  }

  /** The cell m steps from (r, c) along the direction (dr, dc). */
  function Step(r: int, c: int, dr: int, dc: int, m: int): Cell {
    (Offset(r, dr, m), Offset(c, dc, m))
  }

  function Abs(x: int): nat {
    if x < 0 then -x else x
  }

  /** Chebyshev (king-move) distance between two cells. */
  function Cheb(a: Cell, b: Cell): nat {
    var dr := Abs(a.0 - b.0);
    var dc := Abs(a.1 - b.1);
    if dr < dc then dc else dr
  }

  /** Every cell of an n x n grid holds EMPTY. */
  predicate AllEmpty(g: Grid, n: int)
    requires IsSquare(g, n)
  {
    forall r, c :: 0 <= r < n && 0 <= c < n ==> g[r][c] == EMPTY
  }

  /** A board object: the session and both agents hold the same one, so a
      move written through one of them is seen by all. */
  class Board {
    const size: nat
    var cells: Grid

    ghost predicate Valid()
      reads this
    {
      IsSquare(cells, size)
    }

    constructor (cells: Grid)
      requires IsSquare(cells, |cells|)
      ensures Valid() && size == |cells| && this.cells == cells
    {
      size := |cells|;
      this.cells := cells;
    }

    /** `board[r][c] = v` */
    method Put(r: int, c: int, v: int)
      requires Valid() && InBounds(size, r, c)
      modifies this
      ensures Valid() && cells == Write(old(cells), r, c, v)
    {
      cells := Write(cells, r, c, v);
    }
  }
}
