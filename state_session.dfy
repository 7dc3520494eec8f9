/** The whole-board session of the AI client (`StateSession`): it keeps no
    incremental index.  Its evaluation adds a placement score that decays
    with distance from the centre to a score for every run of pieces along
    the rows, the columns and both diagonal directions.  Its move order is
    the empty cells at construction, spiralling out from the centre, and
    below the top ply it rejects moves with no occupied neighbour. */
module StateSessions {
  import opened Defines
  import opened JsNumbers
  import opened Grids
  import opened Search
  import opened SearchProofs

  // ---------------------------------------------------------------------
  // Score tables.
  // ---------------------------------------------------------------------

  const PIECE_BASE: real := 0.1
  const PIECE_DECAY: real := 0.8
  const PIECE_MAX: nat := 30

  /** Score of a run of k own pieces (OWN[k]). */
  const OWN: seq<real> := [0.0, 1.0, 3.0, 6.0, 10.0, WIN, WIN, WIN, WIN, WIN, WIN]
  /** Score of a run of k opponent pieces (OTHER[k]); one entry shorter
      than OWN. */
  const OTHER: seq<real> := [0.0, -1.0, -3.0, -6.0, -10.0, LOSS, LOSS, LOSS, LOSS, LOSS]

  /** PIECE_DECAY to the power k. */
  function PieceDecay(k: nat): (r: real)
    ensures 0.0 < r <= 1.0
  {
    if k == 0 then 1.0 else PIECE_DECAY * PieceDecay(k - 1)
  }

  /** `Score.PIECE[d]`: PIECE_BASE decayed once per unit of distance.  Past
      the end of the table the lookup is `undefined`, which turns any sum
      it enters into NaN. */
  function Piece(d: nat): Num {
    if d < PIECE_MAX then Fin(PIECE_BASE * PieceDecay(d)) else NaN
  }

  /** `Score.OWN[k]`, NaN past the end of the table. */
  function Own(k: nat): Num {
    if k < |OWN| then Fin(OWN[k]) else NaN
  }

  /** `Score.OTHER[k]`, NaN past the end of the table. */
  function Other(k: nat): Num {
    if k < |OTHER| then Fin(OTHER[k]) else NaN
  }

  /** The decay is strict: a farther cell's placement score is lower. */
  lemma {:induction false} PieceDecayDecreasing(a: nat, b: nat)
    requires a < b
    ensures PieceDecay(b) < PieceDecay(a)
    decreases b
  {
    if a + 1 < b {
      PieceDecayDecreasing(a, b - 1);
    }
  }

  /** Within the table, PIECE is positive, at most PIECE_BASE and strictly
      decreasing with distance; beyond it the lookup is NaN. */
  lemma PieceShape(a: nat, b: nat)
    requires a < b
    ensures b < PIECE_MAX ==> 0.0 < Piece(b).r < Piece(a).r <= PIECE_BASE
    ensures Piece(b).NaN? <==> b >= PIECE_MAX
  {
    if b < PIECE_MAX {
      PieceDecayDecreasing(a, b);
    }
  }

  /** The run tables: OWN climbs to WIN at five in a row, OTHER falls to
      LOSS, both start at 0; OWN is defined up to a run of 10 and OTHER up
      to 9. */
  lemma ConnectTables(k: nat)
    ensures Own(0) == Fin(0.0) && Other(0) == Fin(0.0)
    ensures Own(k).Fin? <==> k <= 10
    ensures Other(k).Fin? <==> k <= 9
    ensures k < 4 ==> Own(k).r < Own(k + 1).r && Other(k + 1).r < Other(k).r
    ensures k <= 4 ==> Other(k).r == -Own(k).r && Own(k).r < WIN && LOSS < Other(k).r
    ensures 5 <= k <= 10 ==> Own(k) == Fin(WIN)
    ensures 5 <= k <= 9 ==> Other(k) == Fin(LOSS)
  {
  }

  /** The module-level loop filling Score.PIECE. */
  method BuildPieceTable() returns (table: seq<real>)
    ensures |table| == PIECE_MAX
    ensures forall d :: 0 <= d < PIECE_MAX ==> Piece(d) == Fin(table[d])
  {
    table := [];
    var spaceScore := PIECE_BASE;
    var space := 0;
    while space < PIECE_MAX
      invariant 0 <= space <= PIECE_MAX && |table| == space
      invariant spaceScore == PIECE_BASE * PieceDecay(space)
      invariant forall d :: 0 <= d < space ==> Piece(d) == Fin(table[d])
    {
      table := table + [spaceScore];
      space := space + 1;
      spaceScore := spaceScore * PIECE_DECAY;
    }
  }

  // ---------------------------------------------------------------------
  // breadthFirstSearch.
  // ---------------------------------------------------------------------

  /** One call of the search's callback: a cell and its layer. */
  datatype Visit = Visit(cell: Cell, layer: nat)

  function Cells(visits: seq<Visit>): (cells: seq<Cell>)
    ensures |cells| == |visits| && forall k :: 0 <= k < |visits| ==> cells[k] == visits[k].cell
  {
    seq(|visits|, k requires 0 <= k < |visits| => visits[k].cell)
  }

  /** What breadthFirstSearch promises its callback: every cell of the
      board exactly once, each with its layer, the king-move distance from
      the start, in non-decreasing order of layer. */
  ghost predicate SearchOrder(visits: seq<Visit>, n: nat, start: Cell) {
    (forall k :: 0 <= k < |visits| ==>
      CellInBounds(n, visits[k].cell) && visits[k].layer == Cheb(visits[k].cell, start)) &&
    (forall k, j :: 0 <= k < j < |visits| ==>
      visits[k].cell != visits[j].cell && visits[k].layer <= visits[j].layer) &&
    (forall x :: CellInBounds(n, x) ==> x in Cells(visits))
  }

  /** One coordinate moved one step toward b. */
  function Toward(a: int, b: int): int {
    if a < b then a + 1 else if a > b then a - 1 else a
  }

  /** A coordinate moved to within d of b. */
  function Clamp(a: int, b: int, d: nat): int {
    if a > b + d then b + d else if a < b - d then b - d else a
  }

  /** Every cell away from the start has a neighbour one layer closer. */
  lemma Parent(n: nat, start: Cell, y: Cell) returns (p: Cell)
    requires CellInBounds(n, start) && CellInBounds(n, y) && Cheb(y, start) > 0
    ensures CellInBounds(n, p) && Cheb(p, start) + 1 == Cheb(y, start) && Cheb(y, p) == 1
  {
    p := (Toward(y.0, start.0), Toward(y.1, start.1));
  }

  /** Every layer up to the distance of some cell holds a cell. */
  lemma Shell(n: nat, start: Cell, y: Cell, d: nat) returns (z: Cell)
    requires CellInBounds(n, start) && CellInBounds(n, y) && d <= Cheb(y, start)
    ensures CellInBounds(n, z) && Cheb(z, start) == d
  {
    z := (Clamp(y.0, start.0, d), Clamp(y.1, start.1, d));
  }

  lemma ChebTriangle(a: Cell, b: Cell, c: Cell)
    ensures Cheb(a, c) <= Cheb(a, b) + Cheb(b, c)
  {
  }

  /** The visited flags agree with the search so far: a cell is marked iff
      it lies within `layer` of the start or waits in the next frontier,
      which holds distinct cells of layer `layer + 1`. */
  ghost predicate Frontier(visited: array2<bool>, n: nat, start: Cell, layer: nat, next: seq<Cell>)
    reads visited
  {
    visited.Length0 == n && visited.Length1 == n &&
    (forall r, c :: InBounds(n, r, c) ==> (visited[r, c] <==> Cheb((r, c), start) <= layer || (r, c) in next)) &&
    (forall k :: 0 <= k < |next| ==> CellInBounds(n, next[k]) && Cheb(next[k], start) == layer + 1) &&
    Distinct(next)
  }

  /** One neighbour check: a cell on the board that is not yet visited is
      marked and joins the next frontier.  (Each direction of the source
      tests only the bounds that can fail in that direction; together with
      the explored cell being on the board that is the same test.) */
  method Mark(visited: array2<bool>, n: nat, ghost start: Cell, ghost layer: nat, ghost cur: Cell,
              r: int, c: int, next: seq<Cell>) returns (next': seq<Cell>)
    requires CellInBounds(n, cur) && Cheb(cur, start) == layer && Cheb((r, c), cur) == 1
    requires Frontier(visited, n, start, layer, next)
    modifies visited
    ensures Frontier(visited, n, start, layer, next')
    ensures forall x :: x in next ==> x in next'
    ensures InBounds(n, r, c) ==> Cheb((r, c), start) <= layer || (r, c) in next'
  {
    next' := next;
    if 0 <= r < n && 0 <= c < n && !visited[r, c] {
      ChebTriangle((r, c), cur, start);
      visited[r, c] := true;
      next' := next + [(r, c)];
    }
  }

  /** The eight king-move neighbours of (r, c), on the board or not, in
      the order N, NW, W, SW, S, SE, E, NE. */
  function KingCells(r: int, c: int): (cells: seq<Cell>)
    ensures |cells| == 8 && forall k :: 0 <= k < |cells| ==> Cheb(cells[k], (r, c)) == 1
  {
    [(r - 1, c), (r - 1, c - 1), (r, c - 1), (r + 1, c - 1), (r + 1, c), (r + 1, c + 1), (r, c + 1), (r - 1, c + 1)]
  }

  /** The king-move cells are exactly those at distance one. */
  lemma KingCellsExact(y: Cell, r: int, c: int)
    requires Cheb(y, (r, c)) == 1
    ensures y in KingCells(r, c)
  {
  }

  /** Cells each within `layer` of the start or waiting in the frontier. */
  predicate Reached(cells: seq<Cell>, start: Cell, layer: nat, next: seq<Cell>) {
    forall k :: 0 <= k < |cells| ==> Cheb(cells[k], start) <= layer || cells[k] in next
  }

  /** Growing the frontier keeps what was reached. */
  lemma ReachedGrows(cells: seq<Cell>, start: Cell, layer: nat, next: seq<Cell>, next': seq<Cell>)
    requires Reached(cells, start, layer, next) && forall x :: x in next ==> x in next'
    ensures Reached(cells, start, layer, next')
  {
  }

  /** The first `d` cells of `around` that are on the board have been
      reached. */
  ghost predicate Covered(around: seq<Cell>, d: nat, n: nat, start: Cell, layer: nat, next: seq<Cell>)
    requires d <= |around|
  {
    forall k :: 0 <= k < d && CellInBounds(n, around[k]) ==> Cheb(around[k], start) <= layer || around[k] in next
  }

  /** One more checked cell extends what is covered. */
  lemma CoveredStep(around: seq<Cell>, d: nat, n: nat, start: Cell, layer: nat, next: seq<Cell>, next': seq<Cell>)
    requires d < |around| && Covered(around, d, n, start, layer, next)
    requires forall x :: x in next ==> x in next'
    requires CellInBounds(n, around[d]) ==> Cheb(around[d], start) <= layer || around[d] in next'
    ensures Covered(around, d + 1, n, start, layer, next')
  {
  }

  /** The eight neighbour checks of one explored cell, in the order N, NW,
      W, SW, S, SE, E, NE (the source writes them out one after another):
      afterwards every neighbour has been reached. */
  method Expand(visited: array2<bool>, n: nat, ghost start: Cell, ghost layer: nat,
                rr: int, cc: int, next: seq<Cell>) returns (next': seq<Cell>)
    requires InBounds(n, rr, cc) && Cheb((rr, cc), start) == layer
    requires Frontier(visited, n, start, layer, next)
    modifies visited
    ensures Frontier(visited, n, start, layer, next')
    ensures Reached(NeighbourCells(n, rr, cc), start, layer, next')
    ensures forall x :: x in next ==> x in next'
  {
    next' := next;
    var around := KingCells(rr, cc);
    var d := 0;
    while d < |around|
      invariant 0 <= d <= |around|
      invariant Frontier(visited, n, start, layer, next')
      invariant forall x :: x in next ==> x in next'
      invariant Covered(around, d, n, start, layer, next')
    {
      ghost var prev := next';
      next' := Mark(visited, n, start, layer, (rr, cc), around[d].0, around[d].1, next');
      CoveredStep(around, d, n, start, layer, prev, next');
      d := d + 1;
    }
    NeighboursCovered(n, rr, cc, start, layer, next');
  }

  /** Covering all eight king cells reaches every neighbour read by
      neighbourPieces. */
  lemma NeighboursCovered(n: nat, rr: int, cc: int, start: Cell, layer: nat, next: seq<Cell>)
    requires InBounds(n, rr, cc) && Covered(KingCells(rr, cc), 8, n, start, layer, next)
    ensures Reached(NeighbourCells(n, rr, cc), start, layer, next)
  {
    var cells := NeighbourCells(n, rr, cc);
    forall k | 0 <= k < |cells|
      ensures Cheb(cells[k], start) <= layer || cells[k] in next
    {
      KingCellsExact(cells[k], rr, cc);
    }
  }

  /** breadthFirstSearch(board, r, c, op): the calls of `op`, in order. */
  method BreadthFirstSearch(n: nat, r: int, c: int) returns (visits: seq<Visit>)
    requires InBounds(n, r, c)
    ensures SearchOrder(visits, n, (r, c))
  {
    var start := (r, c);
    var visited := new bool[n, n]((i, j) => false);
    visited[r, c] := true;
    var exploring := [start];
    var layer := 0;
    visits := [];
    while |exploring| != 0
      invariant layer <= n
      invariant Frontier(visited, n, start, layer, [])
      invariant IsLayer(exploring, n, start, layer)
      invariant Recorded(visits, n, start, layer)
      decreases n - layer
    {
      assert Cheb(exploring[0], start) < n;
      ghost var before := visits;
      var exploringNext;
      exploringNext, visits := ExploreLayer(visited, n, start, layer, exploring, visits);
      NextLayer(visited, n, start, layer, exploring, exploringNext);
      VisitsGrow(n, start, layer, before, exploring, visits);
      layer := layer + 1;
      exploring := exploringNext;
    }
    AllRecorded(n, start, layer, visits);
  }

  /** One pass of the outer loop: each cell of the layer is passed to the
      callback and has its neighbours checked. */
  method ExploreLayer(visited: array2<bool>, n: nat, ghost start: Cell, layer: nat,
                      exploring: seq<Cell>, visits: seq<Visit>) returns (next: seq<Cell>, visits': seq<Visit>)
    requires Frontier(visited, n, start, layer, []) && IsLayer(exploring, n, start, layer)
    modifies visited
    ensures Frontier(visited, n, start, layer, next)
    ensures AllReached(exploring, |exploring|, n, start, layer, next)
    ensures Appended(visits', visits, exploring, |exploring|, layer)
  {
    next := [];
    visits' := visits;
    var i := 0;
    while i < |exploring|
      invariant 0 <= i <= |exploring|
      invariant Frontier(visited, n, start, layer, next)
      invariant AllReached(exploring, i, n, start, layer, next)
      invariant Appended(visits', visits, exploring, i, layer)
    {
      var rr, cc := exploring[i].0, exploring[i].1;
      AppendedStep(visits', visits, exploring, i, layer);
      visits' := visits' + [Visit((rr, cc), layer)];
      ghost var reached := next;
      next := Expand(visited, n, start, layer, rr, cc, next);
      AllReachedGrows(exploring, i, n, start, layer, reached, next);
      i := i + 1;
    }
  }

  /** The neighbours of the first `count` cells of the layer have been
      reached. */
  ghost predicate AllReached(exploring: seq<Cell>, count: nat, n: nat, start: Cell, layer: nat, next: seq<Cell>)
    requires count <= |exploring|
  {
    forall j :: 0 <= j < count ==>
      InBounds(n, exploring[j].0, exploring[j].1) && Reached(NeighbourCells(n, exploring[j].0, exploring[j].1), start, layer, next)
  }

  /** Growing the frontier keeps what was reached, and expanding the next
      cell of the layer reaches its neighbours too. */
  lemma AllReachedGrows(exploring: seq<Cell>, count: nat, n: nat, start: Cell, layer: nat, next: seq<Cell>, next': seq<Cell>)
    requires count < |exploring| && AllReached(exploring, count, n, start, layer, next)
    requires forall x :: x in next ==> x in next'
    requires InBounds(n, exploring[count].0, exploring[count].1)
    requires Reached(NeighbourCells(n, exploring[count].0, exploring[count].1), start, layer, next')
    ensures AllReached(exploring, count + 1, n, start, layer, next')
  {
    forall j | 0 <= j < count
      ensures Reached(NeighbourCells(n, exploring[j].0, exploring[j].1), start, layer, next')
    {
      ReachedGrows(NeighbourCells(n, exploring[j].0, exploring[j].1), start, layer, next, next');
    }
  }

  /** Recording the next cell of the layer. */
  lemma AppendedStep(visits: seq<Visit>, before: seq<Visit>, exploring: seq<Cell>, count: nat, layer: nat)
    requires count < |exploring| && Appended(visits, before, exploring, count, layer)
    ensures Appended(visits + [Visit(exploring[count], layer)], before, exploring, count + 1, layer)
  {
    var visits' := visits + [Visit(exploring[count], layer)];
    assert visits'[..|before|] == visits[..|before|];
  }

  /** Once the frontier is empty every cell has been recorded: a cell
      beyond the last layer would put a cell in it. */
  lemma AllRecorded(n: nat, start: Cell, layer: nat, visits: seq<Visit>)
    requires CellInBounds(n, start) && Recorded(visits, n, start, layer)
    requires IsLayer([], n, start, layer)
    ensures SearchOrder(visits, n, start)
  {
    forall x | CellInBounds(n, x)
      ensures x in Cells(visits)
    {
      if Cheb(x, start) >= layer {
        var z := Shell(n, start, x, layer);
        assert false;
      }
    }
  }

  /** After a layer is expanded, the next frontier is exactly the next
      layer. */
  lemma NextLayer(visited: array2<bool>, n: nat, start: Cell, layer: nat, exploring: seq<Cell>, next: seq<Cell>)
    requires CellInBounds(n, start)
    requires Frontier(visited, n, start, layer, next)
    requires forall x :: CellInBounds(n, x) && Cheb(x, start) == layer ==> x in exploring
    requires forall k :: 0 <= k < |exploring| ==> CellInBounds(n, exploring[k])
    requires AllReached(exploring, |exploring|, n, start, layer, next)
    ensures Frontier(visited, n, start, layer + 1, [])
    ensures forall x :: CellInBounds(n, x) && Cheb(x, start) == layer + 1 ==> x in next
  {
    forall y | CellInBounds(n, y) && Cheb(y, start) == layer + 1
      ensures y in next
    {
      var p := Parent(n, start, y);
      var j :| 0 <= j < |exploring| && exploring[j] == p;
      NeighbourCellsExact(n, p.0, p.1);
      assert y in NeighbourCells(n, exploring[j].0, exploring[j].1);
      assert Reached(NeighbourCells(n, exploring[j].0, exploring[j].1), start, layer, next);
    }
  }

  /** The visits so far: the cells of the layers before `layer`, each once
      and with its distance, in non-decreasing order of layer. */
  ghost predicate Recorded(visits: seq<Visit>, n: nat, start: Cell, layer: nat) {
    (forall k :: 0 <= k < |visits| ==>
      CellInBounds(n, visits[k].cell) && visits[k].layer == Cheb(visits[k].cell, start) && visits[k].layer < layer) &&
    (forall k, j :: 0 <= k < j < |visits| ==>
      visits[k].cell != visits[j].cell && visits[k].layer <= visits[j].layer) &&
    (forall x :: CellInBounds(n, x) && Cheb(x, start) < layer ==> x in Cells(visits))
  }

  /** The cells of one layer, each once. */
  ghost predicate IsLayer(exploring: seq<Cell>, n: nat, start: Cell, layer: nat) {
    (forall k :: 0 <= k < |exploring| ==> CellInBounds(n, exploring[k]) && Cheb(exploring[k], start) == layer) &&
    (forall x :: CellInBounds(n, x) && Cheb(x, start) == layer ==> x in exploring) &&
    Distinct(exploring)
  }

  /** `visits` is `before` followed by a visit of each of the first
      `count` cells of the layer. */
  ghost predicate Appended(visits: seq<Visit>, before: seq<Visit>, exploring: seq<Cell>, count: nat, layer: nat) {
    count <= |exploring| && |visits| == |before| + count && visits[..|before|] == before &&
    forall j :: 0 <= j < count ==> visits[|before| + j] == Visit(exploring[j], layer)
  }

  /** The visits of one layer extend the record of the earlier ones. */
  lemma VisitsGrow(n: nat, start: Cell, layer: nat, before: seq<Visit>, exploring: seq<Cell>, visits: seq<Visit>)
    requires Recorded(before, n, start, layer) && IsLayer(exploring, n, start, layer)
    requires Appended(visits, before, exploring, |exploring|, layer)
    ensures Recorded(visits, n, start, layer + 1)
  {
    VisitsGrowLayers(n, start, layer, before, exploring, visits);
    VisitsGrowOrder(n, start, layer, before, exploring, visits);
    VisitsGrowCover(n, start, layer, before, exploring, visits);
  }

  lemma VisitsGrowLayers(n: nat, start: Cell, layer: nat, before: seq<Visit>, exploring: seq<Cell>, visits: seq<Visit>)
    requires Recorded(before, n, start, layer) && IsLayer(exploring, n, start, layer)
    requires Appended(visits, before, exploring, |exploring|, layer)
    ensures forall k :: 0 <= k < |visits| ==>
      CellInBounds(n, visits[k].cell) && visits[k].layer == Cheb(visits[k].cell, start) && visits[k].layer < layer + 1
  {
    var b := |before|;
    forall k | 0 <= k < |visits|
      ensures CellInBounds(n, visits[k].cell) && visits[k].layer == Cheb(visits[k].cell, start) && visits[k].layer < layer + 1
    {
      if k < b {
        assert visits[k] == before[k];
      } else {
        assert visits[k] == Visit(exploring[k - b], layer);
      }
    }
  }

  lemma VisitsGrowOrder(n: nat, start: Cell, layer: nat, before: seq<Visit>, exploring: seq<Cell>, visits: seq<Visit>)
    requires Recorded(before, n, start, layer) && IsLayer(exploring, n, start, layer)
    requires Appended(visits, before, exploring, |exploring|, layer)
    ensures forall k, j :: 0 <= k < j < |visits| ==>
      visits[k].cell != visits[j].cell && visits[k].layer <= visits[j].layer
  {
    var b := |before|;
    forall k, j | 0 <= k < j < |visits|
      ensures visits[k].cell != visits[j].cell && visits[k].layer <= visits[j].layer
    {
      if j < b {
        assert visits[k] == before[k] && visits[j] == before[j];
      } else if k < b {
        assert visits[k] == before[k] && visits[j] == Visit(exploring[j - b], layer);
      } else {
        assert visits[k] == Visit(exploring[k - b], layer) && visits[j] == Visit(exploring[j - b], layer);
      }
    }
  }

  lemma VisitsGrowCover(n: nat, start: Cell, layer: nat, before: seq<Visit>, exploring: seq<Cell>, visits: seq<Visit>)
    requires Recorded(before, n, start, layer) && IsLayer(exploring, n, start, layer)
    requires Appended(visits, before, exploring, |exploring|, layer)
    ensures forall x :: CellInBounds(n, x) && Cheb(x, start) < layer + 1 ==> x in Cells(visits)
  {
    var b := |before|;
    forall x | CellInBounds(n, x) && Cheb(x, start) < layer + 1
      ensures x in Cells(visits)
    {
      if Cheb(x, start) < layer {
        var k :| 0 <= k < |before| && Cells(before)[k] == x;
        assert visits[k] == before[k];
        assert Cells(visits)[k] == x;
      } else {
        var j :| 0 <= j < |exploring| && exploring[j] == x;
        assert Cells(visits)[b + j] == x;
      }
    }
  }

  /** The cells of a visit order that are empty on g, in that order. */
  function EmptyAmong(g: Grid, n: nat, cells: seq<Cell>): (moves: seq<Cell>)
    requires IsSquare(g, n) && forall k :: 0 <= k < |cells| ==> CellInBounds(n, cells[k])
  {
    if cells == [] then []
    else
      var x := cells[|cells| - 1];
      assert CellInBounds(n, x);
      EmptyAmong(g, n, cells[..|cells| - 1]) + (if g[x.0][x.1] == EMPTY then [x] else [])
  }

  /** Cells in non-decreasing king-move distance from a centre. */
  ghost predicate Outward(cells: seq<Cell>, center: Cell) {
    forall i, j :: 0 <= i < j < |cells| ==> Cheb(cells[i], center) <= Cheb(cells[j], center)
  }

  /** Filtering keeps the empty cells, and keeps them distinct and in
      outward order. */
  lemma {:induction false} EmptyAmongSpec(g: Grid, n: nat, cells: seq<Cell>, center: Cell)
    requires IsSquare(g, n) && forall k :: 0 <= k < |cells| ==> CellInBounds(n, cells[k])
    ensures forall x :: x in EmptyAmong(g, n, cells) <==> x in cells && IsEmptyAt(g, x)
    ensures Distinct(cells) ==> Distinct(EmptyAmong(g, n, cells))
    ensures Outward(cells, center) ==> Outward(EmptyAmong(g, n, cells), center)
  {
    if cells != [] {
      var init := cells[..|cells| - 1];
      var x := cells[|cells| - 1];
      EmptyAmongSpec(g, n, init, center);
      var m := EmptyAmong(g, n, init);
      assert cells == init + [x];
      if Distinct(cells) {
        assert Distinct(init);
        assert x !in init;
      }
      if Outward(cells, center) {
        assert Outward(init, center);
        forall y | y in m
          ensures Cheb(y, center) <= Cheb(x, center)
        {
          var k :| 0 <= k < |init| && init[k] == y;
          assert cells[k] == y;
        }
      }
    }
  }

  /** The move order the constructor builds: exactly the empty cells of
      the board, each once, outward from the centre. */
  lemma CenterMoves(g: Grid, n: nat, visits: seq<Visit>, center: Cell)
    requires IsSquare(g, n) && SearchOrder(visits, n, center)
    ensures forall k :: 0 <= k < |Cells(visits)| ==> CellInBounds(n, Cells(visits)[k])
    ensures var moves := EmptyAmong(g, n, Cells(visits));
      (forall x :: x in moves <==> IsEmptyAt(g, x)) && Distinct(moves) && Outward(moves, center)
  {
    var cells := Cells(visits);
    EmptyAmongSpec(g, n, cells, center);
    assert Distinct(cells) by {
      forall i, j | 0 <= i < j < |cells| ensures cells[i] != cells[j] {
        assert visits[i].cell != visits[j].cell;
      }
    }
    assert Outward(cells, center) by {
      forall i, j | 0 <= i < j < |cells| ensures Cheb(cells[i], center) <= Cheb(cells[j], center) {
        assert visits[i].layer <= visits[j].layer;
      }
    }
  }

  // ---------------------------------------------------------------------
  // evaluateBoard.
  // ---------------------------------------------------------------------

  /** The centre cell the search starts from: (radius, radius). */
  function Center(n: nat): Cell {
    (n / 2, n / 2)
  }

  /** rawPieceScore[r][c]: PIECE at the cell's layer from the centre. */
  function Raw(n: nat, x: Cell): Num {
    Piece(Cheb(x, Center(n)))
  }

  /** One cell of the placement loop. */
  function PlacementStep(score: Num, piece: int, raw: Num, player: int, otherPlayer: int): Num {
    if piece == player then Add(score, raw)
    else if piece == otherPlayer then Sub(score, raw)
    else score
  }

  /** The placement score over the rows before r and the first c cells of
      row r. */
  function Placement(g: Grid, n: nat, player: int, otherPlayer: int, r: nat, c: nat): Num
    requires IsSquare(g, n) && r <= n && c <= n && (r < n || c == 0)
    decreases r, c
  {
    if c > 0 then PlacementStep(Placement(g, n, player, otherPlayer, r, c - 1), g[r][c - 1], Raw(n, (r, c - 1)), player, otherPlayer)
    else if r > 0 then Placement(g, n, player, otherPlayer, r - 1, n)
    else Fin(0.0)
  }

  /** The scan's running state: the score, and the lengths of the own and
      the opponent run in progress (ownConnect, otherConnect). */
  datatype Tally = Tally(score: Num, own: nat, other: nat)

  /** clearConnections: both runs in progress are scored and reset. */
  function Clear(t: Tally): Tally {
    Tally(Add(Add(t.score, Own(t.own)), Other(t.other)), 0, 0)
  }

  /** scorePiece(piece): an own piece extends the own run and closes the
      opponent's, an opponent piece the reverse, and anything else closes
      both. */
  function ScorePiece(t: Tally, piece: int, player: int, otherPlayer: int): Tally {
    if piece == player then Tally(Add(t.score, Other(t.other)), t.own + 1, 0)
    else if piece == otherPlayer then Tally(Add(t.score, Own(t.own)), 0, t.other + 1)
    else Clear(t)
  }

  /** The six loops of the run scan, in order: rows, columns, the forward
      diagonals (r + c constant) from the top-left corner to the main
      one and then past it, and the backward diagonals (c - r constant)
      from the main one rightwards and then below it. */
  datatype Family = Rows | Columns | ForwardUpper | ForwardLower | BackwardUpper | BackwardLower

  /** The first value of the family's outer loop variable. */
  function FirstLine(f: Family): nat {
    if f == ForwardLower || f == BackwardLower then 1 else 0
  }

  /** The trip count of the family's inner loop on line i. */
  function LineLength(f: Family, n: nat, i: nat): nat
    requires i < n
  {
    match f
    case Rows => n
    case Columns => n
    case ForwardUpper => i + 1
    case _ => n - i
  }

  /** The cell the inner loop reads `moved` steps along line i. */
  function LineCell(f: Family, n: nat, i: nat, moved: nat): (x: Cell)
    requires FirstLine(f) <= i < n && moved < LineLength(f, n, i)
    ensures CellInBounds(n, x)
  {
    match f
    case Rows => (i, moved)
    case Columns => (moved, i)
    case ForwardUpper => (i - moved, 0 + moved)
    case ForwardLower => (n - 1 - moved, i + moved)
    case BackwardUpper => (0 + moved, i + moved)
    case BackwardLower => (i + moved, 0 + moved)
  }

  predicate OnLine(f: Family, n: nat, i: nat, moved: nat, x: Cell) {
    FirstLine(f) <= i < n && moved < LineLength(f, n, i) && LineCell(f, n, i, moved) == x
  }

  /** Each cell lies on exactly one row, one column, one forward diagonal
      and one backward diagonal, so each direction reads every cell once. */
  lemma LinesPartition(n: nat, x: Cell)
    requires CellInBounds(n, x)
    ensures OnLine(Rows, n, x.0, x.1, x) && OnLine(Columns, n, x.1, x.0, x)
    ensures forall i, m :: OnLine(Rows, n, i, m, x) ==> i == x.0 && m == x.1
    ensures forall i, m :: OnLine(Columns, n, i, m, x) ==> i == x.1 && m == x.0
    ensures x.0 + x.1 < n ==> OnLine(ForwardUpper, n, x.0 + x.1, x.1, x)
    ensures x.0 + x.1 >= n ==> OnLine(ForwardLower, n, x.0 + x.1 - (n - 1), n - 1 - x.0, x)
    ensures forall i, m :: OnLine(ForwardUpper, n, i, m, x) ==> x.0 + x.1 < n && i == x.0 + x.1 && m == x.1
    ensures forall i, m :: OnLine(ForwardLower, n, i, m, x) ==> x.0 + x.1 >= n && i == x.0 + x.1 - (n - 1) && m == n - 1 - x.0
    ensures x.1 >= x.0 ==> OnLine(BackwardUpper, n, x.1 - x.0, x.0, x)
    ensures x.1 < x.0 ==> OnLine(BackwardLower, n, x.0 - x.1, x.1, x)
    ensures forall i, m :: OnLine(BackwardUpper, n, i, m, x) ==> x.1 >= x.0 && i == x.1 - x.0 && m == x.0
    ensures forall i, m :: OnLine(BackwardLower, n, i, m, x) ==> x.1 < x.0 && i == x.0 - x.1 && m == x.1
  {
  }

  /** The tally after the first k cells of line i of family f, from t. */
  function LineScan(g: Grid, n: nat, f: Family, i: nat, k: nat, t: Tally, player: int, otherPlayer: int): Tally
    requires IsSquare(g, n) && FirstLine(f) <= i < n && k <= LineLength(f, n, i)
  {
    if k == 0 then t
    else
      var x := LineCell(f, n, i, k - 1);
      ScorePiece(LineScan(g, n, f, i, k - 1, t, player, otherPlayer), g[x.0][x.1], player, otherPlayer)
  }

  /** The tally after the lines of family f before line i, each closed by
      clearConnections, from t. */
  function FamilyScan(g: Grid, n: nat, f: Family, i: nat, t: Tally, player: int, otherPlayer: int): Tally
    requires IsSquare(g, n) && i <= n
  {
    if i <= FirstLine(f) then t
    else
      var before := FamilyScan(g, n, f, i - 1, t, player, otherPlayer);
      Clear(LineScan(g, n, f, i - 1, LineLength(f, n, i - 1), before, player, otherPlayer))
  }

  /** One whole family, closed by the extra clearConnections. */
  function FamilyTally(g: Grid, n: nat, f: Family, t: Tally, player: int, otherPlayer: int): Tally
    requires IsSquare(g, n)
  {
    Clear(FamilyScan(g, n, f, n, t, player, otherPlayer))
  }

  /** evaluateBoard as a function of the board. */
  function Evaluation(g: Grid, n: nat, player: int): Num
    requires IsSquare(g, n)
  {
    var q := NextPlayer(player);
    var t0 := Tally(Placement(g, n, player, q, n, 0), 0, 0);
    var t1 := FamilyTally(g, n, Rows, t0, player, q);
    var t2 := FamilyTally(g, n, Columns, t1, player, q);
    var t3 := FamilyTally(g, n, ForwardUpper, t2, player, q);
    var t4 := FamilyTally(g, n, ForwardLower, t3, player, q);
    var t5 := FamilyTally(g, n, BackwardUpper, t4, player, q);
    var t6 := FamilyTally(g, n, BackwardLower, t5, player, q);
    t6.score
  }

  // ---------------------------------------------------------------------
  // Properties of the evaluation.
  // ---------------------------------------------------------------------

  /** Every cell lies within n - 1 of the centre. */
  lemma CenterNear(n: nat, x: Cell)
    requires CellInBounds(n, x)
    ensures Cheb(x, Center(n)) < n
  {
  }

  /** On a board of at most 30 cells a side the placement score is a
      number: every layer has a PIECE entry. */
  lemma {:induction false} PlacementFinite(g: Grid, n: nat, player: int, otherPlayer: int, r: nat, c: nat)
    requires IsSquare(g, n) && n <= PIECE_MAX && r <= n && c <= n && (r < n || c == 0)
    ensures Placement(g, n, player, otherPlayer, r, c).Fin?
    decreases r, c
  {
    if c > 0 {
      PlacementFinite(g, n, player, otherPlayer, r, c - 1);
      CenterNear(n, (r, c - 1));
    } else if r > 0 {
      PlacementFinite(g, n, player, otherPlayer, r - 1, n);
    }
  }

  /** On a line of at most 9 cells, started with no run in progress, the
      runs never outgrow the cells read and every lookup is a number. */
  lemma {:induction false} LineScanBounded(g: Grid, n: nat, f: Family, i: nat, k: nat, t: Tally, player: int, otherPlayer: int)
    requires IsSquare(g, n) && n <= 9 && FirstLine(f) <= i < n && k <= LineLength(f, n, i)
    requires t.score.Fin? && t.own == 0 && t.other == 0
    ensures var u := LineScan(g, n, f, i, k, t, player, otherPlayer);
      u.score.Fin? && u.own <= k && u.other <= k
  {
    if k > 0 {
      LineScanBounded(g, n, f, i, k - 1, t, player, otherPlayer);
    }
  }

  /** A family leaves no run in progress and, on a board of at most 9
      cells a side, keeps the score a number. */
  lemma {:induction false} FamilyScanFinite(g: Grid, n: nat, f: Family, i: nat, t: Tally, player: int, otherPlayer: int)
    requires IsSquare(g, n) && n <= 9 && i <= n
    requires t.score.Fin? && t.own == 0 && t.other == 0
    ensures var u := FamilyScan(g, n, f, i, t, player, otherPlayer);
      u.score.Fin? && u.own == 0 && u.other == 0
  {
    if i > FirstLine(f) {
      FamilyScanFinite(g, n, f, i - 1, t, player, otherPlayer);
      LineClosed(g, n, f, i - 1, FamilyScan(g, n, f, i - 1, t, player, otherPlayer), player, otherPlayer);
    }
  }

  /** One line of at most 9 cells, closed by clearConnections, leaves no
      run in progress and keeps the score a number. */
  lemma LineClosed(g: Grid, n: nat, f: Family, i: nat, t: Tally, player: int, otherPlayer: int)
    requires IsSquare(g, n) && n <= 9 && FirstLine(f) <= i < n
    requires t.score.Fin? && t.own == 0 && t.other == 0
    ensures var u := Clear(LineScan(g, n, f, i, LineLength(f, n, i), t, player, otherPlayer));
      u.score.Fin? && u.own == 0 && u.other == 0
  {
    var len := LineLength(f, n, i);
    assert len <= 9;
    LineScanBounded(g, n, f, i, len, t, player, otherPlayer);
    ClearBounded(LineScan(g, n, f, i, len, t, player, otherPlayer));
  }

  /** Closing runs of at most 9 pieces keeps the score a number. */
  lemma ClearBounded(t: Tally)
    requires t.score.Fin? && t.own <= 9 && t.other <= 9
    ensures Clear(t).score.Fin? && Clear(t).own == 0 && Clear(t).other == 0
  {
    assert Own(t.own).Fin? && Other(t.other).Fin?;
  }

  lemma FamilyTallyFinite(g: Grid, n: nat, f: Family, t: Tally, player: int, otherPlayer: int)
    requires IsSquare(g, n) && n <= 9
    requires t.score.Fin? && t.own == 0 && t.other == 0
    ensures var u := FamilyTally(g, n, f, t, player, otherPlayer);
      u.score.Fin? && u.own == 0 && u.other == 0
  {
    FamilyScanFinite(g, n, f, n, t, player, otherPlayer);
  }

  /** On a board of at most 9 cells a side no run outgrows the OWN and
      OTHER tables, so the evaluation is never NaN. */
  lemma EvaluationFinite(g: Grid, n: nat, player: int)
    requires IsSquare(g, n) && n <= 9
    ensures Evaluation(g, n, player).Fin?
  {
    var q := NextPlayer(player);
    PlacementFinite(g, n, player, q, n, 0);
    var t0 := Tally(Placement(g, n, player, q, n, 0), 0, 0);
    FamilyTallyFinite(g, n, Rows, t0, player, q);
    var t1 := FamilyTally(g, n, Rows, t0, player, q);
    FamilyTallyFinite(g, n, Columns, t1, player, q);
    var t2 := FamilyTally(g, n, Columns, t1, player, q);
    FamilyTallyFinite(g, n, ForwardUpper, t2, player, q);
    var t3 := FamilyTally(g, n, ForwardUpper, t2, player, q);
    FamilyTallyFinite(g, n, ForwardLower, t3, player, q);
    var t4 := FamilyTally(g, n, ForwardLower, t3, player, q);
    FamilyTallyFinite(g, n, BackwardUpper, t4, player, q);
    var t5 := FamilyTally(g, n, BackwardUpper, t4, player, q);
    FamilyTallyFinite(g, n, BackwardLower, t5, player, q);
  }

  /** With no piece on the board nothing is placed. */
  lemma {:induction false} PlacementEmpty(g: Grid, n: nat, player: int, otherPlayer: int, r: nat, c: nat)
    requires IsSquare(g, n) && AllEmpty(g, n) && IsPlayer(player) && IsPlayer(otherPlayer)
    requires r <= n && c <= n && (r < n || c == 0)
    ensures Placement(g, n, player, otherPlayer, r, c) == Fin(0.0)
    decreases r, c
  {
    if c > 0 {
      PlacementEmpty(g, n, player, otherPlayer, r, c - 1);
    } else if r > 0 {
      PlacementEmpty(g, n, player, otherPlayer, r - 1, n);
    }
  }

  /** With no run in progress, clearConnections adds OWN[0] + OTHER[0],
      which is 0, and leaves the tally as it is. */
  lemma ClearIdle(t: Tally)
    requires t.own == 0 && t.other == 0
    ensures Clear(t) == t
  {
    assert Own(0) == Fin(0.0) && Other(0) == Fin(0.0);
    AddZero(t.score);
    AddZero(Add(t.score, Own(0)));
  }

  /** With no piece on the board no run ever starts: a line leaves a tally
      with no run in progress as it is. */
  lemma {:induction false} LineScanEmpty(g: Grid, n: nat, f: Family, i: nat, k: nat, t: Tally, player: int, otherPlayer: int)
    requires IsSquare(g, n) && AllEmpty(g, n) && IsPlayer(player) && IsPlayer(otherPlayer)
    requires FirstLine(f) <= i < n && k <= LineLength(f, n, i) && t.own == 0 && t.other == 0
    ensures LineScan(g, n, f, i, k, t, player, otherPlayer) == t
  {
    if k > 0 {
      LineScanEmpty(g, n, f, i, k - 1, t, player, otherPlayer);
      var x := LineCell(f, n, i, k - 1);
      assert g[x.0][x.1] == EMPTY;
      ClearIdle(t);
    }
  }

  lemma {:induction false} FamilyScanEmpty(g: Grid, n: nat, f: Family, i: nat, t: Tally, player: int, otherPlayer: int)
    requires IsSquare(g, n) && AllEmpty(g, n) && IsPlayer(player) && IsPlayer(otherPlayer) && i <= n
    requires t.own == 0 && t.other == 0
    ensures FamilyScan(g, n, f, i, t, player, otherPlayer) == t
  {
    if i > FirstLine(f) {
      FamilyScanEmpty(g, n, f, i - 1, t, player, otherPlayer);
      LineScanEmpty(g, n, f, i - 1, LineLength(f, n, i - 1), t, player, otherPlayer);
      ClearIdle(t);
    }
  }

  /** With no piece on the board a family leaves the tally as it is. */
  lemma FamilyTallyEmpty(g: Grid, n: nat, f: Family, t: Tally, player: int, otherPlayer: int)
    requires IsSquare(g, n) && AllEmpty(g, n) && IsPlayer(player) && IsPlayer(otherPlayer)
    requires t.own == 0 && t.other == 0
    ensures FamilyTally(g, n, f, t, player, otherPlayer) == t
  {
    FamilyScanEmpty(g, n, f, n, t, player, otherPlayer);
    ClearIdle(t);
  }

  /** An empty board evaluates to 0: OWN[0] and OTHER[0] are 0 and no cell
      earns a placement score. */
  lemma EvaluationEmpty(g: Grid, n: nat, player: int)
    requires IsSquare(g, n) && AllEmpty(g, n) && IsPlayer(player)
    ensures Evaluation(g, n, player) == Fin(0.0)
  {
    var q := NextPlayer(player);
    PlacementEmpty(g, n, player, q, n, 0);
    var t := Tally(Placement(g, n, player, q, n, 0), 0, 0);
    FamilyTallyEmpty(g, n, Rows, t, player, q);
    FamilyTallyEmpty(g, n, Columns, t, player, q);
    FamilyTallyEmpty(g, n, ForwardUpper, t, player, q);
    FamilyTallyEmpty(g, n, ForwardLower, t, player, q);
    FamilyTallyEmpty(g, n, BackwardUpper, t, player, q);
    FamilyTallyEmpty(g, n, BackwardLower, t, player, q);
  }

  // ---------------------------------------------------------------------
  // earlyRejectHeuristic and neighbourPieces.
  // ---------------------------------------------------------------------

  /** The cells neighbourPieces reads, in its order N, NW, W, SW, S, SE, E,
      NE, each only when it is on the board. */
  function NeighbourCells(n: nat, r: int, c: int): (cells: seq<Cell>)
    requires InBounds(n, r, c)
    ensures forall k :: 0 <= k < |cells| ==> CellInBounds(n, cells[k]) && Cheb(cells[k], (r, c)) == 1
  {
    NorthCells(n, r, c) + WestCells(n, r, c) + SouthCells(n, r, c) + EastCells(n, r, c)
  }

  function NorthCells(n: nat, r: int, c: int): (cells: seq<Cell>)
    requires InBounds(n, r, c)
    ensures forall x :: x in cells ==> CellInBounds(n, x) && Cheb(x, (r, c)) == 1
  {
    if r > 0 then [(r - 1, c)] + (if c > 0 then [(r - 1, c - 1)] else []) else []
  }

  function WestCells(n: nat, r: int, c: int): (cells: seq<Cell>)
    requires InBounds(n, r, c)
    ensures forall x :: x in cells ==> CellInBounds(n, x) && Cheb(x, (r, c)) == 1
  {
    if c > 0 then [(r, c - 1)] + (if r < n - 1 then [(r + 1, c - 1)] else []) else []
  }

  function SouthCells(n: nat, r: int, c: int): (cells: seq<Cell>)
    requires InBounds(n, r, c)
    ensures forall x :: x in cells ==> CellInBounds(n, x) && Cheb(x, (r, c)) == 1
  {
    if r < n - 1 then [(r + 1, c)] + (if c < n - 1 then [(r + 1, c + 1)] else []) else []
  }

  function EastCells(n: nat, r: int, c: int): (cells: seq<Cell>)
    requires InBounds(n, r, c)
    ensures forall x :: x in cells ==> CellInBounds(n, x) && Cheb(x, (r, c)) == 1
  {
    if c < n - 1 then [(r, c + 1)] + (if r > 0 then [(r - 1, c + 1)] else []) else []
  }

  /** neighbourPieces(board, r, c): the values it yields. */
  function NeighbourPieces(g: Grid, n: nat, r: int, c: int): (pieces: seq<int>)
    requires IsSquare(g, n) && InBounds(n, r, c)
    ensures |pieces| == |NeighbourCells(n, r, c)|
  {
    var cells := NeighbourCells(n, r, c);
    seq(|cells|, k requires 0 <= k < |cells| => g[cells[k].0][cells[k].1])
  }

  /** neighbourPieces reads every on-board king neighbour exactly once and
      nothing else. */
  lemma NeighbourCellsExact(n: nat, r: int, c: int)
    requires InBounds(n, r, c)
    ensures forall y :: y in NeighbourCells(n, r, c) <==> CellInBounds(n, y) && Cheb(y, (r, c)) == 1
    ensures Distinct(NeighbourCells(n, r, c))
  {
    var north, west, south, east := NorthCells(n, r, c), WestCells(n, r, c), SouthCells(n, r, c), EastCells(n, r, c);
    var cells := NeighbourCells(n, r, c);
    assert cells == north + west + south + east;
    forall y | CellInBounds(n, y) && Cheb(y, (r, c)) == 1
      ensures y in cells
    {
      NeighbourIn(n, r, c, y);
    }
    DistinctConcat(north, west);
    DistinctConcat(north + west, south);
    DistinctConcat(north + west + south, east);
  }

  /** An on-board king neighbour lies in the part of its direction. */
  lemma NeighbourIn(n: nat, r: int, c: int, y: Cell)
    requires InBounds(n, r, c) && CellInBounds(n, y) && Cheb(y, (r, c)) == 1
    ensures y in NorthCells(n, r, c) + WestCells(n, r, c) + SouthCells(n, r, c) + EastCells(n, r, c)
  {
    if y.0 == r - 1 && y.1 <= c {
      assert y in NorthCells(n, r, c);
    } else if y.1 == c - 1 {
      assert y in WestCells(n, r, c);
    } else if y.0 == r + 1 {
      assert y in SouthCells(n, r, c);
    } else {
      assert y in EastCells(n, r, c);
    }
  }

  /** Two sequences without repeats and without common elements join into
      one without repeats. */
  lemma DistinctConcat<T>(a: seq<T>, b: seq<T>)
    requires Distinct(a) && Distinct(b) && forall x :: x in a ==> x !in b
    ensures Distinct(a + b)
  {
    forall i, j | 0 <= i < j < |a + b|
      ensures (a + b)[i] != (a + b)[j]
    {
      if j >= |a| && i < |a| {
        assert (a + b)[i] in a && (a + b)[j] in b;
      }
    }
  }

  /** earlyRejectHeuristic(move, depth): never at the top ply; below it, a
      move is rejected when every piece neighbourPieces yields is EMPTY. */
  predicate EarlyRejects(g: Grid, n: nat, m: Cell, depth: nat, searchDepth: nat)
    requires IsSquare(g, n) && CellInBounds(n, m)
  {
    depth != searchDepth && forall k :: 0 <= k < |NeighbourPieces(g, n, m.0, m.1)| ==> NeighbourPieces(g, n, m.0, m.1)[k] == EMPTY
  }

  /** The heuristic in board terms: below the top ply a move is rejected
      iff none of its on-board neighbours is occupied. */
  lemma EarlyRejectsExact(g: Grid, n: nat, m: Cell, depth: nat, searchDepth: nat)
    requires IsSquare(g, n) && CellInBounds(n, m)
    ensures EarlyRejects(g, n, m, depth, searchDepth) <==>
      depth != searchDepth && forall y :: CellInBounds(n, y) && Cheb(y, m) == 1 ==> g[y.0][y.1] == EMPTY
  {
    NeighbourCellsExact(n, m.0, m.1);
    var cells := NeighbourCells(n, m.0, m.1);
    var pieces := NeighbourPieces(g, n, m.0, m.1);
    if forall k :: 0 <= k < |pieces| ==> pieces[k] == EMPTY {
      forall y | CellInBounds(n, y) && Cheb(y, m) == 1
        ensures g[y.0][y.1] == EMPTY
      {
        assert y in cells;
        var k :| 0 <= k < |cells| && cells[k] == y;
        assert pieces[k] == g[y.0][y.1];
      }
    }
  }

  // ---------------------------------------------------------------------
  // The visitor and what the search then guarantees.
  // ---------------------------------------------------------------------

  /** The visitor methods the session registers, over the board alone: the
      fixed centre-out move order, moves that write a piece and reverts that
      write EMPTY, no terminal test, and the early-reject heuristic with the
      session's search depth. */
  function StateVisitor(n: nat, player: int, moves: seq<Cell>, searchDepth: nat): (v: Visitor<Grid, Cell, ()>)
    ensures forall g, m :: !v.isTerminal(g, m)
    ensures forall g, maxNode :: v.order(g, maxNode) == moves
    ensures forall m :: v.moveRC(m) == m
    ensures forall g, m, depth :: IsSquare(g, n) && CellInBounds(n, m) ==>
      (v.earlyReject(g, m, depth) <==> EarlyRejects(g, n, m, depth, searchDepth))
    ensures forall g, m, depth :: depth == searchDepth ==> !v.earlyReject(g, m, depth)
  {
    RegisterVisitorMethods(
      (g: Grid, maxNode: bool) => moves,
      (m: Cell) => m,
      (g: Grid) => g,
      (g: Grid, m: Cell) => false,
      (g: Grid, m: Cell, maxNode: bool) =>
        if 0 <= m.0 < |g| && 0 <= m.1 < |g[m.0]|
        then (Write(g, m.0, m.1, if maxNode then player else NextPlayer(player)), ())
        else (g, ()),
      (g: Grid, m: Cell, k: ()) =>
        if 0 <= m.0 < |g| && 0 <= m.1 < |g[m.0]| then Write(g, m.0, m.1, EMPTY) else g,
      (g: Grid) => if IsSquare(g, n) then Evaluation(g, n, player) else Fin(0.0),
      Some((g: Grid, m: Cell, depth: nat) => IsSquare(g, n) && CellInBounds(n, m) && EarlyRejects(g, n, m, depth, searchDepth)))
  }

  /** The visitor keeps its contract with the search: a move keeps the
      board square and reverting it restores the board. */
  lemma StateVisitorLawful(n: nat, player: int, moves: seq<Cell>, searchDepth: nat)
    ensures Lawful(StateVisitor(n, player, moves, searchDepth), g => IsSquare(g, n))
  {
    var v := StateVisitor(n, player, moves, searchDepth);
    forall g, m, maxNode | IsSquare(g, n) && IsEmptyAt(v.board(g), v.moveRC(m)) && !v.isTerminal(g, m)
      ensures IsSquare(v.makeMove(g, m, maxNode).0, n)
      ensures v.revertMove(v.makeMove(g, m, maxNode).0, m, v.makeMove(g, m, maxNode).1) == g
    {
      var piece := if maxNode then player else NextPlayer(player);
      var h := Write(g, m.0, m.1, piece);
      assert v.makeMove(g, m, maxNode) == (h, ());
      assert v.revertMove(h, m, ()) == Write(h, m.0, m.1, EMPTY);
      WriteBack(g, m, piece);
    }
  }

  /** On a board of at most 9 cells a side the evaluation is never NaN. */
  lemma StateVisitorNeverNaN(n: nat, player: int, moves: seq<Cell>, searchDepth: nat)
    requires n <= 9
    ensures NeverNaN(StateVisitor(n, player, moves, searchDepth))
  {
    var v := StateVisitor(n, player, moves, searchDepth);
    forall g
      ensures !v.evaluate(g).NaN?
    {
      if IsSquare(g, n) {
        EvaluationFinite(g, n, player);
      }
    }
  }

  /** Alpha-beta over the state session leaves the board as it found it,
      whatever the board's size. */
  lemma StateSearchRestores(n: nat, player: int, moves: seq<Cell>, searchDepth: nat, g: Grid,
                            depth: nat, maxNode: bool, alpha: Num, beta: Num)
    requires IsSquare(g, n)
    ensures AlphaBeta(StateVisitor(n, player, moves, searchDepth), g, depth, maxNode, alpha, beta).state == g
  {
    var v := StateVisitor(n, player, moves, searchDepth);
    StateVisitorLawful(n, player, moves, searchDepth);
    AlphaBetaRestores(v, g => IsSquare(g, n), g, depth, maxNode, alpha, beta);
  }

  /** With no empty cell left on the board, every candidate is skipped, so
      the search returns [null] and getMove fails while logging it. */
  lemma StateFullBoardNull(n: nat, player: int, moves: seq<Cell>, searchDepth: nat, g: Grid,
                           depth: nat, maxNode: bool, alpha: Num, beta: Num)
    requires depth > 0
    requires forall x :: !IsEmptyAt(g, x)
    ensures HasNull(AlphaBeta(StateVisitor(n, player, moves, searchDepth), g, depth, maxNode, alpha, beta).pv)
  {
    var v := StateVisitor(n, player, moves, searchDepth);
    forall j | 0 <= j < |v.order(g, maxNode)|
      ensures !Playable(v, g, v.order(g, maxNode)[j], depth)
    {
      assert !IsEmptyAt(g, v.moveRC(v.order(g, maxNode)[j]));
    }
    NoCandidateNull(v, g, depth, maxNode, alpha, beta);
  }

  /** On a board of at most 9 cells a side, where evaluateBoard is never
      NaN, alpha-beta over the state session agrees with plain minimax in
      the fail-soft sense, and exactly under the full window. */
  lemma StateSearchSound(n: nat, player: int, moves: seq<Cell>, searchDepth: nat, g: Grid,
                         depth: nat, maxNode: bool, alpha: Num, beta: Num)
    requires n <= 9 && IsSquare(g, n) && Lt(alpha, beta)
    ensures FailSoft(AlphaBeta(StateVisitor(n, player, moves, searchDepth), g, depth, maxNode, alpha, beta).value,
                     Minimax(StateVisitor(n, player, moves, searchDepth), g, depth, maxNode), alpha, beta)
    ensures AlphaBeta(StateVisitor(n, player, moves, searchDepth), g, depth, maxNode, NegInf, PosInf).value
         == Minimax(StateVisitor(n, player, moves, searchDepth), g, depth, maxNode)
  {
    var v := StateVisitor(n, player, moves, searchDepth);
    var inv := g => IsSquare(g, n);
    StateVisitorLawful(n, player, moves, searchDepth);
    StateVisitorNeverNaN(n, player, moves, searchDepth);
    assert NoTerminal(v);
    AlphaBetaSound(v, inv, g, depth, maxNode, alpha, beta);
    AlphaBetaFullWindow(v, inv, g, depth, maxNode);
  }

  /** The constructor's move order: a search from the centre, keeping the
      cells that are empty when the session starts. */
  method CenterOrder(g: Grid, n: nat) returns (moves: seq<Cell>)
    requires IsSquare(g, n) && n >= 1
    ensures forall x :: x in moves <==> IsEmptyAt(g, x)
    ensures forall k :: 0 <= k < |moves| ==> CellInBounds(n, moves[k])
    ensures Distinct(moves) && Outward(moves, Center(n))
  {
    var radius := n / 2;
    var order := BreadthFirstSearch(n, radius, radius);
    CenterMoves(g, n, order, Center(n));
    var cells := Cells(order);
    moves := [];
    var k := 0;
    while k < |cells|
      invariant 0 <= k <= |cells|
      invariant moves == EmptyAmong(g, n, cells[..k])
    {
      var x := cells[k];
      EmptyAmongStep(g, n, cells, k);
      if g[x.0][x.1] == EMPTY {
        moves := moves + [x];
      }
      k := k + 1;
    }
    assert cells[..|cells|] == cells;
    forall k | 0 <= k < |moves|
      ensures CellInBounds(n, moves[k])
    {
      assert IsEmptyAt(g, moves[k]);
    }
  }

  /** The filter grows by one cell at a time. */
  lemma EmptyAmongStep(g: Grid, n: nat, cells: seq<Cell>, k: nat)
    requires IsSquare(g, n) && k < |cells| && forall j :: 0 <= j < |cells| ==> CellInBounds(n, cells[j])
    ensures EmptyAmong(g, n, cells[..k + 1]) ==
      EmptyAmong(g, n, cells[..k]) + (if g[cells[k].0][cells[k].1] == EMPTY then [cells[k]] else [])
  {
    assert cells[..k + 1][..k] == cells[..k];
  }

  /** The constructor's placement table: a second search from the centre
      writes PIECE of each visited cell's layer into a fresh grid. */
  method BuildRawScores(n: nat) returns (raw: array2<Num>)
    requires n >= 1
    ensures fresh(raw) && raw.Length0 == n && raw.Length1 == n
    ensures forall r, c :: InBounds(n, r, c) ==> raw[r, c] == Raw(n, (r, c))
  {
    var radius := n / 2;
    var table := BuildPieceTable();
    var layers := BreadthFirstSearch(n, radius, radius);
    raw := new Num[n, n]((i, j) => NaN);
    var k := 0;
    while k < |layers|
      invariant 0 <= k <= |layers|
      invariant forall j :: 0 <= j < k ==> raw[layers[j].cell.0, layers[j].cell.1] == Raw(n, layers[j].cell)
      modifies raw
    {
      var v := layers[k];
      raw[v.cell.0, v.cell.1] := if v.layer < |table| then Fin(table[v.layer]) else NaN;
      k := k + 1;
    }
    forall r, c | InBounds(n, r, c)
      ensures raw[r, c] == Raw(n, (r, c))
    {
      assert (r, c) in Cells(layers);
      var j :| 0 <= j < |layers| && Cells(layers)[j] == (r, c);
      assert layers[j].cell == (r, c);
    }
  }

  /** The placement loops of evaluateBoard: each own piece adds its
      cell's raw score, each opponent piece subtracts it. */
  method PlacementSum(g: Grid, n: nat, raw: array2<Num>, player: int, otherPlayer: int) returns (s: Num)
    requires IsSquare(g, n) && raw.Length0 == n && raw.Length1 == n
    requires forall r, c :: InBounds(n, r, c) ==> raw[r, c] == Raw(n, (r, c))
    ensures s == Placement(g, n, player, otherPlayer, n, 0)
  {
    s := Fin(0.0);
    var r := 0;
    while r < n
      invariant 0 <= r <= n && s == Placement(g, n, player, otherPlayer, r, 0)
    {
      var c := 0;
      while c < n
        invariant 0 <= c <= n && s == Placement(g, n, player, otherPlayer, r, c)
      {
        var further := c + 1;
        PlacementNext(g, n, player, otherPlayer, r, c, further);
        var piece := g[r][c];
        if piece == player {
          s := Add(s, raw[r, c]);
        } else if piece == otherPlayer {
          s := Sub(s, raw[r, c]);
        }
        c := further;
      }
      var below := r + 1;
      PlacementNextRow(g, n, player, otherPlayer, r, below);
      r := below;
    }
  }

  /** The placement loop, one cell further along a row. */
  lemma PlacementNext(g: Grid, n: nat, player: int, otherPlayer: int, r: nat, c: nat, next: nat)
    requires IsSquare(g, n) && r < n && c < n && next == c + 1
    ensures Placement(g, n, player, otherPlayer, r, next) ==
      PlacementStep(Placement(g, n, player, otherPlayer, r, c), g[r][c], Raw(n, (r, c)), player, otherPlayer)
  {
  }

  /** The placement loop, on to the next row. */
  lemma PlacementNextRow(g: Grid, n: nat, player: int, otherPlayer: int, r: nat, next: nat)
    requires IsSquare(g, n) && r < n && next == r + 1
    ensures Placement(g, n, player, otherPlayer, next, 0) == Placement(g, n, player, otherPlayer, r, n)
  {
  }

  /** One loop of the run scan: each line read through scorePiece and
      closed by clearConnections, then one more clearConnections. */
  method ScanFamily(g: Grid, n: nat, f: Family, t0: Tally, player: int, otherPlayer: int) returns (t: Tally)
    requires IsSquare(g, n) && n >= 1
    ensures t == FamilyTally(g, n, f, t0, player, otherPlayer)
  {
    t := t0;
    var i := FirstLine(f);
    while i < n
      invariant FirstLine(f) <= i <= n
      invariant t == FamilyScan(g, n, f, i, t0, player, otherPlayer)
    {
      var next := i + 1;
      t := ScanLine(g, n, f, i, next, t0, t, player, otherPlayer);
      i := next;
    }
    t := Clear(t);
  }

  /** One pass of the outer loop: line i cell by cell through
      scorePiece, closed by clearConnections. */
  method ScanLine(g: Grid, n: nat, f: Family, i: nat, ghost next: nat, ghost t0: Tally, t: Tally, player: int, otherPlayer: int)
    returns (t': Tally)
    requires IsSquare(g, n) && FirstLine(f) <= i < n && next == i + 1
    requires t == FamilyScan(g, n, f, i, t0, player, otherPlayer)
    ensures t' == FamilyScan(g, n, f, next, t0, player, otherPlayer)
  {
    t' := t;
    var moved := 0;
    while moved < LineLength(f, n, i)
      invariant moved <= LineLength(f, n, i)
      invariant t' == LineScan(g, n, f, i, moved, t, player, otherPlayer)
    {
      var x := LineCell(f, n, i, moved);
      var further := moved + 1;
      LineScanNext(g, n, f, i, moved, further, t, player, otherPlayer);
      t' := ScorePiece(t', g[x.0][x.1], player, otherPlayer);
      moved := further;
    }
    FamilyScanNext(g, n, f, i, next, t0, player, otherPlayer);
    t' := Clear(t');
  }

  /** The inner loop, one cell further. */
  lemma LineScanNext(g: Grid, n: nat, f: Family, i: nat, k: nat, next: nat, t: Tally, player: int, otherPlayer: int)
    requires IsSquare(g, n) && FirstLine(f) <= i < n && k < LineLength(f, n, i) && next == k + 1
    ensures var x := LineCell(f, n, i, k);
      LineScan(g, n, f, i, next, t, player, otherPlayer) ==
      ScorePiece(LineScan(g, n, f, i, k, t, player, otherPlayer), g[x.0][x.1], player, otherPlayer)
  {
  }

  /** The outer loop, one line further. */
  lemma FamilyScanNext(g: Grid, n: nat, f: Family, i: nat, next: nat, t0: Tally, player: int, otherPlayer: int)
    requires IsSquare(g, n) && FirstLine(f) <= i < n && next == i + 1
    ensures FamilyScan(g, n, f, next, t0, player, otherPlayer) ==
      Clear(LineScan(g, n, f, i, LineLength(f, n, i), FamilyScan(g, n, f, i, t0, player, otherPlayer), player, otherPlayer))
  {
  }

  /** The neighbour walk of earlyRejectHeuristic: true iff every piece is
      EMPTY, stopping at the first that is not. */
  method NoneOccupied(pieces: seq<int>) returns (none: bool)
    ensures none <==> forall k :: 0 <= k < |pieces| ==> pieces[k] == EMPTY
  {
    none := true;
    var k := 0;
    while k < |pieces|
      invariant 0 <= k <= |pieces|
      invariant none && forall j :: 0 <= j < k ==> pieces[j] == EMPTY
    {
      if pieces[k] != EMPTY {
        none := false;
        break;
      }
      k := k + 1;
    }
  }

  // ---------------------------------------------------------------------
  // The session object.
  // ---------------------------------------------------------------------

  class StateSession {
    const base: Session
    const board: Board
    const size: nat
    const player: int
    const otherPlayer: int
    const movesSurroundingCenter: seq<Cell>
    const rawPieceScore: array2<Num>

    ghost predicate Valid()
      reads this, board, rawPieceScore
    {
      base.board == board && board.Valid() && size == board.size && size >= 1 &&
      otherPlayer == NextPlayer(player) &&
      rawPieceScore.Length0 == size && rawPieceScore.Length1 == size &&
      (forall r, c :: InBounds(size, r, c) ==> rawPieceScore[r, c] == Raw(size, (r, c))) &&
      (forall k :: 0 <= k < |movesSurroundingCenter| ==> CellInBounds(size, movesSurroundingCenter[k])) &&
      Distinct(movesSurroundingCenter) && Outward(movesSurroundingCenter, Center(size))
    }

    /** The registered visitor methods as values. */
    function Visitor(): Visitor<Grid, Cell, ()>
      reads this, base
    {
      StateVisitor(size, player, movesSurroundingCenter, base.searchDepth)
    }

    /** The constructor: the move order is every empty cell, outward from
        the centre; the placement table holds PIECE at each cell's layer. */
    constructor (newBoard: Board, player: int)
      requires newBoard.Valid() && newBoard.size >= 1
      ensures Valid() && board == newBoard && this.player == player
      ensures base.playing && base.searchDepth == 5
      ensures forall x :: x in movesSurroundingCenter <==> IsEmptyAt(newBoard.cells, x)
    {
      base := new Session(newBoard);
      board := newBoard;
      var n := newBoard.size;
      size := n;
      this.player := player;
      otherPlayer := NextPlayer(player);
      var moves := CenterOrder(newBoard.cells, n);
      var raw := BuildRawScores(n);
      movesSurroundingCenter := moves;
      rawPieceScore := raw;
    }

    /** evaluateBoard: the placement sum, then the run scan over the six
        line families. */
    method EvaluateBoard() returns (score: Num)
      requires Valid()
      ensures score == Evaluation(board.cells, size, player)
    {
      var n := size;
      var g := board.cells;
      var s := PlacementSum(g, n, rawPieceScore, player, otherPlayer);
      var t := Tally(s, 0, 0);
      t := ScanFamily(g, n, Rows, t, player, otherPlayer);
      t := ScanFamily(g, n, Columns, t, player, otherPlayer);
      t := ScanFamily(g, n, ForwardUpper, t, player, otherPlayer);
      t := ScanFamily(g, n, ForwardLower, t, player, otherPlayer);
      t := ScanFamily(g, n, BackwardUpper, t, player, otherPlayer);
      t := ScanFamily(g, n, BackwardLower, t, player, otherPlayer);
      score := t.score;
    }

    /** getMoveConsiderationOrder: the fixed centre-out order. */
    method GetMoveConsiderationOrder(maxNode: bool) returns (moves: seq<Cell>)
      requires Valid()
      ensures moves == Visitor().order(board.cells, maxNode)
      ensures forall k :: 0 <= k < |moves| ==> CellInBounds(size, moves[k])
      ensures Distinct(moves) && Outward(moves, Center(size))
    {
      moves := movesSurroundingCenter;
    }

    /** makeMove({r, c}, maxNode): the own piece at max plies, the
        opponent's at min plies; the visitor's makeMove does the same. */
    method MakeMove(m: Cell, maxNode: bool)
      requires Valid() && CellInBounds(size, m)
      modifies board
      ensures Valid()
      ensures board.cells == Write(old(board.cells), m.0, m.1, if maxNode then player else otherPlayer)
      ensures board.cells == Visitor().makeMove(old(board.cells), m, maxNode).0
    {
      board.Put(m.0, m.1, if maxNode then player else otherPlayer);
    }

    /** revertMove({r, c}): the cell is emptied; the visitor's revertMove
        does the same. */
    method RevertMove(m: Cell)
      requires Valid() && CellInBounds(size, m)
      modifies board
      ensures Valid()
      ensures board.cells == Write(old(board.cells), m.0, m.1, EMPTY)
      ensures board.cells == Visitor().revertMove(old(board.cells), m, ())
    {
      board.Put(m.0, m.1, EMPTY);
    }

    /** earlyRejectHeuristic(move, depth): walks the neighbours and stops at
        the first occupied one. */
    method EarlyRejectHeuristic(m: Cell, depth: nat) returns (reject: bool)
      requires Valid() && CellInBounds(size, m)
      ensures reject == Visitor().earlyReject(board.cells, m, depth)
      ensures reject <==> (depth != base.searchDepth &&
        forall y :: CellInBounds(size, y) && Cheb(y, m) == 1 ==> board.cells[y.0][y.1] == EMPTY)
    {
      var g := board.cells;
      EarlyRejectsExact(g, size, m, depth, base.searchDepth);
      if depth == base.searchDepth {
        reject := false;
      } else {
        reject := NoneOccupied(NeighbourPieces(g, size, m.0, m.1));
      }
    }

    /** getMove: the search over the session's visitor from the current
        board, to the session's depth. `thrown` is the TypeError of
        destructuring the `null` that getMoveRC passes through for a `null`
        entry of the principal variation. */
    method GetMove() returns (best: Option<Cell>, thrown: bool)
      requires Valid()
      ensures var o := AlphaBeta(Visitor(), board.cells, base.searchDepth, true, Fin(LOSS), Fin(WIN));
        (thrown <==> HasNull(o.pv)) && (!thrown ==> best == LastMove(o.pv))
      ensures !thrown && base.searchDepth > 0 ==> best.Some?
    {
      var after;
      best, thrown, after := Search.GetMove(Visitor(), board.cells, base.searchDepth);
    }
  }
}
