/** The linking/blocking agent: the evaluator of one player over the shared
    board, and its incremental index of move scores.

    The ordered tree of the source (`moveScores`) is modelled by the set of
    cells whose node is in the tree; `locationNodeMap`, which holds a node for
    every cell, is modelled by the map from each cell to its node's key. */
module Agents {
  import opened Defines
  import opened Grids
  import opened AgentEval

  /** How far along each ray a move propagates a score update. */
  const UPDATE_DIST: nat := 4

  /** The eight rays of the update star, in the order the source walks them:
      west, east, north, south, north-east, south-west, north-west, south-east. */
  const DIRECTIONS: seq<Cell> := [(0, -1), (0, 1), (-1, 0), (1, 0), (-1, 1), (1, -1), (-1, -1), (1, 1)]

  /** One entry of the undo log: a cell and the key its node had before. */
  datatype LogEntry = LogEntry(r: int, c: int, oldScore: real)

  function EntryCell(e: LogEntry): Cell {
    (e.r, e.c)
  }

  function AllCells(n: nat): set<Cell> {
    set r, c | 0 <= r < n && 0 <= c < n :: (r, c)
  }

  lemma InAllCells(n: nat, x: Cell)
    ensures x in AllCells(n) <==> CellInBounds(n, x)
  {
    if CellInBounds(n, x) {
      assert (x.0, x.1) in AllCells(n);
    }
  }

  /** The cells of s that hold EMPTY on the board g. */
  function EmptyAmong(g: Grid, s: set<Cell>): set<Cell> {
    set x | x in s && IsEmptyAt(g, x)
  }

  lemma EmptyAmongAdd(g: Grid, s: set<Cell>, x: Cell)
    ensures EmptyAmong(g, s + {x}) == if IsEmptyAt(g, x) then EmptyAmong(g, s) + {x} else EmptyAmong(g, s) + {x} - {x}
  {
  }

  /** The cells of an n x n board that hold EMPTY. */
  function EmptyCells(g: Grid, n: nat): set<Cell> {
    EmptyAmong(g, AllCells(n))
  }

  /** The cells before (r, c) in row-major order. */
  function CellsBefore(n: nat, r: int, c: int): set<Cell> {
    set i, j | 0 <= i < n && 0 <= j < n && (i < r || (i == r && j < c)) :: (i, j)
  }

  lemma CellsBeforeNext(n: nat, r: int, c: int)
    requires InBounds(n, r, c)
    ensures CellsBefore(n, r, c + 1) == CellsBefore(n, r, c) + {(r, c)}
  {
    assert (r, c) in CellsBefore(n, r, c + 1);
  }

  lemma CellsBeforeRow(n: nat, r: int)
    requires 0 <= r
    ensures CellsBefore(n, r, n) == CellsBefore(n, r + 1, 0)
  {
  }

  lemma CellsBeforeEnds(n: nat)
    ensures CellsBefore(n, 0, 0) == {}
    ensures CellsBefore(n, n, 0) == AllCells(n)
  {
    forall x | x in AllCells(n)
      ensures x in CellsBefore(n, n, 0)
    {
      InAllCells(n, x);
      assert (x.0, x.1) in CellsBefore(n, n, 0);
    }
  }

  /** evaluateMove's score of every cell of the board g: the keys
      initMoveScores gives. */
  function Scores(g: Grid, n: nat, player: int): map<Cell, real>
    requires IsSquare(g, n) && n <= SPACE_MAX
  {
    map x | x in AllCells(n) :: MoveScore(g, n, player, x.0, x.1)
  }

  // ---------------------------------------------------------------------
  // The update star.
  // ---------------------------------------------------------------------

  /** The cells of a ray from step m on, while on the board and within
      UPDATE_DIST of the move. */
  function RayFrom(n: nat, rr: int, cc: int, d: Cell, m: nat): seq<Cell>
    decreases UPDATE_DIST + 1 - m
  {
    if m <= UPDATE_DIST && CellInBounds(n, Step(rr, cc, d.0, d.1, m)) then [Step(rr, cc, d.0, d.1, m)] + RayFrom(n, rr, cc, d, m + 1)
    else []
  }

  /** The cells one loop of updateMoveScoresAfterMove visits in direction d. */
  function Ray(n: nat, rr: int, cc: int, d: Cell): seq<Cell> {
    RayFrom(n, rr, cc, d, 1)
  }

  /** The cells of the first j rays, in order. */
  function RaysUpTo(n: nat, rr: int, cc: int, j: nat): seq<Cell>
    requires j <= |DIRECTIONS|
  {
    if j == 0 then [] else RaysUpTo(n, rr, cc, j - 1) + Ray(n, rr, cc, DIRECTIONS[j - 1])
  }

  /** Every cell updateMoveScoresAfterMove re-evaluates, in order. */
  function Rays(n: nat, rr: int, cc: int): seq<Cell> {
    RaysUpTo(n, rr, cc, |DIRECTIONS|)
  }

  /** `scores` holds evaluateMove's score on board g of every listed cell. */
  ghost predicate ScoresOn(scores: map<Cell, real>, g: Grid, n: nat, player: int, cells: seq<Cell>)
    requires IsSquare(g, n) && n <= SPACE_MAX
  {
    forall i :: 0 <= i < |cells| ==>
      CellInBounds(n, cells[i]) && cells[i] in scores && scores[cells[i]] == MoveScore(g, n, player, cells[i].0, cells[i].1)
  }

  lemma ScoresOnAll(g: Grid, n: nat, player: int, cells: seq<Cell>)
    requires IsSquare(g, n) && n <= SPACE_MAX
    requires forall i :: 0 <= i < |cells| ==> CellInBounds(n, cells[i])
    ensures ScoresOn(Scores(g, n, player), g, n, player, cells)
  {
    forall i | 0 <= i < |cells|
      ensures cells[i] in Scores(g, n, player)
    {
      InAllCells(n, cells[i]);
    }
  }

  /** The fresh scores of the j-th ray of the star. */
  lemma StarScores(g: Grid, n: nat, player: int, rr: int, cc: int, j: nat)
    requires IsSquare(g, n) && n <= SPACE_MAX && j < |DIRECTIONS|
    ensures IsUnit(DIRECTIONS[j])
    ensures ScoresOn(Scores(g, n, player), g, n, player, Ray(n, rr, cc, DIRECTIONS[j]))
  {
    DirectionsShape();
    RayShape(n, rr, cc, DIRECTIONS[j]);
    ScoresOnAll(g, n, player, Ray(n, rr, cc, DIRECTIONS[j]));
  }

  /** Every key of `keys` is the one `scores` gives its cell. */
  ghost predicate SubMap(keys: map<Cell, real>, scores: map<Cell, real>) {
    forall x :: x in keys ==> x in scores && keys[x] == scores[x]
  }

  lemma SubMapAll(keys: map<Cell, real>, scores: map<Cell, real>)
    requires keys.Keys == scores.Keys && SubMap(keys, scores)
    ensures keys == scores
  {
  }

  lemma ScoresKeys(g: Grid, n: nat, player: int)
    requires IsSquare(g, n) && n <= SPACE_MAX
    ensures Scores(g, n, player).Keys == AllCells(n)
  {
  }

  lemma ScoresAt(g: Grid, n: nat, player: int, x: Cell)
    requires IsSquare(g, n) && n <= SPACE_MAX && CellInBounds(n, x)
    ensures x in Scores(g, n, player) && Scores(g, n, player)[x] == MoveScore(g, n, player, x.0, x.1)
  {
    InAllCells(n, x);
  }

  /** Every listed cell has a key. */
  predicate Keyed(cells: seq<Cell>, keys: map<Cell, real>) {
    forall i :: 0 <= i < |cells| ==> cells[i] in keys
  }

  /** The keys after re-evaluating the listed cells that are still empty
      on the board g, whose fresh scores are `scores`. */
  function Rekeyed(keys: map<Cell, real>, g: Grid, scores: map<Cell, real>, cells: seq<Cell>): (r: map<Cell, real>)
    ensures r.Keys == keys.Keys
  {
    map x | x in keys :: if x in cells && IsEmptyAt(g, x) && x in scores then scores[x] else keys[x]
  }

  /** The log entries recording the keys of the listed cells. */
  function Entries(keys: map<Cell, real>, cells: seq<Cell>): (log: seq<LogEntry>)
    requires Keyed(cells, keys)
    ensures |log| == |cells|
    ensures forall i :: 0 <= i < |cells| ==> EntryCell(log[i]) == cells[i] && log[i].oldScore == keys[cells[i]]
  {
    if |cells| == 0 then [] else Entries(keys, cells[..|cells| - 1]) + [LogEntry(cells[|cells| - 1].0, cells[|cells| - 1].1, keys[cells[|cells| - 1]])]
  }

  /** The undo log of a move at (rr, cc): the move's own node first, then the
      star cells. */
  function MoveLog(keys: map<Cell, real>, n: nat, rr: int, cc: int): seq<LogEntry>
    requires InBounds(n, rr, cc) && keys.Keys == AllCells(n)
  {
    RaysInBounds(n, rr, cc);
    InAllCells(n, (rr, cc));
    [LogEntry(rr, cc, keys[(rr, cc)])] + Entries(keys, Rays(n, rr, cc))
  }

  /** The keys after replaying an undo log: every logged cell gets its logged
      key back. */
  function RevertKeys(keys: map<Cell, real>, log: seq<LogEntry>): map<Cell, real>
    decreases |log|
  {
    if |log| == 0 then keys
    else RevertKeys(keys, log[..|log| - 1])[EntryCell(log[|log| - 1]) := log[|log| - 1].oldScore]
  }

  /** The tree membership after replaying an undo log: the first node is put
      back. */
  function RevertMembers(members: set<Cell>, log: seq<LogEntry>): set<Cell> {
    if |log| == 0 then members else members + {EntryCell(log[0])}
  }

  // ---------------------------------------------------------------------
  // Shape of the update star.
  // ---------------------------------------------------------------------

  lemma PrefixSnoc<T>(s: seq<T>, m: nat)
    requires 0 < m <= |s|
    ensures s[..m] == s[..m - 1] + [s[m - 1]]
  {
  }

  predicate IsUnit(d: Cell) {
    -1 <= d.0 <= 1 && -1 <= d.1 <= 1 && d != (0, 0)
  }

  /** Two steps of at least one along unit directions meet only when they
      are the same step. */
  lemma StepInjective(rr: int, cc: int, d1: Cell, d2: Cell, k1: int, k2: int)
    requires IsUnit(d1) && IsUnit(d2) && k1 >= 1 && k2 >= 1
    requires Step(rr, cc, d1.0, d1.1, k1) == Step(rr, cc, d2.0, d2.1, k2)
    ensures d1 == d2 && k1 == k2
  {
  }

  lemma {:induction false} RayFromShape(n: nat, rr: int, cc: int, d: Cell, m: nat)
    requires 1 <= m
    ensures m + |RayFrom(n, rr, cc, d, m)| <= UPDATE_DIST + 1 || |RayFrom(n, rr, cc, d, m)| == 0
    ensures forall i :: 0 <= i < |RayFrom(n, rr, cc, d, m)| ==>
      RayFrom(n, rr, cc, d, m)[i] == Step(rr, cc, d.0, d.1, m + i) && m + i <= UPDATE_DIST &&
      CellInBounds(n, RayFrom(n, rr, cc, d, m)[i])
    decreases UPDATE_DIST + 1 - m
  {
    if m <= UPDATE_DIST && CellInBounds(n, Step(rr, cc, d.0, d.1, m)) {
      RayFromShape(n, rr, cc, d, m + 1);
      var rest := RayFrom(n, rr, cc, d, m + 1);
      assert forall i :: 1 <= i < 1 + |rest| ==> RayFrom(n, rr, cc, d, m)[i] == rest[i - 1];
    }
  }

  /** A ray's cells are on the board, one to UPDATE_DIST steps away. */
  lemma RayShape(n: nat, rr: int, cc: int, d: Cell)
    ensures |Ray(n, rr, cc, d)| <= UPDATE_DIST
    ensures forall i :: 0 <= i < |Ray(n, rr, cc, d)| ==>
      Ray(n, rr, cc, d)[i] == Step(rr, cc, d.0, d.1, i + 1) && i + 1 <= UPDATE_DIST &&
      CellInBounds(n, Ray(n, rr, cc, d)[i])
  {
    RayFromShape(n, rr, cc, d, 1);
  }

  /** Every cell of the first j rays is a step of 1..UPDATE_DIST along one
      of those rays. */
  lemma {:induction false} RaysUpToShape(n: nat, rr: int, cc: int, j: nat)
    requires j <= |DIRECTIONS|
    ensures |RaysUpTo(n, rr, cc, j)| <= UPDATE_DIST * j
    ensures forall x :: x in RaysUpTo(n, rr, cc, j) ==> (CellInBounds(n, x) &&
      exists i, k :: 0 <= i < j && 1 <= k <= UPDATE_DIST && x == Step(rr, cc, DIRECTIONS[i].0, DIRECTIONS[i].1, k))
  {
    if j > 0 {
      RaysUpToShape(n, rr, cc, j - 1);
      RayShape(n, rr, cc, DIRECTIONS[j - 1]);
      var ray := Ray(n, rr, cc, DIRECTIONS[j - 1]);
      forall t | 0 <= t < |ray|
        ensures exists i, k :: 0 <= i < j && 1 <= k <= UPDATE_DIST && ray[t] == Step(rr, cc, DIRECTIONS[i].0, DIRECTIONS[i].1, k)
      {
        assert ray[t] == Step(rr, cc, DIRECTIONS[j - 1].0, DIRECTIONS[j - 1].1, t + 1);
      }
    }
  }

  lemma RaysInBounds(n: nat, rr: int, cc: int)
    ensures forall i :: 0 <= i < |Rays(n, rr, cc)| ==> Rays(n, rr, cc)[i] in AllCells(n)
  {
    RaysUpToShape(n, rr, cc, |DIRECTIONS|);
    forall i | 0 <= i < |Rays(n, rr, cc)|
      ensures Rays(n, rr, cc)[i] in AllCells(n)
    {
      InAllCells(n, Rays(n, rr, cc)[i]);
    }
  }

  lemma DirectionsShape()
    ensures forall i :: 0 <= i < |DIRECTIONS| ==> IsUnit(DIRECTIONS[i])
    ensures forall i, j :: 0 <= i < j < |DIRECTIONS| ==> DIRECTIONS[i] != DIRECTIONS[j]
  {
  }

  /** A new ray shares no cell with the rays before it, and none of them is
      the move's own cell. */
  lemma RayFresh(n: nat, rr: int, cc: int, j: nat)
    requires j < |DIRECTIONS|
    ensures forall t :: 0 <= t < |Ray(n, rr, cc, DIRECTIONS[j])| ==>
      Ray(n, rr, cc, DIRECTIONS[j])[t] !in RaysUpTo(n, rr, cc, j) && Ray(n, rr, cc, DIRECTIONS[j])[t] != (rr, cc)
  {
    RaysUpToShape(n, rr, cc, j);
    RayShape(n, rr, cc, DIRECTIONS[j]);
    DirectionsShape();
    var d := DIRECTIONS[j];
    var ray := Ray(n, rr, cc, d);
    var before := RaysUpTo(n, rr, cc, j);
    forall t | 0 <= t < |ray|
      ensures ray[t] !in before && ray[t] != (rr, cc)
    {
      var x := ray[t];
      assert x == Step(rr, cc, d.0, d.1, t + 1);
      if x in before {
        var i, k :| 0 <= i < j && 1 <= k <= UPDATE_DIST && x == Step(rr, cc, DIRECTIONS[i].0, DIRECTIONS[i].1, k);
        StepInjective(rr, cc, DIRECTIONS[i], d, k, t + 1);
        assert false;
      }
    }
  }

  /** One step of the ray loop: the next cell is the ray's next element and
      is not among the cells already visited. */
  lemma RayNext(n: nat, rr: int, cc: int, d: Cell, moved: nat, done: seq<Cell>)
    requires IsUnit(d) && 1 <= moved && done + RayFrom(n, rr, cc, d, moved) == Ray(n, rr, cc, d)
    requires moved <= UPDATE_DIST && CellInBounds(n, Step(rr, cc, d.0, d.1, moved))
    ensures Step(rr, cc, d.0, d.1, moved) !in done
    ensures (done + [Step(rr, cc, d.0, d.1, moved)]) + RayFrom(n, rr, cc, d, moved + 1) == Ray(n, rr, cc, d)
  {
    var ray := Ray(n, rr, cc, d);
    var x := Step(rr, cc, d.0, d.1, moved);
    assert ray == (done + [x]) + RayFrom(n, rr, cc, d, moved + 1);
    RayDistinct(n, rr, cc, d);
    forall i | 0 <= i < |done|
      ensures done[i] != x
    {
      assert ray[i] == done[i] && ray[|done|] == x;
    }
  }

  /** A ray visits distinct cells. */
  lemma RayDistinct(n: nat, rr: int, cc: int, d: Cell)
    requires IsUnit(d)
    ensures Distinct(Ray(n, rr, cc, d))
  {
    RayShape(n, rr, cc, d);
    forall i, j | 0 <= i < j < |Ray(n, rr, cc, d)|
      ensures Ray(n, rr, cc, d)[i] != Ray(n, rr, cc, d)[j]
    {
      if Ray(n, rr, cc, d)[i] == Ray(n, rr, cc, d)[j] {
        StepInjective(rr, cc, d, d, i + 1, j + 1);
      }
    }
  }

  lemma {:induction false} RaysUpToDistinct(n: nat, rr: int, cc: int, j: nat)
    requires j <= |DIRECTIONS|
    ensures Distinct(RaysUpTo(n, rr, cc, j)) && (rr, cc) !in RaysUpTo(n, rr, cc, j)
  {
    if j > 0 {
      RaysUpToDistinct(n, rr, cc, j - 1);
      RayFresh(n, rr, cc, j - 1);
      RayDistinct(n, rr, cc, DIRECTIONS[j - 1]);
      var a, b := RaysUpTo(n, rr, cc, j - 1), Ray(n, rr, cc, DIRECTIONS[j - 1]);
      forall i, k | 0 <= i < k < |a + b|
        ensures (a + b)[i] != (a + b)[k]
      {
        if i >= |a| {
          assert (a + b)[i] == b[i - |a|] && (a + b)[k] == b[k - |a|];
        } else if k >= |a| {
          assert (a + b)[k] == b[k - |a|] && (a + b)[i] == a[i];
        }
      }
    }
  }

  /** The undo log of updateMoveScoresAfterMove: the move's own cell first,
      then distinct board cells, each one to four steps away along one of the
      eight rays, so at most 33 entries in all. */
  lemma MoveLogShape(keys: map<Cell, real>, n: nat, rr: int, cc: int)
    requires InBounds(n, rr, cc) && keys.Keys == AllCells(n)
    ensures var log := MoveLog(keys, n, rr, cc);
      1 <= |log| <= 1 + UPDATE_DIST * |DIRECTIONS| &&
      EntryCell(log[0]) == (rr, cc) && log[0].oldScore == keys[(rr, cc)] &&
      (forall i, j :: 0 <= i < j < |log| ==> EntryCell(log[i]) != EntryCell(log[j])) &&
      (forall i :: 0 <= i < |log| ==> CellInBounds(n, EntryCell(log[i])) && log[i].oldScore == keys[EntryCell(log[i])]) &&
      (forall i :: 1 <= i < |log| ==> 1 <= Cheb(EntryCell(log[i]), (rr, cc)) <= UPDATE_DIST)
  {
    MoveLogKeys(keys, n, rr, cc);
    MoveLogDistinct(keys, n, rr, cc);
    MoveLogNear(keys, n, rr, cc);
  }

  lemma MoveLogDistinct(keys: map<Cell, real>, n: nat, rr: int, cc: int)
    requires InBounds(n, rr, cc) && keys.Keys == AllCells(n)
    ensures var log := MoveLog(keys, n, rr, cc);
      1 <= |log| <= 1 + UPDATE_DIST * |DIRECTIONS| && EntryCell(log[0]) == (rr, cc) &&
      forall i, j :: 0 <= i < j < |log| ==> EntryCell(log[i]) != EntryCell(log[j])
  {
    var log := MoveLog(keys, n, rr, cc);
    var cells := Rays(n, rr, cc);
    RaysUpToShape(n, rr, cc, |DIRECTIONS|);
    RaysUpToDistinct(n, rr, cc, |DIRECTIONS|);
    assert forall i :: 1 <= i < |log| ==> EntryCell(log[i]) == cells[i - 1];
    forall i, j | 0 <= i < j < |log|
      ensures EntryCell(log[i]) != EntryCell(log[j])
    {
      if i > 0 {
        assert cells[i - 1] != cells[j - 1];
      } else {
        assert cells[j - 1] in cells;
      }
    }
  }

  lemma MoveLogNear(keys: map<Cell, real>, n: nat, rr: int, cc: int)
    requires InBounds(n, rr, cc) && keys.Keys == AllCells(n)
    ensures var log := MoveLog(keys, n, rr, cc);
      (forall i :: 0 <= i < |log| ==> CellInBounds(n, EntryCell(log[i]))) &&
      (forall i :: 1 <= i < |log| ==> 1 <= Cheb(EntryCell(log[i]), (rr, cc)) <= UPDATE_DIST)
  {
    var log := MoveLog(keys, n, rr, cc);
    var cells := Rays(n, rr, cc);
    RaysNear(n, rr, cc);
    assert forall i :: 1 <= i < |log| ==> EntryCell(log[i]) == cells[i - 1];
    forall i | 1 <= i < |log|
      ensures CellInBounds(n, EntryCell(log[i])) && 1 <= Cheb(EntryCell(log[i]), (rr, cc)) <= UPDATE_DIST
    {
      assert cells[i - 1] in cells;
    }
  }

  /** Every star cell is on the board, one to UPDATE_DIST king moves away. */
  lemma RaysNear(n: nat, rr: int, cc: int)
    ensures forall x :: x in Rays(n, rr, cc) ==> CellInBounds(n, x) && 1 <= Cheb(x, (rr, cc)) <= UPDATE_DIST
  {
    RaysUpToShape(n, rr, cc, |DIRECTIONS|);
    DirectionsShape();
    forall x | x in Rays(n, rr, cc)
      ensures 1 <= Cheb(x, (rr, cc)) <= UPDATE_DIST
    {
      var i, k :| 0 <= i < |DIRECTIONS| && 1 <= k <= UPDATE_DIST && x == Step(rr, cc, DIRECTIONS[i].0, DIRECTIONS[i].1, k);
      StepCheb(rr, cc, DIRECTIONS[i], k);
    }
  }

  lemma StepCheb(rr: int, cc: int, d: Cell, k: nat)
    requires IsUnit(d) && 1 <= k
    ensures Cheb(Step(rr, cc, d.0, d.1, k), (rr, cc)) == k
  {
  }

  // ---------------------------------------------------------------------
  // Apply then revert.
  // ---------------------------------------------------------------------

  predicate InLog(log: seq<LogEntry>, x: Cell) {
    exists i :: 0 <= i < |log| && EntryCell(log[i]) == x
  }

  /** Replaying a log whose entries all carry the keys of `target` gives
      `target` on every logged cell and leaves every other cell alone. */
  lemma {:induction false} RevertKeysFrom(keys: map<Cell, real>, target: map<Cell, real>, log: seq<LogEntry>)
    requires forall i :: 0 <= i < |log| ==> EntryCell(log[i]) in target && log[i].oldScore == target[EntryCell(log[i])]
    ensures forall x :: x in RevertKeys(keys, log) <==> x in keys || InLog(log, x)
    ensures forall x :: x in RevertKeys(keys, log) ==>
      RevertKeys(keys, log)[x] == if InLog(log, x) then target[x] else keys[x]
    decreases |log|
  {
    if |log| > 0 {
      var front := log[..|log| - 1];
      RevertKeysFrom(keys, target, front);
      forall x
        ensures InLog(log, x) <==> InLog(front, x) || x == EntryCell(log[|log| - 1])
      {
        if InLog(log, x) && x != EntryCell(log[|log| - 1]) {
          var i :| 0 <= i < |log| && EntryCell(log[i]) == x;
          assert EntryCell(front[i]) == x;
        }
        if InLog(front, x) {
          var i :| 0 <= i < |front| && EntryCell(front[i]) == x;
          assert EntryCell(log[i]) == x;
        }
      }
    }
  }

  /** The apply/revert round trip of the score index: re-keying the star
      after a move at (rr, cc) and erasing that cell's node, then replaying
      the undo log, gives back every key and the tree's membership, whatever
      the board and the fresh scores the re-evaluation saw. */
  lemma IndexRoundTrip(keys: map<Cell, real>, members: set<Cell>, g: Grid, scores: map<Cell, real>, n: nat, rr: int, cc: int)
    requires InBounds(n, rr, cc)
    requires keys.Keys == AllCells(n) && (rr, cc) in members
    ensures RevertKeys(Rekeyed(keys, g, scores, Rays(n, rr, cc)), MoveLog(keys, n, rr, cc)) == keys
    ensures RevertMembers(members - {(rr, cc)}, MoveLog(keys, n, rr, cc)) == members
  {
    KeysRoundTrip(keys, g, scores, n, rr, cc);
    assert MoveLog(keys, n, rr, cc)[0] == LogEntry(rr, cc, keys[(rr, cc)]);
  }

  lemma KeysRoundTrip(keys: map<Cell, real>, g: Grid, scores: map<Cell, real>, n: nat, rr: int, cc: int)
    requires InBounds(n, rr, cc) && keys.Keys == AllCells(n)
    ensures RevertKeys(Rekeyed(keys, g, scores, Rays(n, rr, cc)), MoveLog(keys, n, rr, cc)) == keys
  {
    var log := MoveLog(keys, n, rr, cc);
    var cells := Rays(n, rr, cc);
    MoveLogKeys(keys, n, rr, cc);
    forall x | x in keys && !InLog(log, x)
      ensures Rekeyed(keys, g, scores, cells)[x] == keys[x]
    {
      OffLogUntouched(keys, g, scores, n, rr, cc, x);
    }
    RevertExact(Rekeyed(keys, g, scores, cells), keys, log);
  }

  /** Every entry of the undo log carries the key its cell had. */
  lemma MoveLogKeys(keys: map<Cell, real>, n: nat, rr: int, cc: int)
    requires InBounds(n, rr, cc) && keys.Keys == AllCells(n)
    ensures forall i :: 0 <= i < |MoveLog(keys, n, rr, cc)| ==>
      EntryCell(MoveLog(keys, n, rr, cc)[i]) in keys &&
      MoveLog(keys, n, rr, cc)[i].oldScore == keys[EntryCell(MoveLog(keys, n, rr, cc)[i])]
  {
    var log := MoveLog(keys, n, rr, cc);
    var cells := Rays(n, rr, cc);
    RaysInBounds(n, rr, cc);
    InAllCells(n, (rr, cc));
    assert forall i :: 0 <= i < |cells| ==> EntryCell(log[i + 1]) == cells[i] && log[i + 1].oldScore == keys[cells[i]];
  }

  /** Replaying a log that carries the keys of `keys` onto a map that differs
      from `keys` only on logged cells gives back `keys`. */
  lemma RevertExact(after: map<Cell, real>, keys: map<Cell, real>, log: seq<LogEntry>)
    requires forall i :: 0 <= i < |log| ==> EntryCell(log[i]) in keys && log[i].oldScore == keys[EntryCell(log[i])]
    requires after.Keys == keys.Keys
    requires forall x :: x in keys && !InLog(log, x) ==> after[x] == keys[x]
    ensures RevertKeys(after, log) == keys
  {
    RevertKeysFrom(after, keys, log);
  }

  /** A cell that is not in the undo log keeps its key. */
  lemma OffLogUntouched(keys: map<Cell, real>, g: Grid, scores: map<Cell, real>, n: nat, rr: int, cc: int, x: Cell)
    requires InBounds(n, rr, cc)
    requires keys.Keys == AllCells(n) && x in keys && !InLog(MoveLog(keys, n, rr, cc), x)
    ensures Rekeyed(keys, g, scores, Rays(n, rr, cc))[x] == keys[x]
  {
    var cells := Rays(n, rr, cc);
    var log := MoveLog(keys, n, rr, cc);
    forall i | 0 <= i < |cells|
      ensures cells[i] != x
    {
      assert EntryCell(log[i + 1]) == cells[i];
    }
  }

  // ---------------------------------------------------------------------
  // The agent.
  // ---------------------------------------------------------------------

  class Agent {
    const board: Board
    const player: int
    const otherPlayer: int
    const linking: LinkingEvaluation
    const blocking: BlockingEvaluation
    /** locationNodeMap[r][c].key for every cell. */
    var nodeKeys: map<Cell, real>
    /** The cells whose node is in the moveScores tree. */
    var moveScores: set<Cell>

    /** The agent can evaluate moves: the board is square and small enough
        for the SPACE table, and both evaluators belong to this player. */
    ghost predicate Ready()
      reads this, board, linking, blocking
    {
      board.Valid() && board.size <= SPACE_MAX && IsPlayer(player) && otherPlayer == NextPlayer(player) &&
      linking.Valid() && blocking.Valid() &&
      linking.player == player && linking.otherPlayer == otherPlayer &&
      blocking.player == player && blocking.otherPlayer == otherPlayer
    }

    /** Ready, and the index has a node for every cell. */
    ghost predicate Valid()
      reads this, board, linking, blocking
    {
      Ready() && nodeKeys.Keys == AllCells(board.size) && moveScores <= AllCells(board.size)
    }

    constructor (board: Board, player: int)
      requires board.Valid() && board.size <= SPACE_MAX && IsPlayer(player)
      ensures this.board == board && this.player == player && otherPlayer == NextPlayer(player)
      ensures Valid() && fresh(linking) && fresh(blocking)
      ensures nodeKeys == Scores(board.cells, board.size, player)
      ensures moveScores == EmptyCells(board.cells, board.size)
    {
      this.board := board;
      this.player := player;
      otherPlayer := NextPlayer(player);
      nodeKeys := map[];
      moveScores := {};
      linking := new LinkingEvaluation(player, NextPlayer(player));
      blocking := new BlockingEvaluation(player, NextPlayer(player));
      new;
      InitMoveScores();
    }

    /** initMoveScores: a node keyed by evaluateMove for every cell, with the
        nodes of occupied cells taken out of the tree again. */
    method InitMoveScores()
      requires Ready()
      modifies this, linking, blocking
      ensures Valid()
      ensures nodeKeys == Scores(board.cells, board.size, player)
      ensures moveScores == EmptyCells(board.cells, board.size)
    {
      var n := board.size;
      nodeKeys := map[];
      moveScores := {};
      CellsBeforeEnds(n);
      ghost var scores := Scores(board.cells, n, player);
      var r := 0;
      while r < n
        invariant 0 <= r <= n && Ready()
        invariant nodeKeys.Keys == CellsBefore(n, r, 0) && SubMap(nodeKeys, scores)
        invariant moveScores == EmptyAmong(board.cells, nodeKeys.Keys)
      {
        var c := 0;
        while c < n
          invariant 0 <= c <= n && Ready()
          invariant nodeKeys.Keys == CellsBefore(n, r, c) && SubMap(nodeKeys, scores)
          invariant moveScores == EmptyAmong(board.cells, nodeKeys.Keys)
        {
          ScoresAt(board.cells, n, player, (r, c));
          InitCell(r, c, scores);
          c := c + 1;
        }
        CellsBeforeRow(n, r);
        r := r + 1;
      }
      ScoresKeys(board.cells, n, player);
      SubMapAll(nodeKeys, scores);
    }

    /** One step of initMoveScores: key the node of (r, c) and keep it as a
        move only while the cell is empty. */
    method InitCell(r: int, c: int, ghost scores: map<Cell, real>)
      requires Ready() && InBounds(board.size, r, c)
      requires (r, c) in scores && scores[(r, c)] == MoveScore(board.cells, board.size, player, r, c)
      requires nodeKeys.Keys == CellsBefore(board.size, r, c) && SubMap(nodeKeys, scores)
      requires moveScores == EmptyAmong(board.cells, nodeKeys.Keys)
      modifies this, linking, blocking
      ensures Ready()
      ensures nodeKeys.Keys == CellsBefore(board.size, r, c + 1) && SubMap(nodeKeys, scores)
      ensures moveScores == EmptyAmong(board.cells, nodeKeys.Keys)
    {
      var key := EvaluateMove(r, c);
      CellsBeforeNext(board.size, r, c);
      EmptyAmongAdd(board.cells, nodeKeys.Keys, (r, c));
      nodeKeys := nodeKeys[(r, c) := key];
      moveScores := moveScores + {(r, c)};
      // not empty means already placed, so it cannot be played
      if board.cells[r][c] != EMPTY {
        moveScores := moveScores - {(r, c)};
      }
    }

    /** evaluateMove(rr, cc): the four axis scans, summed. */
    method EvaluateMove(rr: int, cc: int) returns (score: real)
      requires Ready() && InBounds(board.size, rr, cc)
      modifies linking, blocking
      ensures Ready()
      ensures score == MoveScore(board.cells, board.size, player, rr, cc)
    {
      score := 0.0;
      var s := ScanAxis(rr, cc, ROW);
      score := score + s;
      s := ScanAxis(rr, cc, COLUMN);
      score := score + s;
      s := ScanAxis(rr, cc, FORWARD_DIAGONAL);
      score := score + s;
      s := ScanAxis(rr, cc, BACKWARD_DIAGONAL);
      score := score + s;
    }

    /** The two evaluators' scan states. */
    ghost function Current(): Evals
      reads linking, blocking
      requires |linking.space| == 2 && |blocking.space| == 2
    {
      Evals(linking.Scan(), blocking.Scan())
    }

    /** evalConsume: feed one piece to both evaluators. */
    method EvalConsume(piece: int, direction: int)
      requires Ready() && IsDirection(direction)
      modifies linking, blocking
      ensures Ready()
      ensures Current() == ConsumeBoth(old(Current()), piece, direction, player)
    {
      linking.ConsumePiece(piece, direction);
      blocking.ConsumePiece(piece, direction);
    }

    /** The body of the axis loop: the LEFT cell, then the RIGHT cell, each
        only while it is on the board. */
    method ScanStep(rr: int, cc: int, a: Cell, moved: nat)
      requires Ready() && 1 <= moved && SpacesBelow(Current(), moved)
      modifies linking, blocking
      ensures Ready()
      ensures Current() == AxisStep(board.cells, board.size, player, rr, cc, a, moved, old(Current()))
    {
      var n := board.size;
      var L := LeftCell(rr, cc, a, moved);
      var R := RightCell(rr, cc, a, moved);
      if CellInBounds(n, L) {
        EvalConsume(board.cells[L.0][L.1], LEFT);
      }
      if CellInBounds(n, R) {
        EvalConsume(board.cells[R.0][R.1], RIGHT);
      }
    }

    /** One round of the axis loop: stop when both sides are off the board
        or both evaluators have stopped, otherwise feed the two cells. */
    method ScanRound(rr: int, cc: int, a: Cell, moved: nat) returns (stop: bool)
      requires Ready() && InBounds(board.size, rr, cc) && IsAxis(a) && 1 <= moved <= board.size
      requires SpacesBelow(Current(), moved)
      modifies linking, blocking
      ensures Ready()
      ensures stop ==> (Current() == old(Current()) &&
        AxisRun(board.cells, board.size, player, rr, cc, a, moved, Current()) == Current())
      ensures !stop ==> (moved < board.size && SpacesBelow(Current(), moved + 1) &&
        AxisRun(board.cells, board.size, player, rr, cc, a, moved, old(Current())) ==
        AxisRun(board.cells, board.size, player, rr, cc, a, moved + 1, Current()))
    {
      var n := board.size;
      var L := LeftCell(rr, cc, a, moved);
      var R := RightCell(rr, cc, a, moved);
      var gol := CellInBounds(n, L);
      var gor := CellInBounds(n, R);
      if (!gol && !gor) || (linking.stopped && blocking.stopped) {
        return true;
      }
      AxisRunNext(board.cells, n, player, rr, cc, a, moved, Current());
      ScanStep(rr, cc, a, moved);
      return false;
    }

    /** The axis loop: start both evaluators and feed them the cells at
        growing distance on the LEFT and RIGHT sides until both sides are off
        the board or both evaluators have stopped. */
    method RunAxis(rr: int, cc: int, a: Cell)
      requires Ready() && InBounds(board.size, rr, cc) && IsAxis(a)
      modifies linking, blocking
      ensures Ready()
      ensures Current() == AxisEvals(board.cells, board.size, player, rr, cc, a)
    {
      var n := board.size;
      linking.Start();
      blocking.Start();
      var moved := 1;
      while true
        invariant Ready() && 1 <= moved <= n
        invariant SpacesBelow(Current(), moved)
        invariant AxisRun(board.cells, n, player, rr, cc, a, moved, Current()) == AxisEvals(board.cells, n, player, rr, cc, a)
        decreases n - moved
      {
        var stop := ScanRound(rr, cc, a, moved);
        if stop {
          break;
        }
        moved := moved + 1;
      }
    }

    /** One axis of evaluateMove: the axis loop, then the linking plus the
        blocking score. */
    method ScanAxis(rr: int, cc: int, a: Cell) returns (axisScore: real)
      requires Ready() && InBounds(board.size, rr, cc) && IsAxis(a)
      modifies linking, blocking
      ensures Ready()
      ensures axisScore == AxisScore(board.cells, board.size, player, rr, cc, a)
    {
      RunAxis(rr, cc, a);
      var l := linking.GetScore();
      var b := blocking.GetScore();
      axisScore := l + b;
    }

    /** updateMove(r, c): re-evaluate a cell, re-keying its node only while
        the cell is still a potential move; the entry records the old key. */
    method UpdateMove(r: int, c: int) returns (entry: LogEntry)
      requires Valid() && InBounds(board.size, r, c)
      modifies this, linking, blocking
      ensures Valid() && moveScores == old(moveScores)
      ensures entry == LogEntry(r, c, old(nodeKeys)[(r, c)])
      ensures nodeKeys == if board.cells[r][c] == EMPTY then old(nodeKeys)[(r, c) := MoveScore(board.cells, board.size, player, r, c)] else old(nodeKeys)
    {
      InAllCells(board.size, (r, c));
      var oldScore := nodeKeys[(r, c)];
      var newValue := EvaluateMove(r, c);
      // still a potential move
      if board.cells[r][c] == EMPTY {
        nodeKeys := nodeKeys[(r, c) := newValue];
      }
      entry := LogEntry(r, c, oldScore);
    }

    /** updateMove on a cell the current move has not re-keyed yet: its log
        entry holds the key from before the move. */
    method UpdateAfter(x: Cell, ghost base: map<Cell, real>, ghost done: seq<Cell>, ghost scores: map<Cell, real>,
                       entries: seq<LogEntry>) returns (entries': seq<LogEntry>)
      requires Valid() && CellInBounds(board.size, x) && x !in done
      requires Keyed(done, base)
      requires x in scores && scores[x] == MoveScore(board.cells, board.size, player, x.0, x.1)
      requires nodeKeys == Rekeyed(base, board.cells, scores, done) && entries == Entries(base, done)
      modifies this, linking, blocking
      ensures Valid() && moveScores == old(moveScores)
      ensures Keyed(done + [x], base)
      ensures entries' == Entries(base, done + [x])
      ensures nodeKeys == Rekeyed(base, board.cells, scores, done + [x])
    {
      InAllCells(board.size, x);
      RekeyedOne(nodeKeys, board.cells, scores, x);
      RekeyedThen(base, board.cells, scores, done, [x]);
      var entry := UpdateMove(x.0, x.1);
      entries' := entries + [entry];
      assert (done + [x])[..|done + [x]| - 1] == done;
    }

    /** One of the eight loops of updateMoveScoresAfterMove: the cells one to
        UPDATE_DIST steps away in direction d, while on the board. */
    method UpdateRay(rr: int, cc: int, d: Cell, ghost scores: map<Cell, real>) returns (entries: seq<LogEntry>)
      requires Valid() && InBounds(board.size, rr, cc) && IsUnit(d)
      requires ScoresOn(scores, board.cells, board.size, player, Ray(board.size, rr, cc, d))
      modifies this, linking, blocking
      ensures Valid() && moveScores == old(moveScores)
      ensures Keyed(Ray(board.size, rr, cc, d), old(nodeKeys))
      ensures entries == Entries(old(nodeKeys), Ray(board.size, rr, cc, d))
      ensures nodeKeys == Rekeyed(old(nodeKeys), board.cells, scores, Ray(board.size, rr, cc, d))
    {
      var n := board.size;
      ghost var ray := Ray(n, rr, cc, d);
      entries := [];
      ghost var done: seq<Cell> := [];
      var moved := 1;
      while moved <= UPDATE_DIST && CellInBounds(n, Step(rr, cc, d.0, d.1, moved))
        invariant Valid() && moveScores == old(moveScores)
        invariant 1 <= moved && done + RayFrom(n, rr, cc, d, moved) == ray
        invariant Keyed(done, old(nodeKeys))
        invariant entries == Entries(old(nodeKeys), done)
        invariant nodeKeys == Rekeyed(old(nodeKeys), board.cells, scores, done)
        decreases UPDATE_DIST + 1 - moved
      {
        var x := Step(rr, cc, d.0, d.1, moved);
        RayNext(n, rr, cc, d, moved, done);
        assert ray[|done|] == x;
        entries := UpdateAfter(x, old(nodeKeys), done, scores, entries);
        done := done + [x];
        moved := moved + 1;
      }
      assert done == ray;
    }

    /** The loop of updateMoveScoresAfterMove for the j-th direction, with
        its entries appended to the log. */
    method UpdateDirection(rr: int, cc: int, j: nat, ghost base: map<Cell, real>, ghost scores: map<Cell, real>,
                           ghost prefix: seq<LogEntry>, log: seq<LogEntry>) returns (log': seq<LogEntry>)
      requires Valid() && InBounds(board.size, rr, cc) && j < |DIRECTIONS|
      requires base.Keys == AllCells(board.size) && IsUnit(DIRECTIONS[j])
      requires ScoresOn(scores, board.cells, board.size, player, Ray(board.size, rr, cc, DIRECTIONS[j]))
      requires Keyed(RaysUpTo(board.size, rr, cc, j), base)
      requires log == prefix + Entries(base, RaysUpTo(board.size, rr, cc, j))
      requires nodeKeys == Rekeyed(base, board.cells, scores, RaysUpTo(board.size, rr, cc, j))
      modifies this, linking, blocking
      ensures Valid() && moveScores == old(moveScores)
      ensures Keyed(RaysUpTo(board.size, rr, cc, j + 1), base)
      ensures log' == prefix + Entries(base, RaysUpTo(board.size, rr, cc, j + 1))
      ensures nodeKeys == Rekeyed(base, board.cells, scores, RaysUpTo(board.size, rr, cc, j + 1))
    {
      var n := board.size;
      StarRekeyed(base, board.cells, scores, n, rr, cc, j);
      var entries := UpdateRay(rr, cc, DIRECTIONS[j], scores);
      log' := log + entries;
      LogStep(base, board.cells, scores, n, rr, cc, j, prefix, log, entries);
    }

    /** The eight loops of updateMoveScoresAfterMove, appending to the log. */
    method UpdateStar(rr: int, cc: int, ghost scores: map<Cell, real>, log: seq<LogEntry>) returns (log': seq<LogEntry>)
      requires Valid() && InBounds(board.size, rr, cc) && scores == Scores(board.cells, board.size, player)
      modifies this, linking, blocking
      ensures Valid() && moveScores == old(moveScores)
      ensures Keyed(RaysUpTo(board.size, rr, cc, |DIRECTIONS|), old(nodeKeys))
      ensures log' == log + Entries(old(nodeKeys), RaysUpTo(board.size, rr, cc, |DIRECTIONS|))
      ensures nodeKeys == Rekeyed(old(nodeKeys), board.cells, scores, RaysUpTo(board.size, rr, cc, |DIRECTIONS|))
    {
      var n := board.size;
      log' := log;
      RaysUpToKeys(nodeKeys, n, rr, cc, 0);
      RekeyedNone(nodeKeys, board.cells, scores);
      assert log' == log + Entries(nodeKeys, RaysUpTo(n, rr, cc, 0));
      var j := 0;
      while j < |DIRECTIONS|
        invariant 0 <= j <= |DIRECTIONS| && Valid() && moveScores == old(moveScores)
        invariant Keyed(RaysUpTo(n, rr, cc, j), old(nodeKeys))
        invariant log' == log + Entries(old(nodeKeys), RaysUpTo(n, rr, cc, j))
        invariant nodeKeys == Rekeyed(old(nodeKeys), board.cells, scores, RaysUpTo(n, rr, cc, j))
      {
        StarScores(board.cells, n, player, rr, cc, j);
        log' := UpdateDirection(rr, cc, j, old(nodeKeys), scores, log, log');
        j := j + 1;
      }
    }

    /** updateMoveScoresAfterMove(rr, cc): log and erase the move's own node,
        then re-evaluate the star around it; the log lets the change be
        undone. */
    method UpdateMoveScoresAfterMove(rr: int, cc: int) returns (changedScores: seq<LogEntry>)
      requires Valid() && InBounds(board.size, rr, cc)
      modifies this, linking, blocking
      ensures Valid()
      ensures changedScores == MoveLog(old(nodeKeys), board.size, rr, cc)
      ensures nodeKeys == Rekeyed(old(nodeKeys), board.cells, Scores(board.cells, board.size, player), Rays(board.size, rr, cc))
      ensures moveScores == old(moveScores) - {(rr, cc)}
    {
      InAllCells(board.size, (rr, cc));
      // the first entry is always the move itself; it is restored by reinsertion
      changedScores := [LogEntry(rr, cc, nodeKeys[(rr, cc)])];
      // the move has been made, so it cannot be made any more
      moveScores := moveScores - {(rr, cc)};
      changedScores := UpdateStar(rr, cc, Scores(board.cells, board.size, player), changedScores);
    }

    /** revertMoveScores(oldScores): put every logged key back, reinserting
        the first node into the tree. */
    method RevertMoveScores(oldScores: seq<LogEntry>)
      requires Valid() && forall i :: 0 <= i < |oldScores| ==> CellInBounds(board.size, EntryCell(oldScores[i]))
      modifies this
      ensures Valid()
      ensures nodeKeys == RevertKeys(old(nodeKeys), oldScores)
      ensures moveScores == RevertMembers(old(moveScores), oldScores)
    {
      var i := 0;
      while i < |oldScores|
        invariant 0 <= i <= |oldScores| && Valid()
        invariant nodeKeys == RevertKeys(old(nodeKeys), oldScores[..i])
        invariant moveScores == RevertMembers(old(moveScores), oldScores[..i])
      {
        var LogEntry(r, c, oldScore) := oldScores[i];
        InAllCells(board.size, (r, c));
        if i == 0 {
          // the original move, which was removed and is reinserted
          nodeKeys := nodeKeys[(r, c) := oldScore];
          moveScores := moveScores + {(r, c)};
        } else if board.cells[r][c] == EMPTY {
          // still an available move
          nodeKeys := nodeKeys[(r, c) := oldScore];
        } else {
          // an already placed piece
          nodeKeys := nodeKeys[(r, c) := oldScore];
        }
        assert oldScores[..i + 1][..i] == oldScores[..i];
        i := i + 1;
      }
      assert oldScores[..i] == oldScores;
    }
  }

  lemma {:induction false} RaysUpToKeys(keys: map<Cell, real>, n: nat, rr: int, cc: int, j: nat)
    requires j <= |DIRECTIONS| && keys.Keys == AllCells(n)
    ensures Keyed(RaysUpTo(n, rr, cc, j), keys)
  {
    RaysUpToShape(n, rr, cc, j);
    forall i | 0 <= i < |RaysUpTo(n, rr, cc, j)|
      ensures RaysUpTo(n, rr, cc, j)[i] in keys
    {
      InAllCells(n, RaysUpTo(n, rr, cc, j)[i]);
    }
  }

  /** One ray of the star: re-keying the first j rays and then the next is
      re-keying the first j + 1. */
  lemma StarRekeyed(keys: map<Cell, real>, g: Grid, scores: map<Cell, real>, n: nat, rr: int, cc: int, j: nat)
    requires j < |DIRECTIONS|
    ensures Rekeyed(Rekeyed(keys, g, scores, RaysUpTo(n, rr, cc, j)), g, scores, Ray(n, rr, cc, DIRECTIONS[j]))
         == Rekeyed(keys, g, scores, RaysUpTo(n, rr, cc, j + 1))
  {
    RekeyedThen(keys, g, scores, RaysUpTo(n, rr, cc, j), Ray(n, rr, cc, DIRECTIONS[j]));
  }

  /** One ray of the star: logging the first j rays and then the next, after
      the first j have been re-keyed, is logging the first j + 1. */
  lemma StarEntries(keys: map<Cell, real>, g: Grid, scores: map<Cell, real>, n: nat, rr: int, cc: int, j: nat)
    requires j < |DIRECTIONS| && keys.Keys == AllCells(n)
    ensures Keyed(RaysUpTo(n, rr, cc, j + 1), keys)
    ensures Keyed(RaysUpTo(n, rr, cc, j), keys)
    ensures Keyed(Ray(n, rr, cc, DIRECTIONS[j]), Rekeyed(keys, g, scores, RaysUpTo(n, rr, cc, j)))
    ensures Entries(keys, RaysUpTo(n, rr, cc, j)) + Entries(Rekeyed(keys, g, scores, RaysUpTo(n, rr, cc, j)), Ray(n, rr, cc, DIRECTIONS[j]))
         == Entries(keys, RaysUpTo(n, rr, cc, j + 1))
  {
    RaysUpToKeys(keys, n, rr, cc, j + 1);
    var a, b := RaysUpTo(n, rr, cc, j), Ray(n, rr, cc, DIRECTIONS[j]);
    assert RaysUpTo(n, rr, cc, j + 1) == a + b;
    KeyedSplit(a, b, keys);
    RayFresh(n, rr, cc, j);
    EntriesAppend(keys, g, scores, a, b);
  }

  lemma KeyedSplit(a: seq<Cell>, b: seq<Cell>, keys: map<Cell, real>)
    requires Keyed(a + b, keys)
    ensures Keyed(a, keys) && Keyed(b, keys)
  {
    assert forall i :: 0 <= i < |b| ==> b[i] == (a + b)[|a| + i];
    assert forall i :: 0 <= i < |a| ==> a[i] == (a + b)[i];
  }

  /** Logging some cells, re-keying them, then logging further cells is
      logging all of them. */
  lemma EntriesAppend(keys: map<Cell, real>, g: Grid, scores: map<Cell, real>, a: seq<Cell>, b: seq<Cell>)
    requires Keyed(a, keys) && Keyed(b, keys)
    requires forall i :: 0 <= i < |b| ==> b[i] !in a
    ensures Keyed(a + b, keys) && Keyed(b, Rekeyed(keys, g, scores, a))
    ensures Entries(keys, a) + Entries(Rekeyed(keys, g, scores, a), b) == Entries(keys, a + b)
  {
    EntriesUntouched(keys, g, scores, a, b);
    EntriesConcat(keys, a, b);
  }

  /** Appending the j-th ray's entries to the log of the first j rays. */
  lemma LogStep(keys: map<Cell, real>, g: Grid, scores: map<Cell, real>, n: nat, rr: int, cc: int, j: nat,
                prefix: seq<LogEntry>, log: seq<LogEntry>, entries: seq<LogEntry>)
    requires j < |DIRECTIONS| && keys.Keys == AllCells(n)
    requires Keyed(RaysUpTo(n, rr, cc, j), keys)
    requires Keyed(Ray(n, rr, cc, DIRECTIONS[j]), Rekeyed(keys, g, scores, RaysUpTo(n, rr, cc, j)))
    requires log == prefix + Entries(keys, RaysUpTo(n, rr, cc, j))
    requires entries == Entries(Rekeyed(keys, g, scores, RaysUpTo(n, rr, cc, j)), Ray(n, rr, cc, DIRECTIONS[j]))
    ensures Keyed(RaysUpTo(n, rr, cc, j + 1), keys)
    ensures log + entries == prefix + Entries(keys, RaysUpTo(n, rr, cc, j + 1))
  {
    StarEntries(keys, g, scores, n, rr, cc, j);
    AppendAssoc(prefix, Entries(keys, RaysUpTo(n, rr, cc, j)), entries,
                Entries(keys, RaysUpTo(n, rr, cc, j + 1)));
  }

  lemma AppendAssoc<T>(first: seq<T>, prior: seq<T>, entries: seq<T>, whole: seq<T>)
    requires prior + entries == whole
    ensures (first + prior) + entries == first + whole
  {
  }

  lemma RekeyedNone(keys: map<Cell, real>, g: Grid, scores: map<Cell, real>)
    ensures Rekeyed(keys, g, scores, []) == keys
  {
  }

  lemma RekeyedOne(keys: map<Cell, real>, g: Grid, scores: map<Cell, real>, x: Cell)
    requires x in keys && x in scores
    ensures Rekeyed(keys, g, scores, [x]) == if IsEmptyAt(g, x) then keys[x := scores[x]] else keys
  {
  }

  lemma RekeyedThen(keys: map<Cell, real>, g: Grid, scores: map<Cell, real>, a: seq<Cell>, b: seq<Cell>)
    ensures Rekeyed(Rekeyed(keys, g, scores, a), g, scores, b) == Rekeyed(keys, g, scores, a + b)
  {
  }

  /** Re-keying some cells does not touch the keys of cells not among them. */
  lemma EntriesUntouched(keys: map<Cell, real>, g: Grid, scores: map<Cell, real>, a: seq<Cell>, b: seq<Cell>)
    requires forall i :: 0 <= i < |b| ==> b[i] in keys && b[i] !in a
    ensures Keyed(b, Rekeyed(keys, g, scores, a))
    ensures Entries(Rekeyed(keys, g, scores, a), b) == Entries(keys, b)
  {
  }

  lemma {:induction false} EntriesConcat(keys: map<Cell, real>, a: seq<Cell>, b: seq<Cell>)
    requires Keyed(a, keys)
    requires Keyed(b, keys)
    ensures Keyed(a + b, keys)
    ensures Entries(keys, a + b) == Entries(keys, a) + Entries(keys, b)
    decreases |b|
  {
    if |b| > 0 {
      var b' := b[..|b| - 1];
      assert (a + b)[..|a + b| - 1] == a + b';
      EntriesConcat(keys, a, b');
    } else {
      assert a + b == a;
    }
  }
}
