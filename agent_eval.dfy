/** The move evaluator of the linking/blocking agent: the SPACE table, the
    two small scan state machines (linking own pieces, blocking the
    opponent's) and their score tiers, and the four-axis scan of a cell. */
module AgentEval {
  import opened Defines
  import opened JsNumbers
  import opened Grids

  // Ranked situation scores.
  const BLOCK_MORE_THAN_4: real := 40.0
  const BLOCK_4_BOTH: real := 30.0
  const BLOCK_4_ONE: real := 25.0
  const LINK_4_BOTH: real := 20.0
  const BLOCK_3_BOTH: real := 10.0
  const LINK_3_BOTH: real := 8.0
  const BLOCK_3_ONE: real := 7.0
  const LINK_4_ONE: real := 5.0
  const LINK_3_ONE: real := 3.0
  const BLOCK_2_BOTH: real := 2.0
  const BLOCK_2_ONE: real := 1.0
  // Per-unit scores.
  const LINK: real := 2.0
  const BLOCK: real := 1.0
  const SPACE_BASE: real := 0.1
  const SPACE_DECAY: real := 0.8

  const SPACE_MAX: nat := 30
  const LINK_MAX: nat := 4
  /** Minimum number of opponent pieces plus space for blocking to score. */
  const BLOCK_MIN: nat := 5
  const BLOCK_MAX: nat := 9

  /** Scan directions. */
  const LEFT: int := 0
  const RIGHT: int := 1

  predicate IsDirection(d: int) {
    d == LEFT || d == RIGHT
  }

  // ---------------------------------------------------------------------
  // The SPACE table.
  // ---------------------------------------------------------------------

  /** SPACE_DECAY to the power k. */
  function Decay(k: nat): (r: real)
    ensures 0.0 < r <= 1.0
  {
    if k == 0 then 1.0 else SPACE_DECAY * Decay(k - 1)
  }

  /** SPACE[d]: SPACE[0] = 0 and each further unit of space adds
      SPACE_BASE, decayed by SPACE_DECAY per unit of distance. */
  function Space(d: nat): real {
    if d == 0 then 0.0 else Space(d - 1) + SPACE_BASE * Decay(d - 1)
  }

  /** The table in closed form: SPACE[d] = (1 - 0.8^d) / 2. */
  lemma {:induction false} SpaceClosedForm(d: nat)
    ensures Space(d) == (1.0 - Decay(d)) / 2.0
  {
    if d > 0 {
      SpaceClosedForm(d - 1);
    }
  }

  /** Every entry lies in [0, 1/2), and only SPACE[0] is 0. */
  lemma SpaceRange(d: nat)
    ensures 0.0 <= Space(d) < 0.5
    ensures Space(d) == 0.0 <==> d == 0
  {
    SpaceClosedForm(d);
  }

  /** The table is strictly increasing. */
  lemma SpaceIncreasing(d1: nat, d2: nat)
    requires d1 < d2
    ensures Space(d1) < Space(d2)
  {
    SpaceClosedForm(d1);
    SpaceClosedForm(d2);
    DecayDecreasing(d1, d2);
  }

  lemma {:induction false} DecayDecreasing(k1: nat, k2: nat)
    requires k1 < k2
    ensures Decay(k2) < Decay(k1)
    decreases k2
  {
    if k2 > k1 + 1 {
      DecayDecreasing(k1, k2 - 1);
    }
  }

  /** The loop that fills the table when the module loads. */
  method BuildSpaceTable() returns (table: seq<real>)
    ensures |table| == SPACE_MAX
    ensures forall d :: 0 <= d < SPACE_MAX ==> table[d] == Space(d)
  {
    table := [0.0];
    var spaceScore := SPACE_BASE;
    var space := 1;
    while space < SPACE_MAX
      invariant 1 <= space <= SPACE_MAX && |table| == space
      invariant spaceScore == SPACE_BASE * Decay(space - 1)
      invariant forall d :: 0 <= d < space ==> table[d] == Space(d)
    {
      table := table + [table[space - 1] + spaceScore];
      space := space + 1;
      spaceScore := spaceScore * SPACE_DECAY;
    }
  }

  // ---------------------------------------------------------------------
  // The scan state machines.
  // ---------------------------------------------------------------------

  /** The state of one evaluator during the scan of one axis: the run count
      (`linked` or `blocked`), whether it has stopped, and the empty cells
      seen on each side (`space[LEFT]`, `space[RIGHT]`). */
  datatype RunScan = RunScan(count: nat, stopped: bool, left: nat, right: nat)

  /** The state `start()` sets up. */
  const StartScan: RunScan := RunScan(0, false, 0, 0)

  function SpaceOn(e: RunScan, direction: int): nat {
    if direction == LEFT then e.left else e.right
  }

  /** consumePiece shared by both evaluators: `mine` is the piece the run is
      made of, `theirs` the piece that stops the scan, `cap` the largest run
      counted.  A piece of the run counts only while no space has been seen on
      its side; after a gap it is ignored without stopping the scan. */
  function Consume(e: RunScan, piece: int, direction: int, mine: int, theirs: int, cap: nat): (r: RunScan)
    requires IsDirection(direction)
    ensures e.stopped ==> r == e
    ensures !e.stopped && (piece == theirs || e.count == cap) ==> r == e.(stopped := true)
    ensures !e.stopped && piece == mine && piece != theirs && piece != EMPTY && e.count < cap && SpaceOn(e, direction) > 0 ==> r == e
    ensures e.count <= cap ==> r.count <= cap
    ensures SpaceOn(r, direction) <= SpaceOn(e, direction) + 1
    ensures SpaceOn(r, 1 - direction) == SpaceOn(e, 1 - direction)
  {
    if e.stopped then e
    else if piece == theirs || e.count == cap then e.(stopped := true)
    else if piece == mine && SpaceOn(e, direction) == 0 then e.(count := e.count + 1)
    else if piece == EMPTY then
      (if direction == LEFT then e.(left := e.left + 1) else e.(right := e.right + 1))
    else e
  }

  /** Consuming a whole sequence of pieces in one direction. */
  function ConsumeAll(e: RunScan, pieces: seq<int>, direction: int, mine: int, theirs: int, cap: nat): RunScan
    requires IsDirection(direction)
    decreases |pieces|
  {
    if |pieces| == 0 then e
    else ConsumeAll(Consume(e, pieces[0], direction, mine, theirs, cap), pieces[1..], direction, mine, theirs, cap)
  }

  /** Once an evaluator has stopped, no later piece changes its count or its
      space. */
  lemma {:induction false} StoppedIsFinal(e: RunScan, pieces: seq<int>, direction: int, mine: int, theirs: int, cap: nat)
    requires IsDirection(direction) && e.stopped
    ensures ConsumeAll(e, pieces, direction, mine, theirs, cap) == e
    decreases |pieces|
  {
    if |pieces| > 0 {
      StoppedIsFinal(e, pieces[1..], direction, mine, theirs, cap);
    }
  }

  /** The run count never exceeds its cap, whatever the pieces. */
  lemma {:induction false} CountBounded(e: RunScan, pieces: seq<int>, direction: int, mine: int, theirs: int, cap: nat)
    requires IsDirection(direction) && e.count <= cap
    ensures ConsumeAll(e, pieces, direction, mine, theirs, cap).count <= cap
    decreases |pieces|
  {
    if |pieces| > 0 {
      CountBounded(Consume(e, pieces[0], direction, mine, theirs, cap), pieces[1..], direction, mine, theirs, cap);
    }
  }

  /** getScore of the linking evaluator.  At two linked pieces the "space on
      both sides" test looks at the LEFT side twice, as the source does. */
  function LinkScore(e: RunScan): (r: real)
    requires e.count <= LINK_MAX && e.left < SPACE_MAX && e.right < SPACE_MAX
    ensures r == 0.0 <==> e.left + e.right + e.count < LINK_MAX
    ensures r == WIN <==> e.count == LINK_MAX
    ensures e.count < LINK_MAX ==> 0.0 <= r <= LINK_4_BOTH
  {
    SpaceRange(e.left);
    SpaceRange(e.right);
    if e.left + e.right + e.count < LINK_MAX then 0.0
    else
      var spaceScore := Space(e.left) + Space(e.right);
      if e.count <= 1 then spaceScore + e.count as real * LINK
      else if e.count == 2 then
        (if e.left > 0 && e.left > 0 then LINK_3_BOTH + spaceScore else LINK_3_ONE + spaceScore)
      else if e.count == 3 then
        (if e.left > 0 && e.right > 0 then LINK_4_BOTH else LINK_4_ONE)
      else WIN
  }

  /** getScore of the blocking evaluator (the two-piece test likewise looks
      at the LEFT side twice). */
  function BlockScore(e: RunScan): (r: real)
    requires e.left < SPACE_MAX && e.right < SPACE_MAX
    ensures r == 0.0 <==> e.left + e.right + e.count < BLOCK_MIN
    ensures r == BLOCK_MORE_THAN_4 <==> e.count > 4
    ensures 0.0 <= r <= BLOCK_MORE_THAN_4
  {
    SpaceRange(e.left);
    SpaceRange(e.right);
    if e.left + e.right + e.count < BLOCK_MIN then 0.0
    else
      var spaceScore := Space(e.left) + Space(e.right);
      if e.count <= 1 then spaceScore + e.count as real * BLOCK
      else if e.count == 2 then
        (if e.left > 0 && e.left > 0 then BLOCK_2_BOTH + spaceScore else BLOCK_2_ONE + spaceScore)
      else if e.count == 3 then
        (if e.left > 0 && e.right > 0 then BLOCK_3_BOTH else BLOCK_3_ONE)
      else if e.count == 4 then
        (if e.left > 0 && e.right > 0 then BLOCK_4_BOTH else BLOCK_4_ONE)
      else BLOCK_MORE_THAN_4
  }

  /** The linking tiers below four linked pieces: three scores 20 with space
      on both sides and 5 otherwise, with no space term; two takes the "both
      sides" tier whenever the LEFT side has space, even with no space on the
      right; none or one scores the space plus LINK per linked piece. */
  lemma LinkScoreTiers(e: RunScan)
    requires e.count <= LINK_MAX && e.left < SPACE_MAX && e.right < SPACE_MAX
    requires e.left + e.right + e.count >= LINK_MAX
    ensures e.count == 3 ==> LinkScore(e) == (if e.left > 0 && e.right > 0 then LINK_4_BOTH else LINK_4_ONE)
    ensures e.count == 2 && e.left > 0 ==> LinkScore(e) == LINK_3_BOTH + Space(e.left) + Space(e.right)
    ensures e.count == 2 && e.left == 0 ==> LinkScore(e) == LINK_3_ONE + Space(e.right)
    ensures e.count <= 1 ==> LinkScore(e) == Space(e.left) + Space(e.right) + e.count as real * LINK
  {
  }

  /** The blocking tiers: 30/25 at four blocked pieces, 10/7 at three, the
      space score plus 2 or 1 at two. */
  lemma BlockScoreTiers(e: RunScan)
    requires e.left < SPACE_MAX && e.right < SPACE_MAX
    requires e.left + e.right + e.count >= BLOCK_MIN
    ensures e.count == 4 ==> BlockScore(e) == (if e.left > 0 && e.right > 0 then BLOCK_4_BOTH else BLOCK_4_ONE)
    ensures e.count == 3 ==> BlockScore(e) == (if e.left > 0 && e.right > 0 then BLOCK_3_BOTH else BLOCK_3_ONE)
    ensures e.count == 2 ==> BlockScore(e) == (if e.left > 0 then BLOCK_2_BOTH else BLOCK_2_ONE) + Space(e.left) + Space(e.right)
    ensures e.count <= 1 ==> BlockScore(e) == Space(e.left) + Space(e.right) + e.count as real
  {
  }

  // ---------------------------------------------------------------------
  // The scan of one axis.
  // ---------------------------------------------------------------------

  /** The four axes of evaluateMove, each named by the direction of its LEFT
      side; the RIGHT side is the opposite direction. */
  const ROW: Cell := (0, -1)
  const COLUMN: Cell := (-1, 0)
  const FORWARD_DIAGONAL: Cell := (-1, 1)
  const BACKWARD_DIAGONAL: Cell := (-1, -1)

  predicate IsAxis(a: Cell) {
    a == ROW || a == COLUMN || a == FORWARD_DIAGONAL || a == BACKWARD_DIAGONAL
  }

  function LeftCell(rr: int, cc: int, a: Cell, moved: int): Cell {
    Step(rr, cc, a.0, a.1, moved)
  }

  function RightCell(rr: int, cc: int, a: Cell, moved: int): Cell {
    Step(rr, cc, -a.0, -a.1, moved)
  }

  /** Both evaluators of an agent side by side. */
  datatype Evals = Evals(link: RunScan, block: RunScan)

  /** evalConsume: the linking evaluator counts the player's pieces and stops
      at the opponent's; the blocking evaluator the other way round. */
  function ConsumeBoth(e: Evals, piece: int, direction: int, player: int): Evals
    requires IsDirection(direction)
  {
    Evals(Consume(e.link, piece, direction, player, NextPlayer(player), LINK_MAX),
          Consume(e.block, piece, direction, NextPlayer(player), player, BLOCK_MAX))
  }

  /** Spaces seen so far on each side are bounded by the distance reached. */
  predicate SpacesBelow(e: Evals, m: nat) {
    e.link.left < m && e.link.right < m && e.block.left < m && e.block.right < m
  }

  /** The axis loop's exit test at distance `moved`: both sides are off the
      board, or both evaluators have stopped. */
  predicate AxisDone(n: nat, rr: int, cc: int, a: Cell, moved: nat, e: Evals) {
    (!CellInBounds(n, LeftCell(rr, cc, a, moved)) && !CellInBounds(n, RightCell(rr, cc, a, moved))) ||
    (e.link.stopped && e.block.stopped)
  }

  /** One round of the axis loop: consume the LEFT cell, then the RIGHT
      cell, each only while it is on the board. */
  function AxisStep(g: Grid, n: nat, player: int, rr: int, cc: int, a: Cell, moved: nat, e: Evals): (r: Evals)
    requires IsSquare(g, n) && 1 <= moved
    requires SpacesBelow(e, moved)
    ensures SpacesBelow(r, moved + 1)
    ensures e.link.count <= LINK_MAX ==> r.link.count <= LINK_MAX
  {
    var L := LeftCell(rr, cc, a, moved);
    var R := RightCell(rr, cc, a, moved);
    var e1 := if CellInBounds(n, L) then ConsumeBoth(e, g[L.0][L.1], LEFT, player) else e;
    if CellInBounds(n, R) then ConsumeBoth(e1, g[R.0][R.1], RIGHT, player) else e1
  }

  /** The axis loop of evaluateMove from distance `moved` on: stop when both
      sides have left the board or both evaluators have stopped; otherwise
      consume the LEFT cell, then the RIGHT cell, and go one step further. */
  function AxisRun(g: Grid, n: nat, player: int, rr: int, cc: int, a: Cell, moved: nat, e: Evals): (r: Evals)
    requires IsSquare(g, n) && InBounds(n, rr, cc) && IsAxis(a) && 1 <= moved <= n
    requires SpacesBelow(e, moved)
    ensures SpacesBelow(r, n)
    ensures e.link.count <= LINK_MAX ==> r.link.count <= LINK_MAX
    decreases n - moved
  {
    if AxisDone(n, rr, cc, a, moved, e) then e
    else AxisRun(g, n, player, rr, cc, a, moved + 1, AxisStep(g, n, player, rr, cc, a, moved, e))
  }

  /** The evaluators at the end of one axis scan from a fresh start. */
  function AxisEvals(g: Grid, n: nat, player: int, rr: int, cc: int, a: Cell): (r: Evals)
    requires IsSquare(g, n) && InBounds(n, rr, cc) && IsAxis(a)
    ensures SpacesBelow(r, n) && r.link.count <= LINK_MAX
  {
    AxisRun(g, n, player, rr, cc, a, 1, Evals(StartScan, StartScan))
  }

  /** evalScore after one axis: linking plus blocking score. */
  function AxisScore(g: Grid, n: nat, player: int, rr: int, cc: int, a: Cell): (r: real)
    requires IsSquare(g, n) && InBounds(n, rr, cc) && IsAxis(a) && n <= SPACE_MAX
    ensures r >= WIN <==> AxisEvals(g, n, player, rr, cc, a).link.count == LINK_MAX
    ensures 0.0 <= r
  {
    var e := AxisEvals(g, n, player, rr, cc, a);
    LinkScore(e.link) + BlockScore(e.block)
  }

  /** evaluateMove(rr, cc): the score of placing the player's piece at
      (rr, cc), without placing it. */
  function MoveScore(g: Grid, n: nat, player: int, rr: int, cc: int): real
    requires IsSquare(g, n) && InBounds(n, rr, cc) && n <= SPACE_MAX
  {
    AxisScore(g, n, player, rr, cc, ROW) + AxisScore(g, n, player, rr, cc, COLUMN) +
    AxisScore(g, n, player, rr, cc, FORWARD_DIAGONAL) + AxisScore(g, n, player, rr, cc, BACKWARD_DIAGONAL)
  }

  /** A move scores at least WIN exactly when on some axis it links four of
      the player's pieces; every score is non-negative. */
  lemma MoveScoreWinning(g: Grid, n: nat, player: int, rr: int, cc: int)
    requires IsSquare(g, n) && InBounds(n, rr, cc) && n <= SPACE_MAX
    ensures 0.0 <= MoveScore(g, n, player, rr, cc)
    ensures MoveScore(g, n, player, rr, cc) >= WIN <==>
      exists a :: IsAxis(a) && AxisEvals(g, n, player, rr, cc, a).link.count == LINK_MAX
  {
    var axes := [ROW, COLUMN, FORWARD_DIAGONAL, BACKWARD_DIAGONAL];
    forall a | IsAxis(a)
      ensures AxisScore(g, n, player, rr, cc, a) < WIN ==> AxisScore(g, n, player, rr, cc, a) <= LINK_4_BOTH + BLOCK_MORE_THAN_4
    {
      var e := AxisEvals(g, n, player, rr, cc, a);
    }
  }

  /** One more round of an axis scan that has not stopped. */
  lemma AxisRunNext(g: Grid, n: nat, player: int, rr: int, cc: int, a: Cell, moved: nat, e: Evals)
    requires IsSquare(g, n) && InBounds(n, rr, cc) && IsAxis(a) && 1 <= moved <= n
    requires SpacesBelow(e, moved) && !AxisDone(n, rr, cc, a, moved, e)
    ensures moved < n
    ensures AxisRun(g, n, player, rr, cc, a, moved, e) == AxisRun(g, n, player, rr, cc, a, moved + 1, AxisStep(g, n, player, rr, cc, a, moved, e))
  {
  }

  /** The axis scan never looks at the cell being scored. */
  lemma {:induction false} AxisRunIgnoresCell(g: Grid, n: nat, player: int, rr: int, cc: int, a: Cell, moved: nat, e: Evals, v: int)
    requires IsSquare(g, n) && InBounds(n, rr, cc) && IsAxis(a) && 1 <= moved <= n
    requires SpacesBelow(e, moved)
    ensures AxisRun(Write(g, rr, cc, v), n, player, rr, cc, a, moved, e) == AxisRun(g, n, player, rr, cc, a, moved, e)
    decreases n - moved
  {
    var g' := Write(g, rr, cc, v);
    if !AxisDone(n, rr, cc, a, moved, e) {
      AxisRunNext(g, n, player, rr, cc, a, moved, e);
      AxisRunNext(g', n, player, rr, cc, a, moved, e);
      AxisStepIgnoresCell(g, n, player, rr, cc, a, moved, e, v);
      AxisRunIgnoresCell(g, n, player, rr, cc, a, moved + 1, AxisStep(g, n, player, rr, cc, a, moved, e), v);
    }
  }

  /** One round of the axis scan reads two cells away from the scored one. */
  lemma AxisStepIgnoresCell(g: Grid, n: nat, player: int, rr: int, cc: int, a: Cell, moved: nat, e: Evals, v: int)
    requires IsSquare(g, n) && InBounds(n, rr, cc) && IsAxis(a) && 1 <= moved
    requires SpacesBelow(e, moved)
    ensures AxisStep(Write(g, rr, cc, v), n, player, rr, cc, a, moved, e) == AxisStep(g, n, player, rr, cc, a, moved, e)
  {
    var g' := Write(g, rr, cc, v);
    var L := LeftCell(rr, cc, a, moved);
    var R := RightCell(rr, cc, a, moved);
    assert L != (rr, cc) && R != (rr, cc);
    assert CellInBounds(n, L) ==> g'[L.0][L.1] == g[L.0][L.1];
    assert CellInBounds(n, R) ==> g'[R.0][R.1] == g[R.0][R.1];
  }

  /** evaluateMove(rr, cc) does not depend on what board[rr][cc] holds. */
  lemma MoveScoreIgnoresCell(g: Grid, n: nat, player: int, rr: int, cc: int, v: int)
    requires IsSquare(g, n) && InBounds(n, rr, cc) && n <= SPACE_MAX
    ensures MoveScore(Write(g, rr, cc, v), n, player, rr, cc) == MoveScore(g, n, player, rr, cc)
  {
    var start := Evals(StartScan, StartScan);
    AxisRunIgnoresCell(g, n, player, rr, cc, ROW, 1, start, v);
    AxisRunIgnoresCell(g, n, player, rr, cc, COLUMN, 1, start, v);
    AxisRunIgnoresCell(g, n, player, rr, cc, FORWARD_DIAGONAL, 1, start, v);
    AxisRunIgnoresCell(g, n, player, rr, cc, BACKWARD_DIAGONAL, 1, start, v);
  }

  // ---------------------------------------------------------------------
  // Scores on boards of any size.
  // ---------------------------------------------------------------------

  /** `Score.SPACE[d]` as JavaScript reads it: the table entry, or
      `undefined` past the table's SPACE_MAX entries, which turns the sum it
      enters into NaN. */
  function SpaceEntry(d: nat): (r: Num)
    ensures r.NaN? <==> d >= SPACE_MAX
    ensures d < SPACE_MAX ==> r == Fin(Space(d))
  {
    if d < SPACE_MAX then Fin(Space(d)) else NaN
  }

  /** getScore of the linking evaluator for any space seen, over JavaScript
      numbers: spaceScore is computed before the switch, and only the tiers
      at zero, one and two linked pieces add it. */
  function LinkScoreJs(e: RunScan): (r: Num)
    requires e.count <= LINK_MAX
  {
    if e.left + e.right + e.count < LINK_MAX then Fin(0.0)
    else
      var spaceScore := Add(SpaceEntry(e.left), SpaceEntry(e.right));
      if e.count <= 1 then Add(spaceScore, Fin(e.count as real * LINK))
      else if e.count == 2 then
        Add(Fin(if e.left > 0 && e.left > 0 then LINK_3_BOTH else LINK_3_ONE), spaceScore)
      else if e.count == 3 then
        Fin(if e.left > 0 && e.right > 0 then LINK_4_BOTH else LINK_4_ONE)
      else Fin(WIN)
  }

  /** getScore of the blocking evaluator for any space seen. */
  function BlockScoreJs(e: RunScan): (r: Num) {
    if e.left + e.right + e.count < BLOCK_MIN then Fin(0.0)
    else
      var spaceScore := Add(SpaceEntry(e.left), SpaceEntry(e.right));
      if e.count <= 1 then Add(spaceScore, Fin(e.count as real * BLOCK))
      else if e.count == 2 then
        Add(Fin(if e.left > 0 && e.left > 0 then BLOCK_2_BOTH else BLOCK_2_ONE), spaceScore)
      else if e.count == 3 then
        Fin(if e.left > 0 && e.right > 0 then BLOCK_3_BOTH else BLOCK_3_ONE)
      else if e.count == 4 then
        Fin(if e.left > 0 && e.right > 0 then BLOCK_4_BOTH else BLOCK_4_ONE)
      else Fin(BLOCK_MORE_THAN_4)
  }

  /** The linking score is NaN exactly when a table lookup past SPACE_MAX
      enters the returned sum; within the table it is the real score. */
  lemma LinkScoreJsMeaning(e: RunScan)
    requires e.count <= LINK_MAX
    ensures LinkScoreJs(e).NaN? <==>
      e.left + e.right + e.count >= LINK_MAX && e.count <= 2 && (e.left >= SPACE_MAX || e.right >= SPACE_MAX)
    ensures e.left < SPACE_MAX && e.right < SPACE_MAX ==> LinkScoreJs(e) == Fin(LinkScore(e))
  {
  }

  /** The same for the blocking score. */
  lemma BlockScoreJsMeaning(e: RunScan)
    ensures BlockScoreJs(e).NaN? <==>
      e.left + e.right + e.count >= BLOCK_MIN && e.count <= 2 && (e.left >= SPACE_MAX || e.right >= SPACE_MAX)
    ensures e.left < SPACE_MAX && e.right < SPACE_MAX ==> BlockScoreJs(e) == Fin(BlockScore(e))
  {
  }

  /** evalScore after one axis, for any board size. */
  function AxisScoreJs(g: Grid, n: nat, player: int, rr: int, cc: int, a: Cell): Num
    requires IsSquare(g, n) && InBounds(n, rr, cc) && IsAxis(a)
  {
    var e := AxisEvals(g, n, player, rr, cc, a);
    Add(LinkScoreJs(e.link), BlockScoreJs(e.block))
  }

  /** evaluateMove(rr, cc) for any board size, over JavaScript numbers. */
  function MoveScoreJs(g: Grid, n: nat, player: int, rr: int, cc: int): Num
    requires IsSquare(g, n) && InBounds(n, rr, cc)
  {
    Add(Add(Add(AxisScoreJs(g, n, player, rr, cc, ROW), AxisScoreJs(g, n, player, rr, cc, COLUMN)),
            AxisScoreJs(g, n, player, rr, cc, FORWARD_DIAGONAL)),
        AxisScoreJs(g, n, player, rr, cc, BACKWARD_DIAGONAL))
  }

  /** Within the table, one axis scores its finite real score. */
  lemma AxisScoreJsAgrees(g: Grid, n: nat, player: int, rr: int, cc: int, a: Cell)
    requires IsSquare(g, n) && InBounds(n, rr, cc) && IsAxis(a) && n <= SPACE_MAX
    ensures AxisScoreJs(g, n, player, rr, cc, a) == Fin(AxisScore(g, n, player, rr, cc, a))
  {
    var e := AxisEvals(g, n, player, rr, cc, a);
    LinkScoreJsMeaning(e.link);
    BlockScoreJsMeaning(e.block);
  }

  /** On a board of at most SPACE_MAX cells a side every key is the finite
      real score the agent's index uses. */
  lemma MoveScoreJsAgrees(g: Grid, n: nat, player: int, rr: int, cc: int)
    requires IsSquare(g, n) && InBounds(n, rr, cc) && n <= SPACE_MAX
    ensures MoveScoreJs(g, n, player, rr, cc) == Fin(MoveScore(g, n, player, rr, cc))
  {
    var row := AxisScore(g, n, player, rr, cc, ROW);
    var column := AxisScore(g, n, player, rr, cc, COLUMN);
    var forward := AxisScore(g, n, player, rr, cc, FORWARD_DIAGONAL);
    var backward := AxisScore(g, n, player, rr, cc, BACKWARD_DIAGONAL);
    AxisScoreJsAgrees(g, n, player, rr, cc, ROW);
    AxisScoreJsAgrees(g, n, player, rr, cc, COLUMN);
    AxisScoreJsAgrees(g, n, player, rr, cc, FORWARD_DIAGONAL);
    AxisScoreJsAgrees(g, n, player, rr, cc, BACKWARD_DIAGONAL);
    assert MoveScore(g, n, player, rr, cc) == row + column + forward + backward;
    SumOfFour(row, column, forward, backward);
  }

  lemma SumOfFour(a: real, b: real, c: real, d: real)
    ensures Add(Add(Add(Fin(a), Fin(b)), Fin(c)), Fin(d)) == Fin(a + b + c + d)
  {
  }

  /** Along an empty top row the scan from the corner never stops and
      counts every further cell as space on its RIGHT side. */
  lemma {:induction false} EmptyRowSpace(g: Grid, n: nat, player: int, moved: nat, e: Evals)
    requires IsSquare(g, n) && 1 <= moved <= n && IsPlayer(player)
    requires forall c :: 0 <= c < n ==> g[0][c] == EMPTY
    requires e.link == RunScan(0, false, 0, moved - 1) && SpacesBelow(e, moved)
    ensures AxisRun(g, n, player, 0, 0, ROW, moved, e).link == RunScan(0, false, 0, n - 1)
    decreases n - moved
  {
    if moved < n {
      assert CellInBounds(n, RightCell(0, 0, ROW, moved));
      AxisRunNext(g, n, player, 0, 0, ROW, moved, e);
      var stepped := AxisStep(g, n, player, 0, 0, ROW, moved, e);
      assert !CellInBounds(n, LeftCell(0, 0, ROW, moved));
      assert stepped.link == RunScan(0, false, 0, moved);
      EmptyRowSpace(g, n, player, moved + 1, stepped);
    } else {
      assert !CellInBounds(n, LeftCell(0, 0, ROW, moved)) && !CellInBounds(n, RightCell(0, 0, ROW, moved));
    }
  }

  /** On a side wider than SPACE_MAX the corner of an empty top row sees
      SPACE_MAX or more empty cells on its row, reads past the SPACE table,
      and evaluateMove returns NaN. */
  lemma WideBoardNaN(g: Grid, n: nat, player: int)
    requires IsSquare(g, n) && n > SPACE_MAX && IsPlayer(player)
    requires forall c :: 0 <= c < n ==> g[0][c] == EMPTY
    ensures MoveScoreJs(g, n, player, 0, 0).NaN?
  {
    EmptyRowSpace(g, n, player, 1, Evals(StartScan, StartScan));
    var e := AxisEvals(g, n, player, 0, 0, ROW);
    LinkScoreJsMeaning(e.link);
  }

  // ---------------------------------------------------------------------
  // The evaluator objects.
  // ---------------------------------------------------------------------

  /** The linking evaluator: counts the player's pieces linked to the move. */
  class LinkingEvaluation {
    const player: int
    const otherPlayer: int
    var linked: nat
    var stopped: bool
    var space: seq<nat>

    ghost predicate Valid()
      reads this
    {
      |space| == 2 && linked <= LINK_MAX
    }

    function Scan(): RunScan
      reads this
      requires |space| == 2
    {
      RunScan(linked, stopped, space[LEFT], space[RIGHT])
    }

    constructor (player: int, otherPlayer: int)
      ensures this.player == player && this.otherPlayer == otherPlayer
      ensures Valid() && Scan() == StartScan
    {
      this.player := player;
      this.otherPlayer := otherPlayer;
      linked, stopped, space := 0, false, [0, 0];
    }

    method Start()
      modifies this
      ensures Valid() && Scan() == StartScan
    {
      linked := 0;
      stopped := false;
      space := [0, 0];
    }

    method ConsumePiece(piece: int, direction: int)
      requires Valid() && IsDirection(direction)
      modifies this
      ensures Valid() && Scan() == Consume(old(Scan()), piece, direction, player, otherPlayer, LINK_MAX)
    {
      if stopped {
        // stop also if we encounter a gap between own pieces
      } else if piece == otherPlayer || linked == LINK_MAX {
        stopped := true;
      } else {
        if piece == player && space[direction] == 0 {
          linked := linked + 1;
        } else if piece == EMPTY {
          space := space[direction := space[direction] + 1];
        }
      }
    }

    method GetScore() returns (score: real)
      requires Valid() && space[LEFT] < SPACE_MAX && space[RIGHT] < SPACE_MAX
      modifies this
      ensures Valid() && stopped && linked == old(linked) && space == old(space)
      ensures score == LinkScore(old(Scan()))
    {
      stopped := true;
      score := LinkScore(RunScan(linked, true, space[LEFT], space[RIGHT]));
    }
  }

  /** The blocking evaluator: counts the opponent's pieces the move blocks. */
  class BlockingEvaluation {
    const player: int
    const otherPlayer: int
    var blocked: nat
    var stopped: bool
    var space: seq<nat>

    ghost predicate Valid()
      reads this
    {
      |space| == 2
    }

    function Scan(): RunScan
      reads this
      requires |space| == 2
    {
      RunScan(blocked, stopped, space[LEFT], space[RIGHT])
    }

    constructor (player: int, otherPlayer: int)
      ensures this.player == player && this.otherPlayer == otherPlayer
      ensures Valid() && Scan() == StartScan
    {
      this.player := player;
      this.otherPlayer := otherPlayer;
      blocked, stopped, space := 0, false, [0, 0];
    }

    method Start()
      modifies this
      ensures Valid() && Scan() == StartScan
    {
      blocked := 0;
      space := [0, 0];
      stopped := false;
    }

    method ConsumePiece(piece: int, direction: int)
      requires Valid() && IsDirection(direction)
      modifies this
      ensures Valid() && Scan() == Consume(old(Scan()), piece, direction, otherPlayer, player, BLOCK_MAX)
    {
      if stopped {
      } else if piece == player || blocked == BLOCK_MAX {
        stopped := true;
      } else {
        if piece == otherPlayer && space[direction] == 0 {
          blocked := blocked + 1;
        } else if piece == EMPTY {
          space := space[direction := space[direction] + 1];
        }
      }
    }

    method GetScore() returns (score: real)
      requires Valid() && space[LEFT] < SPACE_MAX && space[RIGHT] < SPACE_MAX
      modifies this
      ensures Valid() && stopped && blocked == old(blocked) && space == old(space)
      ensures score == BlockScore(old(Scan()))
    {
      stopped := true;
      score := BlockScore(RunScan(blocked, true, space[LEFT], space[RIGHT]));
    }
  }
}
