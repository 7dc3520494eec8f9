/** The agent-backed search session (`AgentSession`): two agents over the
    session's board, one scoring moves for the AI's own player and one for the
    opponent, drive the generic search.  Candidates come from the agents'
    move indexes in descending key order, a move updates both indexes
    incrementally, and the board is evaluated from the keys of the occupied
    cells. */
module AgentSessions {
  import opened Defines
  import opened JsNumbers
  import opened Grids
  import opened AgentEval
  import opened Agents
  import opened Search
  import opened SearchProofs

  // ---------------------------------------------------------------------
  // The session state as a value.
  // ---------------------------------------------------------------------

  /** The board and both agents' indexes: every cell's key and the cells
      still in each move tree. */
  datatype AgentState = AgentState(cells: Grid, ownKeys: map<Cell, real>, ownMoves: set<Cell>,
                                   otherKeys: map<Cell, real>, otherMoves: set<Cell>)

  /** What makeMove hands back for revertMove: both agents' undo logs. */
  datatype Memento = Memento(oldScores: seq<LogEntry>, otherOldScores: seq<LogEntry>)

  /** The board is n x n and both agents hold a key for every cell. */
  predicate Fits(s: AgentState, n: nat) {
    IsSquare(s.cells, n) && s.ownKeys.Keys == AllCells(n) && s.otherKeys.Keys == AllCells(n)
  }

  /** Fits, and each move tree holds exactly the empty cells. */
  predicate Indexed(s: AgentState, n: nat) {
    Fits(s, n) && s.ownMoves == EmptyCells(s.cells, n) && s.otherMoves == EmptyCells(s.cells, n)
  }

  /** The state a new session starts from: both agents keyed by evaluateMove
      on the given board. */
  function Fresh(cells: Grid, n: nat, player: int): (s: AgentState)
    requires IsSquare(cells, n) && n <= SPACE_MAX
    ensures Indexed(s, n)
  {
    ScoresKeys(cells, n, player);
    ScoresKeys(cells, n, NextPlayer(player));
    AgentState(cells, Scores(cells, n, player), EmptyCells(cells, n),
               Scores(cells, n, NextPlayer(player)), EmptyCells(cells, n))
  }

  /** A node's key, 0 for a cell without one. */
  function Key(keys: map<Cell, real>, x: Cell): real {
    if x in keys then keys[x] else 0.0
  }

  // ---------------------------------------------------------------------
  // makeMove and revertMove.
  // ---------------------------------------------------------------------

  /** makeMove: write the piece, then let each agent erase the move from its
      tree and re-key the empty cells of the star around it on the new
      board; the memento is the pair of undo logs. */
  function Played(s: AgentState, n: nat, player: int, x: Cell, piece: int): (AgentState, Memento)
    requires Fits(s, n) && n <= SPACE_MAX && CellInBounds(n, x)
  {
    var g := Write(s.cells, x.0, x.1, piece);
    var star := Rays(n, x.0, x.1);
    (AgentState(g, Rekeyed(s.ownKeys, g, Scores(g, n, player), star), s.ownMoves - {x},
                   Rekeyed(s.otherKeys, g, Scores(g, n, NextPlayer(player)), star), s.otherMoves - {x}),
     Memento(MoveLog(s.ownKeys, n, x.0, x.1), MoveLog(s.otherKeys, n, x.0, x.1)))
  }

  /** revertMove: clear the cell and replay both undo logs. */
  function Reverted(s: AgentState, x: Cell, k: Memento): AgentState
    requires 0 <= x.0 < |s.cells| && 0 <= x.1 < |s.cells[x.0]|
  {
    AgentState(Write(s.cells, x.0, x.1, EMPTY),
               RevertKeys(s.ownKeys, k.oldScores), RevertMembers(s.ownMoves, k.oldScores),
               RevertKeys(s.otherKeys, k.otherOldScores), RevertMembers(s.otherMoves, k.otherOldScores))
  }

  lemma EmptyCellsAfterWrite(g: Grid, n: nat, x: Cell, piece: int)
    requires IsSquare(g, n) && CellInBounds(n, x) && piece != EMPTY
    ensures EmptyCells(Write(g, x.0, x.1, piece), n) == EmptyCells(g, n) - {x}
  {
  }

  /** The parts of the state a move produces. */
  lemma PlayedParts(s: AgentState, n: nat, player: int, x: Cell, piece: int)
    requires Fits(s, n) && n <= SPACE_MAX && CellInBounds(n, x)
    ensures var g := Write(s.cells, x.0, x.1, piece);
      var t := Played(s, n, player, x, piece).0;
      IsSquare(g, n) && t.cells == g &&
      t.ownKeys == Rekeyed(s.ownKeys, g, Scores(g, n, player), Rays(n, x.0, x.1)) &&
      t.otherKeys == Rekeyed(s.otherKeys, g, Scores(g, n, NextPlayer(player)), Rays(n, x.0, x.1)) &&
      t.ownMoves == s.ownMoves - {x} && t.otherMoves == s.otherMoves - {x} &&
      Played(s, n, player, x, piece).1 == Memento(MoveLog(s.ownKeys, n, x.0, x.1), MoveLog(s.otherKeys, n, x.0, x.1))
  {
  }

  /** Playing a piece keeps the index exact: each tree holds the empty
      cells. */
  lemma PlayedIndexed(s: AgentState, n: nat, player: int, x: Cell, piece: int)
    requires Indexed(s, n) && n <= SPACE_MAX && CellInBounds(n, x) && piece != EMPTY
    ensures Indexed(Played(s, n, player, x, piece).0, n)
  {
    PlayedParts(s, n, player, x, piece);
    EmptyCellsAfterWrite(s.cells, n, x, piece);
  }

  /** Reverting a move with its memento restores the board, every key and
      both trees. */
  lemma PlayedReverts(s: AgentState, n: nat, player: int, x: Cell, piece: int)
    requires Indexed(s, n) && n <= SPACE_MAX && IsEmptyAt(s.cells, x)
    ensures CellInBounds(n, x)
    ensures Reverted(Played(s, n, player, x, piece).0, x, Played(s, n, player, x, piece).1) == s
  {
    PlayedParts(s, n, player, x, piece);
    var g := Write(s.cells, x.0, x.1, piece);
    var t := Played(s, n, player, x, piece).0;
    var k := Played(s, n, player, x, piece).1;
    InAllCells(n, x);
    assert x in s.ownMoves && x in s.otherMoves;
    IndexRoundTrip(s.ownKeys, s.ownMoves, g, Scores(g, n, player), n, x.0, x.1);
    IndexRoundTrip(s.otherKeys, s.otherMoves, g, Scores(g, n, NextPlayer(player)), n, x.0, x.1);
    WriteBack(s.cells, x, piece);
    assert Reverted(t, x, k) == AgentState(s.cells, s.ownKeys, s.ownMoves, s.otherKeys, s.otherMoves);
  }

  /** What a move does to one agent's keys: every empty cell of the star
      gets its fresh evaluateMove score on the new board, and every other
      cell keeps its key -- in particular the played cell, whose key stays
      frozen at its value before the move, and every cell more than
      UPDATE_DIST king moves away, whose key is not brought up to date. */
  lemma RekeyedStar(keys: map<Cell, real>, g: Grid, n: nat, player: int, x: Cell)
    requires keys.Keys == AllCells(n) && IsSquare(g, n) && n <= SPACE_MAX && CellInBounds(n, x)
    ensures var after := Rekeyed(keys, g, Scores(g, n, player), Rays(n, x.0, x.1));
      after.Keys == AllCells(n) &&
      (forall y :: y in Rays(n, x.0, x.1) && IsEmptyAt(g, y) ==> after[y] == MoveScore(g, n, player, y.0, y.1)) &&
      (forall y :: y in keys && (y !in Rays(n, x.0, x.1) || !IsEmptyAt(g, y)) ==> after[y] == keys[y]) &&
      (forall y :: y in keys && Cheb(y, x) > UPDATE_DIST ==> after[y] == keys[y]) &&
      after[x] == keys[x]
  {
    var star := Rays(n, x.0, x.1);
    var scores := Scores(g, n, player);
    RaysNear(n, x.0, x.1);
    ScoresKeys(g, n, player);
    forall y | y in star && IsEmptyAt(g, y)
      ensures Rekeyed(keys, g, scores, star)[y] == MoveScore(g, n, player, y.0, y.1)
    {
      InAllCells(n, y);
      ScoresAt(g, n, player, y);
    }
    InAllCells(n, x);
    assert Cheb(x, x) == 0;
  }

  // ---------------------------------------------------------------------
  // getMoveConsiderationOrder: the tree in descending key order.
  // ---------------------------------------------------------------------

  /** Every cell of rows r.. of an n x n board, in row-major order. */
  function RowsFrom(r: nat, n: nat): seq<Cell>
    decreases n - r
  {
    if r >= n then [] else seq(n, c => (r, c)) + RowsFrom(r + 1, n)
  }

  lemma {:induction false} RowsFromShape(r: nat, n: nat)
    ensures forall x :: x in RowsFrom(r, n) <==> r <= x.0 < n && 0 <= x.1 < n
    ensures Distinct(RowsFrom(r, n))
    decreases n - r
  {
    if r < n {
      RowsFromShape(r + 1, n);
      var row := seq(n, c => (r, c));
      var rest := RowsFrom(r + 1, n);
      assert RowsFrom(r, n) == row + rest;
      assert forall x :: x in row <==> x.0 == r && 0 <= x.1 < n by {
        forall x: Cell | x.0 == r && 0 <= x.1 < n
          ensures x in row
        {
          assert row[x.1] == x;
        }
      }
      forall i, j | 0 <= i < j < |row + rest|
        ensures (row + rest)[i] != (row + rest)[j]
      {
        if j < |row| {
        } else if i >= |row| {
          assert (row + rest)[i] == rest[i - |row|];
        } else {
          assert (row + rest)[j] in rest;
        }
      }
    }
  }

  /** Keys never increase along the sequence. */
  predicate Descending(keys: map<Cell, real>, s: seq<Cell>) {
    forall i, j :: 0 <= i < j < |s| ==> Key(keys, s[i]) >= Key(keys, s[j])
  }

  /** Insert a node after every node with a key at least its own. */
  function InsertRanked(keys: map<Cell, real>, x: Cell, s: seq<Cell>): seq<Cell>
    decreases |s|
  {
    if |s| == 0 then [x]
    else if Key(keys, s[0]) < Key(keys, x) then [x] + s
    else [s[0]] + InsertRanked(keys, x, s[1..])
  }

  lemma {:induction false} InsertRankedSpec(keys: map<Cell, real>, x: Cell, s: seq<Cell>)
    requires Descending(keys, s)
    ensures forall y :: y in InsertRanked(keys, x, s) <==> y in s || y == x
    ensures Descending(keys, InsertRanked(keys, x, s))
    ensures Distinct(s) && x !in s ==> Distinct(InsertRanked(keys, x, s))
  {
    InsertRankedMembers(keys, x, s);
    InsertRankedOrder(keys, x, s);
    if Distinct(s) && x !in s {
      InsertRankedDistinct(keys, x, s);
    }
  }

  /** Insertion adds exactly the new node. */
  lemma {:induction false} InsertRankedMembers(keys: map<Cell, real>, x: Cell, s: seq<Cell>)
    ensures forall y :: y in InsertRanked(keys, x, s) <==> y in s || y == x
    decreases |s|
  {
    if |s| > 0 && Key(keys, s[0]) >= Key(keys, x) {
      InsertRankedMembers(keys, x, s[1..]);
      assert s == [s[0]] + s[1..];
    }
  }

  /** Insertion keeps the keys descending. */
  lemma {:induction false} InsertRankedOrder(keys: map<Cell, real>, x: Cell, s: seq<Cell>)
    requires Descending(keys, s)
    ensures Descending(keys, InsertRanked(keys, x, s))
    decreases |s|
  {
    if |s| > 0 && Key(keys, s[0]) >= Key(keys, x) {
      var rest := InsertRanked(keys, x, s[1..]);
      InsertRankedOrder(keys, x, s[1..]);
      InsertRankedMembers(keys, x, s[1..]);
      var r := [s[0]] + rest;
      forall j | 0 < j < |r|
        ensures Key(keys, r[0]) >= Key(keys, r[j])
      {
        assert r[j] in rest;
        if r[j] != x {
          var k :| 0 <= k < |s[1..]| && s[1..][k] == r[j];
          assert s[k + 1] == r[j];
        }
      }
      forall i, j | 0 <= i < j < |r|
        ensures Key(keys, r[i]) >= Key(keys, r[j])
      {
        if i > 0 {
          assert r[i] == rest[i - 1] && r[j] == rest[j - 1];
        }
      }
    } else if |s| > 0 {
      var r := [x] + s;
      forall i, j | 0 <= i < j < |r|
        ensures Key(keys, r[i]) >= Key(keys, r[j])
      {
        if i == 0 {
          assert r[j] == s[j - 1];
        } else {
          assert r[i] == s[i - 1] && r[j] == s[j - 1];
        }
      }
    }
  }

  /** Inserting a node not yet present keeps the nodes distinct. */
  lemma {:induction false} InsertRankedDistinct(keys: map<Cell, real>, x: Cell, s: seq<Cell>)
    requires Distinct(s) && x !in s
    ensures Distinct(InsertRanked(keys, x, s))
    decreases |s|
  {
    if |s| > 0 && Key(keys, s[0]) >= Key(keys, x) {
      var rest := InsertRanked(keys, x, s[1..]);
      assert x !in s[1..];
      InsertRankedDistinct(keys, x, s[1..]);
      InsertRankedMembers(keys, x, s[1..]);
      var r := [s[0]] + rest;
      forall i, j | 0 <= i < j < |r|
        ensures r[i] != r[j]
      {
        if i > 0 {
          assert r[i] == rest[i - 1] && r[j] == rest[j - 1];
        } else {
          assert r[j] in rest;
          assert s[0] !in s[1..];
        }
      }
    }
  }

  /** The members among the listed cells, ranked by descending key; cells
      with equal keys keep their order in the list. */
  function RankOf(keys: map<Cell, real>, members: set<Cell>, cells: seq<Cell>): seq<Cell>
    decreases |cells|
  {
    if |cells| == 0 then []
    else
      var rest := RankOf(keys, members, cells[..|cells| - 1]);
      var x := cells[|cells| - 1];
      if x in members then InsertRanked(keys, x, rest) else rest
  }

  lemma {:induction false} RankOfSpec(keys: map<Cell, real>, members: set<Cell>, cells: seq<Cell>)
    requires Distinct(cells)
    ensures forall y :: y in RankOf(keys, members, cells) <==> y in cells && y in members
    ensures Distinct(RankOf(keys, members, cells)) && Descending(keys, RankOf(keys, members, cells))
    decreases |cells|
  {
    if |cells| > 0 {
      var front := cells[..|cells| - 1];
      var x := cells[|cells| - 1];
      assert forall y :: y in cells <==> y in front || y == x;
      RankOfSpec(keys, members, front);
      InsertRankedSpec(keys, x, RankOf(keys, members, front));
      assert x !in front;
    }
  }

  /** The moves of a tree in reverse-iteration order: the members on the
      board from the highest key down (ties in row-major order, where the
      tree's own order among equal keys depends on its random priorities). */
  function Ranked(keys: map<Cell, real>, members: set<Cell>, n: nat): seq<Cell> {
    RankOf(keys, members, RowsFrom(0, n))
  }

  /** The consideration order lists every move of the tree on the board
      exactly once, from the highest key down. */
  lemma RankedSpec(keys: map<Cell, real>, members: set<Cell>, n: nat)
    ensures forall y :: y in Ranked(keys, members, n) <==> y in members && CellInBounds(n, y)
    ensures Distinct(Ranked(keys, members, n))
    ensures forall i, j :: 0 <= i < j < |Ranked(keys, members, n)| ==>
      Key(keys, Ranked(keys, members, n)[i]) >= Key(keys, Ranked(keys, members, n)[j])
  {
    RowsFromShape(0, n);
    RankOfSpec(keys, members, RowsFrom(0, n));
  }

  /** getMoveConsiderationOrder(maxNode): the own tree at max plies, the
      opponent's at min plies. */
  function Order(s: AgentState, n: nat, maxNode: bool): seq<Cell> {
    if maxNode then Ranked(s.ownKeys, s.ownMoves, n) else Ranked(s.otherKeys, s.otherMoves, n)
  }

  // ---------------------------------------------------------------------
  // evaluateBoard.
  // ---------------------------------------------------------------------

  /** What one cell adds to the evaluation: the own agent's key for an own
      piece, minus the opponent agent's key for an opponent piece. */
  function Contribution(s: AgentState, player: int, r: int, c: int): real
    requires 0 <= r < |s.cells| && 0 <= c < |s.cells[r]|
  {
    var piece := s.cells[r][c];
    if piece == player then Key(s.ownKeys, (r, c))
    else if piece == NextPlayer(player) then -Key(s.otherKeys, (r, c))
    else 0.0
  }

  /** The contributions of the first c cells of row r. */
  function RowSum(s: AgentState, n: nat, player: int, r: int, c: nat): real
    requires IsSquare(s.cells, n) && 0 <= r < n && c <= n
  {
    if c == 0 then 0.0 else RowSum(s, n, player, r, c - 1) + Contribution(s, player, r, c - 1)
  }

  /** The contributions of the first r rows. */
  function GridSum(s: AgentState, n: nat, player: int, r: nat): real
    requires IsSquare(s.cells, n) && r <= n
  {
    if r == 0 then 0.0 else GridSum(s, n, player, r - 1) + RowSum(s, n, player, r - 1, n)
  }

  /** evaluateBoard: the sum over the whole board. */
  function Evaluate(s: AgentState, n: nat, player: int): Num
    requires IsSquare(s.cells, n)
  {
    Fin(GridSum(s, n, player, n))
  }

  /** Only the cells of player and opponent count, each through its own
      agent's key: two states with the same board whose own keys agree on the
      own pieces and whose opponent keys agree on the opponent's pieces
      evaluate alike, whatever the keys of the empty cells. */
  lemma {:induction false} GridSumOccupiedOnly(s: AgentState, t: AgentState, n: nat, player: int, r: nat)
    requires IsSquare(s.cells, n) && t.cells == s.cells && r <= n
    requires forall i, j :: 0 <= i < n && 0 <= j < n && s.cells[i][j] == player ==> Key(s.ownKeys, (i, j)) == Key(t.ownKeys, (i, j))
    requires forall i, j :: 0 <= i < n && 0 <= j < n && s.cells[i][j] == NextPlayer(player) ==>
      Key(s.otherKeys, (i, j)) == Key(t.otherKeys, (i, j))
    ensures GridSum(s, n, player, r) == GridSum(t, n, player, r)
  {
    if r > 0 {
      GridSumOccupiedOnly(s, t, n, player, r - 1);
      RowSumOccupiedOnly(s, t, n, player, r - 1, n);
    }
  }

  lemma {:induction false} RowSumOccupiedOnly(s: AgentState, t: AgentState, n: nat, player: int, r: int, c: nat)
    requires IsSquare(s.cells, n) && t.cells == s.cells && 0 <= r < n && c <= n
    requires forall i, j :: 0 <= i < n && 0 <= j < n && s.cells[i][j] == player ==> Key(s.ownKeys, (i, j)) == Key(t.ownKeys, (i, j))
    requires forall i, j :: 0 <= i < n && 0 <= j < n && s.cells[i][j] == NextPlayer(player) ==>
      Key(s.otherKeys, (i, j)) == Key(t.otherKeys, (i, j))
    ensures RowSum(s, n, player, r, c) == RowSum(t, n, player, r, c)
  {
    if c > 0 {
      RowSumOccupiedOnly(s, t, n, player, r, c - 1);
    }
  }

  /** An empty board evaluates to 0. */
  lemma {:induction false} GridSumEmpty(s: AgentState, n: nat, player: int, r: nat)
    requires IsSquare(s.cells, n) && AllEmpty(s.cells, n) && IsPlayer(player) && r <= n
    ensures GridSum(s, n, player, r) == 0.0
  {
    if r > 0 {
      GridSumEmpty(s, n, player, r - 1);
      RowSumEmpty(s, n, player, r - 1, n);
    }
  }

  lemma {:induction false} RowSumEmpty(s: AgentState, n: nat, player: int, r: int, c: nat)
    requires IsSquare(s.cells, n) && AllEmpty(s.cells, n) && IsPlayer(player) && 0 <= r < n && c <= n
    ensures RowSum(s, n, player, r, c) == 0.0
  {
    if c > 0 {
      RowSumEmpty(s, n, player, r, c - 1);
    }
  }

  // ---------------------------------------------------------------------
  // The visitor.
  // ---------------------------------------------------------------------

  /** The visitor the session registers, for an n x n board and the AI's
      player: candidates from the trees, a move node's cell as its location,
      no terminal nodes (isTerminalNode compares the key with Agent.WIN,
      which the agent never defines, so the comparison is always false), and
      no early rejection.  The guards only matter for states the session
      never reaches. */
  function AgentVisitor(n: nat, player: int): (v: Visitor<AgentState, Cell, Memento>)
    ensures forall s, m :: !v.isTerminal(s, m)
    ensures forall s, m, depth :: !v.earlyReject(s, m, depth)
    ensures forall m :: v.moveRC(m) == m
    ensures forall s :: !v.evaluate(s).NaN?
    ensures forall s, maxNode :: v.order(s, maxNode) == Order(s, n, maxNode)
    ensures forall s, m, maxNode :: v.makeMove(s, m, maxNode) == VisitMakeMove(n, player, s, m, maxNode)
    ensures forall s, m, k :: v.revertMove(s, m, k) == VisitRevertMove(s, m, k)
  {
    RegisterVisitorMethods(
      (s: AgentState, maxNode: bool) => Order(s, n, maxNode),
      (m: Cell) => m,
      (s: AgentState) => s.cells,
      (s: AgentState, m: Cell) => false,
      (s: AgentState, m: Cell, maxNode: bool) => VisitMakeMove(n, player, s, m, maxNode),
      (s: AgentState, m: Cell, k: Memento) => VisitRevertMove(s, m, k),
      (s: AgentState) => if IsSquare(s.cells, n) then Evaluate(s, n, player) else Fin(0.0),
      None)
  }

  /** A move on an empty cell keeps the index exact and its revert gives
      the state back. */
  lemma PlayedLawful(s: AgentState, n: nat, player: int, x: Cell, piece: int)
    requires Indexed(s, n) && n <= SPACE_MAX && IsEmptyAt(s.cells, x) && piece != EMPTY
    ensures CellInBounds(n, x)
    ensures Indexed(Played(s, n, player, x, piece).0, n)
    ensures Reverted(Played(s, n, player, x, piece).0, x, Played(s, n, player, x, piece).1) == s
  {
    PlayedReverts(s, n, player, x, piece);
    PlayedIndexed(s, n, player, x, piece);
  }

  /** The visitor's makeMove: the own piece at max plies, the opponent's at
      min plies. */
  function VisitMakeMove(n: nat, player: int, s: AgentState, m: Cell, maxNode: bool): (AgentState, Memento) {
    if Fits(s, n) && n <= SPACE_MAX && CellInBounds(n, m)
    then Played(s, n, player, m, if maxNode then player else NextPlayer(player))
    else (s, Memento([], []))
  }

  /** The visitor's revertMove. */
  function VisitRevertMove(s: AgentState, m: Cell, k: Memento): AgentState {
    if 0 <= m.0 < |s.cells| && 0 <= m.1 < |s.cells[m.0]| then Reverted(s, m, k) else s
  }

  /** The visitor keeps its contract with the search: from an exact index,
      a move keeps the index exact and reverting it restores the state. */
  lemma AgentVisitorLawful(n: nat, player: int)
    requires n <= SPACE_MAX && IsPlayer(player)
    ensures Lawful(AgentVisitor(n, player), s => Indexed(s, n))
  {
    var v := AgentVisitor(n, player);
    forall s, m, maxNode | Indexed(s, n) && IsEmptyAt(v.board(s), v.moveRC(m)) && !v.isTerminal(s, m)
      ensures Indexed(v.makeMove(s, m, maxNode).0, n)
      ensures v.revertMove(v.makeMove(s, m, maxNode).0, m, v.makeMove(s, m, maxNode).1) == s
    {
      AgentVisitorMove(n, player, s, m, maxNode);
    }
  }

  /** One move of the visitor from an exact index, and its revert. */
  lemma AgentVisitorMove(n: nat, player: int, s: AgentState, m: Cell, maxNode: bool)
    requires n <= SPACE_MAX && IsPlayer(player) && Indexed(s, n) && IsEmptyAt(s.cells, m)
    ensures Indexed(VisitMakeMove(n, player, s, m, maxNode).0, n)
    ensures VisitRevertMove(VisitMakeMove(n, player, s, m, maxNode).0, m, VisitMakeMove(n, player, s, m, maxNode).1) == s
  {
    var piece := if maxNode then player else NextPlayer(player);
    PlayedLawful(s, n, player, m, piece);
    var t := Played(s, n, player, m, piece);
    assert VisitMakeMove(n, player, s, m, maxNode) == t;
    assert |t.0.cells| == n && |t.0.cells[m.0]| == n;
    assert VisitRevertMove(t.0, m, t.1) == Reverted(t.0, m, t.1);
  }

  /** Alpha-beta over the agent session is sound: it leaves the state as it
      found it, and under any open window its value is fail-soft with
      respect to plain minimax over the same candidates (exact under the
      full window). */
  lemma AgentSearchSound(n: nat, player: int, s: AgentState, depth: nat, maxNode: bool, alpha: Num, beta: Num)
    requires n <= SPACE_MAX && IsPlayer(player) && Indexed(s, n) && Lt(alpha, beta)
    ensures AlphaBeta(AgentVisitor(n, player), s, depth, maxNode, alpha, beta).state == s
    ensures FailSoft(AlphaBeta(AgentVisitor(n, player), s, depth, maxNode, alpha, beta).value,
                     Minimax(AgentVisitor(n, player), s, depth, maxNode), alpha, beta)
    ensures AlphaBeta(AgentVisitor(n, player), s, depth, maxNode, NegInf, PosInf).value
         == Minimax(AgentVisitor(n, player), s, depth, maxNode)
  {
    var v := AgentVisitor(n, player);
    var inv := s => Indexed(s, n);
    AgentVisitorLawful(n, player);
    assert NoTerminal(v);
    assert NeverNaN(v);
    AlphaBetaRestores(v, inv, s, depth, maxNode, alpha, beta);
    AlphaBetaSound(v, inv, s, depth, maxNode, alpha, beta);
    AlphaBetaFullWindow(v, inv, s, depth, maxNode);
  }

  // ---------------------------------------------------------------------
  // updateAfterMove, as written and as intended.
  // ---------------------------------------------------------------------

  /** updateAfterMove as written: the board write, and nothing else, since
      the next statement calls updateMoveScoresAfterMove on the agent's move
      tree, which has no such method, and throws. */
  function WrittenOnly(s: AgentState, x: Cell, piece: int): AgentState
    requires 0 <= x.0 < |s.cells| && 0 <= x.1 < |s.cells[x.0]|
  {
    s.(cells := Write(s.cells, x.0, x.1, piece))
  }

  /** After an opponent's move reported through updateAfterMove as written,
      the index is no longer exact: both trees still offer the occupied cell
      as a move. */
  lemma WrittenOnlyStale(s: AgentState, n: nat, x: Cell, piece: int)
    requires Indexed(s, n) && IsEmptyAt(s.cells, x) && piece != EMPTY
    ensures var t := WrittenOnly(s, x, piece);
      !Indexed(t, n) && x in t.ownMoves && x in t.otherMoves && !IsEmptyAt(t.cells, x)
  {
    InAllCells(n, x);
    var t := WrittenOnly(s, x, piece);
    assert x in t.ownMoves;
    assert x !in EmptyCells(t.cells, n);
  }

  // ---------------------------------------------------------------------
  // The session object.
  // ---------------------------------------------------------------------

  /** The objects an agent's index update may change. */
  ghost function Parts(a: Agent): set<object> {
    {a, a.linking, a.blocking}
  }

  /** AgentSession: the state every session has, the board, and two agents
      over that same board, one for the AI's player and one for its
      opponent. */
  class AgentSession {
    const base: Session
    const board: Board
    const own: Agent
    const other: Agent

    /** The session, both agents and their evaluators are wired over one
        board, and each agent's index has a node for every cell. */
    ghost predicate Wired()
      reads this, base, board, own, other, own.linking, own.blocking, other.linking, other.blocking
    {
      base.board == board && own.board == board && other.board == board &&
      own != other && own.linking != other.linking && own.blocking != other.blocking &&
      Parts(own) !! Parts(other) &&
      own.Valid() && other.Valid() && other.player == own.otherPlayer
    }

    /** The board and both indexes, as a value. */
    function State(): AgentState
      reads board, own, other
    {
      AgentState(board.cells, own.nodeKeys, own.moveScores, other.nodeKeys, other.moveScores)
    }

    /** Wired, and each move tree holds exactly the empty cells. */
    ghost predicate Valid()
      reads this, base, board, own, other, own.linking, own.blocking, other.linking, other.blocking
    {
      Wired() && Indexed(State(), board.size)
    }

    /** The visitor methods the session registers. */
    function Visitor(): Visitor<AgentState, Cell, Memento> {
      AgentVisitor(board.size, own.player)
    }

    constructor (newBoard: Board, player: int)
      requires newBoard.Valid() && newBoard.size <= SPACE_MAX && IsPlayer(player)
      ensures Valid() && board == newBoard && own.player == player
      ensures State() == Fresh(newBoard.cells, newBoard.size, player)
      ensures base.playing && base.searchDepth == 5
    {
      base := new Session(newBoard);
      board := newBoard;
      var ownAgent := new Agent(newBoard, player);
      var otherAgent := new Agent(newBoard, ownAgent.otherPlayer);
      own := ownAgent;
      other := otherAgent;
    }

    /** updateAfterMove({r, c}, player) as written: the piece lands on the
        board and the call throws before either index is updated. */
    method UpdateAfterMove(x: Cell, player: int) returns (thrown: bool)
      requires Wired() && CellInBounds(board.size, x)
      modifies board
      ensures Wired() && thrown
      ensures State() == WrittenOnly(old(State()), x, player)
    {
      board.Put(x.0, x.1, player);
      // the tree has no updateMoveScoresAfterMove method: a TypeError
      thrown := true;
    }

    /** updateAfterMove as intended: the piece lands on the board and both
        agents update their indexes, exactly as for a searched move, so the
        index stays exact. */
    method ApplyExternalMove(x: Cell, player: int)
      requires Valid() && CellInBounds(board.size, x) && IsPlayer(player)
      modifies board, own, own.linking, own.blocking, other, other.linking, other.blocking
      ensures Valid()
      ensures State() == Played(old(State()), board.size, own.player, x, player).0
    {
      var _ := Place(x, player);
    }

    /** stopPlaying: the session stops. */
    method StopPlaying()
      modifies base
      ensures !base.playing && base.searchDepth == old(base.searchDepth)
    {
      base.StopPlaying();
    }

    /** getAgentMoveScores(agent): every node's key, as a grid. */
    static method GetAgentMoveScores(agent: Agent) returns (scores: seq<seq<real>>)
      requires agent.Valid()
      ensures |scores| == agent.board.size
      ensures forall r :: 0 <= r < |scores| ==> |scores[r]| == agent.board.size
      ensures forall r, c :: 0 <= r < agent.board.size && 0 <= c < agent.board.size ==>
        (r, c) in agent.nodeKeys && scores[r][c] == agent.nodeKeys[(r, c)]
    {
      var n := agent.board.size;
      scores := [];
      var r := 0;
      while r < n
        invariant 0 <= r <= n && |scores| == r
        invariant forall i :: 0 <= i < r ==> |scores[i]| == n
        invariant forall i, j :: 0 <= i < r && 0 <= j < n ==> (i, j) in agent.nodeKeys && scores[i][j] == agent.nodeKeys[(i, j)]
      {
        var row: seq<real> := [];
        var c := 0;
        while c < n
          invariant 0 <= c <= n && |row| == c
          invariant forall j :: 0 <= j < c ==> (r, j) in agent.nodeKeys && row[j] == agent.nodeKeys[(r, j)]
        {
          InAllCells(n, (r, c));
          row := row + [agent.nodeKeys[(r, c)]];
          c := c + 1;
        }
        scores := scores + [row];
        r := r + 1;
      }
    }

    /** getMoveConsiderationOrder(maxNode): the own agent's tree at max
        plies, the opponent agent's at min plies, each from the highest key
        down. */
    method GetMoveConsiderationOrder(maxNode: bool) returns (moves: seq<Cell>)
      requires Valid()
      ensures moves == Order(State(), board.size, maxNode)
      ensures forall y :: y in moves <==> y in (if maxNode then own.moveScores else other.moveScores)
      ensures Distinct(moves)
      ensures var keys := if maxNode then own.nodeKeys else other.nodeKeys;
        forall i, j :: 0 <= i < j < |moves| ==> Key(keys, moves[i]) >= Key(keys, moves[j])
    {
      if maxNode {
        moves := Ranked(own.nodeKeys, own.moveScores, board.size);
        RankedSpec(own.nodeKeys, own.moveScores, board.size);
      } else {
        moves := Ranked(other.nodeKeys, other.moveScores, board.size);
        RankedSpec(other.nodeKeys, other.moveScores, board.size);
      }
      forall y | y in own.moveScores || y in other.moveScores
        ensures CellInBounds(board.size, y)
      {
        InAllCells(board.size, y);
      }
    }

    /** makeMove({r, c}, maxNode): the own player's piece at max plies, the
        opponent's at min plies. */
    method MakeMove(m: Cell, maxNode: bool) returns (memento: Memento)
      requires Valid() && CellInBounds(board.size, m)
      modifies board, own, own.linking, own.blocking, other, other.linking, other.blocking
      ensures Valid()
      ensures (State(), memento) == Played(old(State()), board.size, own.player, m, if maxNode then own.player else own.otherPlayer)
    {
      memento := Place(m, if maxNode then own.player else own.otherPlayer);
    }

    /** The piece lands on the board and both agents update their indexes:
        the index stays exact and the state is the one Played describes. */
    method Place(m: Cell, piece: int) returns (memento: Memento)
      requires Valid() && CellInBounds(board.size, m) && IsPlayer(piece)
      modifies board, own, own.linking, own.blocking, other, other.linking, other.blocking
      ensures Valid()
      ensures (State(), memento) == Played(old(State()), board.size, own.player, m, piece)
    {
      ghost var before := State();
      memento := PlaceSteps(m, piece);
      PlayedParts(before, board.size, own.player, m, piece);
      assert (State(), memento) == Played(before, board.size, own.player, m, piece);
      PlayedIndexed(before, board.size, own.player, m, piece);
    }

    /** The steps of a move: write the piece, then each agent erases the
        move from its tree and re-keys the star around it; the memento
        holds both undo logs. */
    method PlaceSteps(m: Cell, piece: int) returns (memento: Memento)
      requires Wired() && CellInBounds(board.size, m)
      modifies board, own, own.linking, own.blocking, other, other.linking, other.blocking
      ensures Wired()
      ensures board.cells == Write(old(board.cells), m.0, m.1, piece)
      ensures own.nodeKeys == Rekeyed(old(own.nodeKeys), board.cells, Scores(board.cells, board.size, own.player), Rays(board.size, m.0, m.1))
      ensures other.nodeKeys == Rekeyed(old(other.nodeKeys), board.cells, Scores(board.cells, board.size, other.player), Rays(board.size, m.0, m.1))
      ensures own.moveScores == old(own.moveScores) - {m} && other.moveScores == old(other.moveScores) - {m}
      ensures memento == Memento(MoveLog(old(own.nodeKeys), board.size, m.0, m.1), MoveLog(old(other.nodeKeys), board.size, m.0, m.1))
    {
      board.Put(m.0, m.1, piece);
      var oldScores := UpdateAgent(own, other, m);
      var otherOldScores := UpdateAgent(other, own, m);
      memento := Memento(oldScores, otherOldScores);
    }

    /** One agent's updateMoveScoresAfterMove, leaving the other agent over
        the same board as it was. */
    static method UpdateAgent(a: Agent, b: Agent, m: Cell) returns (log: seq<LogEntry>)
      requires a.Valid() && b.Valid() && a.board == b.board && Parts(a) !! Parts(b) && CellInBounds(a.board.size, m)
      modifies a, a.linking, a.blocking
      ensures a.Valid() && b.Valid()
      ensures log == MoveLog(old(a.nodeKeys), a.board.size, m.0, m.1)
      ensures a.nodeKeys == Rekeyed(old(a.nodeKeys), a.board.cells, Scores(a.board.cells, a.board.size, a.player), Rays(a.board.size, m.0, m.1))
      ensures a.moveScores == old(a.moveScores) - {m}
    {
      assert b !in Parts(a) && b.linking !in Parts(a) && b.blocking !in Parts(a);
      log := a.UpdateMoveScoresAfterMove(m.0, m.1);
    }

    /** revertMove({r, c}, memento): clear the cell, then both agents replay
        their undo logs. */
    method RevertMove(m: Cell, memento: Memento)
      requires Wired() && CellInBounds(board.size, m)
      requires forall i :: 0 <= i < |memento.oldScores| ==> CellInBounds(board.size, EntryCell(memento.oldScores[i]))
      requires forall i :: 0 <= i < |memento.otherOldScores| ==> CellInBounds(board.size, EntryCell(memento.otherOldScores[i]))
      modifies board, own, other
      ensures Wired()
      ensures State() == Reverted(old(State()), m, memento)
    {
      board.Put(m.0, m.1, EMPTY);
      own.RevertMoveScores(memento.oldScores);
      other.RevertMoveScores(memento.otherOldScores);
    }

    /** evaluateBoard: own pieces count their own agent's key, opponent
        pieces minus the opponent agent's key, row by row. */
    method EvaluateBoard() returns (score: Num)
      requires Wired()
      ensures score == Evaluate(State(), board.size, own.player)
    {
      var n := board.size;
      var total := 0.0;
      var r := 0;
      while r < n
        invariant 0 <= r <= n && total == GridSum(State(), n, own.player, r)
      {
        var c := 0;
        while c < n
          invariant 0 <= c <= n && total == GridSum(State(), n, own.player, r) + RowSum(State(), n, own.player, r, c)
        {
          var piece := board.cells[r][c];
          InAllCells(n, (r, c));
          if piece == own.player {
            total := total + own.nodeKeys[(r, c)];
          } else if piece == other.player {
            total := total - other.nodeKeys[(r, c)];
          }
          c := c + 1;
        }
        r := r + 1;
      }
      score := Fin(total);
    }

    /** getMove: the search over the session's visitor from the current
        state, to the session's depth; the search leaves the state as it
        found it. `thrown` is the TypeError of getMoveRC reading `r` off a
        `null` entry of the principal variation. */
    method GetMove() returns (best: Option<Cell>, thrown: bool)
      requires Valid()
      ensures var o := AlphaBeta(Visitor(), State(), base.searchDepth, true, Fin(LOSS), Fin(WIN));
        (thrown <==> HasNull(o.pv)) && (!thrown ==> best == LastMove(o.pv))
      ensures !thrown && base.searchDepth > 0 ==> best.Some?
    {
      var after;
      best, thrown, after := Search.GetMove(Visitor(), State(), base.searchDepth);
    }
  }
}
