/** The server's authoritative rules of one game: two join slots, turn,
    status and occupancy checks on a move, and five-in-a-row detection along
    the four axes through the placed piece.

    The transitions are functions on a value of the game's fields; the Game
    class holds those fields, updates them in place, and each of its methods
    is proved to perform the corresponding transition. */
module Games {
  import opened Defines
  import opened Grids

  /** Default side of the square board. */
  const DEFAULT_SIZE: nat := 19
  /** Pieces in a row needed to win. */
  const REQ_CONNECT: nat := 5

  /** The game status; the source keeps it as one of four message strings. */
  datatype Status = WaitingForJoin | InProgress | WinP1 | WinP2

  function StatusMessage(s: Status): string {
    match s
    case WaitingForJoin => "waiting for players to join"
    case InProgress => "in progress"
    case WinP1 => "player 1 won"
    case WinP2 => "player 2 won"
  }

  /** Each status has its own message, so a reported message names the
      status it came from. */
  lemma StatusMessageInjective(a: Status, b: Status)
    ensures StatusMessage(a) == StatusMessage(b) ==> a == b
  {
    if StatusMessage(a) == StatusMessage(b) {
      assert |StatusMessage(a)| == |StatusMessage(b)|;
      assert StatusMessage(a)[7] == StatusMessage(b)[7];
    }
  }

  /** A player slot or a name holds a value JavaScript treats as true: not
      null and not the empty string. */
  predicate Truthy(name: Option<string>) {
    name.Some? && name.value != ""
  }

  /** The fields of a game. */
  datatype GameState = GameState(size: nat, board: Grid, playerTurn: int, players: seq<Option<string>>, status: Status)

  ghost predicate WellFormed(s: GameState) {
    IsSquare(s.board, s.size) && IsPlayer(s.playerTurn) && |s.players| == 2
  }

  function EmptyGrid(n: nat): (g: Grid)
    ensures IsSquare(g, n) && AllEmpty(g, n)
  {
    seq(n, i => seq(n, j => EMPTY))
  }

  /** A new game: an empty board, player 1 to move, both slots free. */
  /** The size a new game takes: the `size` of its creation data when given,
      otherwise the default that `Object.assign` copies in first. */
  function SizeOf(size: Option<nat>): (n: nat)
    ensures n == DEFAULT_SIZE || size == Some(n)
  {
    match size
    case Some(n) => n
    case None => DEFAULT_SIZE
  }

  function NewGame(size: nat): (s: GameState)
    ensures WellFormed(s)
  {
    GameState(size, EmptyGrid(size), P1, [None, None], WaitingForJoin)
  }

  // ---------------------------------------------------------------------
  // join
  // ---------------------------------------------------------------------

  /** join(name): the first free slot takes the name; taking the second
      starts a waiting game; with both slots taken the join fails with 0. */
  function Joined(s: GameState, name: string): (res: (int, GameState))
    requires WellFormed(s)
  {
    if !Truthy(s.players[P1 - 1]) then (P1, s.(players := s.players[P1 - 1 := Some(name)]))
    else if !Truthy(s.players[P2 - 1]) then
      (P2, s.(players := s.players[P2 - 1 := Some(name)],
              status := if s.status == WaitingForJoin then InProgress else s.status))
    else (0, s)
  }

  /** Joining fills slot 1, then slot 2 (moving a waiting game into play),
      and fails without any change once both slots hold names; nothing but
      the slots and the status changes. */
  lemma JoinSlots(s: GameState, name: string)
    requires WellFormed(s)
    ensures var (slot, t) := Joined(s, name);
      WellFormed(t) && t.board == s.board && t.playerTurn == s.playerTurn && t.size == s.size &&
      (slot == P1 <==> !Truthy(s.players[0])) &&
      (slot == P1 ==> t.players == [Some(name), s.players[1]] && t.status == s.status) &&
      (slot == P2 <==> Truthy(s.players[0]) && !Truthy(s.players[1])) &&
      (slot == P2 ==> t.players == [s.players[0], Some(name)] &&
                      t.status == (if s.status == WaitingForJoin then InProgress else s.status)) &&
      (slot == 0 <==> Truthy(s.players[0]) && Truthy(s.players[1])) &&
      (slot == 0 ==> t == s)
  {
  }

  /** Three players with non-empty names join a new game: the first gets
      slot 1, the second slot 2 and starts the game, the third is refused. */
  lemma {:induction false} ThreeJoins(size: nat, a: string, b: string, c: string)
    requires a != "" && b != ""
    ensures var (s1, g1) := Joined(NewGame(size), a);
            var (s2, g2) := Joined(g1, b);
            var (s3, g3) := Joined(g2, c);
      s1 == P1 && s2 == P2 && s3 == 0 &&
      g1.status == WaitingForJoin && g2.status == InProgress && g3 == g2 &&
      g2.players == [Some(a), Some(b)]
  {
    var (s1, g1) := Joined(NewGame(size), a);
    assert g1.players == [Some(a), None];
    var (s2, g2) := Joined(g1, b);
    assert g2.players == [Some(a), Some(b)];
  }

  // ---------------------------------------------------------------------
  // Five in a row.
  // ---------------------------------------------------------------------

  /** The four axes of updateStatus, each as the direction scanned first; the
      second scan goes the opposite way. */
  const AXES: seq<Cell> := [(0, -1), (-1, 0), (-1, 1), (-1, -1)]

  function Opposite(d: Cell): Cell {
    (-d.0, -d.1)
  }

  predicate IsUnitDir(d: Cell) {
    -1 <= d.0 <= 1 && -1 <= d.1 <= 1 && d != (0, 0)
  }

  /** The number of consecutive cells holding `player` from m steps away
      from (r, c) in direction d on: the count stops at the first other cell
      or at the board edge. */
  function CountRun(g: Grid, n: nat, player: int, r: int, c: int, d: Cell, m: nat): nat
    requires IsSquare(g, n)
    decreases n + 1 - m
  {
    var x := Step(r, c, d.0, d.1, m);
    if m > n || !CellInBounds(n, x) || g[x.0][x.1] != player then 0
    else 1 + CountRun(g, n, player, r, c, d, m + 1)
  }

  /** The cells 1..k steps from (r, c) in direction d are on the board and
      all hold `player`. */
  ghost predicate RunOf(g: Grid, n: nat, player: int, r: int, c: int, d: Cell, k: nat)
    requires IsSquare(g, n)
  {
    forall i :: 1 <= i <= k ==>
      (CellInBounds(n, Step(r, c, d.0, d.1, i)) && g[Step(r, c, d.0, d.1, i).0][Step(r, c, d.0, d.1, i).1] == player)
  }

  /** The pieces counted in both directions plus the placed piece. */
  function Connected(g: Grid, n: nat, player: int, r: int, c: int, a: Cell): nat
    requires IsSquare(g, n)
  {
    1 + CountRun(g, n, player, r, c, a, 1) + CountRun(g, n, player, r, c, Opposite(a), 1)
  }

  /** Some axis through (r, c) connects REQ_CONNECT or more. */
  predicate Wins(g: Grid, n: nat, player: int, r: int, c: int)
    requires IsSquare(g, n)
  {
    exists i :: 0 <= i < |AXES| && Connected(g, n, player, r, c, AXES[i]) >= REQ_CONNECT
  }

  /** CountRun is the length of the maximal run: the run it counts is there,
      and it cannot be extended by one more cell. */
  lemma {:induction false} CountRunMaximal(g: Grid, n: nat, player: int, r: int, c: int, d: Cell, m: nat, k: nat)
    requires IsSquare(g, n) && InBounds(n, r, c) && IsUnitDir(d) && 1 <= m
    ensures var len := CountRun(g, n, player, r, c, d, m);
      (forall i :: m <= i < m + len ==>
         (CellInBounds(n, Step(r, c, d.0, d.1, i)) && g[Step(r, c, d.0, d.1, i).0][Step(r, c, d.0, d.1, i).1] == player)) &&
      ((forall i :: m <= i < m + k ==>
          (CellInBounds(n, Step(r, c, d.0, d.1, i)) && g[Step(r, c, d.0, d.1, i).0][Step(r, c, d.0, d.1, i).1] == player))
        ==> k <= len)
    decreases n + 1 - m
  {
    var x := Step(r, c, d.0, d.1, m);
    if !(m > n || !CellInBounds(n, x) || g[x.0][x.1] != player) {
      CountRunMaximal(g, n, player, r, c, d, m + 1, if k == 0 then 0 else k - 1);
    } else if m >= n {
      assert !CellInBounds(n, Step(r, c, d.0, d.1, m));
    }
  }

  /** A run of k cells of `player` from step 1 is counted in full. */
  lemma RunCounted(g: Grid, n: nat, player: int, r: int, c: int, d: Cell, k: nat)
    requires IsSquare(g, n) && InBounds(n, r, c) && IsUnitDir(d)
    ensures RunOf(g, n, player, r, c, d, CountRun(g, n, player, r, c, d, 1))
    ensures RunOf(g, n, player, r, c, d, k) ==> k <= CountRun(g, n, player, r, c, d, 1)
  {
    CountRunMaximal(g, n, player, r, c, d, 1, k);
  }

  /** The five-in-a-row test: updateStatus finds a win for `player` exactly
      when some axis through (r, c) has a contiguous line of at least
      REQ_CONNECT cells holding `player` that includes (r, c). */
  lemma WinsIffLine(g: Grid, n: nat, player: int, r: int, c: int)
    requires IsSquare(g, n) && InBounds(n, r, c)
    ensures Wins(g, n, player, r, c) <==>
      exists i, a: nat, b: nat :: 0 <= i < |AXES| && a + b + 1 >= REQ_CONNECT &&
        RunOf(g, n, player, r, c, AXES[i], a) && RunOf(g, n, player, r, c, Opposite(AXES[i]), b)
  {
    if Wins(g, n, player, r, c) {
      var i :| 0 <= i < |AXES| && Connected(g, n, player, r, c, AXES[i]) >= REQ_CONNECT;
      RunCounted(g, n, player, r, c, AXES[i], 0);
      RunCounted(g, n, player, r, c, Opposite(AXES[i]), 0);
      var a := CountRun(g, n, player, r, c, AXES[i], 1);
      var b := CountRun(g, n, player, r, c, Opposite(AXES[i]), 1);
      assert 0 <= i < |AXES| && a + b + 1 >= REQ_CONNECT &&
        RunOf(g, n, player, r, c, AXES[i], a) && RunOf(g, n, player, r, c, Opposite(AXES[i]), b);
    }
    if exists i, a: nat, b: nat :: 0 <= i < |AXES| && a + b + 1 >= REQ_CONNECT &&
        RunOf(g, n, player, r, c, AXES[i], a) && RunOf(g, n, player, r, c, Opposite(AXES[i]), b) {
      var i, a: nat, b: nat :| 0 <= i < |AXES| && a + b + 1 >= REQ_CONNECT &&
        RunOf(g, n, player, r, c, AXES[i], a) && RunOf(g, n, player, r, c, Opposite(AXES[i]), b);
      RunCounted(g, n, player, r, c, AXES[i], a);
      RunCounted(g, n, player, r, c, Opposite(AXES[i]), b);
    }
  }

  /** setWin(player): the status of that player's win. */
  function WonBy(s: GameState, player: int): GameState {
    if player == P1 then s.(status := WinP1)
    else if player == P2 then s.(status := WinP2)
    else s
  }

  /** updateStatus(player, location): the win status when some axis through
      the placed piece connects five, the status unchanged otherwise. */
  function StatusAfter(s: GameState, player: int, r: int, c: int): GameState
    requires WellFormed(s)
  {
    if Wins(s.board, s.size, player, r, c) then WonBy(s, player) else s
  }

  // ---------------------------------------------------------------------
  // move
  // ---------------------------------------------------------------------

  /** `board[r][c] !== 0`: a column off the board reads `undefined`, which is
      not 0 either. */
  predicate Occupied(s: GameState, r: int, c: int)
    requires WellFormed(s) && 0 <= r < s.size
  {
    !(0 <= c < s.size) || s.board[r][c] != EMPTY
  }

  /** The checks move makes before it looks at the board: the player's turn,
      a game in progress, and the name in the player's slot. */
  predicate Admitted(s: GameState, player: int, name: string)
    requires WellFormed(s)
  {
    player == s.playerTurn && s.status == InProgress && Some(name) == s.players[player - 1]
  }

  /** What move does: it answers (false with no change, or true with the
      piece placed), or, when the row is off the board, `board[r][c]` reads a
      property of undefined and throws before anything changes. */
  datatype MoveResult = Answered(ok: bool, state: GameState) | RowMissing

  /** move(player, name, {r, c}): refuse (false, no change), throw on a
      missing row, or place the piece, pass the turn and update the status. */
  function Moved(s: GameState, player: int, name: string, r: int, c: int): (res: MoveResult)
    requires WellFormed(s)
  {
    if player != s.playerTurn then Answered(false, s)
    else if s.status != InProgress then Answered(false, s)
    else if Some(name) != s.players[player - 1] then Answered(false, s)
    else if !(0 <= r < s.size) then RowMissing
    else if Occupied(s, r, c) then Answered(false, s)
    else
      var placed := s.(board := Write(s.board, r, c, player), playerTurn := NextPlayer(player));
      Answered(true, StatusAfter(placed, player, r, c))
  }

  predicate GameOver(s: GameState) {
    s.status == WinP1 || s.status == WinP2
  }

  /** A win status: the player who made the last move, and the message. */
  datatype WinStatus = WinStatus(player: int, message: string)

  /** getWinStatus: the winner is the player before the one to move. */
  function WinStatusOf(s: GameState): (w: WinStatus)
    requires IsPlayer(s.playerTurn)
    ensures IsPlayer(w.player) && w.player != s.playerTurn
  {
    WinStatus(NextPlayer(s.playerTurn), StatusMessage(s.status))
  }

  /** A move throws exactly when it passes the turn, status and name checks
      with its row off the board. Otherwise it is refused, leaving the game as
      it was, exactly on a wrong turn, a game not in progress, a name that is
      not the slot's, or a cell that is not empty; and when it is not refused
      it places the piece, passes the turn to the other player and leaves the
      slots alone. */
  lemma MoveOutcome(s: GameState, player: int, name: string, r: int, c: int)
    requires WellFormed(s)
    ensures var res := Moved(s, player, name, r, c);
      (res.RowMissing? <==> Admitted(s, player, name) && !(0 <= r < s.size)) &&
      (res.Answered? ==>
        var t := res.state;
        WellFormed(t) && t.size == s.size && t.players == s.players &&
        (res.ok <==> Admitted(s, player, name) && 0 <= r < s.size && !Occupied(s, r, c)) &&
        (!res.ok ==> t == s) &&
        (res.ok ==> InBounds(s.size, r, c) && t.board == Write(s.board, r, c, player) &&
                    t.playerTurn == NextPlayer(player) && IsPlayer(t.playerTurn) && t.playerTurn != player))
  {
  }

  /** After a successful move the game is won by the mover exactly when the
      placed piece completes a line of five or more on some axis; otherwise
      it stays in progress. */
  lemma MoveWins(s: GameState, player: int, name: string, r: int, c: int)
    requires WellFormed(s)
    requires Moved(s, player, name, r, c).Answered? && Moved(s, player, name, r, c).ok
    ensures InBounds(s.size, r, c)
    ensures var t := Moved(s, player, name, r, c).state;
      (GameOver(t) <==>
        (exists i, a: nat, b: nat :: 0 <= i < |AXES| && a + b + 1 >= REQ_CONNECT &&
           RunOf(t.board, t.size, player, r, c, AXES[i], a) && RunOf(t.board, t.size, player, r, c, Opposite(AXES[i]), b))) &&
      (GameOver(t) ==> t.status == (if player == P1 then WinP1 else WinP2) && WinStatusOf(t).player == player) &&
      (!GameOver(t) ==> t.status == InProgress)
  {
    var t := Moved(s, player, name, r, c).state;
    WinsIffLine(t.board, t.size, player, r, c);
  }

  /** Once a game is won every move, wherever it points, is refused and
      changes nothing. */
  lemma GameOverFinal(s: GameState, player: int, name: string, r: int, c: int)
    requires WellFormed(s) && GameOver(s)
    ensures Moved(s, player, name, r, c) == Answered(false, s)
  {
  }

  /** The state getState reports. */
  datatype StateReport = StateReport(status: string, players: seq<Option<string>>, turn: int)

  // ---------------------------------------------------------------------
  // The Game object.
  // ---------------------------------------------------------------------

  class Game {
    var size: nat
    var board: Grid
    var playerTurn: int
    var players: seq<Option<string>>
    var status: Status

    function State(): GameState
      reads this
    {
      GameState(size, board, playerTurn, players, status)
    }

    ghost predicate Valid()
      reads this
    {
      WellFormed(State())
    }

    /** new Game(data): a board of zeros whose side is data's size, or 19
        when data has none; player 1 to move, no players and waiting for
        them to join. */
    constructor (data: Option<nat>)
      ensures Valid() && State() == NewGame(SizeOf(data))
    {
      var size := SizeOf(data);
      this.size := size;
      var rows: Grid := [];
      var i := 0;
      while i < size
        invariant 0 <= i <= size && |rows| == i
        invariant forall k :: 0 <= k < i ==> rows[k] == seq(size, j => EMPTY)
      {
        rows := rows + [seq(size, j => EMPTY)];
        i := i + 1;
      }
      board := rows;
      playerTurn := P1;
      players := [None, None];
      status := WaitingForJoin;
    }

    method Join(name: string) returns (slot: int)
      requires Valid()
      modifies this
      ensures Valid() && (slot, State()) == Joined(old(State()), name)
    {
      if !Truthy(players[P1 - 1]) {
        players := players[P1 - 1 := Some(name)];
        return P1;
      }
      if !Truthy(players[P2 - 1]) {
        players := players[P2 - 1 := Some(name)];
        if status == WaitingForJoin {
          status := InProgress;
        }
        return P2;
      }
      return 0;
    }

    /** The run counted by one loop of updateStatus. */
    method CountDirection(player: int, rr: int, cc: int, d: Cell) returns (count: nat)
      requires Valid() && InBounds(size, rr, cc) && IsUnitDir(d)
      ensures count == CountRun(board, size, player, rr, cc, d, 1)
    {
      count := 0;
      var m := 1;
      while true
        invariant 1 <= m <= size + 1 && count == m - 1
        invariant CountRun(board, size, player, rr, cc, d, 1) == count + CountRun(board, size, player, rr, cc, d, m)
        decreases size + 1 - m
      {
        var x := Step(rr, cc, d.0, d.1, m);
        if !CellInBounds(size, x) || board[x.0][x.1] != player {
          break;
        }
        count := count + 1;
        m := m + 1;
      }
    }

    /** updateStatus(player, location): the row, the column, the forward and
        the backward diagonal through the piece, in that order; the first
        one with REQ_CONNECT or more connected sets the win. */
    method UpdateStatus(player: int, rr: int, cc: int)
      requires Valid() && InBounds(size, rr, cc)
      modifies this
      ensures Valid() && State() == StatusAfter(old(State()), player, rr, cc)
    {
      var i := 0;
      while i < |AXES|
        invariant 0 <= i <= |AXES| && State() == old(State())
        invariant forall k :: 0 <= k < i ==> Connected(board, size, player, rr, cc, AXES[k]) < REQ_CONNECT
      {
        var left := CountDirection(player, rr, cc, AXES[i]);
        var right := CountDirection(player, rr, cc, Opposite(AXES[i]));
        var connected := 1 + left + right;
        if connected >= REQ_CONNECT {
          var _ := SetWin(player);
          return;
        }
        i := i + 1;
      }
    }

    method SetWin(player: int) returns (winner: int)
      requires Valid()
      modifies this
      ensures Valid() && State() == WonBy(old(State()), player) && winner == player
    {
      if player == P1 {
        status := WinP1;
      } else if player == P2 {
        status := WinP2;
      }
      winner := player;
    }

    /** `thrown` stands for the TypeError of reading a row off the board. */
    method Move(player: int, name: string, r: int, c: int) returns (ok: bool, thrown: bool)
      requires Valid()
      modifies this
      ensures Valid()
      ensures thrown ==> !ok && State() == old(State()) && Moved(old(State()), player, name, r, c) == RowMissing
      ensures !thrown ==> Moved(old(State()), player, name, r, c) == Answered(ok, State())
    {
      thrown := false;
      // wrong player trying to make a move, or game over
      if player != playerTurn {
        return false, false;
      }
      if status != InProgress {
        return false, false;
      }
      if Some(name) != players[player - 1] {
        return false, false;
      }
      if !(0 <= r < size) {
        return false, true;
      }
      // something there
      if !(0 <= c < size) || board[r][c] != EMPTY {
        return false, false;
      }
      board := Write(board, r, c, player);
      // swap to the other player
      playerTurn := NextPlayer(player);
      UpdateStatus(player, r, c);
      return true, false;
    }

    /** The report a client sees; its message names a win exactly when
        the game is over, and it determines the status (StatusMessageInjective). */
    method GetState() returns (report: StateReport)
      ensures report == StateReport(StatusMessage(status), players, playerTurn)
      ensures report.status == StatusMessage(WinP1) || report.status == StatusMessage(WinP2)
        <==> status == WinP1 || status == WinP2
    {
      report := StateReport(StatusMessage(status), players, playerTurn);
    }

    method IsGameOver() returns (over: bool)
      ensures over <==> status == WinP1 || status == WinP2
    {
      over := status == WinP1 || status == WinP2;
    }

    method GetWinStatus() returns (w: WinStatus)
      requires Valid()
      ensures w == WinStatusOf(State())
    {
      w := WinStatus(NextPlayer(playerTurn), StatusMessage(status));
    }
  }
}
