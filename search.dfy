/** The generic game-tree search of the AI client (the `Session` base class):
    minimax with alpha-beta pruning, parameterised by the visitor methods a
    concrete session registers.

    The visitor is a record of functions over an abstract session state S (the
    board together with whatever the session keeps beside it), a move node M
    and a memento K.  The search threads the state through each hypothetical
    move: apply the move, search the child, revert with the same node and
    memento, and continue from the reverted state. */
module Search {
  import opened Defines
  import opened JsNumbers
  import opened Grids

  /** The visitor methods of a session. */
  datatype Visitor<!S, !M, !K> = Visitor(
    order: (S, bool) -> seq<M>,         // getMoveConsiderationOrder(maxNode)
    moveRC: M -> Cell,                  // getMoveRC(moveNode)
    board: S -> Grid,                   // the board the session shares with its visitor
    earlyReject: (S, M, nat) -> bool,   // earlyRejectHeuristic(moveNode, depth)
    isTerminal: (S, M) -> bool,         // isTerminalNode(moveNode)
    makeMove: (S, M, bool) -> (S, K),   // makeMove(moveNode, maxNode), returning the memento
    revertMove: (S, M, K) -> S,         // revertMove(moveNode, memento)
    evaluate: S -> Num)                 // evaluateBoard()

  /** registerVisitorMethods: the session's methods over a default
      early-reject heuristic that never vetoes a move. */
  function RegisterVisitorMethods<S(!new), M(!new), K>(
    order: (S, bool) -> seq<M>, moveRC: M -> Cell, board: S -> Grid,
    isTerminal: (S, M) -> bool, makeMove: (S, M, bool) -> (S, K),
    revertMove: (S, M, K) -> S, evaluate: S -> Num,
    earlyReject: Option<(S, M, nat) -> bool>): (v: Visitor<S, M, K>)
    ensures earlyReject == None ==> forall s, m, d :: !v.earlyReject(s, m, d)
    ensures earlyReject.Some? ==> v.earlyReject == earlyReject.value
    ensures v.order == order && v.moveRC == moveRC && v.board == board && v.isTerminal == isTerminal
    ensures v.makeMove == makeMove && v.revertMove == revertMove && v.evaluate == evaluate
  {
    var reject := if earlyReject.Some? then earlyReject.value else (s: S, m: M, d: nat) => false;
    Visitor(order, moveRC, board, reject, isTerminal, makeMove, revertMove, evaluate)
  }

  /** One searched candidate: the move, the window its child was searched
      with, and the child's value and move list. */
  datatype Trial<M> = Trial(move: M, alpha: Num, beta: Num, value: Num, pv: seq<Option<M>>)

  /** What one call of minimaxAB produces: the value and move list it returns,
      the state it leaves behind, the candidates it searched, and whether it
      stopped at a terminal candidate. */
  datatype Outcome<S, M> = Outcome(value: Num, pv: seq<Option<M>>, state: S, tried: seq<Trial<M>>, terminal: bool)

  /** The running best value a ply starts from: -Infinity or +Infinity. */
  function Start(maxNode: bool): Num {
    if maxNode then NegInf else PosInf
  }

  /** The value a ply takes when a terminal candidate is reached. */
  function TerminalValue(maxNode: bool): Num {
    if maxNode then Fin(WIN) else Fin(LOSS)
  }

  /** Strict improvement: `>` at max plies, `<` at min plies. */
  predicate Improves(maxNode: bool, x: Num, best: Num) {
    if maxNode then Gt(x, best) else Lt(x, best)
  }

  /** The candidate filter: the cell must be empty and not vetoed. */
  predicate Playable<S, M, K>(v: Visitor<S, M, K>, s: S, m: M, depth: nat) {
    IsEmptyAt(v.board(s), v.moveRC(m)) && !v.earlyReject(s, m, depth)
  }

  /** The last element of a move list; `undefined` (None) for an empty list. */
  function LastMove<M>(pv: seq<Option<M>>): Option<M> {
    if |pv| == 0 then None else pv[|pv| - 1]
  }

  /** The running variables of one ply of minimaxAB: best value and move so
      far, the window, the latest child's move list, and (ghost bookkeeping)
      the candidates searched so far. */
  datatype Ply<M> = Ply(value: Num, move: Option<M>, alpha: Num, beta: Num, prev: seq<Option<M>>, tried: seq<Trial<M>>)

  /** The ply a search of the given kind starts from. */
  function Initial<M>(maxNode: bool, alpha: Num, beta: Num): Ply<M> {
    Ply(Start(maxNode), None, alpha, beta, [], [])
  }

  /** Folding a searched child into the ply: a strictly better value becomes
      the best (with its move), a max ply raises alpha to it, a min ply lowers
      beta to it, and the child's move list becomes the latest one. */
  function Absorb<M>(maxNode: bool, p: Ply<M>, m: M, childValue: Num, childPv: seq<Option<M>>): (q: Ply<M>)
    ensures q.tried == p.tried + [Trial(m, p.alpha, p.beta, childValue, childPv)] && q.prev == childPv
    ensures Improves(maxNode, childValue, p.value) ==> q.value == childValue && q.move == Some(m)
    ensures !Improves(maxNode, childValue, p.value) ==> q.value == p.value && q.move == p.move
    ensures maxNode ==> q.beta == p.beta && q.alpha == (if Gt(q.value, p.alpha) then q.value else p.alpha)
    ensures !maxNode ==> q.alpha == p.alpha && q.beta == (if Lt(q.value, p.beta) then q.value else p.beta)
  {
    var improved := Improves(maxNode, childValue, p.value);
    var value := if improved then childValue else p.value;
    Ply(value, if improved then Some(m) else p.move,
        if maxNode && Gt(value, p.alpha) then value else p.alpha,
        if !maxNode && Lt(value, p.beta) then value else p.beta,
        childPv, p.tried + [Trial(m, p.alpha, p.beta, childValue, childPv)])
  }

  /** The outcome of a ply that stops with its current best. */
  function Finish<S, M>(p: Ply<M>, s: S): Outcome<S, M> {
    Outcome(p.value, p.prev + [p.move], s, p.tried, false)
  }

  /** minimaxAB(depth, maxNode, alpha, beta) as a function of the state. */
  function AlphaBeta<S, M, K>(v: Visitor<S, M, K>, s: S, depth: nat, maxNode: bool, alpha: Num, beta: Num): (r: Outcome<S, M>)
    ensures |r.pv| <= depth
    ensures depth > 0 ==> |r.pv| >= 1
    decreases depth, 1, 0
  {
    if depth == 0 then Outcome(v.evaluate(s), [], s, [], false)
    else AlphaBetaScan(v, depth, maxNode, v.order(s, maxNode), 0, s, Initial(maxNode, alpha, beta))
  }

  /** The candidate loop of minimaxAB from candidate i on. */
  function AlphaBetaScan<S, M, K>(v: Visitor<S, M, K>, depth: nat, maxNode: bool, cands: seq<M>, i: nat,
                                  s: S, p: Ply<M>): (r: Outcome<S, M>)
    requires 0 < depth && i <= |cands| && |p.prev| < depth
    ensures 1 <= |r.pv| <= depth
    decreases depth, 0, |cands| - i
  {
    if i == |cands| then Finish(p, s)
    else
      var m := cands[i];
      if !Playable(v, s, m, depth) then AlphaBetaScan(v, depth, maxNode, cands, i + 1, s, p)
      else if v.isTerminal(s, m) then Outcome(TerminalValue(maxNode), p.prev + [Some(m)], s, p.tried, true)
      else
        var (s1, memento) := v.makeMove(s, m, maxNode);
        var child := AlphaBeta(v, s1, depth - 1, !maxNode, p.alpha, p.beta);
        var s2 := v.revertMove(child.state, m, memento);
        var q := Absorb(maxNode, p, m, child.value, child.pv);
        if Le(q.beta, q.alpha) then Finish(q, s2)
        else AlphaBetaScan(v, depth, maxNode, cands, i + 1, s2, q)
  }

  /** Plain minimax over the same candidates, the same filter and the same
      terminal short-circuit, without pruning; children are searched from the
      state the move produces and the next candidate from the unchanged state. */
  function Minimax<S, M, K>(v: Visitor<S, M, K>, s: S, depth: nat, maxNode: bool): Num
    decreases depth, 1, 0
  {
    if depth == 0 then v.evaluate(s)
    else MinimaxScan(v, s, depth, maxNode, v.order(s, maxNode), 0, Start(maxNode))
  }

  function MinimaxScan<S, M, K>(v: Visitor<S, M, K>, s: S, depth: nat, maxNode: bool, cands: seq<M>, i: nat, value: Num): Num
    requires 0 < depth && i <= |cands|
    decreases depth, 0, |cands| - i
  {
    if i == |cands| then value
    else
      var m := cands[i];
      if !Playable(v, s, m, depth) then MinimaxScan(v, s, depth, maxNode, cands, i + 1, value)
      else if v.isTerminal(s, m) then TerminalValue(maxNode)
      else
        var child := Minimax(v, v.makeMove(s, m, maxNode).0, depth - 1, !maxNode);
        MinimaxScan(v, s, depth, maxNode, cands, i + 1, if Improves(maxNode, child, value) then child else value)
  }

  /** minimaxAB: the recursive search, one candidate after another. */
  method MinimaxAB<S, M, K>(v: Visitor<S, M, K>, s: S, depth: nat, maxNode: bool, alpha: Num, beta: Num)
    returns (value: Num, moves: seq<Option<M>>, s': S)
    ensures var o := AlphaBeta(v, s, depth, maxNode, alpha, beta);
      value == o.value && moves == o.pv && s' == o.state
    decreases depth
  {
    var prevMoves: seq<Option<M>> := [];
    var move: Option<M> := None;
    if depth == 0 {
      value := v.evaluate(s);
      return value, prevMoves, s;
    }
    var orderedMoves := v.order(s, maxNode);
    value := Start(maxNode);
    var a, b, state := alpha, beta, s;
    ghost var tried: seq<Trial<M>> := [];
    var i := 0;
    while i < |orderedMoves|
      invariant i <= |orderedMoves| && |prevMoves| < depth
      invariant AlphaBetaScan(v, depth, maxNode, orderedMoves, i, state, Ply(value, move, a, b, prevMoves, tried))
             == AlphaBeta(v, s, depth, maxNode, alpha, beta)
      decreases |orderedMoves| - i
    {
      var moveNode := orderedMoves[i];
      var rc := v.moveRC(moveNode);
      if !IsEmptyAt(v.board(state), rc) {
        // can only move if the spot is open
      } else if v.earlyReject(state, moveNode, depth) {
        // vetoed by the session's heuristic
      } else if v.isTerminal(state, moveNode) {
        value := TerminalValue(maxNode);
        move := Some(moveNode);
        break;
      } else {
        var (child, memento) := v.makeMove(state, moveNode, maxNode);
        var moveValue, childMoves, after := MinimaxAB(v, child, depth - 1, !maxNode, a, b);
        prevMoves := childMoves;
        state := v.revertMove(after, moveNode, memento);
        tried := tried + [Trial(moveNode, a, b, moveValue, childMoves)];
        if maxNode {
          if Gt(moveValue, value) {
            value := moveValue;
            move := Some(moveNode);
          }
          if Gt(value, a) {
            a := value;
          }
        } else {
          if Lt(moveValue, value) {
            value := moveValue;
            move := Some(moveNode);
          }
          if Lt(value, b) {
            b := value;
          }
        }
        if Le(b, a) {
          break;
        }
      }
      i := i + 1;
    }
    moves := prevMoves + [move];
    s' := state;
  }

  /** A move list holding a `null` entry: the ply that pushed it tried no
      candidate. */
  predicate HasNull<M>(pv: seq<Option<M>>) {
    exists i | 0 <= i < |pv| :: pv[i].None?
  }

  /** getMove: a maximising search from the window (LOSS, WIN) to the
      session's depth; the move is the last element of the returned list.
      Before returning, getMove asks the visitor for the row and column of
      every entry, from the last down; both sessions' getMoveRC fail on a
      `null` entry, so `thrown` reports the TypeError that then leaves
      getMove. The search itself has already restored the state. */
  method GetMove<S, M, K>(v: Visitor<S, M, K>, s: S, searchDepth: nat) returns (best: Option<M>, thrown: bool, s': S)
    ensures var o := AlphaBeta(v, s, searchDepth, true, Fin(LOSS), Fin(WIN));
      (thrown <==> HasNull(o.pv)) && s' == o.state
    ensures var o := AlphaBeta(v, s, searchDepth, true, Fin(LOSS), Fin(WIN));
      !thrown ==> best == LastMove(o.pv)
    ensures !thrown && searchDepth > 0 ==> best.Some?
  {
    var maxValue, bestMoves;
    maxValue, bestMoves, s' := MinimaxAB(v, s, searchDepth, true, Fin(LOSS), Fin(WIN));
    var i := |bestMoves|;
    thrown := false;
    while i > 0 && !thrown
      invariant 0 <= i <= |bestMoves|
      invariant thrown ==> HasNull(bestMoves)
      invariant !thrown ==> forall j | i <= j < |bestMoves| :: bestMoves[j].Some?
    {
      i := i - 1;
      if bestMoves[i].None? {
        thrown := true;
      }
    }
    best := if thrown || |bestMoves| == 0 then None else bestMoves[|bestMoves| - 1];
  }

  /** The state every session shares: whether it is playing, the search depth,
      the board, and a diagnostic grid of top-level move values. */
  class Session {
    var playing: bool
    var searchDepth: nat
    const board: Board
    const scoreBoard: array2<real>

    constructor (newBoard: Board)
      requires newBoard.Valid()
      ensures playing && searchDepth == 5 && board == newBoard
      ensures fresh(scoreBoard)
      ensures scoreBoard.Length0 == newBoard.size && scoreBoard.Length1 == newBoard.size
      ensures forall r, c :: 0 <= r < scoreBoard.Length0 && 0 <= c < scoreBoard.Length1 ==> scoreBoard[r, c] == 0.0
    {
      playing := true;
      searchDepth := 5;
      board := newBoard;
      scoreBoard := new real[newBoard.size, newBoard.size];
      new;
      ClearBoard(scoreBoard);
    }

    /** setDifficulty: the new search depth. */
    method SetDifficulty(difficulty: nat)
      modifies this
      ensures searchDepth == difficulty && playing == old(playing)
    {
      searchDepth := difficulty;
    }

    method StopPlaying()
      modifies this
      ensures !playing && searchDepth == old(searchDepth)
    {
      playing := false;
    }

    /** clearBoard: zero every entry of a grid. */
    static method ClearBoard(grid: array2<real>)
      modifies grid
      ensures forall r, c :: 0 <= r < grid.Length0 && 0 <= c < grid.Length1 ==> grid[r, c] == 0.0
    {
      var r := 0;
      while r < grid.Length0
        invariant 0 <= r <= grid.Length0
        invariant forall i, j :: 0 <= i < r && 0 <= j < grid.Length1 ==> grid[i, j] == 0.0
      {
        var c := 0;
        while c < grid.Length1
          invariant 0 <= c <= grid.Length1
          invariant forall i, j :: 0 <= i < r && 0 <= j < grid.Length1 ==> grid[i, j] == 0.0
          invariant forall j :: 0 <= j < c ==> grid[r, j] == 0.0
        {
          grid[r, c] := 0.0;
          c := c + 1;
        }
        r := r + 1;
      }
    }
  }
}
