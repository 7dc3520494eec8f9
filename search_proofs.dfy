/** What the alpha-beta search of the Search module guarantees: it leaves the
    session state as it found it, its value agrees with plain minimax in the
    fail-soft sense, and its move is the first candidate attaining that value. */
module SearchProofs {
  import opened Defines
  import opened JsNumbers
  import opened Grids
  import opened Search

  /** evaluateBoard never produces NaN. */
  ghost predicate NeverNaN<S(!new), M, K>(v: Visitor<S, M, K>) {
    forall s :: !v.evaluate(s).NaN?
  }

  /** isTerminalNode never fires (true of both sessions of the client). */
  ghost predicate NoTerminal<S(!new), M(!new), K>(v: Visitor<S, M, K>) {
    forall s, m :: !v.isTerminal(s, m)
  }

  /** The visitor contract the search relies on: from a state satisfying inv,
      making a move on an empty cell keeps inv, and reverting it with the same
      move node and memento gives back the state exactly. */
  ghost predicate Lawful<S(!new), M(!new), K>(v: Visitor<S, M, K>, inv: S -> bool) {
    forall s, m, maxNode {:trigger v.makeMove(s, m, maxNode)} ::
      inv(s) && IsEmptyAt(v.board(s), v.moveRC(m)) && !v.isTerminal(s, m) ==>
        inv(v.makeMove(s, m, maxNode).0) &&
        v.revertMove(v.makeMove(s, m, maxNode).0, m, v.makeMove(s, m, maxNode).1) == s
  }

  /** The fail-soft relation between an alpha-beta value and the true value
      under the window (alpha, beta): a value at or below alpha is an upper
      bound, one at or above beta a lower bound, and one inside is exact. */
  predicate FailSoft(value: Num, truth: Num, alpha: Num, beta: Num) {
    (Le(value, alpha) ==> Le(truth, value)) &&
    (Le(beta, value) ==> Le(value, truth)) &&
    (Lt(alpha, value) && Lt(value, beta) ==> value == truth)
  }

  // ---------------------------------------------------------------------
  // The search restores the session state.
  // ---------------------------------------------------------------------

  /** Every makeMove of minimaxAB is undone: the state afterwards is the
      state before. */
  lemma {:induction false} AlphaBetaRestores<S(!new), M(!new), K>(v: Visitor<S, M, K>, inv: S -> bool, s: S,
                                                                  depth: nat, maxNode: bool, alpha: Num, beta: Num)
    requires Lawful(v, inv) && inv(s)
    ensures AlphaBeta(v, s, depth, maxNode, alpha, beta).state == s
    decreases depth, 1, 0
  {
    if depth > 0 {
      ScanRestores(v, inv, depth, maxNode, v.order(s, maxNode), 0, s, Initial(maxNode, alpha, beta));
    }
  }

  lemma {:induction false} ScanRestores<S(!new), M(!new), K>(v: Visitor<S, M, K>, inv: S -> bool, depth: nat, maxNode: bool,
                                                             cands: seq<M>, i: nat, s: S, p: Ply<M>)
    requires Lawful(v, inv) && inv(s)
    requires 0 < depth && i <= |cands| && |p.prev| < depth
    ensures AlphaBetaScan(v, depth, maxNode, cands, i, s, p).state == s
    decreases depth, 0, |cands| - i
  {
    if i < |cands| {
      var m := cands[i];
      if !Playable(v, s, m, depth) {
        ScanRestores(v, inv, depth, maxNode, cands, i + 1, s, p);
      } else if !v.isTerminal(s, m) {
        var (s1, memento) := v.makeMove(s, m, maxNode);
        AlphaBetaRestores(v, inv, s1, depth - 1, !maxNode, p.alpha, p.beta);
        var child := AlphaBeta(v, s1, depth - 1, !maxNode, p.alpha, p.beta);
        var q := Absorb(maxNode, p, m, child.value, child.pv);
        if !Le(q.beta, q.alpha) {
          ScanRestores(v, inv, depth, maxNode, cands, i + 1, s, q);
        }
      }
    }
  }

  // ---------------------------------------------------------------------
  // Plain minimax: values are never NaN, and a ply's value only moves past
  // its running value.
  // ---------------------------------------------------------------------

  lemma {:induction false} MinimaxNotNaN<S(!new), M, K>(v: Visitor<S, M, K>, s: S, depth: nat, maxNode: bool)
    requires NeverNaN(v)
    ensures !Minimax(v, s, depth, maxNode).NaN?
    decreases depth, 1, 0
  {
    if depth > 0 {
      MinimaxScanNotNaN(v, s, depth, maxNode, v.order(s, maxNode), 0, Start(maxNode));
    }
  }

  lemma {:induction false} MinimaxScanNotNaN<S(!new), M, K>(v: Visitor<S, M, K>, s: S, depth: nat, maxNode: bool,
                                                            cands: seq<M>, i: nat, value: Num)
    requires NeverNaN(v) && 0 < depth && i <= |cands| && !value.NaN?
    ensures !MinimaxScan(v, s, depth, maxNode, cands, i, value).NaN?
    decreases depth, 0, |cands| - i
  {
    if i < |cands| {
      var m := cands[i];
      if !Playable(v, s, m, depth) {
        MinimaxScanNotNaN(v, s, depth, maxNode, cands, i + 1, value);
      } else if !v.isTerminal(s, m) {
        var s1 := v.makeMove(s, m, maxNode).0;
        MinimaxNotNaN(v, s1, depth - 1, !maxNode);
        var child := Minimax(v, s1, depth - 1, !maxNode);
        MinimaxScanNotNaN(v, s, depth, maxNode, cands, i + 1, if Improves(maxNode, child, value) then child else value);
      }
    }
  }

  /** Without terminal candidates, a max ply ends at or above its running
      value and a min ply at or below it. */
  lemma {:induction false} MinimaxScanBeyond<S(!new), M(!new), K>(v: Visitor<S, M, K>, s: S, depth: nat, maxNode: bool,
                                                                  cands: seq<M>, i: nat, value: Num)
    requires NeverNaN(v) && NoTerminal(v) && 0 < depth && i <= |cands| && !value.NaN?
    ensures maxNode ==> Le(value, MinimaxScan(v, s, depth, maxNode, cands, i, value))
    ensures !maxNode ==> Le(MinimaxScan(v, s, depth, maxNode, cands, i, value), value)
    decreases |cands| - i
  {
    if i < |cands| {
      var m := cands[i];
      if !Playable(v, s, m, depth) {
        MinimaxScanBeyond(v, s, depth, maxNode, cands, i + 1, value);
      } else {
        assert !v.isTerminal(s, m);
        var s1 := v.makeMove(s, m, maxNode).0;
        MinimaxNotNaN(v, s1, depth - 1, !maxNode);
        var child := Minimax(v, s1, depth - 1, !maxNode);
        var value' := if Improves(maxNode, child, value) then child else value;
        MinimaxScanBeyond(v, s, depth, maxNode, cands, i + 1, value');
        GtTotalOrder(value, value', MinimaxScan(v, s, depth, maxNode, cands, i + 1, value'));
      }
    }
  }

  // ---------------------------------------------------------------------
  // Soundness of the pruning.
  // ---------------------------------------------------------------------

  /** The relation kept by a ply of minimaxAB against plain minimax started
      with the window (a0, b0): the window moves only on its own side, the
      running value has not reached the far bound, and the minimax running
      value agrees with it (exactly once it is inside the window, as a bound
      otherwise). */
  ghost predicate ScanAgrees<M>(maxNode: bool, p: Ply<M>, truth: Num, a0: Num, b0: Num) {
    !p.value.NaN? && !truth.NaN? &&
    (maxNode ==>
      p.beta == b0 && p.alpha == (if Gt(p.value, a0) then p.value else a0) && Lt(p.value, b0) &&
      (Le(p.value, a0) ==> Le(truth, p.value)) && (Gt(p.value, a0) ==> truth == p.value)) &&
    (!maxNode ==>
      p.alpha == a0 && p.beta == (if Lt(p.value, b0) then p.value else b0) && Gt(p.value, a0) &&
      (Le(b0, p.value) ==> Le(p.value, truth)) && (Lt(p.value, b0) ==> truth == p.value))
  }

  /** Alpha-beta agrees with minimax: for a lawful visitor whose evaluation
      is never NaN and which has no terminal candidates, the value of
      minimaxAB under any open window (alpha < beta) is fail-soft with respect
      to the plain minimax value. */
  lemma {:induction false} AlphaBetaSound<S(!new), M(!new), K>(v: Visitor<S, M, K>, inv: S -> bool, s: S,
                                                               depth: nat, maxNode: bool, alpha: Num, beta: Num)
    requires Lawful(v, inv) && inv(s) && NeverNaN(v) && NoTerminal(v)
    requires Lt(alpha, beta)
    ensures !AlphaBeta(v, s, depth, maxNode, alpha, beta).value.NaN? && !Minimax(v, s, depth, maxNode).NaN?
    ensures FailSoft(AlphaBeta(v, s, depth, maxNode, alpha, beta).value, Minimax(v, s, depth, maxNode), alpha, beta)
    decreases depth, 1, 0
  {
    if depth > 0 {
      ScanSound(v, inv, depth, maxNode, v.order(s, maxNode), 0, s, Initial(maxNode, alpha, beta), Start(maxNode), alpha, beta);
    }
  }

  lemma {:induction false} ScanSound<S(!new), M(!new), K>(v: Visitor<S, M, K>, inv: S -> bool, depth: nat, maxNode: bool,
                                                          cands: seq<M>, i: nat, s: S, p: Ply<M>, truth: Num, a0: Num, b0: Num)
    requires Lawful(v, inv) && inv(s) && NeverNaN(v) && NoTerminal(v)
    requires 0 < depth && i <= |cands| && |p.prev| < depth
    requires Lt(a0, b0) && ScanAgrees(maxNode, p, truth, a0, b0)
    ensures !AlphaBetaScan(v, depth, maxNode, cands, i, s, p).value.NaN?
    ensures !MinimaxScan(v, s, depth, maxNode, cands, i, truth).NaN?
    ensures FailSoft(AlphaBetaScan(v, depth, maxNode, cands, i, s, p).value,
                     MinimaxScan(v, s, depth, maxNode, cands, i, truth), a0, b0)
    decreases depth, 0, |cands| - i
  {
    if i == |cands| {
      FinishAgrees(maxNode, p, truth, a0, b0);
    } else {
      var m := cands[i];
      if !Playable(v, s, m, depth) {
        ScanSound(v, inv, depth, maxNode, cands, i + 1, s, p, truth, a0, b0);
      } else {
        assert !v.isTerminal(s, m);
        var (s1, memento) := v.makeMove(s, m, maxNode);
        AlphaBetaRestores(v, inv, s1, depth - 1, !maxNode, p.alpha, p.beta);
        AlphaBetaSound(v, inv, s1, depth - 1, !maxNode, p.alpha, p.beta);
        var child := AlphaBeta(v, s1, depth - 1, !maxNode, p.alpha, p.beta);
        var childTruth := Minimax(v, s1, depth - 1, !maxNode);
        var q := Absorb(maxNode, p, m, child.value, child.pv);
        var truth' := if Improves(maxNode, childTruth, truth) then childTruth else truth;
        StepAgrees(maxNode, p, truth, a0, b0, m, child.value, child.pv, childTruth);
        if Le(q.beta, q.alpha) {
          MinimaxScanBeyond(v, s, depth, maxNode, cands, i + 1, truth');
          CutoffAgrees(maxNode, q.value, truth', MinimaxScan(v, s, depth, maxNode, cands, i + 1, truth'), a0, b0);
        } else {
          ScanSound(v, inv, depth, maxNode, cands, i + 1, s, q, truth', a0, b0);
        }
      }
    }
  }

  /** A ply that runs out of candidates returns a fail-soft value. */
  lemma FinishAgrees<M>(maxNode: bool, p: Ply<M>, truth: Num, a0: Num, b0: Num)
    requires Lt(a0, b0) && ScanAgrees(maxNode, p, truth, a0, b0)
    ensures FailSoft(p.value, truth, a0, b0)
  {
    GtTotalOrder(p.value, a0, b0);
    GtTotalOrder(p.value, truth, a0);
    GtTotalOrder(p.value, truth, b0);
  }

  /** A ply cut off at a value beyond the far bound returns a fail-soft value
      whatever the remaining candidates are worth. */
  lemma CutoffAgrees(maxNode: bool, value: Num, truth: Num, final: Num, a0: Num, b0: Num)
    requires Lt(a0, b0) && !value.NaN? && !truth.NaN? && !final.NaN?
    requires maxNode ==> Le(b0, value) && Le(value, truth) && Le(truth, final)
    requires !maxNode ==> Le(value, a0) && Le(truth, value) && Le(final, truth)
    ensures FailSoft(value, final, a0, b0)
  {
    GtTotalOrder(value, truth, final);
    GtTotalOrder(value, a0, b0);
  }

  /** Folding one searched child into a ply keeps the agreement with minimax,
      or, when it closes the window, leaves the value beyond the far bound and
      on the right side of the minimax running value. */
  lemma StepAgrees<M>(maxNode: bool, p: Ply<M>, truth: Num, a0: Num, b0: Num,
                      m: M, childValue: Num, childPv: seq<Option<M>>, childTruth: Num)
    requires Lt(a0, b0) && ScanAgrees(maxNode, p, truth, a0, b0)
    requires !childValue.NaN? && !childTruth.NaN? && FailSoft(childValue, childTruth, p.alpha, p.beta)
    ensures var q := Absorb(maxNode, p, m, childValue, childPv);
            var truth' := if Improves(maxNode, childTruth, truth) then childTruth else truth;
            !truth'.NaN? &&
            (Le(q.beta, q.alpha) ==>
              (maxNode ==> Le(b0, q.value) && Le(q.value, truth')) &&
              (!maxNode ==> Le(q.value, a0) && Le(truth', q.value))) &&
            (!Le(q.beta, q.alpha) ==> ScanAgrees(maxNode, q, truth', a0, b0))
  {
    GtTotalOrder(p.value, childValue, a0);
    GtTotalOrder(p.value, childValue, b0);
    GtTotalOrder(truth, childTruth, p.value);
    GtTotalOrder(truth, childTruth, childValue);
    GtTotalOrder(childValue, childTruth, a0);
    GtTotalOrder(childValue, childTruth, b0);
  }

  /** With the full window (-Infinity, +Infinity) alpha-beta returns exactly
      the minimax value. */
  lemma AlphaBetaFullWindow<S(!new), M(!new), K>(v: Visitor<S, M, K>, inv: S -> bool, s: S, depth: nat, maxNode: bool)
    requires Lawful(v, inv) && inv(s) && NeverNaN(v) && NoTerminal(v)
    ensures AlphaBeta(v, s, depth, maxNode, NegInf, PosInf).value == Minimax(v, s, depth, maxNode)
  {
    AlphaBetaSound(v, inv, s, depth, maxNode, NegInf, PosInf);
    var value := AlphaBeta(v, s, depth, maxNode, NegInf, PosInf).value;
    GtTotalOrder(value, Minimax(v, s, depth, maxNode), NegInf);
    GtTotalOrder(value, Minimax(v, s, depth, maxNode), PosInf);
  }

  /** Why soundness needs NoTerminal: a lawful, NaN-free visitor whose root
      has a child valued above WIN and then a terminal candidate. Under the
      window (0, WIN) the pruned search stops after the first child and
      returns its value, while minimax goes on to the terminal candidate and
      drops to WIN, so the fail-soft relation does not hold. */
  function TerminalAfterCutoff(): (v: Visitor<int, int, int>)
    ensures v.isTerminal(0, 1) && !v.isTerminal(0, 0)
  {
    Visitor((s, maxNode) => [0, 1], m => (0, m), s => [[EMPTY, EMPTY]], (s, m, depth) => false,
            (s, m) => m == 1, (s, m, maxNode) => (s + 1, 0), (s, m, k) => s - 1, s => Fin(2.0 * WIN))
  }

  lemma TerminalBreaksFailSoft()
    ensures Lawful(TerminalAfterCutoff(), s => true) && NeverNaN(TerminalAfterCutoff())
    ensures AlphaBeta(TerminalAfterCutoff(), 0, 1, true, Fin(0.0), Fin(WIN)).value == Fin(2.0 * WIN)
    ensures Minimax(TerminalAfterCutoff(), 0, 1, true) == Fin(WIN)
    ensures !FailSoft(AlphaBeta(TerminalAfterCutoff(), 0, 1, true, Fin(0.0), Fin(WIN)).value,
                      Minimax(TerminalAfterCutoff(), 0, 1, true), Fin(0.0), Fin(WIN))
  {
  }

  // ---------------------------------------------------------------------
  // The move list a ply returns.
  // ---------------------------------------------------------------------

  /** A ply none of whose candidates is playable (a full board, or every
      cell vetoed) returns the one-entry list [null]; getMove's logging then
      fails on it. */
  lemma NoCandidateNull<S, M, K>(v: Visitor<S, M, K>, s: S, depth: nat, maxNode: bool, alpha: Num, beta: Num)
    requires depth > 0
    requires forall j | 0 <= j < |v.order(s, maxNode)| :: !Playable(v, s, v.order(s, maxNode)[j], depth)
    ensures AlphaBeta(v, s, depth, maxNode, alpha, beta).pv == [None]
    ensures HasNull(AlphaBeta(v, s, depth, maxNode, alpha, beta).pv)
  {
    var cands := v.order(s, maxNode);
    SkipAll(v, depth, maxNode, cands, 0, s, Initial(maxNode, alpha, beta));
    assert AlphaBeta(v, s, depth, maxNode, alpha, beta).pv[0].None?;
  }

  /** Skipping every remaining candidate finishes the ply unchanged. */
  lemma {:induction false} SkipAll<S, M, K>(v: Visitor<S, M, K>, depth: nat, maxNode: bool, cands: seq<M>, i: nat,
                                            s: S, p: Ply<M>)
    requires 0 < depth && i <= |cands| && |p.prev| < depth
    requires forall j | i <= j < |cands| :: !Playable(v, s, cands[j], depth)
    ensures AlphaBetaScan(v, depth, maxNode, cands, i, s, p) == Finish(p, s)
    decreases |cands| - i
  {
    if i < |cands| {
      SkipAll(v, depth, maxNode, cands, i + 1, s, p);
    }
  }

  /** The move list of the most recently searched child; empty before any
      child was searched. */
  function LatestPv<M>(tried: seq<Trial<M>>): seq<Option<M>> {
    if |tried| == 0 then [] else tried[|tried| - 1].pv
  }

  /** Below its own move, the list minimaxAB returns is the list of the child
      it searched last, whether or not that child was the best one: each
      recursive call overwrites `prevMoves`, and the ply pushes its move on
      whatever the last call left there. */
  lemma AlphaBetaPv<S, M, K>(v: Visitor<S, M, K>, s: S, depth: nat, maxNode: bool, alpha: Num, beta: Num)
    requires depth > 0
    ensures var o := AlphaBeta(v, s, depth, maxNode, alpha, beta);
      |o.pv| >= 1 && o.pv[..|o.pv| - 1] == LatestPv(o.tried)
  {
    ScanPv(v, depth, maxNode, v.order(s, maxNode), 0, s, Initial(maxNode, alpha, beta));
  }

  /** The candidate loop keeps `prevMoves` equal to the latest child's list. */
  lemma {:induction false} ScanPv<S, M, K>(v: Visitor<S, M, K>, depth: nat, maxNode: bool, cands: seq<M>, i: nat, s: S, p: Ply<M>)
    requires 0 < depth && i <= |cands| && |p.prev| < depth
    requires p.prev == LatestPv(p.tried)
    ensures var o := AlphaBetaScan(v, depth, maxNode, cands, i, s, p);
      |o.pv| >= 1 && o.pv[..|o.pv| - 1] == LatestPv(o.tried)
    decreases |cands| - i
  {
    if i < |cands| {
      var m := cands[i];
      if !Playable(v, s, m, depth) {
        ScanPv(v, depth, maxNode, cands, i + 1, s, p);
      } else if v.isTerminal(s, m) {
        var pv := p.prev + [Some(m)];
        assert pv[..|pv| - 1] == p.prev;
      } else {
        var (s1, memento) := v.makeMove(s, m, maxNode);
        var child := AlphaBeta(v, s1, depth - 1, !maxNode, p.alpha, p.beta);
        var s2 := v.revertMove(child.state, m, memento);
        var q := Absorb(maxNode, p, m, child.value, child.pv);
        if Le(q.beta, q.alpha) {
          var pv := q.prev + [q.move];
          assert pv[..|pv| - 1] == q.prev;
        } else {
          ScanPv(v, depth, maxNode, cands, i + 1, s2, q);
        }
      }
    } else {
      var pv := p.prev + [p.move];
      assert pv[..|pv| - 1] == p.prev;
    }
  }

  // ---------------------------------------------------------------------
  // The move a ply returns.
  // ---------------------------------------------------------------------

  /** value/move is the result of folding the searched candidates in order
      with strict improvement: no candidate is strictly better, no move means
      the starting infinity survived, and the move is the first candidate
      whose value is the result, every earlier one being strictly worse. */
  ghost predicate BestOf<M>(maxNode: bool, value: Num, move: Option<M>, tried: seq<Trial<M>>) {
    !value.NaN? &&
    (forall k :: 0 <= k < |tried| ==> !tried[k].value.NaN? && !Improves(maxNode, tried[k].value, value)) &&
    (move == None ==> value == Start(maxNode)) &&
    (move.Some? ==> exists k :: 0 <= k < |tried| && tried[k].move == move.value && tried[k].value == value &&
                                forall j :: 0 <= j < k ==> Improves(maxNode, value, tried[j].value))
  }

  /** The move minimaxAB hands back (the last entry of its move list) is the
      first searched candidate with the best value; at a terminal candidate
      the ply takes WIN or LOSS with that candidate. */
  lemma {:induction false} AlphaBetaBest<S(!new), M, K>(v: Visitor<S, M, K>, s: S, depth: nat, maxNode: bool, alpha: Num, beta: Num)
    requires NeverNaN(v)
    ensures var o := AlphaBeta(v, s, depth, maxNode, alpha, beta);
      !o.value.NaN? &&
      (depth > 0 && o.terminal ==> o.value == TerminalValue(maxNode) && LastMove(o.pv).Some?) &&
      (depth > 0 && !o.terminal ==> BestOf(maxNode, o.value, LastMove(o.pv), o.tried))
    decreases depth, 1, 0
  {
    if depth > 0 {
      ScanBest(v, depth, maxNode, v.order(s, maxNode), 0, s, Initial(maxNode, alpha, beta));
    } else {
      assert v.evaluate(s) == AlphaBeta(v, s, depth, maxNode, alpha, beta).value;
    }
  }

  lemma {:induction false} ScanBest<S(!new), M, K>(v: Visitor<S, M, K>, depth: nat, maxNode: bool, cands: seq<M>, i: nat, s: S, p: Ply<M>)
    requires NeverNaN(v) && 0 < depth && i <= |cands| && |p.prev| < depth
    requires BestOf(maxNode, p.value, p.move, p.tried)
    ensures var o := AlphaBetaScan(v, depth, maxNode, cands, i, s, p);
      !o.value.NaN? &&
      (o.terminal ==> o.value == TerminalValue(maxNode) && LastMove(o.pv).Some?) &&
      (!o.terminal ==> BestOf(maxNode, o.value, LastMove(o.pv), o.tried))
    decreases depth, 0, |cands| - i
  {
    if i == |cands| {
      assert LastMove(p.prev + [p.move]) == p.move;
    } else {
      var m := cands[i];
      if !Playable(v, s, m, depth) {
        ScanBest(v, depth, maxNode, cands, i + 1, s, p);
      } else if !v.isTerminal(s, m) {
        var (s1, memento) := v.makeMove(s, m, maxNode);
        AlphaBetaBest(v, s1, depth - 1, !maxNode, p.alpha, p.beta);
        var child := AlphaBeta(v, s1, depth - 1, !maxNode, p.alpha, p.beta);
        var q := Absorb(maxNode, p, m, child.value, child.pv);
        AbsorbBest(maxNode, p, m, child.value, child.pv);
        if Le(q.beta, q.alpha) {
          assert LastMove(q.prev + [q.move]) == q.move;
        } else {
          ScanBest(v, depth, maxNode, cands, i + 1, v.revertMove(child.state, m, memento), q);
        }
      }
    }
  }

  lemma AbsorbBest<M>(maxNode: bool, p: Ply<M>, m: M, childValue: Num, childPv: seq<Option<M>>)
    requires BestOf(maxNode, p.value, p.move, p.tried) && !childValue.NaN?
    ensures var q := Absorb(maxNode, p, m, childValue, childPv);
      BestOf(maxNode, q.value, q.move, q.tried)
  {
    var q := Absorb(maxNode, p, m, childValue, childPv);
    var n := |p.tried|;
    assert q.tried[n].value == childValue && q.tried[n].move == m;
    forall k | 0 <= k < |q.tried|
      ensures !q.tried[k].value.NaN? && !Improves(maxNode, q.tried[k].value, q.value)
    {
      if k < n {
        assert q.tried[k] == p.tried[k];
      }
      GtTotalOrder(q.tried[k].value, p.value, q.value);
    }
    if Improves(maxNode, childValue, p.value) {
      forall j | 0 <= j < n
        ensures Improves(maxNode, q.value, q.tried[j].value)
      {
        assert q.tried[j] == p.tried[j];
        GtTotalOrder(q.value, p.value, p.tried[j].value);
      }
    } else if p.move.Some? {
      var k :| 0 <= k < n && p.tried[k].move == p.move.value && p.tried[k].value == p.value &&
               forall j :: 0 <= j < k ==> Improves(maxNode, p.value, p.tried[j].value);
      assert q.tried[k] == p.tried[k];
      forall j | 0 <= j < k
        ensures Improves(maxNode, q.value, q.tried[j].value)
      {
        assert q.tried[j] == p.tried[j];
      }
    }
  }

  // ---------------------------------------------------------------------
  // The candidates a ply searches and the windows it searches them with.
  // ---------------------------------------------------------------------

  /** What holds of every searched candidate of a ply started with the window
      (a0, b0) from the state s: it comes from the consideration order, its
      cell was empty and not vetoed, and its child was searched with a window
      that is open and no wider than the ply's (a max ply only raises alpha,
      a min ply only lowers beta). */
  ghost predicate TrialsWithin<S, M, K>(v: Visitor<S, M, K>, s: S, depth: nat, maxNode: bool, a0: Num, b0: Num,
                                        tried: seq<Trial<M>>) {
    forall k :: 0 <= k < |tried| ==>
      tried[k].move in v.order(s, maxNode) && Playable(v, s, tried[k].move, depth) &&
      Lt(tried[k].alpha, tried[k].beta) &&
      (maxNode ==> tried[k].beta == b0 && Le(a0, tried[k].alpha)) &&
      (!maxNode ==> tried[k].alpha == a0 && Le(tried[k].beta, b0))
  }

  /** Under an open window, minimaxAB only searches playable candidates of
      the consideration order and never searches a child with a closed or
      wider window. */
  lemma {:induction false} AlphaBetaTrials<S(!new), M(!new), K>(v: Visitor<S, M, K>, inv: S -> bool, s: S, depth: nat,
                                                                maxNode: bool, alpha: Num, beta: Num)
    requires Lawful(v, inv) && inv(s) && Lt(alpha, beta)
    ensures TrialsWithin(v, s, depth, maxNode, alpha, beta, AlphaBeta(v, s, depth, maxNode, alpha, beta).tried)
  {
    if depth > 0 {
      ScanTrials(v, inv, s, depth, maxNode, alpha, beta, 0, Initial(maxNode, alpha, beta));
    }
  }

  lemma {:induction false} ScanTrials<S(!new), M(!new), K>(v: Visitor<S, M, K>, inv: S -> bool, s: S, depth: nat,
                                                           maxNode: bool, a0: Num, b0: Num, i: nat, p: Ply<M>)
    requires Lawful(v, inv) && inv(s) && 0 < depth && i <= |v.order(s, maxNode)| && |p.prev| < depth
    requires Lt(p.alpha, p.beta)
    requires maxNode ==> p.beta == b0 && Le(a0, p.alpha)
    requires !maxNode ==> p.alpha == a0 && Le(p.beta, b0)
    requires TrialsWithin(v, s, depth, maxNode, a0, b0, p.tried)
    ensures TrialsWithin(v, s, depth, maxNode, a0, b0, AlphaBetaScan(v, depth, maxNode, v.order(s, maxNode), i, s, p).tried)
    decreases |v.order(s, maxNode)| - i
  {
    var cands := v.order(s, maxNode);
    if i < |cands| {
      var m := cands[i];
      if !Playable(v, s, m, depth) {
        ScanTrials(v, inv, s, depth, maxNode, a0, b0, i + 1, p);
      } else if !v.isTerminal(s, m) {
        var (s1, memento) := v.makeMove(s, m, maxNode);
        AlphaBetaRestores(v, inv, s1, depth - 1, !maxNode, p.alpha, p.beta);
        var child := AlphaBeta(v, s1, depth - 1, !maxNode, p.alpha, p.beta);
        var q := Absorb(maxNode, p, m, child.value, child.pv);
        assert q.tried[|p.tried|] == Trial(m, p.alpha, p.beta, child.value, child.pv);
        assert forall k :: 0 <= k < |p.tried| ==> q.tried[k] == p.tried[k];
        if !Le(q.beta, q.alpha) {
          GtTotalOrder(q.alpha, q.beta, p.alpha);
          GtTotalOrder(a0, p.alpha, q.alpha);
          GtTotalOrder(q.beta, p.beta, b0);
          ScanTrials(v, inv, s, depth, maxNode, a0, b0, i + 1, q);
        }
      }
    }
  }
}
