/** Constants shared by the AI client and the server, and the small
    Option wrapper used for JavaScript's `null`/`undefined`. */
module Defines {

  /** A cell value of the board: 0 is empty, 1 and 2 are the two players. */
  const EMPTY: int := 0
  const P1: int := 1
  const P2: int := 2

  /** Sentinel scores of a won and a lost position.  Their numeric values live
      in a module that is not part of this model.  The score contracts that
      compare with them rely on WIN lying above every score that does not win
      (an agent's move scores at most 4 * (20 + 40) = 240 without four
      linked pieces, and the state session's OWN table reaches 10 below five
      in a row) and on LOSS lying below -10, OTHER's last entry before five:
      these stand-ins satisfy WIN > 240 and LOSS < -10. */
  const WIN: real := 100000.0
  const LOSS: real := -100000.0

  predicate IsPlayer(p: int) {
    p == P1 || p == P2
  }

  /** The opponent of a player (`3 - player`). */
  function NextPlayer(player: int): (r: int)
    ensures player == P1 <==> r == P2
    ensures player == P2 <==> r == P1
    ensures IsPlayer(player) ==> IsPlayer(r) && r != player
  {
    3 - player
  }

  lemma NextPlayerInvolution(player: int)
    ensures NextPlayer(NextPlayer(player)) == player
  {
  }

  /** JavaScript's `null`/`undefined` next to a present value. */
  datatype Option<+T> = None | Some(value: T) {
    function GetOr(default: T): T {
      match this
      case Some(v) => v
      case None => default
    }
  }

  /** No element of the sequence occurs twice. */
  predicate Distinct<T(==)>(s: seq<T>) {
    forall i, j :: 0 <= i < j < |s| ==> s[i] != s[j]
  }
}
