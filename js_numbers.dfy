/** The JavaScript numbers that flow through the search: reals, the two
    infinities that seed a ply's running best value, and NaN, which an
    out-of-range table lookup (`undefined`) turns a sum into.  Comparisons
    follow JavaScript: every comparison with NaN is false. */
module JsNumbers {

  datatype Num = NegInf | Fin(r: real) | PosInf | NaN

  /** Position of a non-NaN number on the extended real line. */
  function Tier(a: Num): int {
    match a
    case NegInf => -1
    case Fin(_) => 0
    case PosInf => 1
    case NaN => 0
  }

  function Real(a: Num): real {
    if a.Fin? then a.r else 0.0
  }

  /** `a > b` */
  predicate Gt(a: Num, b: Num) {
    !a.NaN? && !b.NaN? &&
    (Tier(a) > Tier(b) || (Tier(a) == Tier(b) && Real(a) > Real(b)))
  }

  /** `a < b` */
  predicate Lt(a: Num, b: Num) {
    Gt(b, a)
  }

  /** `a <= b` */
  predicate Le(a: Num, b: Num) {
    !a.NaN? && !b.NaN? && !Gt(a, b)
  }

  /** `a + b` */
  function Add(a: Num, b: Num): (r: Num)
    ensures a.Fin? && b.Fin? ==> r == Fin(a.r + b.r)
    ensures a.NaN? || b.NaN? ==> r.NaN?
  {
    match (a, b)
    case (NaN, _) => NaN
    case (_, NaN) => NaN
    case (Fin(x), Fin(y)) => Fin(x + y)
    case (PosInf, NegInf) => NaN
    case (NegInf, PosInf) => NaN
    case (PosInf, _) => PosInf
    case (_, PosInf) => PosInf
    case (NegInf, _) => NegInf
    case (_, NegInf) => NegInf
  }

  /** Adding 0 leaves every number as it is. */
  lemma AddZero(a: Num)
    ensures Add(a, Fin(0.0)) == a
  {
  }

  /** `-a` */
  function Neg(a: Num): (r: Num)
    ensures a.Fin? ==> r == Fin(-a.r)
    ensures a.NaN? <==> r.NaN?
  {
    match a
    case NegInf => PosInf
    case Fin(x) => Fin(-x)
    case PosInf => NegInf
    case NaN => NaN
  }

  /** `a - b` */
  function Sub(a: Num, b: Num): (r: Num)
    ensures a.Fin? && b.Fin? ==> r == Fin(a.r - b.r)
    ensures a.NaN? || b.NaN? ==> r.NaN?
  {
    Add(a, Neg(b))
  }

  /** Among numbers that are not NaN, `>` is a strict total order. */
  lemma {:induction false} GtTotalOrder(a: Num, b: Num, c: Num)
    requires !a.NaN? && !b.NaN? && !c.NaN?
    ensures !Gt(a, a)
    ensures Gt(a, b) ==> !Gt(b, a)
    ensures Gt(a, b) && Gt(b, c) ==> Gt(a, c)
    ensures Gt(a, b) || Gt(b, a) || a == b
  {
    if Tier(a) == Tier(b) && Real(a) == Real(b) {
      assert a == b by {
        match a
        case Fin(_) =>
        case NegInf =>
        case PosInf =>
      }
    }
  }
}
