/**
 * JavaScript numbers, as the storefront uses them.
 *
 * A finite number is kept exactly as a whole number of hundredths, so 12.5 is
 * Finite(1250) and 7 is Finite(700). NaN and the two infinities are kept as
 * themselves. IEEE-754 rounding and negative zero are not modelled.
 */
module JsNumbers {

  datatype JsNumber = Finite(hundredths: int) | NaN | PosInf | NegInf

  const Zero: JsNumber := Finite(0)
  const One: JsNumber := Finite(100)

  /** `Number.isFinite(n)`. */
  predicate IsFinite(n: JsNumber) {
    n.Finite?
  }

  /** Unary minus. */
  function Neg(a: JsNumber): JsNumber {
    match a
    case Finite(x) => Finite(-x)
    case NaN => NaN
    case PosInf => NegInf
    case NegInf => PosInf
  }

  /**
   * `a + b`: NaN absorbs everything, opposite infinities give NaN, and an
   * infinity absorbs any finite number.
   */
  function Add(a: JsNumber, b: JsNumber): JsNumber {
    match (a, b)
    case (Finite(x), Finite(y)) => Finite(x + y)
    case (NaN, _) => NaN
    case (_, NaN) => NaN
    case (PosInf, NegInf) => NaN
    case (NegInf, PosInf) => NaN
    case (PosInf, _) => PosInf
    case (NegInf, _) => NegInf
    case (_, PosInf) => PosInf
    case (_, NegInf) => NegInf
  }

  /** `a - b`, which IEEE-754 defines as `a + (-b)`. */
  function Sub(a: JsNumber, b: JsNumber): JsNumber {
    Add(a, Neg(b))
  }

  /** `a < b`. Every comparison that involves NaN is false. */
  predicate Less(a: JsNumber, b: JsNumber) {
    match (a, b)
    case (Finite(x), Finite(y)) => x < y
    case (NaN, _) => false
    case (_, NaN) => false
    case (NegInf, _) => !b.NegInf?
    case (_, PosInf) => !a.PosInf?
    case _ => false
  }

  /** `a <= b`, which is false whenever NaN is involved. */
  predicate LessEq(a: JsNumber, b: JsNumber) {
    !a.NaN? && !b.NaN? && !Less(b, a)
  }

  /** `a === b` on numbers: NaN is not equal to anything, itself included. */
  predicate StrictEquals(a: JsNumber, b: JsNumber) {
    !a.NaN? && a == b
  }

  /** `Math.min(a, b)`: NaN when either argument is NaN, otherwise the smaller one. */
  function Min(a: JsNumber, b: JsNumber): (r: JsNumber)
    ensures r.NaN? <==> a.NaN? || b.NaN?
    ensures !r.NaN? ==> (r == a || r == b) && !Less(a, r) && !Less(b, r)
  {
    if a.NaN? || b.NaN? then NaN else if Less(b, a) then b else a
  }

  /** `n || 0`: the falsy numbers, NaN and zero, give 0; every other number is kept. */
  function OrZero(n: JsNumber): (r: JsNumber)
    ensures !r.NaN?
    ensures r == n || r == Zero
    ensures n.Finite? ==> r == n
  {
    if n.NaN? || n == Zero then Zero else n
  }

  /**
   * The sign `Array.prototype.sort` reads from a comparator's result:
   * a NaN result counts as 0 (ECMAScript's SortCompare).
   */
  function CompareSign(v: JsNumber): (r: int)
    ensures -1 <= r <= 1
    ensures v.NaN? ==> r == 0
  {
    match v
    case Finite(x) => if x < 0 then -1 else if x > 0 then 1 else 0
    case NaN => 0
    case PosInf => 1
    case NegInf => -1
  }

  /**
   * For two numbers neither of which is NaN, the comparator `a - b` says
   * "a may stay before b" exactly when a is not greater than b. The
   * infinities need care here: Infinity - Infinity is NaN, which counts as 0.
   */
  lemma SubOrdersNumbers(a: JsNumber, b: JsNumber)
    requires !a.NaN? && !b.NaN?
    ensures CompareSign(Sub(a, b)) <= 0 <==> !Less(b, a)
    ensures CompareSign(Sub(a, b)) == -CompareSign(Sub(b, a))
  {
  }

  /** `<` is a strict order on the numbers other than NaN. */
  lemma LessIsStrictOrder(a: JsNumber, b: JsNumber, c: JsNumber)
    requires !a.NaN? && !b.NaN? && !c.NaN?
    ensures !Less(a, a)
    ensures Less(a, b) && Less(b, c) ==> Less(a, c)
    ensures Less(a, b) || a == b || Less(b, a)
  {
  }

  /** A difference with NaN on either side is NaN. */
  lemma SubNaN(a: JsNumber, b: JsNumber)
    requires a.NaN? || b.NaN?
    ensures Sub(a, b).NaN?
  {
  }

  /** On finite operands `+` is exact addition. */
  lemma AddFinite(x: int, y: int)
    ensures Add(Finite(x), Finite(y)) == Finite(x + y)
  {
  }
}
