/** The `Unbounded` sentinel that stands for "no maximum" in maxOccurs, and the
    Python comparisons the schema objects apply to occurrence bounds. */
module Bounds {
  import opened Base

  datatype Bound = Finite(n: int) | Unbounded

  /* Each comparison `a op b` follows Python: when `a` is Unbounded the
     sentinel's own method answers; when only `b` is, the reflected method of
     the sentinel answers (`n < Unbounded` asks `Unbounded > n`, and so on). */

  /** `a < b` */
  function Less(a: Bound, b: Bound): (r: bool)
    ensures r <==> Below(a, b)
  {
    match a
    case Unbounded => false
    case Finite(x) => b.Unbounded? || x < b.n
  }

  /** `a <= b` */
  function AtMost(a: Bound, b: Bound): (r: bool)
    ensures r <==> Below(a, b) || a == b
  {
    match a
    case Unbounded => b.Unbounded?
    case Finite(x) => b.Unbounded? || x <= b.n
  }

  /** `a > b` */
  function Greater(a: Bound, b: Bound): (r: bool)
    ensures r <==> Below(b, a) || (a == Unbounded && b == Unbounded)
  {
    match a
    case Unbounded => true
    case Finite(x) => !b.Unbounded? && x > b.n
  }

  /** `a >= b` */
  function AtLeast(a: Bound, b: Bound): (r: bool)
    ensures r <==> Below(b, a) || a == b
  {
    match a
    case Unbounded => true
    case Finite(x) => !b.Unbounded? && x >= b.n
  }

  /** `a == b` */
  function Equal(a: Bound, b: Bound): (r: bool)
    ensures r <==> a == b
  {
    match a
    case Unbounded => b.Unbounded?
    case Finite(x) => !b.Unbounded? && x == b.n
  }

  /** `a != b` */
  function NotEqual(a: Bound, b: Bound): (r: bool)
    ensures r <==> a != b
  {
    match a
    case Unbounded => !b.Unbounded?
    case Finite(x) => b.Unbounded? || x != b.n
  }

  /** Reference order: the integers extended with a top element +infinity,
      which is what Unbounded is meant to be. */
  predicate Below(a: Bound, b: Bound) {
    a.Finite? && (b.Unbounded? || a.n < b.n)
  }

  /** `m > 1` for an optional maxOccurs; Python 2 orders None below every
      integer, so an absent maximum is never "more than one". */
  function MoreThanOne(m: Option<Bound>): (r: bool)
    ensures r <==> m.Some? && Below(Finite(1), m.value)
  {
    m.Some? && Greater(m.value, Finite(1))
  }

  /** `m is not None and m < 1`: the maxOccurs check of the descriptor constructor. */
  function BelowOne(m: Option<Bound>): (r: bool)
    ensures r <==> m.Some? && Below(m.value, Finite(1))
  {
    m.Some? && Less(m.value, Finite(1))
  }

  /** Every comparison agrees with the extended-integer order, except that
      `Unbounded > Unbounded` holds although the two are equal. */
  lemma ComparisonsAgreeWithExtendedOrder(a: Bound, b: Bound)
    ensures Less(a, b) <==> Below(a, b)
    ensures AtMost(a, b) <==> Below(a, b) || a == b
    ensures AtLeast(a, b) <==> Below(b, a) || a == b
    ensures Greater(a, b) <==> Below(b, a) || (a == Unbounded && b == Unbounded)
    ensures Equal(a, b) <==> a == b
    ensures NotEqual(a, b) <==> !Equal(a, b)
  {
  }

  /** The sentinel's own answers, whatever it is compared with. */
  lemma UnboundedAnswers(x: Bound)
    ensures !Less(Unbounded, x)
    ensures Greater(Unbounded, x) && AtLeast(Unbounded, x)
    ensures AtMost(Unbounded, x) <==> x == Unbounded
    ensures Equal(Unbounded, x) <==> x == Unbounded
    ensures Greater(Unbounded, Unbounded) && !Less(Unbounded, Unbounded)
  {
  }

  /** An unbounded maximum passes the `< 1` check and counts as "more than one". */
  lemma UnboundedMaximum()
    ensures !BelowOne(Some(Unbounded)) && MoreThanOne(Some(Unbounded))
  {
  }
}
