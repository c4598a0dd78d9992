// Half-lines of numbers, and when a set of them leaves a point outside another.
//
// The strongest of several lower bounds and of several upper bounds decide which
// numbers meet them all.  Upper bounds are lower bounds of the negated number.  Some
// number meets them and misses a further bound exactly if they do not imply it and do
// not contradict each other; among whole numbers a strict bound is moved by one.
module Intervals {
  import opened Options

  /** The numbers from `at` upwards, without `at` itself when `strict`. */
  datatype Cut = Cut(at: real, strict: bool)

  predicate Above(x: real, c: Cut) { x > c.at || (x == c.at && !c.strict) }

  predicate AboveAll(x: real, c: Option<Cut>) { c.None? || Above(x, c.value) }

  /** `a` leaves out at least what `b` leaves out. */
  predicate AsStrong(a: Cut, b: Cut) { a.at > b.at || (a.at == b.at && (a.strict || !b.strict)) }

  function Stronger(a: Option<Cut>, b: Option<Cut>): (r: Option<Cut>)
    ensures forall x :: AboveAll(x, r) <==> AboveAll(x, a) && AboveAll(x, b)
    ensures r == a || r == b
  {
    if b.None? || (a.Some? && AsStrong(a.value, b.value)) then a else b
  }

  predicate Implied(c: Cut, bound: Option<Cut>) { bound.Some? && AsStrong(bound.value, c) }

  lemma ImpliedHolds(c: Cut, bound: Option<Cut>, x: real)
    requires Implied(c, bound) && AboveAll(x, bound)
    ensures Above(x, c)
  {}

  /**
   * Lower cuts stand for themselves and upper cuts are mirrored at zero: `x` lies
   * between `lo` and `hi` when `x` is above `lo` and `-x` above `hi`.
   */
  predicate Between(x: real, lo: Option<Cut>, hi: Option<Cut>) { AboveAll(x, lo) && AboveAll(-x, hi) }

  /** No number, or no whole number where all cuts are whole, lies between. */
  predicate Empty(lo: Option<Cut>, hi: Option<Cut>) {
    && lo.Some? && hi.Some?
    && (lo.value.at > -hi.value.at || (lo.value.at == -hi.value.at && (lo.value.strict || hi.value.strict)))
  }

  predicate IsWhole(x: real) { x == x.Floor as real }

  /** On whole numbers a cut can be taken at a whole number, that number included. */
  predicate WholeCut(c: Cut) { IsWhole(c.at) && !c.strict }

  predicate WholeOption(c: Option<Cut>) { c.None? || WholeCut(c.value) }

  lemma EmptyHasNone(lo: Option<Cut>, hi: Option<Cut>, x: real)
    requires Empty(lo, hi)
    ensures !Between(x, lo, hi)
  {}

  /** Between two bounds that leave room, and that do not imply a cut, lies a number the cut leaves out. */
  lemma PointBelow(whole: bool, lo: Option<Cut>, hi: Option<Cut>, c: Cut) returns (x: real)
    requires !Empty(lo, hi) && !Implied(c, lo)
    requires whole ==> WholeOption(lo) && WholeOption(hi) && WholeCut(c)
    ensures Between(x, lo, hi) && !Above(x, c) && (whole ==> IsWhole(x))
  {
    if lo.Some? && (whole || !lo.value.strict) {
      x := lo.value.at;
    } else if lo.Some? {
      var top := if hi.Some? && -hi.value.at < c.at then -hi.value.at else c.at;
      x := (lo.value.at + top) / 2.0;
    } else {
      x := (if hi.Some? && -hi.value.at < c.at then -hi.value.at else c.at) - 1.0;
      if whole {
        WholePred(c.at);
        if hi.Some? { WholeNegated(hi.value.at); WholePred(-hi.value.at); }
      }
    }
  }

  lemma WholePred(x: real)
    requires IsWhole(x)
    ensures IsWhole(x - 1.0)
  {
    assert x - 1.0 == (x.Floor - 1) as real;
  }

  lemma WholeSucc(x: real)
    requires IsWhole(x)
    ensures IsWhole(x + 1.0)
  {
    assert x + 1.0 == (x.Floor + 1) as real;
  }

  lemma WholeNegated(x: real)
    requires IsWhole(x)
    ensures IsWhole(-x)
  {
    var n := -x.Floor;
    assert (x.Floor as real) == x;
    assert -x == n as real;
    assert (n as real).Floor == n;
  }
}
