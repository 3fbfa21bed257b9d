/** Facts about integer multiplication and division that the solver does not
    find unaided. */
module Arith {

  lemma MulMonotone(u: int, a: int, b: int)
    requires u > 0 && a <= b
    ensures u * a <= u * b
  {
    assert u * b - u * a == u * (b - a);
  }

  /** `q` is the quotient of `a` by `unit` when `a` lies in the `q`-th slot. */
  lemma DivisionBySlot(a: int, unit: int, q: int)
    requires unit > 0
    requires unit * q <= a < unit * q + unit
    ensures a / unit == q
  {
    var d := a / unit;
    assert unit * d <= a < unit * d + unit;
    if d > q {
      MulMonotone(unit, q + 1, d);
      assert false;
    } else if d < q {
      MulMonotone(unit, d + 1, q);
      assert false;
    }
  }
}
