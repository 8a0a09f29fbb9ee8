/** Floating-point quantities of the backtesting engine, modelled as exact reals.
    NaN is kept only as an explicit tag: it is what a strategy may return as an
    alpha, and what the order sizer produces when every alpha is equal. */
module Numbers {

  datatype Float = Finite(value: real) | NaN

  function Abs(x: real): (r: real)
    ensures r >= 0.0
    ensures r == x || r == -x
  {
    if x < 0.0 then -x else x
  }
}
