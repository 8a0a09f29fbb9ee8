/** The order sizer of `Engine._place_orders`: NaN alphas become zero, the
    vector is min-max rescaled onto [-1, +1], the available cash is split in
    proportion to each rescaled alpha over the sum of their magnitudes, and each
    share of cash is turned into a number of shares at the period's adjusted
    close. */
module Sizing {
  import opened Numbers

  /** `alphas[np.isnan(alphas)] = 0.0` */
  function FillNaN(alphas: seq<Float>): (a: seq<real>)
    ensures |a| == |alphas|
    ensures forall k :: 0 <= k < |a| ==> a[k] == if alphas[k].NaN? then 0.0 else alphas[k].value
  {
    seq(|alphas|, k requires 0 <= k < |alphas| => if alphas[k].NaN? then 0.0 else alphas[k].value)
  }

  /** `np.min` */
  function Min(a: seq<real>): (m: real)
    requires |a| > 0
    ensures m in a
    ensures forall k :: 0 <= k < |a| ==> m <= a[k]
  {
    if |a| == 1 then a[0]
    else
      var rest := Min(a[1..]);
      if a[0] <= rest then a[0] else rest
  }

  /** `np.max` */
  function Max(a: seq<real>): (m: real)
    requires |a| > 0
    ensures m in a
    ensures forall k :: 0 <= k < |a| ==> a[k] <= m
  {
    if |a| == 1 then a[0]
    else
      var rest := Max(a[1..]);
      if rest <= a[0] then a[0] else rest
  }

  /** All alphas are equal: the rescaling divides zero by zero. */
  predicate Degenerate(a: seq<real>)
    requires |a| > 0
  {
    Max(a) == Min(a)
  }

  /** One entry of `2 * (alphas - min) / (max - min) - 1`. */
  function UnitScale(x: real, lo: real, hi: real): real
    requires lo < hi
  {
    2.0 * (x - lo) / (hi - lo) - 1.0
  }

  function Rescale(a: seq<real>): (r: seq<real>)
    requires |a| > 0 && !Degenerate(a)
    ensures |r| == |a|
  {
    seq(|a|, k requires 0 <= k < |a| => UnitScale(a[k], Min(a), Max(a)))
  }

  function Sum(a: seq<real>): real
  {
    if a == [] then 0.0 else Sum(a[..|a| - 1]) + a[|a| - 1]
  }

  /** `np.abs` */
  function Magnitudes(a: seq<real>): (m: seq<real>)
    ensures |m| == |a|
  {
    seq(|a|, k requires 0 <= k < |a| => Abs(a[k]))
  }

  /** `np.sum(np.abs(alphas))` */
  function SumAbs(a: seq<real>): real
  {
    Sum(Magnitudes(a))
  }

  /** Cash an order ties up at a price: `abs(shares * price)`, nothing for NaN. */
  function Notional(order: Float, price: real): (v: real)
    ensures v >= 0.0
  {
    if order.Finite? then Abs(order.value * price) else 0.0
  }

  /** Total cash a vector of orders ties up at the given prices. */
  function Spend(orders: seq<Float>, prices: seq<real>): (t: real)
    requires |orders| == |prices|
    ensures t >= 0.0
  {
    if orders == [] then 0.0
    else Spend(orders[..|orders| - 1], prices[..|prices| - 1]) + Notional(orders[|orders| - 1], prices[|prices| - 1])
  }

  predicate PositivePrices(prices: seq<real>)
  {
    forall k :: 0 <= k < |prices| ==> prices[k] > 0.0
  }

  /** `value = (alphas / total) * available_cash; nshares = value / adj_close` */
  function Allocate(r: seq<real>, total: real, cash: real, closes: seq<real>): (orders: seq<Float>)
    requires |r| == |closes| && total > 0.0 && PositivePrices(closes)
    ensures |orders| == |r|
  {
    seq(|r|, k requires 0 <= k < |r| => Finite(r[k] / total * cash / closes[k]))
  }

  /** The orders `_place_orders` computes from a vector of the right length.
      When all alphas are equal the rescaling is 0/0 and every order is NaN. */
  function SizeOrders(alphas: seq<Float>, cash: real, closes: seq<real>): (orders: seq<Float>)
    requires |alphas| == |closes| > 0
    requires PositivePrices(closes)
    ensures |orders| == |alphas|
    ensures forall k :: 0 <= k < |orders| ==> (orders[k].NaN? <==> Degenerate(FillNaN(alphas)))
  {
    var a := FillNaN(alphas);
    if Degenerate(a) then seq(|a|, _ => NaN)
    else
      RescaledTotalPositive(a);
      Allocate(Rescale(a), SumAbs(Rescale(a)), cash, closes)
  }

  // ---------------------------------------------------------------------------
  // Rescaling

  lemma DivOrder(u: real, v: real, d: real)
    requires d > 0.0
    ensures u <= v <==> u / d <= v / d
    ensures u == v <==> u / d == v / d
  {
  }

  lemma UnitScaleRange(x: real, lo: real, hi: real)
    requires lo < hi && lo <= x <= hi
    ensures -1.0 <= UnitScale(x, lo, hi) <= 1.0
    ensures UnitScale(x, lo, hi) == -1.0 <==> x == lo
    ensures UnitScale(x, lo, hi) == 1.0 <==> x == hi
  {
    var d := hi - lo;
    assert 2.0 * d / d == 2.0;
    assert 0.0 / d == 0.0;
    DivOrder(0.0, 2.0 * (x - lo), d);
    DivOrder(2.0 * (x - lo), 2.0 * d, d);
  }

  lemma UnitScaleMonotone(x: real, y: real, lo: real, hi: real)
    requires lo < hi
    ensures x <= y <==> UnitScale(x, lo, hi) <= UnitScale(y, lo, hi)
  {
    DivOrder(2.0 * (x - lo), 2.0 * (y - lo), hi - lo);
  }

  /** Every rescaled alpha lies in [-1, +1]; exactly the minimum maps to -1 and
      exactly the maximum to +1. */
  lemma RescaleRange(a: seq<real>, k: nat)
    requires |a| > 0 && !Degenerate(a) && k < |a|
    ensures -1.0 <= Rescale(a)[k] <= 1.0
    ensures Rescale(a)[k] == -1.0 <==> a[k] == Min(a)
    ensures Rescale(a)[k] == 1.0 <==> a[k] == Max(a)
  {
    UnitScaleRange(a[k], Min(a), Max(a));
  }

  /** Rescaling keeps the order of the alphas. */
  lemma RescaleMonotone(a: seq<real>, j: nat, k: nat)
    requires |a| > 0 && !Degenerate(a) && j < |a| && k < |a|
    ensures a[j] <= a[k] <==> Rescale(a)[j] <= Rescale(a)[k]
  {
    UnitScaleMonotone(a[j], a[k], Min(a), Max(a));
  }

  lemma {:induction false} SumAtLeastEntry(m: seq<real>, k: nat)
    requires k < |m|
    requires forall j :: 0 <= j < |m| ==> m[j] >= 0.0
    ensures Sum(m) >= m[k]
  {
    var n := |m| - 1;
    SumNonNegative(m[..n]);
    if k < n {
      SumAtLeastEntry(m[..n], k);
    }
  }

  lemma {:induction false} SumNonNegative(m: seq<real>)
    requires forall j :: 0 <= j < |m| ==> m[j] >= 0.0
    ensures Sum(m) >= 0.0
  {
    if m != [] {
      SumNonNegative(m[..|m| - 1]);
    }
  }

  lemma SumAbsAtLeastEntry(a: seq<real>, k: nat)
    requires k < |a|
    ensures SumAbs(a) >= Abs(a[k])
  {
    SumAtLeastEntry(Magnitudes(a), k);
  }

  /** The divisor `total` is never zero once the vector is not degenerate:
      its maximum maps to +1. */
  lemma RescaledTotalPositive(a: seq<real>)
    requires |a| > 0 && !Degenerate(a)
    ensures SumAbs(Rescale(a)) >= 1.0
  {
    var k :| 0 <= k < |a| && a[k] == Max(a);
    RescaleRange(a, k);
    SumAbsAtLeastEntry(Rescale(a), k);
  }

  // ---------------------------------------------------------------------------
  // Sizing

  lemma QuotientSign(x: real, d: real)
    requires d > 0.0
    ensures x / d > 0.0 <==> x > 0.0
    ensures x / d < 0.0 <==> x < 0.0
  {
  }

  /** The arithmetic of one order: `(alpha / total) * cash / price`. */
  lemma OrderArithmetic(x: real, total: real, cash: real, price: real)
    requires total > 0.0 && price > 0.0
    ensures (x / total * cash / price) * price == x / total * cash
    ensures cash > 0.0 ==> (x / total * cash / price > 0.0 <==> x > 0.0)
    ensures cash > 0.0 ==> (x / total * cash / price < 0.0 <==> x < 0.0)
  {
    var w := x / total * cash;
    assert (w / price) * price == w;
    QuotientSign(w, price);
    QuotientSign(x, total);
    if cash > 0.0 {
      assert x / total > 0.0 ==> w > 0.0;
      assert x / total < 0.0 ==> w < 0.0;
      assert x / total == 0.0 ==> w == 0.0;
    }
  }

  /** One allocated order, in cash at its price, is its share of `cash`;
      with positive cash it has the sign of its weight. */
  lemma AllocatedOrder(r: seq<real>, total: real, cash: real, closes: seq<real>, k: nat)
    requires |r| == |closes| && total > 0.0 && PositivePrices(closes) && k < |r|
    ensures var o := Allocate(r, total, cash, closes)[k];
            && o.Finite?
            && o.value * closes[k] == r[k] / total * cash
            && (cash > 0.0 ==> (o.value > 0.0 <==> r[k] > 0.0) && (o.value < 0.0 <==> r[k] < 0.0))
  {
    OrderArithmetic(r[k], total, cash, closes[k]);
  }

  lemma AllocatedNotional(r: seq<real>, total: real, cash: real, closes: seq<real>, k: nat, c: real)
    requires |r| == |closes| && total > 0.0 && PositivePrices(closes) && k < |r|
    requires c * total == Abs(cash)
    ensures Notional(Allocate(r, total, cash, closes)[k], closes[k]) == c * Magnitudes(r)[k]
  {
    AllocatedOrder(r, total, cash, closes, k);
    AbsOfShare(r[k], total, cash, c);
  }

  /** Each order is the rescaled alpha's share of the available cash, expressed
      in shares at the adjusted close; with positive cash it has the sign of
      the rescaled alpha. */
  lemma SizedOrder(alphas: seq<Float>, cash: real, closes: seq<real>, k: nat)
    requires |alphas| == |closes| > 0 && PositivePrices(closes) && k < |alphas|
    requires !Degenerate(FillNaN(alphas))
    ensures var r := Rescale(FillNaN(alphas));
            var o := SizeOrders(alphas, cash, closes)[k];
            && SumAbs(r) >= 1.0
            && o.Finite?
            && o.value * closes[k] == r[k] / SumAbs(r) * cash
            && (cash > 0.0 ==> (o.value > 0.0 <==> r[k] > 0.0) && (o.value < 0.0 <==> r[k] < 0.0))
  {
    var r := Rescale(FillNaN(alphas));
    RescaledTotalPositive(FillNaN(alphas));
    AllocatedOrder(r, SumAbs(r), cash, closes, k);
  }

  lemma ScaledSumStep(total: real, prefix: real, last: real, c: real, sum: real, s: real, x: real)
    requires total == prefix + last && prefix == c * s && last == c * x && sum == s + x
    ensures total == c * sum
  {
  }

  lemma {:induction false} SumOfScaled(w: seq<real>, m: seq<real>, c: real)
    requires |w| == |m|
    requires forall k :: 0 <= k < |m| ==> w[k] == c * m[k]
    ensures Sum(w) == c * Sum(m)
  {
    if m != [] {
      var n := |m| - 1;
      SumOfScaled(w[..n], m[..n], c);
      ScaledSumStep(Sum(w), Sum(w[..n]), w[n], c, Sum(m), Sum(m[..n]), m[n]);
    }
  }

  lemma {:induction false} SpendIsSum(orders: seq<Float>, prices: seq<real>, w: seq<real>)
    requires |orders| == |prices| == |w|
    requires forall k :: 0 <= k < |w| ==> w[k] == Notional(orders[k], prices[k])
    ensures Spend(orders, prices) == Sum(w)
  {
    if w != [] {
      var n := |w| - 1;
      SpendIsSum(orders[..n], prices[..n], w[..n]);
    }
  }

  lemma AbsOfShare(x: real, total: real, cash: real, c: real)
    requires total > 0.0 && c * total == Abs(cash)
    ensures Abs(x / total * cash) == c * Abs(x)
  {
  }

  /** Orders whose notionals are `c` times the entries of `m` tie up `c`
      times the sum of `m`. */
  lemma ProportionalSpend(orders: seq<Float>, prices: seq<real>, m: seq<real>, c: real, total: real, target: real)
    requires |orders| == |prices| == |m|
    requires forall k :: 0 <= k < |m| ==> Notional(orders[k], prices[k]) == c * m[k]
    requires Sum(m) == total && c * total == target
    ensures Spend(orders, prices) == target
  {
    var w := seq(|m|, k requires 0 <= k < |m| => Notional(orders[k], prices[k]));
    SpendIsSum(orders, prices, w);
    ScaledSum(w, m, c, total, target);
  }

  /** `SumOfScaled` restated with the total and the target as parameters.
      It is stated for an arbitrary `w`, so that `ProportionalSpend` can
      apply it to the comprehension it builds without the solver unfolding
      that comprehension inside the arithmetic. */
  lemma ScaledSum(w: seq<real>, m: seq<real>, c: real, total: real, target: real)
    requires |w| == |m|
    requires forall k :: 0 <= k < |m| ==> w[k] == c * m[k]
    requires Sum(m) == total && c * total == target
    ensures Sum(w) == target
  {
    SumOfScaled(w, m, c);
  }

  /** Allocating by weights whose magnitudes sum to `total` ties up |cash|. */
  lemma AllocationSpendsAll(r: seq<real>, total: real, cash: real, closes: seq<real>)
    requires |r| == |closes| && total > 0.0 && PositivePrices(closes)
    requires total == SumAbs(r)
    ensures Spend(Allocate(r, total, cash, closes), closes) == Abs(cash)
  {
    var c := Abs(cash) / total;
    assert c * total == Abs(cash);
    ScaledAllocationSpend(r, total, cash, closes, c);
  }

  lemma AllocatedNotionals(r: seq<real>, total: real, cash: real, closes: seq<real>, c: real,
                            orders: seq<Float>, m: seq<real>)
    requires |r| == |closes| && total > 0.0 && PositivePrices(closes)
    requires c * total == Abs(cash)
    requires orders == Allocate(r, total, cash, closes) && m == Magnitudes(r)
    ensures |orders| == |closes| == |m|
    ensures forall k :: 0 <= k < |m| ==> Notional(orders[k], closes[k]) == c * m[k]
  {
    forall k | 0 <= k < |m|
      ensures Notional(orders[k], closes[k]) == c * m[k]
    {
      AllocatedNotional(r, total, cash, closes, k, c);
    }
  }

  lemma ScaledAllocationSpend(r: seq<real>, total: real, cash: real, closes: seq<real>, c: real)
    requires |r| == |closes| && total > 0.0 && PositivePrices(closes)
    requires total == SumAbs(r) && c * total == Abs(cash)
    ensures Spend(Allocate(r, total, cash, closes), closes) == Abs(cash)
  {
    var orders, m := Allocate(r, total, cash, closes), Magnitudes(r);
    AllocatedNotionals(r, total, cash, closes, c, orders, m);
    assert Sum(m) == total;
    ProportionalSpend(orders, closes, m, c, total, Abs(cash));
  }

  /** All the available cash is distributed: the orders' notionals at the
      sizing price add up to |cash|. */
  lemma SizingSpendsAllCash(alphas: seq<Float>, cash: real, closes: seq<real>)
    requires |alphas| == |closes| > 0 && PositivePrices(closes)
    requires !Degenerate(FillNaN(alphas))
    ensures Spend(SizeOrders(alphas, cash, closes), closes) == Abs(cash)
  {
    var r := Rescale(FillNaN(alphas));
    RescaledTotalPositive(FillNaN(alphas));
    AllocationSpendsAll(r, SumAbs(r), cash, closes);
  }

  /** When all alphas are equal no order is a number, so none ties up cash. */
  lemma DegenerateSizing(alphas: seq<Float>, cash: real, closes: seq<real>)
    requires |alphas| == |closes| > 0 && PositivePrices(closes)
    requires Degenerate(FillNaN(alphas))
    ensures forall k :: 0 <= k < |alphas| ==> SizeOrders(alphas, cash, closes)[k] == NaN
    ensures Spend(SizeOrders(alphas, cash, closes), closes) == 0.0
  {
    var orders := SizeOrders(alphas, cash, closes);
    var w := seq(|alphas|, _ => 0.0);
    SpendIsSum(orders, closes, w);
    SumOfScaled(w, w, 0.0);
  }

  /** Two tickers with alphas +1 and -1 and 1000 in cash: half the cash long
      the first, half short the second. */
  lemma EvenSplit(pA: real, pB: real)
    requires pA > 0.0 && pB > 0.0
    ensures SizeOrders([Finite(1.0), Finite(-1.0)], 1000.0, [pA, pB]) == [Finite(500.0 / pA), Finite(-500.0 / pB)]
  {
    var a := FillNaN([Finite(1.0), Finite(-1.0)]);
    assert a == [1.0, -1.0];
    assert Min(a[1..]) == -1.0;
    assert Max(a[1..]) == -1.0;
    assert Min(a) == -1.0 && Max(a) == 1.0;
    var r := Rescale(a);
    assert r[0] == 1.0 && r[1] == -1.0;
    var m := Magnitudes(r);
    assert m == [1.0, 1.0];
    assert m[..1] == [1.0];
    assert Sum(m[..1]) == 1.0;
    assert SumAbs(r) == 2.0;
  }
}
