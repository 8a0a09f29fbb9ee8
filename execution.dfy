/** Turning the orders placed at one day's close into positions at the next
    day's open (`eligible` and the loop of `Engine._place_trades` in
    backtester/engine.py). */
module Execution {
  import opened Numbers
  import opened Sizing
  import opened Positions

  /** `abs(shares * price) <= cash`. A NaN order compares false and is never
      eligible. */
  predicate Eligible(shares: Float, price: real, cash: real)
    ensures Eligible(shares, price, cash) ==> shares.Finite? && cash >= 0.0
  {
    shares.Finite? && Abs(shares.value * price) <= cash
  }

  /** Everything the trade loop reads and writes: the cash of the next
      morning, the position counter and the record of positions. */
  datatype Desk = Desk(cash: real, posId: int, book: Book)

  /** One iteration of the loop, for the order in slot `k`. */
  function Admit(d: Desk, k: nat, order: Float, open: real): (e: Desk)
    requires k < |d.book.ids| && d.book.Sized(|d.book.ids|)
    ensures e.book.Sized(|d.book.ids|)
    ensures Eligible(order, open, d.cash) <==> e != d
    ensures e == d || (Eligible(order, open, d.cash) && e.posId == d.posId + 1 && e.cash == d.cash - Notional(order, open))
  {
    if Eligible(order, open, d.cash) then
      Desk(d.cash - Abs(open * order.value), d.posId + 1,
           Book(d.book.ids[k := d.posId], d.book.prices[k := open], d.book.shares[k := order.value]))
    else d
  }

  /** The desk after the loop has visited the first `n` tickers. */
  function Execute(d: Desk, orders: seq<Float>, opens: seq<real>, n: nat): (e: Desk)
    requires |orders| == |opens| && d.book.Sized(|orders|) && n <= |orders|
    ensures e.book.Sized(|orders|)
    ensures d.posId <= e.posId <= d.posId + n
  {
    if n == 0 then d
    else Admit(Execute(d, orders, opens, n - 1), n - 1, orders[n - 1], opens[n - 1])
  }

  /** The loop reaches ticker `k` with enough cash for its order. */
  predicate Admitted(d: Desk, orders: seq<Float>, opens: seq<real>, k: nat)
    requires |orders| == |opens| && d.book.Sized(|orders|) && k < |orders|
  {
    Eligible(orders[k], opens[k], Execute(d, orders, opens, k).cash)
  }

  /** How many of the first `n` orders were admitted. */
  function AdmittedCount(d: Desk, orders: seq<Float>, opens: seq<real>, n: nat): (c: nat)
    requires |orders| == |opens| && d.book.Sized(|orders|) && n <= |orders|
    ensures c <= n
  {
    if n == 0 then 0
    else AdmittedCount(d, orders, opens, n - 1) + (if Admitted(d, orders, opens, n - 1) then 1 else 0)
  }

  // ---------------------------------------------------------------------------
  // Eligibility

  /** An eligible order is a number, the account is not overdrawn, and the
      order fits in it; an order for zero shares fits any account that is
      not overdrawn. */
  lemma EligibleMeaning(shares: Float, price: real, cash: real)
    ensures Eligible(shares, price, cash) <==> shares.Finite? && Notional(shares, price) <= cash
    ensures Eligible(shares, price, cash) ==> cash >= 0.0
    ensures shares == Finite(0.0) ==> (Eligible(shares, price, cash) <==> cash >= 0.0)
  {
  }

  // ---------------------------------------------------------------------------
  // The trade loop

  /** The loop only writes the slots it has visited. */
  lemma {:induction false} ExecuteFrame(d: Desk, orders: seq<Float>, opens: seq<real>, n: nat, k: nat)
    requires |orders| == |opens| && d.book.Sized(|orders|) && n <= k < |orders|
    ensures Execute(d, orders, opens, n).book.ids[k] == d.book.ids[k]
    ensures Execute(d, orders, opens, n).book.prices[k] == d.book.prices[k]
    ensures Execute(d, orders, opens, n).book.shares[k] == d.book.shares[k]
  {
    if n > 0 {
      ExecuteFrame(d, orders, opens, n - 1, k);
    }
  }

  /** Every admitted order opens its slot at the next morning's open with the
      next position id, consecutive in ticker order; every rejected slot is
      left as it was. */
  lemma {:induction false} ExecuteSlots(d: Desk, orders: seq<Float>, opens: seq<real>, n: nat, k: nat)
    requires |orders| == |opens| && d.book.Sized(|orders|) && k < n <= |orders|
    ensures Admitted(d, orders, opens, k) ==>
      Execute(d, orders, opens, n).book.ids[k] == d.posId + AdmittedCount(d, orders, opens, k) &&
      Execute(d, orders, opens, n).book.prices[k] == opens[k] &&
      Execute(d, orders, opens, n).book.shares[k] == orders[k].value
    ensures !Admitted(d, orders, opens, k) ==>
      Execute(d, orders, opens, n).book.ids[k] == d.book.ids[k] &&
      Execute(d, orders, opens, n).book.prices[k] == d.book.prices[k] &&
      Execute(d, orders, opens, n).book.shares[k] == d.book.shares[k]
  {
    if k < n - 1 {
      ExecuteSlots(d, orders, opens, n - 1, k);
    } else {
      ExecuteFrame(d, orders, opens, k, k);
      ExecuteCount(d, orders, opens, k);
    }
  }

  /** What `Trade.value` of an opened slot measures: its magnitude is the
      cash the loop took when it opened that slot. */
  lemma SlotValueIsCashTaken(t: Trade, d: Desk, orders: seq<Float>, opens: seq<real>, n: nat, k: nat)
    requires |orders| == |opens| && d.book.Sized(|orders|) && k < n <= |orders|
    requires t.Valid() && t.size == |orders| && t.Contents() == Execute(d, orders, opens, n).book
    requires Admitted(d, orders, opens, k)
    ensures Execute(d, orders, opens, k + 1).cash == Execute(d, orders, opens, k).cash - Abs(t.Value(k))
  {
    ExecuteSlots(d, orders, opens, n, k);
  }

  /** The counter advances once per admitted order. */
  lemma {:induction false} ExecuteCount(d: Desk, orders: seq<Float>, opens: seq<real>, n: nat)
    requires |orders| == |opens| && d.book.Sized(|orders|) && n <= |orders|
    ensures Execute(d, orders, opens, n).posId == d.posId + AdmittedCount(d, orders, opens, n)
  {
    if n > 0 {
      ExecuteCount(d, orders, opens, n - 1);
    }
  }

  /** When every order is admitted the counter advances once per order. */
  lemma {:induction false} AllAdmittedCount(d: Desk, orders: seq<Float>, opens: seq<real>, n: nat)
    requires |orders| == |opens| && d.book.Sized(|orders|) && n <= |orders|
    requires forall k :: 0 <= k < n ==> Admitted(d, orders, opens, k)
    ensures AdmittedCount(d, orders, opens, n) == n
  {
    if n > 0 {
      AllAdmittedCount(d, orders, opens, n - 1);
    }
  }

  /** An account that is not overdrawn stays so and only shrinks. */
  lemma {:induction false} ExecuteCashBounds(d: Desk, orders: seq<Float>, opens: seq<real>, n: nat)
    requires |orders| == |opens| && d.book.Sized(|orders|) && n <= |orders|
    requires d.cash >= 0.0
    ensures 0.0 <= Execute(d, orders, opens, n).cash <= d.cash
  {
    if n > 0 {
      ExecuteCashBounds(d, orders, opens, n - 1);
    }
  }

  /** From a cleared book, the cash taken out of the account is exactly the
      cash tied up by the positions the loop opened. */
  lemma {:induction false} ExecuteSpendsBook(d: Desk, orders: seq<Float>, opens: seq<real>, n: nat)
    requires |orders| == |opens| && d.book == Cleared(|orders|) && n <= |orders|
    ensures Execute(d, orders, opens, n).cash == d.cash - BookNotional(Execute(d, orders, opens, n).book, n)
  {
    if n == 0 {
    } else {
      var e := Execute(d, orders, opens, n - 1);
      ExecuteSpendsBook(d, orders, opens, n - 1);
      ExecuteFrame(d, orders, opens, n - 1, n - 1);
      var f := Admit(e, n - 1, orders[n - 1], opens[n - 1]);
      assert Execute(d, orders, opens, n) == f;
      AdmitSpendsSlot(d.cash, e, f, n - 1, orders[n - 1], opens[n - 1]);
    }
  }

  /** Admitting into an empty slot takes exactly the cash the slot then ties
      up, on top of what the slots before it tie up. */
  lemma AdmitSpendsSlot(start: real, e: Desk, f: Desk, k: nat, order: Float, open: real)
    requires k < |e.book.ids| && e.book.Sized(|e.book.ids|)
    requires e.book.prices[k] == 0.0 && e.book.shares[k] == 0.0
    requires e.cash == start - BookNotional(e.book, k)
    requires f == Admit(e, k, order, open)
    ensures f.cash == start - BookNotional(f.book, k + 1)
  {
    NotionalAgrees(e.book, f.book, k);
    NotionalStep(f.book, k);
    AdmitTakesSlot(e, f, k, order, open);
  }

  /** The cash one admission takes is what its slot then ties up. */
  lemma AdmitTakesSlot(e: Desk, f: Desk, k: nat, order: Float, open: real)
    requires k < |e.book.ids| && e.book.Sized(|e.book.ids|)
    requires e.book.prices[k] == 0.0 && e.book.shares[k] == 0.0
    requires f == Admit(e, k, order, open)
    ensures f.cash == e.cash - Abs(f.book.prices[k] * f.book.shares[k])
  {
    if Eligible(order, open, e.cash) {
      assert f.book.prices[k] == open && f.book.shares[k] == order.value;
      assert f.book.prices[k] * f.book.shares[k] == open * order.value;
    }
  }

  /** The spend of the first `k + 1` slots is that of the first `k` plus slot `k`'s. */
  lemma NotionalStep(book: Book, k: nat)
    requires k < |book.prices| && k < |book.shares|
    ensures BookNotional(book, k + 1) == BookNotional(book, k) + Abs(book.prices[k] * book.shares[k])
  {
  }

  /** Books that agree on the first `n` slots tie up the same cash in them. */
  lemma {:induction false} NotionalAgrees(a: Book, b: Book, n: nat)
    requires n <= |a.prices| && n <= |a.shares| && n <= |b.prices| && n <= |b.shares|
    requires forall k :: 0 <= k < n ==> a.prices[k] == b.prices[k] && a.shares[k] == b.shares[k]
    ensures BookNotional(a, n) == BookNotional(b, n)
  {
    if n > 0 {
      NotionalAgrees(a, b, n - 1);
    }
  }

  /** An overdrawn account admits nothing: the loop changes nothing. */
  lemma {:induction false} OverdrawnExecutesNothing(d: Desk, orders: seq<Float>, opens: seq<real>, n: nat)
    requires |orders| == |opens| && d.book.Sized(|orders|) && n <= |orders|
    requires d.cash < 0.0
    ensures Execute(d, orders, opens, n) == d
  {
    if n > 0 {
      OverdrawnExecutesNothing(d, orders, opens, n - 1);
    }
  }

  /** Orders that are all NaN open nothing. */
  lemma {:induction false} NaNOrdersExecuteNothing(d: Desk, orders: seq<Float>, opens: seq<real>, n: nat)
    requires |orders| == |opens| && d.book.Sized(|orders|) && n <= |orders|
    requires forall k :: 0 <= k < |orders| ==> orders[k].NaN?
    ensures Execute(d, orders, opens, n) == d
  {
    if n > 0 {
      NaNOrdersExecuteNothing(d, orders, opens, n - 1);
    }
  }

  /** When the account covers the cash the first `n` orders tie up at the
      opening prices, exactly that cash is taken for them. */
  lemma {:induction false} AffordableCash(d: Desk, orders: seq<Float>, opens: seq<real>, n: nat)
    requires |orders| == |opens| && d.book.Sized(|orders|) && n <= |orders|
    requires forall k :: 0 <= k < |orders| ==> orders[k].Finite?
    requires Spend(orders[..n], opens[..n]) <= d.cash
    ensures Execute(d, orders, opens, n).cash == d.cash - Spend(orders[..n], opens[..n])
  {
    if n > 0 {
      SpendPrefix(orders, opens, n);
      AffordableCash(d, orders, opens, n - 1);
      AdmitAffordable(Execute(d, orders, opens, n - 1), n - 1, orders[n - 1], opens[n - 1],
                      d.cash, Spend(orders[..n - 1], opens[..n - 1]));
    }
  }

  /** One affordable order is admitted and its notional is taken. */
  lemma AdmitAffordable(e: Desk, k: nat, order: Float, open: real, start: real, spent: real)
    requires k < |e.book.ids| && e.book.Sized(|e.book.ids|)
    requires order.Finite? && e.cash == start - spent && spent + Notional(order, open) <= start
    ensures Admit(e, k, order, open).cash == start - (spent + Notional(order, open))
  {
  }

  /** When the account covers the cash all the orders tie up at the opening
      prices, every order is admitted and exactly that cash is taken. */
  lemma AffordableExecutesAll(d: Desk, orders: seq<Float>, opens: seq<real>)
    requires |orders| == |opens| && d.book.Sized(|orders|)
    requires forall k :: 0 <= k < |orders| ==> orders[k].Finite?
    requires Spend(orders, opens) <= d.cash
    ensures Execute(d, orders, opens, |orders|).cash == d.cash - Spend(orders, opens)
    ensures forall k :: 0 <= k < |orders| ==> Admitted(d, orders, opens, k)
  {
    var n := |orders|;
    assert orders[..n] == orders && opens[..n] == opens;
    AffordableCash(d, orders, opens, n);
    forall k | 0 <= k < n
      ensures Admitted(d, orders, opens, k)
    {
      SpendMonotone(orders, opens, k + 1, n);
      SpendPrefix(orders, opens, k + 1);
      assert orders[..k + 1][..k] == orders[..k];
      AffordableCash(d, orders, opens, k);
      EligibleMeaning(orders[k], opens[k], Execute(d, orders, opens, k).cash);
    }
  }

  /** A longer prefix of orders ties up at least as much cash. */
  lemma {:induction false} SpendMonotone(orders: seq<Float>, prices: seq<real>, j: nat, n: nat)
    requires |orders| == |prices| && j <= n <= |orders|
    ensures Spend(orders[..j], prices[..j]) <= Spend(orders[..n], prices[..n])
  {
    if j < n {
      SpendPrefix(orders, prices, n);
      SpendMonotone(orders, prices, j, n - 1);
    }
  }

  /** An overnight rise of the first ticker's price leaves too little cash
      for the second order: 50 shares long at 11 take 550 of 1000, and the
      short of 50 at 10 needs 500. */
  lemma OvernightGapRejects()
    ensures Execute(Desk(1000.0, 0, Cleared(2)), [Finite(50.0), Finite(-50.0)], [11.0, 10.0], 2)
         == Desk(450.0, 1, Book([0, 0], [11.0, 0.0], [50.0, 0.0]))
  {
  }

  /** Spend over a prefix: the shorter prefix plus the last notional. */
  lemma SpendPrefix(orders: seq<Float>, prices: seq<real>, n: nat)
    requires |orders| == |prices| && 0 < n <= |orders|
    ensures Spend(orders[..n], prices[..n]) == Spend(orders[..n - 1], prices[..n - 1]) + Notional(orders[n - 1], prices[n - 1])
  {
    assert orders[..n][..n - 1] == orders[..n - 1];
    assert prices[..n][..n - 1] == prices[..n - 1];
  }
}
