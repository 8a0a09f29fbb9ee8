/** The backtesting loop (`Engine` in backtester/engine.py): every period it
    closes the open positions at the adjusted close, asks the strategy for
    alphas on the history so far, sizes orders from them, and opens the
    orders it can afford at the next period's open. */
module Backtest {
  import opened Numbers
  import opened Sizing
  import opened Positions
  import opened Execution

  /** The "Open" and "Adj Close" columns of the time series: one row per
      period, one column per ticker, tickers in column order. */
  datatype Prices = Prices(open: seq<seq<real>>, adjClose: seq<seq<real>>)
  {
    function Periods(): nat
    {
      |adjClose|
    }

    function Tickers(): nat
    {
      if adjClose == [] then 0 else |adjClose[0]|
    }

    /** At least one period and one ticker, rectangular, and every adjusted
        close positive (orders are sized by dividing by it). */
    predicate Valid()
    {
      |adjClose| > 0 && |open| == |adjClose| && |adjClose[0]| > 0 &&
      forall i :: 0 <= i < |adjClose| ==>
        |adjClose[i]| == Tickers() && |open[i]| == Tickers() && PositivePrices(adjClose[i])
    }

    /** `data.loc[:i, :]`: the rows up to and including period `i`. */
    function Upto(i: nat): (h: Prices)
      requires Valid() && i < Periods()
      ensures h.Valid() && h.Periods() == i + 1 && h.Tickers() == Tickers()
      ensures forall k :: 0 <= k <= i ==> h.open[k] == open[k] && h.adjClose[k] == adjClose[k]
    {
      Prices(open[..i + 1], adjClose[..i + 1])
    }
  }

  /** What a strategy hands back: something that is not an iterable (a
      scalar, say), or a vector of alphas, any of which may be NaN. */
  datatype Reply = NotIterable | Vector(alphas: seq<Float>)

  /** `not isinstance(alphas, Iterable) or len(alphas) != len(self.tickers)` */
  predicate Malformed(reply: Reply, tickers: nat)
  {
    reply.NotIterable? || |reply.alphas| != tickers
  }

  /** The result of `_place_orders`: the new order vector, or the
      `StrategyException` it raises. */
  datatype Placed = Orders(shares: seq<Float>) | StrategyException

  function OrdersFor(reply: Reply, cash: real, closes: seq<real>): (p: Placed)
    requires |closes| > 0 && PositivePrices(closes)
    ensures p.StrategyException? <==> Malformed(reply, |closes|)
    ensures p.Orders? ==> |p.shares| == |closes|
  {
    if Malformed(reply, |closes|) then StrategyException
    else Orders(SizeOrders(reply.alphas, cash, closes))
  }

  /** The engine's state: the cash column (one entry per period), the order
      vector, the position counter and the open positions. */
  datatype Snapshot = Snapshot(cash: seq<real>, orders: seq<Float>, posId: int, book: Book)

  predicate Fits(data: Prices, s: Snapshot)
  {
    |s.cash| == data.Periods() && |s.orders| == data.Tickers() && s.book.Sized(data.Tickers())
  }

  /** `Engine.__init__`: the initial amount in the first period's cash, zero
      cash after it, zero orders, no positions, position counter at zero. */
  function Initial(data: Prices, amount: real): (s: Snapshot)
    requires data.Valid()
    ensures Fits(data, s)
  {
    Snapshot([amount] + seq(data.Periods() - 1, _ => 0.0), seq(data.Tickers(), _ => Finite(0.0)), 0, Cleared(data.Tickers()))
  }

  /** `_close_positions(i)`: every open position is credited to the cash of
      period `i` at that period's adjusted close, then all slots are cleared. */
  function ClosePeriod(data: Prices, s: Snapshot, i: nat): (c: Snapshot)
    requires data.Valid() && Fits(data, s) && i < data.Periods()
    ensures Fits(data, c)
  {
    s.(cash := s.cash[i := s.cash[i] + CloseCredit(s.book, data.adjClose[i], data.Tickers())],
       book := Cleared(data.Tickers()))
  }

  /** `_place_trades(i)`: nothing in the last period; otherwise the cash is
      carried to the next morning and the orders are executed there at the
      next period's open. */
  function TradePeriod(data: Prices, s: Snapshot, i: nat): (t: Snapshot)
    requires data.Valid() && Fits(data, s) && i < data.Periods()
    ensures Fits(data, t)
  {
    if i + 1 == data.Periods() then s
    else
      var d := Execute(Desk(s.cash[i], s.posId, s.book), s.orders, data.open[i + 1], data.Tickers());
      s.(cash := s.cash[i + 1 := d.cash], posId := d.posId, book := d.book)
  }

  /** Whether `run` returned, or raised `StrategyException` in some period. */
  datatype Outcome = Completed | StrategyRaised(period: nat)

  datatype Progress = Progress(outcome: Outcome, final: Snapshot)

  /** The periods from `i` on, as `run` performs them. */
  function Simulate(data: Prices, strategy: Prices -> Reply, s: Snapshot, i: nat): (p: Progress)
    requires data.Valid() && Fits(data, s) && i <= data.Periods()
    ensures Fits(data, p.final)
    decreases data.Periods() - i
  {
    if i == data.Periods() then Progress(Completed, s)
    else
      var c := ClosePeriod(data, s, i);
      match OrdersFor(strategy(data.Upto(i)), c.cash[i], data.adjClose[i])
      case StrategyException => Progress(StrategyRaised(i), c)
      case Orders(o) => Simulate(data, strategy, TradePeriod(data, c.(orders := o), i), i + 1)
  }

  /** The strategy's reply in period `i` is refused. */
  predicate BadReply(data: Prices, strategy: Prices -> Reply, i: nat)
    requires data.Valid() && i < data.Periods()
  {
    Malformed(strategy(data.Upto(i)), data.Tickers())
  }

  // ---------------------------------------------------------------------------
  // Properties of a run

  /** The orders placed in period `i` from a well-formed reply. */
  function PlacedOrders(data: Prices, strategy: Prices -> Reply, s: Snapshot, i: nat): (o: seq<Float>)
    requires data.Valid() && Fits(data, s) && i < data.Periods() && !BadReply(data, strategy, i)
    ensures |o| == data.Tickers()
  {
    OrdersFor(strategy(data.Upto(i)), ClosePeriod(data, s, i).cash[i], data.adjClose[i]).shares
  }

  /** No look-ahead: what period `i` does before trading (the close-out, the
      strategy's verdict and the orders placed) depends only on the rows up
      to and including `i`. Two series that agree on those rows place the
      same orders, whatever their later rows hold. */
  lemma NoLookAhead(a: Prices, b: Prices, strategy: Prices -> Reply, s: Snapshot, i: nat)
    requires a.Valid() && b.Valid() && a.Periods() == b.Periods() && a.Tickers() == b.Tickers()
    requires Fits(a, s) && i < a.Periods()
    requires a.open[..i + 1] == b.open[..i + 1] && a.adjClose[..i + 1] == b.adjClose[..i + 1]
    ensures BadReply(a, strategy, i) == BadReply(b, strategy, i)
    ensures ClosePeriod(a, s, i) == ClosePeriod(b, s, i)
    ensures !BadReply(a, strategy, i) ==> PlacedOrders(a, strategy, s, i) == PlacedOrders(b, strategy, s, i)
  {
  }

  /** The state a period that is not refused hands to the next one. */
  function Advance(data: Prices, strategy: Prices -> Reply, s: Snapshot, i: nat): (t: Snapshot)
    requires data.Valid() && Fits(data, s) && i < data.Periods() && !BadReply(data, strategy, i)
    ensures Fits(data, t)
  {
    TradePeriod(data, ClosePeriod(data, s, i).(orders := PlacedOrders(data, strategy, s, i)), i)
  }

  /** One period of a run: a refused reply stops it with the closed-out
      state, any other reply hands the next state on. */
  lemma SimulateStep(data: Prices, strategy: Prices -> Reply, s: Snapshot, i: nat)
    requires data.Valid() && Fits(data, s) && i < data.Periods()
    ensures BadReply(data, strategy, i) ==>
            Simulate(data, strategy, s, i) == Progress(StrategyRaised(i), ClosePeriod(data, s, i))
    ensures !BadReply(data, strategy, i) ==>
            Simulate(data, strategy, s, i) == Simulate(data, strategy, Advance(data, strategy, s, i), i + 1)
  {
  }


  /** `run` raises exactly when some period's reply is refused. */
  lemma {:induction false} RaisesIffBadReply(data: Prices, strategy: Prices -> Reply, s: Snapshot, j: nat)
    requires data.Valid() && Fits(data, s) && j <= data.Periods()
    ensures Simulate(data, strategy, s, j).outcome.StrategyRaised? <==>
            exists i :: j <= i < data.Periods() && BadReply(data, strategy, i)
    decreases data.Periods() - j
  {
    var raised := Simulate(data, strategy, s, j).outcome.StrategyRaised?;
    if j == data.Periods() {
      assert !raised;
    } else {
      SimulateStep(data, strategy, s, j);
      if BadReply(data, strategy, j) {
        assert raised;
        assert j <= j < data.Periods() && BadReply(data, strategy, j);
      } else {
        var t := Advance(data, strategy, s, j);
        RaisesIffBadReply(data, strategy, t, j + 1);
        assert raised == Simulate(data, strategy, t, j + 1).outcome.StrategyRaised?;
        if raised {
          var i :| j + 1 <= i < data.Periods() && BadReply(data, strategy, i);
          assert j <= i < data.Periods() && BadReply(data, strategy, i);
        } else {
          forall i | j <= i < data.Periods()
            ensures !BadReply(data, strategy, i)
          {
            if i > j {
              assert !(j + 1 <= i < data.Periods() && BadReply(data, strategy, i));
            }
          }
        }
      }
    }
  }

  /** When `run` raises, it does so in the first period whose reply is
      refused. */
  lemma {:induction false} RaisesAtFirstBadReply(data: Prices, strategy: Prices -> Reply, s: Snapshot, j: nat)
    requires data.Valid() && Fits(data, s) && j <= data.Periods()
    ensures Simulate(data, strategy, s, j).outcome.StrategyRaised? ==>
            var p := Simulate(data, strategy, s, j).outcome.period;
            j <= p < data.Periods() && BadReply(data, strategy, p) &&
            forall i :: j <= i < p ==> !BadReply(data, strategy, i)
    decreases data.Periods() - j
  {
    var p := Simulate(data, strategy, s, j);
    if j == data.Periods() {
      assert p.outcome == Completed;
    } else {
      SimulateStep(data, strategy, s, j);
      if BadReply(data, strategy, j) {
        assert p.outcome == StrategyRaised(j);
      } else {
        var t := Advance(data, strategy, s, j);
        RaisesAtFirstBadReply(data, strategy, t, j + 1);
        assert p == Simulate(data, strategy, t, j + 1);
        if p.outcome.StrategyRaised? {
          var q := p.outcome.period;
          assert j + 1 <= q < data.Periods() && BadReply(data, strategy, q);
          forall i | j <= i < q
            ensures !BadReply(data, strategy, i)
          {
            if i > j {
              assert j + 1 <= i < q;
            }
          }
        }
      }
    }
  }

  /** A strategy whose every reply is a vector of one alpha per ticker runs
      to completion. */
  lemma WellFormedStrategyCompletes(data: Prices, strategy: Prices -> Reply, amount: real)
    requires data.Valid()
    requires forall i :: 0 <= i < data.Periods() ==> !BadReply(data, strategy, i)
    ensures Simulate(data, strategy, Initial(data, amount), 0).outcome == Completed
  {
    RaisesIffBadReply(data, strategy, Initial(data, amount), 0);
  }

  /** A strategy that returns a scalar. */
  function ScalarStrategy(history: Prices): Reply
  {
    NotIterable
  }

  /** A strategy returning a scalar is refused in the very first period,
      before anything has changed. */
  lemma ScalarStrategyRaises(data: Prices, amount: real)
    requires data.Valid()
    ensures Simulate(data, ScalarStrategy, Initial(data, amount), 0) == Progress(StrategyRaised(0), Initial(data, amount))
  {
    ClearedCredit(data.Tickers(), data.adjClose[0]);
  }

  /** The exception leaves the cash of every later period as it was. */
  lemma {:induction false} HaltLeavesLaterCash(data: Prices, strategy: Prices -> Reply, s: Snapshot, j: nat)
    requires data.Valid() && Fits(data, s) && j <= data.Periods()
    ensures var p := Simulate(data, strategy, s, j);
            p.outcome.StrategyRaised? ==>
              j <= p.outcome.period &&
              forall k :: p.outcome.period < k < data.Periods() ==> p.final.cash[k] == s.cash[k]
    decreases data.Periods() - j
  {
    var p := Simulate(data, strategy, s, j);
    if j == data.Periods() {
      assert p.outcome == Completed;
    } else {
      SimulateStep(data, strategy, s, j);
      if BadReply(data, strategy, j) {
        assert p == Progress(StrategyRaised(j), ClosePeriod(data, s, j));
      } else {
        var t := Advance(data, strategy, s, j);
        HaltLeavesLaterCash(data, strategy, t, j + 1);
        assert p == Simulate(data, strategy, t, j + 1);
        if p.outcome.StrategyRaised? {
          assert j + 1 <= p.outcome.period;
          assert forall k :: j + 1 < k < data.Periods() ==> t.cash[k] == s.cash[k];
        }
      }
    }
  }

  /** One period's cash flow: the close-out is credited to the period's
      cash, the next period starts from it less the cash tied up by the
      positions opened, and no other period's cash moves. */
  lemma PeriodCashFlow(data: Prices, s: Snapshot, i: nat, o: seq<Float>)
    requires data.Valid() && Fits(data, s) && i + 1 < data.Periods() && |o| == data.Tickers()
    ensures var c := ClosePeriod(data, s, i);
            var t := TradePeriod(data, c.(orders := o), i);
            t.cash[i] == s.cash[i] + CloseCredit(s.book, data.adjClose[i], data.Tickers()) &&
            t.cash[i + 1] == t.cash[i] - BookNotional(t.book, data.Tickers()) &&
            forall k :: 0 <= k < data.Periods() && k != i && k != i + 1 ==> t.cash[k] == s.cash[k]
  {
    var c := ClosePeriod(data, s, i);
    ExecuteSpendsBook(Desk(c.cash[i], s.posId, c.book), o, data.open[i + 1], data.Tickers());
  }


  /** With no overnight gap (every ticker opens where it closed) and alphas
      that are not all equal, every order is filled and all the cash of a
      non-overdrawn account is invested. */
  lemma NoOvernightGapInvestsAll(data: Prices, strategy: Prices -> Reply, s: Snapshot, i: nat)
    requires data.Valid() && Fits(data, s) && i + 1 < data.Periods()
    requires data.open[i + 1] == data.adjClose[i]
    requires !BadReply(data, strategy, i) && !Degenerate(FillNaN(strategy(data.Upto(i)).alphas))
    requires ClosePeriod(data, s, i).cash[i] >= 0.0
    ensures var t := TradePeriod(data, ClosePeriod(data, s, i).(orders := PlacedOrders(data, strategy, s, i)), i);
            t.cash[i + 1] == 0.0 && t.posId == s.posId + data.Tickers()
  {
    var c := ClosePeriod(data, s, i);
    var o := PlacedOrders(data, strategy, s, i);
    var closes := data.adjClose[i];
    var d := Desk(c.cash[i], s.posId, c.book);
    SizingSpendsAllCash(strategy(data.Upto(i)).alphas, c.cash[i], closes);
    AffordableExecutesAll(d, o, closes);
    AllAdmittedCount(d, o, closes, |o|);
    ExecuteCount(d, o, closes, |o|);
  }

  /** When every alpha is equal nothing is traded: the cash is carried over,
      the counter stays and no slot is opened. */
  lemma DegenerateAlphasTradeNothing(data: Prices, strategy: Prices -> Reply, s: Snapshot, i: nat)
    requires data.Valid() && Fits(data, s) && i + 1 < data.Periods()
    requires !BadReply(data, strategy, i) && Degenerate(FillNaN(strategy(data.Upto(i)).alphas))
    ensures var c := ClosePeriod(data, s, i);
            var t := TradePeriod(data, c.(orders := PlacedOrders(data, strategy, s, i)), i);
            t.cash[i + 1] == c.cash[i] && t.posId == s.posId && t.book == Cleared(data.Tickers())
  {
    var c := ClosePeriod(data, s, i);
    var o := PlacedOrders(data, strategy, s, i);
    DegenerateSizing(strategy(data.Upto(i)).alphas, c.cash[i], data.adjClose[i]);
    NaNOrdersExecuteNothing(Desk(c.cash[i], s.posId, c.book), o, data.open[i + 1], data.Tickers());
  }

  /** An account left overdrawn by the close-out (a short whose price more
      than doubled) trades nothing in that period. */
  lemma OverdrawnTradesNothing(data: Prices, s: Snapshot, i: nat, o: seq<Float>)
    requires data.Valid() && Fits(data, s) && i + 1 < data.Periods() && |o| == data.Tickers()
    requires ClosePeriod(data, s, i).cash[i] < 0.0
    ensures var c := ClosePeriod(data, s, i);
            var t := TradePeriod(data, c.(orders := o), i);
            t.cash[i + 1] == c.cash[i] && t.posId == s.posId && t.book == Cleared(data.Tickers())
  {
    var c := ClosePeriod(data, s, i);
    OverdrawnExecutesNothing(Desk(c.cash[i], s.posId, c.book), o, data.open[i + 1], data.Tickers());
  }

  // ---------------------------------------------------------------------------
  // The engine object

  class Engine {
    const data: Prices
    const strategy: Prices -> Reply
    const tickers: nat
    const cash: array<real>
    const trades: Trade
    var orders: seq<Float>
    var posId: int

    ghost predicate Valid()
      reads this
    {
      data.Valid() && tickers == data.Tickers() && cash.Length == data.Periods() &&
      trades.Valid() && trades.size == tickers && |orders| == tickers &&
      cash != trades.price && cash != trades.shares
    }

    ghost function State(): (s: Snapshot)
      requires Valid()
      reads this, cash, trades.id, trades.price, trades.shares
      ensures Fits(data, s)
    {
      Snapshot(cash[..], orders, posId, trades.Contents())
    }

    constructor (initialAmount: real, timeseries: Prices, userStrategy: Prices -> Reply)
      requires timeseries.Valid()
      ensures Valid() && data == timeseries && strategy == userStrategy
      ensures State() == Initial(timeseries, initialAmount)
      ensures fresh(cash) && fresh(trades) && fresh(trades.id) && fresh(trades.price) && fresh(trades.shares)
    {
      data := timeseries;
      var column := new real[timeseries.Periods()](_ => 0.0);
      column[0] := initialAmount;
      cash := column;
      strategy := userStrategy;
      posId := 0;
      tickers := timeseries.Tickers();
      orders := seq(timeseries.Tickers(), _ => Finite(0.0));
      trades := new Trade(timeseries.Tickers());
      new;
      assert cash[..] == [initialAmount] + seq(data.Periods() - 1, _ => 0.0);
    }

    /** `_close_positions(i)` */
    method ClosePositions(i: nat)
      requires Valid() && i < data.Periods()
      modifies cash, trades.id, trades.price, trades.shares
      ensures Valid() && State() == ClosePeriod(data, old(State()), i)
    {
      ghost var book := trades.Contents();
      ghost var closes := data.adjClose[i];
      for t := 0 to tickers
        invariant unchanged(trades.id, trades.price, trades.shares)
        invariant forall k :: 0 <= k < cash.Length && k != i ==> cash[k] == old(cash[k])
        invariant cash[i] == old(cash[i]) + CloseCredit(book, closes, t)
      {
        if trades.OpenTrade(t) {
          var close := data.adjClose[i][t];
          var pnl := (close - trades.price[t]) * trades.shares[t];
          OpenSlotCredit(book.prices[t], book.shares[t], closes[t], trades.Value(t), pnl);
          cash[i] := cash[i] + Abs(trades.Value(t)) + pnl;
        }
      }
      assert cash[..] == old(cash[..])[i := old(cash[i]) + CloseCredit(book, closes, tickers)];
      trades.Clear();
    }

    /** `_place_orders(i)`: `raised` stands for the `StrategyException`. */
    method PlaceOrders(i: nat) returns (raised: bool)
      requires Valid() && i < data.Periods()
      modifies this
      ensures Valid()
      ensures raised <==> BadReply(data, strategy, i)
      ensures State() == match OrdersFor(strategy(data.Upto(i)), cash[i], data.adjClose[i])
                         case StrategyException => old(State())
                         case Orders(o) => old(State()).(orders := o)
    {
      var alphas := strategy(data.Upto(i));
      if alphas.NotIterable? || |alphas.alphas| != tickers {
        return true;
      }
      orders := SizeOrders(alphas.alphas, cash[i], data.adjClose[i]);
      raised := false;
    }

    /** `_place_trades(i)` */
    method PlaceTrades(i: nat)
      requires Valid() && i < data.Periods()
      modifies this, cash, trades.id, trades.price, trades.shares
      ensures Valid() && State() == TradePeriod(data, old(State()), i)
    {
      if cash.Length == i + 1 {
        return;
      }
      cash[i + 1] := cash[i];
      ghost var start := Desk(cash[i], posId, trades.Contents());
      for t := 0 to tickers
        invariant Valid() && orders == old(orders)
        invariant cash[..] == old(cash[..])[i + 1 := cash[i + 1]]
        invariant Desk(cash[i + 1], posId, trades.Contents()) == Execute(start, orders, data.open[i + 1], t)
      {
        var openPrice := data.open[i + 1][t];
        if Eligible(orders[t], openPrice, cash[i + 1]) {
          trades.id[t] := posId;
          trades.price[t] := openPrice;
          trades.shares[t] := orders[t].value;
          cash[i + 1] := cash[i + 1] - Abs(trades.Value(t));
          posId := posId + 1;
        }
      }
    }

    /** `run`: the periods in order, stopping at the first refused reply. */
    method Run() returns (outcome: Outcome)
      requires Valid()
      modifies this, cash, trades.id, trades.price, trades.shares
      ensures Valid() && Simulate(data, strategy, old(State()), 0) == Progress(outcome, State())
    {
      var i := 0;
      while i < cash.Length
        invariant i <= cash.Length && Valid()
        invariant Simulate(data, strategy, old(State()), 0) == Simulate(data, strategy, State(), i)
      {
        ClosePositions(i);
        var raised := PlaceOrders(i);
        if raised {
          return StrategyRaised(i);
        }
        PlaceTrades(i);
        i := i + 1;
      }
      return Completed;
    }
  }
}
