# Backtesting engine — a Dafny model

This project models the engine of a small event-driven backtester
(`backtester/engine.py`). It takes a price series with an "Open" and an
"Adj Close" column per ticker, a starting amount of cash and a user strategy.
It then walks the periods in order. In each period it:

1. **Closes** every open position at that period's adjusted close. Each
   position credits the cash it tied up plus its profit or loss to the
   period's cash, and then every position slot is cleared (`_close_positions`).
2. **Places orders**. It asks the strategy for one alpha per ticker on the
   history up to and including the period. NaN alphas become zero, and the
   vector is min-max rescaled onto [-1, +1]. The period's cash is shared out
   in proportion to each rescaled alpha over the sum of their magnitudes, and
   each share becomes a number of shares at the adjusted close
   (`_place_orders`). A reply that is not an iterable, or has the wrong
   length, raises `StrategyException` and ends the run.
3. **Opens trades** on the next morning, except in the last period. The
   cash is carried to the next period. Each order whose `abs(shares * open)`
   fits in the cash left is opened at the next period's open, takes that
   cash, and gets the next position id (`_place_trades`, `eligible`).

The model is organised as follows:

- `numbers.dfy` holds the number types. Floats are exact reals, and NaN is
  an explicit tag.
- `sizing.dfy` is the order sizer, written as pure functions.
- `positions.dfy` holds the `Trade` class (three arrays updated in place)
  and the value of closing positions out.
- `execution.dfy` is the eligibility rule and the trade loop, specified as
  the function `Execute`.
- `engine.dfy` holds the `Engine` class and its pure specification. Every
  method of `Engine` is proved to produce the state its specification
  function computes:
  - `ClosePeriod` specifies `ClosePositions`.
  - `OrdersFor` specifies `PlaceOrders`.
  - `TradePeriod` specifies `PlaceTrades`.
  - `Simulate` specifies `Run`.

  The properties of a run are lemmas about these functions.

Where the code departs from what its own comments and docstrings say, the
model follows the code:

- **Equal alphas.** The comment at `engine.py:130` says the alphas are
  mapped onto a -1 to +1 range. When every alpha is equal, the code instead
  rescales with 0/0. Every order is then NaN, `eligible` compares NaN false,
  and nothing is opened. No guard turns these into zero orders. The
  difference is visible: zero orders would be admitted and would advance
  the position counter.
- **First period.** The comment at `engine.py:119` says no orders can be
  placed on the first data point. Orders are sized in the first period too,
  on a history of one row.
- **Sizing price.** The comment at `engine.py:133` speaks of the current
  opening price. Orders are sized at the adjusted close of period `i`, as
  the `_place_orders` docstring (`engine.py:106`) and line 141 say, and are
  executed at the open of period `i + 1`.
- **Negative cash.** The period's cash can become negative. Closing a short
  position whose price has more than doubled takes cash away, as
  `Positions.ShortCredit` shows. An overdrawn account then opens nothing.
- **Dust positions.** An order for at most `1e-6` shares is admitted when
  it fits the cash, and pays `abs(price * shares)`. The close-out never credits it back, because
  `open_trade` does not see it as a position. An order for exactly zero
  shares is admitted whenever the cash is not negative, and it takes a
  position id.
- **A refused reply.** When the strategy's reply is refused, the close-out
  of that period has already been credited.

Each ticker has exactly one slot in `Trade`. By construction, no ticker
ever holds two positions at once.

## Model

| member | source | states |
|---|---|---|
| Sizing.FillNaN | backtester/engine.py:128-129 | The vector keeps its length. Each NaN alpha becomes 0. Each other alpha is kept. |
| Sizing.Min | backtester/engine.py:131 | `np.min`: the result is an entry of the vector and no entry is smaller. |
| Sizing.Max | backtester/engine.py:131 | `np.max`: the result is an entry of the vector and no entry is larger. |
| Sizing.RescaleRange | backtester/engine.py:130-131 | Every rescaled alpha lies in [-1, +1]. It is -1 exactly for the minimal alphas and +1 exactly for the maximal ones. |
| Sizing.RescaleMonotone | backtester/engine.py:130-131 | Rescaling preserves the order of the alphas, in both directions. |
| Sizing.RescaledTotalPositive | backtester/engine.py:134-135 | When the alphas are not all equal, `total = sum(abs(alphas))` is at least 1, so the division at line 140 is defined. |
| Sizing.Rescale | backtester/engine.py:131 | Specification of the rescaling: one rescaled alpha per alpha. Its properties are stated by `RescaleRange` and `RescaleMonotone`. |
| Sizing.Allocate | backtester/engine.py:140-142 | Specification of `nshares = (alphas / total) * cash / close`: one order per rescaled alpha. Its properties are stated by `SizedOrder` and `SizingSpendsAllCash`. |
| Sizing.SizeOrders | backtester/engine.py:128-144 | There is one order per ticker. An order is NaN exactly when all the (NaN-filled) alphas are equal. |
| Sizing.SizedOrder | backtester/engine.py:137-142 | Each order, valued at its adjusted close, is `rescaled alpha / total * cash`. With positive cash it has the sign of its rescaled alpha, so longs and shorts are sized alike. |
| Sizing.SizingSpendsAllCash | backtester/engine.py:135-142 | When the alphas are not all equal, the orders valued at the adjusted closes add up to exactly `abs(cash)`. |
| Sizing.DegenerateSizing | backtester/engine.py:131-142 | When all alphas are equal, every order is NaN and together they tie up no cash. |
| Sizing.EvenSplit | backtester/engine.py:129-144 | With alphas (+1, -1) and 1000 in cash, the orders are 500/close long the first ticker and 500/close short the second. |
| Positions.SlotCredit | backtester/engine.py:91-97 | What closing one slot credits. A long slot at non-negative prices never takes cash away. Its values are stated by `LongCredit`, `ShortCredit` and `UnchangedPriceCredit`. |
| Positions.CloseCredit | backtester/engine.py:90-97 | What closing the first n slots credits. A book of long slots at non-negative prices never takes cash away. Its values are stated by `FlatBookCredit` and `LongBookCredit`. |
| Positions.LongCredit | backtester/engine.py:91-97 | Closing an open long position credits `close * shares`, its market value. |
| Positions.ShortCredit | backtester/engine.py:91-97 | Closing an open short position credits `(2 * open - close) * abs(shares)`. The credit is negative exactly when the price has more than doubled. |
| Positions.UnchangedPriceCredit | backtester/engine.py:91-97 | A position closed at its opening price returns exactly the cash it tied up. That is a positive amount unless the price is zero. |
| Positions.FlatBookCredit | backtester/engine.py:90-97 | Slots holding no more than `1e-6` shares are skipped, so a book with no open slot credits nothing. |
| Positions.ClearedCredit | backtester/engine.py:90-100 | A cleared record of trades credits nothing at the close, so the first close-out leaves the initial cash alone. |
| Positions.LongBookCredit | backtester/engine.py:90-97 | Closing a book of long positions credits their market value at the adjusted close. |
| Positions.ClearedNotional | backtester/engine.py:220-224 | A cleared record ties up no cash. |
| Positions.Trade.constructor | backtester/engine.py:201-204 | `Trade(n)` has three fresh vectors of length n, all zero. |
| Positions.Trade.OpenTrade | backtester/engine.py:209-218 | A slot is open exactly when it holds more than `1e-6` shares long or short. |
| Positions.Trade.Clear | backtester/engine.py:220-224 | Afterwards every id, price and share count is zero. |
| Execution.Eligible | backtester/engine.py:227-242 | An eligible order is a number and the cash is not negative. Its full meaning is stated by `EligibleMeaning`. |
| Execution.EligibleMeaning | backtester/engine.py:227-242 | An order is eligible exactly when it is a number and its notional at the price fits in the cash. Eligibility implies the cash is not negative. A zero order is eligible exactly when the cash is not negative. |
| Execution.Admit | backtester/engine.py:172-177 | One iteration of the trade loop: either nothing changes, or the order is eligible, the counter rises by one and the cash falls by the order's notional at the open. |
| Execution.Execute | backtester/engine.py:169-187 | Specification of the trade loop: the counter rises by at most the number of tickers visited. Its effect is stated by `ExecuteSlots`, `ExecuteCount` and `ExecuteSpendsBook`. |
| Execution.SlotValueIsCashTaken | backtester/engine.py:174-177 | For an admitted slot, `abs(trades.value(k))` of the final record is exactly the cash the loop took when it visited that slot. |
| Execution.ExecuteFrame | backtester/engine.py:169-187 | The trade loop writes only the slots it has visited. |
| Execution.ExecuteSlots | backtester/engine.py:169-187 | Each admitted order's slot holds the next position id (consecutive in ticker order), the next open and the order. Each rejected slot is left as it was. |
| Execution.ExecuteCount | backtester/engine.py:172-187 | The position counter advances once per admitted order. |
| Execution.AllAdmittedCount | backtester/engine.py:172-187 | When every order is admitted, the counter advances by the number of tickers. |
| Execution.ExecuteCashBounds | backtester/engine.py:172-177 | Cash that is not negative stays non-negative and never grows during the loop. |
| Execution.ExecuteSpendsBook | backtester/engine.py:169-187 | Starting from a cleared record, the cash taken equals the notional of the positions opened. |
| Execution.OverdrawnExecutesNothing | backtester/engine.py:172 | With negative cash the loop changes nothing. |
| Execution.NaNOrdersExecuteNothing | backtester/engine.py:172 | All-NaN orders change nothing. |
| Execution.AffordableCash | backtester/engine.py:169-187 | When the cash covers the orders' notional at the open, exactly that notional is taken. |
| Execution.AffordableExecutesAll | backtester/engine.py:169-187 | When the cash covers every order's notional at the open, every order is admitted and exactly that notional is taken. |
| Execution.OvernightGapRejects | backtester/engine.py:151-153 | A rise overnight leaves too little cash for a later order, which is rejected while the earlier one is opened. |
| Backtest.Prices.Upto | backtester/engine.py:120 | `data.loc[:i, :]` is a valid series of i + 1 periods with the same tickers, and its rows are exactly the data's rows 0..i. |
| Backtest.NoLookAhead | backtester/engine.py:119-142 | Two series that agree on rows 0..i give the same close-out in period i, the same verdict on the strategy's reply, and the same orders when the reply is accepted. Nothing period i does before trading reads a later row. |
| Backtest.OrdersFor | backtester/engine.py:120-144 | A reply is refused exactly when it is not an iterable or its length differs from the ticker count. Otherwise there is one order per ticker. |
| Backtest.Initial | backtester/engine.py:34-48 | The start state fits the series: one cash entry per period, one order and one slot per ticker. |
| Backtest.ClosePeriod | backtester/engine.py:79-100 | Specification of `ClosePositions`. The state keeps the shape of the series. Its cash effect is stated by `PeriodCashFlow`. |
| Backtest.TradePeriod | backtester/engine.py:147-187 | Specification of `PlaceTrades`. The state keeps the shape of the series. Its effect is stated by `PeriodCashFlow`, `NoOvernightGapInvestsAll`, `DegenerateAlphasTradeNothing` and `OverdrawnTradesNothing`. |
| Backtest.Simulate | backtester/engine.py:65-75 | Specification of `Run`. The final state keeps the shape of the series. Its outcome is stated by `RaisesIffBadReply`, `RaisesAtFirstBadReply` and `HaltLeavesLaterCash`. |
| Backtest.RaisesIffBadReply | backtester/engine.py:65-75 | A run raises `StrategyException` exactly when some period's reply is refused. |
| Backtest.RaisesAtFirstBadReply | backtester/engine.py:65-75 | When a run raises, it does so in a period whose reply is refused, and every earlier period's reply was accepted. |
| Backtest.WellFormedStrategyCompletes | test/test_engine.py:17-24 | A strategy whose replies always have one alpha per ticker runs to completion. |
| Backtest.ScalarStrategyRaises | test/test_engine.py:9-14 | A strategy returning a scalar raises in period 0, and the state is left as it started. |
| Backtest.HaltLeavesLaterCash | backtester/engine.py:123-126 | After the exception, the cash of every later period is as it was before the run. |
| Backtest.PeriodCashFlow | backtester/engine.py:97-177 | The period's cash gains the close-out credit. The next period starts from that less the notional of the positions opened. No other period's cash changes. |
| Backtest.NoOvernightGapInvestsAll | backtester/engine.py:131-177 | When every ticker opens where it closed, the alphas are not all equal and the cash is not negative: every order is opened, the next period's cash is zero, and the counter advances by the ticker count. |
| Backtest.DegenerateAlphasTradeNothing | backtester/engine.py:131-172 | Equal alphas open nothing. The cash is carried over unchanged and the counter stays. |
| Backtest.OverdrawnTradesNothing | backtester/engine.py:166-172 | Cash left negative by the close-out opens nothing. The cash is carried over unchanged. |
| Backtest.Engine.constructor | backtester/engine.py:25-51 | The new engine's state is `Initial`: the initial amount in period 0 and zero after it, zero orders, a cleared record and counter 0. |
| Backtest.Engine.ClosePositions | backtester/engine.py:79-100 | The new state is `ClosePeriod` of the old one. |
| Backtest.Engine.PlaceOrders | backtester/engine.py:102-144 | `StrategyException` is raised exactly for a refused reply, and the state is then unchanged. Otherwise the orders are `OrdersFor` the reply, the period's cash and its adjusted closes. |
| Backtest.Engine.PlaceTrades | backtester/engine.py:147-187 | The new state is `TradePeriod` of the old one. |
| Backtest.Engine.Run | backtester/engine.py:53-75 | The outcome and the final state are those of `Simulate` from the old state. |

## Left out

- `backtester/datastreams.py`, `backtester/dev.py` and `backtester/example.py`
  load data and wire up examples. They are not part of this model.
- `Engine._store_outputs` and `out_cash` are left out. `run` never calls
  them: the call is commented out.
- The `history` table, `logging`, and the unused `start` and `end`
  parameters are left out. The table is created but never written.
- `context` is folded into the strategy. The strategy is a deterministic
  function from the history to its reply. Stateful strategies, and
  exceptions raised by the strategy itself, are left out.
- A reply is either not an iterable, or a vector of floats. Iterables that
  are not numpy arrays (a list fails at line 129 with a `TypeError`) and
  non-numeric entries are left out.
- Tickers are identified by column position. The series is assumed to be
  indexed 0..N-1, so label-based `loc` and positional access agree.
  `Trade.id` holds integers, not floats.
- The series is required to have at least one period and one ticker, to be
  rectangular, and to have positive adjusted closes. An empty series fails
  at `self.cash[0]`. No tickers makes `np.min` fail. A zero close makes an
  order infinite when its value is not zero, and NaN when its value is zero.
- IEEE floating point (rounding, infinities, signed zero) is left out.
  Floats are exact reals and NaN is a tag. Infinite alphas are left out:
  `np.isnan` does not replace them.
- Sizing.SizingSpendsAllCash: holds in exact arithmetic. With floating-point
  rounding the orders can exceed the cash slightly, and the last order may
  then be rejected.
- Backtest.NoOvernightGapInvestsAll: holds in exact arithmetic. With rounding
  the next period's cash is only close to zero, and the last order may be
  rejected.
