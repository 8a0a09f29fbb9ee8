/** Open positions, one slot per ticker (`Trade` in backtester/engine.py), and
    what closing them out at the end of a trading day is worth. */
module Positions {
  import opened Numbers
  import opened Sizing

  /** The three parallel vectors of a `Trade`: position id, opening price and
      number of shares of the position held in each ticker's slot. */
  datatype Book = Book(ids: seq<int>, prices: seq<real>, shares: seq<real>)
  {
    predicate Sized(n: nat)
    {
      |ids| == n && |prices| == n && |shares| == n
    }
  }

  /** Every slot zeroed, as `Trade(n)` and `Trade.clear` leave them. */
  function Cleared(n: nat): (b: Book)
    ensures b.Sized(n)
  {
    Book(seq(n, _ => 0), seq(n, _ => 0.0), seq(n, _ => 0.0))
  }

  /** `1e-6`: a slot holding no more shares than this, long or short, is not a
      position. */
  const OpenThreshold: real := 0.000001

  predicate IsOpen(shares: real)
  {
    Abs(shares) > OpenThreshold
  }

  /** What closing one slot returns to cash: the cash the position tied up,
      `abs(price * shares)`, plus its profit `(close - price) * shares`.
      A slot that is not open returns nothing, and a long slot never takes
      cash away. */
  function SlotCredit(price: real, shares: real, close: real): (r: real)
    ensures price >= 0.0 && shares >= 0.0 && close >= 0.0 ==> r >= 0.0
  {
    if IsOpen(shares) then Abs(price * shares) + (close - price) * shares else 0.0
  }

  /** An open slot of value `price * shares` credits `abs(value) + pnl`. */
  lemma OpenSlotCredit(price: real, shares: real, close: real, value: real, pnl: real)
    requires IsOpen(shares) && value == price * shares && pnl == (close - price) * shares
    ensures Abs(value) + pnl == SlotCredit(price, shares, close)
  {
  }

  /** What closing the first `n` slots at the given closing prices returns.
      A book of long positions never takes cash away. */
  function CloseCredit(book: Book, closes: seq<real>, n: nat): (r: real)
    requires book.Sized(|closes|) && n <= |closes|
    ensures (forall k :: 0 <= k < n ==> book.prices[k] >= 0.0 && book.shares[k] >= 0.0 && closes[k] >= 0.0) ==> r >= 0.0
  {
    if n == 0 then 0.0
    else CloseCredit(book, closes, n - 1) + SlotCredit(book.prices[n - 1], book.shares[n - 1], closes[n - 1])
  }

  /** Cash tied up by the first `n` slots when they were opened. */
  function BookNotional(book: Book, n: nat): (t: real)
    requires n <= |book.prices| && n <= |book.shares|
    ensures t >= 0.0
  {
    if n == 0 then 0.0
    else BookNotional(book, n - 1) + Abs(book.prices[n - 1] * book.shares[n - 1])
  }

  // ---------------------------------------------------------------------------
  // Closing out

  /** A long position returns what its shares fetch at the close. */
  lemma LongCredit(price: real, shares: real, close: real)
    requires price >= 0.0 && shares > OpenThreshold
    ensures SlotCredit(price, shares, close) == close * shares
  {
  }

  /** A short position returns its deposit less the rise of the price; once
      the price has more than doubled the close-out takes cash away. */
  lemma ShortCredit(price: real, shares: real, close: real)
    requires price >= 0.0 && shares < -OpenThreshold
    ensures SlotCredit(price, shares, close) == (2.0 * price - close) * -shares
    ensures SlotCredit(price, shares, close) < 0.0 <==> close > 2.0 * price
  {
  }

  /** A position closed at its own opening price returns exactly the cash it
      tied up. */
  lemma UnchangedPriceCredit(price: real, shares: real)
    requires IsOpen(shares)
    ensures SlotCredit(price, shares, price) == Abs(price * shares)
    ensures SlotCredit(price, shares, price) > 0.0 <==> price != 0.0
  {
  }

  /** A book holding no open slot is worth nothing at the close. */
  lemma {:induction false} FlatBookCredit(book: Book, closes: seq<real>, n: nat)
    requires book.Sized(|closes|) && n <= |closes|
    requires forall k :: 0 <= k < n ==> !IsOpen(book.shares[k])
    ensures CloseCredit(book, closes, n) == 0.0
  {
    if n > 0 {
      FlatBookCredit(book, closes, n - 1);
    }
  }

  lemma ClearedCredit(n: nat, closes: seq<real>)
    requires |closes| == n
    ensures CloseCredit(Cleared(n), closes, n) == 0.0
  {
    FlatBookCredit(Cleared(n), closes, n);
  }

  /** Closing a book of long positions opened at non-negative prices returns
      their market value at the close. */
  lemma {:induction false} LongBookCredit(book: Book, closes: seq<real>, n: nat)
    requires book.Sized(|closes|) && n <= |closes|
    requires forall k :: 0 <= k < n ==> book.prices[k] >= 0.0 && book.shares[k] > OpenThreshold
    ensures CloseCredit(book, closes, n) == MarketValue(book, closes, n)
  {
    if n > 0 {
      LongBookCredit(book, closes, n - 1);
      LongCredit(book.prices[n - 1], book.shares[n - 1], closes[n - 1]);
    }
  }

  /** Market value of the first `n` slots at the given prices. */
  function MarketValue(book: Book, closes: seq<real>, n: nat): real
    requires book.Sized(|closes|) && n <= |closes|
  {
    if n == 0 then 0.0 else MarketValue(book, closes, n - 1) + closes[n - 1] * book.shares[n - 1]
  }

  /** A cleared book ties up no cash. */
  lemma {:induction false} ClearedNotional(n: nat, m: nat)
    requires m <= n
    ensures BookNotional(Cleared(n), m) == 0.0
  {
    if m > 0 {
      ClearedNotional(n, m - 1);
    }
  }

  // ---------------------------------------------------------------------------
  // The mutable record of positions

  /** `Trade`: three vectors of one slot per ticker, updated in place. */
  class Trade {
    const size: nat
    const id: array<int>
    const price: array<real>
    const shares: array<real>

    ghost predicate Valid()
    {
      id.Length == size && price.Length == size && shares.Length == size && price != shares
    }

    ghost function Contents(): (b: Book)
      requires Valid()
      reads id, price, shares
      ensures b.Sized(size)
    {
      Book(id[..], price[..], shares[..])
    }

    constructor (universeSize: nat)
      ensures Valid() && size == universeSize
      ensures Contents() == Cleared(universeSize)
      ensures fresh(id) && fresh(price) && fresh(shares)
    {
      size := universeSize;
      id := new int[universeSize](_ => 0);
      price := new real[universeSize](_ => 0.0);
      shares := new real[universeSize](_ => 0.0);
    }

    /** `price[i] * shares[i]`: its magnitude is the cash the slot tied up. */
    function Value(i: nat): (v: real)
      requires Valid() && i < size
      reads price, shares
      ensures Abs(v) == Notional(Finite(shares[i]), price[i])
    {
      price[i] * shares[i]
    }

    /** The slot holds more than `1e-6` shares, long or short. */
    function OpenTrade(i: nat): (b: bool)
      requires Valid() && i < size
      reads shares
      ensures b <==> shares[i] > OpenThreshold || shares[i] < -OpenThreshold
    {
      IsOpen(shares[i])
    }

    /** Zero every slot. */
    method Clear()
      requires Valid()
      modifies id, price, shares
      ensures Valid() && Contents() == Cleared(size)
    {
      forall k | 0 <= k < id.Length {
        id[k] := 0;
      }
      forall k | 0 <= k < price.Length {
        price[k] := 0.0;
      }
      forall k | 0 <= k < shares.Length {
        shares[k] := 0.0;
      }
    }
  }
}
