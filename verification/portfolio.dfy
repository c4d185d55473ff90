/**
 * The single-asset portfolio of the backtester: an amount of cash and a whole
 * number of shares, with all-in buying, all-out selling and mark-to-market
 * valuation. Orders that cannot be covered are rejected with zero shares
 * executed and leave the portfolio as it was.
 */
module Portfolios {
  import opened Wrappers

  /** Cash and share position at one moment. */
  datatype Holdings = Holdings(cash: real, shares: int)

  /** Mark-to-market value of a position at `price`. */
  function Value(h: Holdings, price: real): real {
    h.cash + h.shares as real * price
  }

  /** The outcome of one order: the position afterwards and the number of shares that changed hands. */
  datatype Fill = Fill(after: Holdings, executed: int)

  /** Whole shares that `cash` buys at `price` (floor division). */
  function Affordable(cash: real, price: real): int
    requires price != 0.0
  {
    (cash / price).Floor
  }

  /** Spending all cash at a positive price buys a non-negative number of shares that fits the cash and leaves less than one share's price over. */
  lemma AllInFits(cash: real, price: real)
    ensures price > 0.0 && cash >= 0.0 ==>
      var q := Affordable(cash, price);
      q >= 0 && 0.0 <= cash - price * (q as real) < price
  {
    if price > 0.0 && cash >= 0.0 {
      var x := cash / price;
      var q := x.Floor;
      var qr := q as real;
      assert x * price == cash;
      assert x >= 0.0;
      assert qr <= x < qr + 1.0;
      var slack := x - qr;
      assert 0.0 <= slack < 1.0;
      assert cash - price * qr == price * slack;
      assert price * slack < price by {
        assert price * (1.0 - slack) > 0.0;
      }
      assert price * slack >= 0.0;
      assert Affordable(cash, price) == q;
      assert 0.0 <= cash - price * qr < price;
    }
  }

  /**
   * A buy order: `quantity` shares, or as many as the cash affords when no
   * quantity is given. Rejected when the cost exceeds the cash.
   */
  function BuyFill(h: Holdings, price: real, quantity: Option<int>): Fill
    requires quantity.None? ==> price != 0.0
  {
    var q := if quantity.Some? then quantity.value else Affordable(h.cash, price);
    var cost := price * q as real;
    if cost > h.cash then Fill(h, 0)
    else Fill(Holdings(h.cash - cost, h.shares + q), q)
  }

  /** What a buy order guarantees: rejection changes nothing, acceptance moves the cost from cash into shares. */
  lemma BuyFillProperties(h: Holdings, price: real, quantity: Option<int>)
    requires quantity.None? ==> price != 0.0
    ensures var f := BuyFill(h, price, quantity);
      // nothing changes unless shares were executed
      && (f.executed == 0 ==> f.after == h)
      // an accepted order moves price * executed from cash into shares
      && (f.executed != 0 ==>
            f.after == Holdings(h.cash - price * f.executed as real, h.shares + f.executed) &&
            price * f.executed as real <= h.cash)
      && (quantity.Some? && f.executed != 0 ==> f.executed == quantity.value)
      // a rejected order: an explicit quantity whose cost exceeds the cash
      && (quantity.Some? && quantity.value != 0 && price * quantity.value as real > h.cash ==> f.executed == 0)
      && (quantity.Some? && price * quantity.value as real <= h.cash ==> f.executed == quantity.value)
      // cash never goes negative, and the order itself does not change the portfolio's value
      && (h.cash >= 0.0 ==> f.after.cash >= 0.0)
      && Value(f.after, price) == Value(h, price)
      // all-in at a positive price: the order is accepted and leaves less than one share's price in cash
      && (quantity.None? && price > 0.0 && h.cash >= 0.0 ==>
            f.executed >= 0 && f.after.shares == h.shares + f.executed && 0.0 <= f.after.cash < price)
  {
    AllInFits(h.cash, price);
  }

  /** Spending all cash from a flat position at a positive price buys exactly the affordable whole shares. */
  lemma AllInBuy(cash: real, price: real)
    requires price > 0.0 && cash >= 0.0
    ensures BuyFill(Holdings(cash, 0), price, None)
         == Fill(Holdings(cash - price * Affordable(cash, price) as real, Affordable(cash, price)), Affordable(cash, price))
  {
    AllInFits(cash, price);
  }

  /**
   * A sell order: `quantity` shares, or the whole position when no quantity
   * is given. Rejected when more shares are asked for than are held.
   */
  function SellFill(h: Holdings, price: real, quantity: Option<int>): Fill
  {
    var q := if quantity.Some? then quantity.value else h.shares;
    if q > h.shares then Fill(h, 0)
    else Fill(Holdings(h.cash + price * q as real, h.shares - q), q)
  }

  /** What a sell order guarantees: rejection changes nothing, acceptance turns the shares sold into cash at `price`. */
  lemma SellFillProperties(h: Holdings, price: real, quantity: Option<int>)
    ensures var f := SellFill(h, price, quantity);
      && (f.executed == 0 ==> f.after == h)
      && (f.executed != 0 ==>
            f.after == Holdings(h.cash + price * f.executed as real, h.shares - f.executed) &&
            f.executed <= h.shares)
      && (quantity.Some? && quantity.value > h.shares ==> f.executed == 0)
      && (quantity.Some? && quantity.value <= h.shares ==> f.executed == quantity.value)
      // selling everything leaves no shares and turns the position into cash at `price`
      && (quantity.None? ==>
            f.executed == h.shares && f.after == Holdings(h.cash + price * h.shares as real, 0))
      && (h.shares >= 0 ==> f.after.shares >= 0)
      && Value(f.after, price) == Value(h, price)
  {
  }

  /** The portfolio object the simulator updates in place. */
  class Portfolio {
    var cash: real
    var shares: int
    const startingCash: real

    constructor (startingCash: real)
      ensures this.startingCash == startingCash
      ensures cash == startingCash && shares == 0
    {
      this.startingCash := startingCash;
      cash := startingCash;
      shares := 0;
    }

    /** The current position as a value. */
    function Position(): Holdings
      reads this
    {
      Holdings(cash, shares)
    }

    /** Buys `quantity` shares (all the cash affords when none is given); returns the shares executed, 0 when rejected. */
    method Buy(price: real, quantity: Option<int>) returns (executed: int)
      requires quantity.None? ==> price != 0.0
      modifies this
      ensures Fill(Position(), executed) == BuyFill(old(Position()), price, quantity)
      ensures TotalValue(price) == old(TotalValue(price))
    {
      var q := if quantity.Some? then quantity.value else Affordable(cash, price);
      var cost := price * q as real;
      if cost > cash {
        return 0;
      }
      cash := cash - cost;
      shares := shares + q;
      return q;
    }

    /** Sells `quantity` shares (the whole position when none is given); returns the shares executed, 0 when rejected. */
    method Sell(price: real, quantity: Option<int>) returns (executed: int)
      modifies this
      ensures Fill(Position(), executed) == SellFill(old(Position()), price, quantity)
      ensures TotalValue(price) == old(TotalValue(price))
    {
      var q := if quantity.Some? then quantity.value else shares;
      if q > shares {
        return 0;
      }
      cash := cash + price * q as real;
      shares := shares - q;
      return q;
    }

    /** Mark-to-market value at `price`. */
    function TotalValue(price: real): (v: real)
      reads this
      ensures shares == 0 ==> v == cash
      ensures cash >= 0.0 && shares >= 0 && price >= 0.0 ==> v >= cash
    {
      Value(Position(), price)
    }
  }
}
