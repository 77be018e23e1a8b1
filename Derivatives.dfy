/**
 * The perpetual-futures order form: the simplified liquidation-price
 * estimate, the margin cost, submission (quantity checked first, price
 * only for non-market orders) with the order details it builds and the
 * fields it clears, and the recent-trades list of the active contract.
 */
module Derivatives {
  import opened Decimal
  import opened Wrappers
  import opened Seqs

  datatype OrderType = Limit | Market | Stop

  /** The leverages the form offers. */
  predicate Offered(leverage: int) {
    leverage == 1 || leverage == 5 || leverage == 10 || leverage == 50 || leverage == 100
  }

  /** The share of the entry price a position may move before liquidation, at leverage 1. */
  const MaintenanceFactor: real := 0.85

  // ---------------------------------------------------------------------
  // Liquidation price
  // ---------------------------------------------------------------------

  /** The unrounded estimate: `price * (1 - 0.85 / leverage)` long, `price * (1 + 0.85 / leverage)` short. */
  function RawLiquidation(price: real, leverage: int, isBuy: bool): real
    requires leverage > 0
  {
    if isBuy then price * (1.0 - MaintenanceFactor / leverage as real)
    else price * (1.0 + MaintenanceFactor / leverage as real)
  }

  /** The estimate shown, to 2 decimals. */
  function LiquidationPrice(price: real, leverage: int, isBuy: bool): (r: real)
    requires leverage > 0
    ensures IsDecimal(r, 2)
    ensures RawLiquidation(price, leverage, isBuy) - HalfUnit(2) <= r <= RawLiquidation(price, leverage, isBuy) + HalfUnit(2)
  {
    RoundTo(RawLiquidation(price, leverage, isBuy), 2)
  }

  /** The summary row: "N/A" (`None`) unless both quantity and price are filled in. */
  function LiquidationDisplay(amount: Option<real>, price: Option<real>, leverage: int, isBuy: bool): (r: Option<real>)
    requires leverage > 0
    ensures r.None? <==> amount.None? || price.None?
    ensures r.Some? ==> r.value == LiquidationPrice(price.value, leverage, isBuy)
  {
    if amount.None? || price.None? then None else Some(LiquidationPrice(price.value, leverage, isBuy))
  }

  /** The quantity only decides whether an estimate is shown, never its value. */
  lemma LiquidationIgnoresQuantity(a: real, b: real, price: Option<real>, leverage: int, isBuy: bool)
    requires leverage > 0
    ensures LiquidationDisplay(Some(a), price, leverage, isBuy) == LiquidationDisplay(Some(b), price, leverage, isBuy)
  {
  }

  lemma FactorBounds(leverage: int)
    requires leverage >= 1
    ensures 0.0 < MaintenanceFactor / leverage as real <= MaintenanceFactor
  {
    assert MaintenanceFactor / leverage as real <= MaintenanceFactor / 1.0;
  }

  /**
   * Before rounding, for every leverage of at least 1 (so for every offered
   * one) and a positive price, the long estimate lies strictly between 0
   * and the price and the short estimate strictly above it.
   */
  lemma RawLiquidationBounds(price: real, leverage: int)
    requires price > 0.0 && leverage >= 1
    ensures 0.0 < RawLiquidation(price, leverage, true) < price
    ensures RawLiquidation(price, leverage, false) > price
  {
    var f := MaintenanceFactor / leverage as real;
    FactorBounds(leverage);
    assert RawLiquidation(price, leverage, true) == price - price * f;
    assert RawLiquidation(price, leverage, false) == price + price * f;
    assert 0.0 < price * f < price;
  }

  /**
   * After rounding to cents, for a price that is itself in cents, the bounds
   * hold only non-strictly: the long estimate is in [0, price] and the short
   * one at least the price.
   */
  lemma LiquidationBounds(price: real, leverage: int)
    requires price > 0.0 && leverage >= 1 && IsDecimal(price, 2)
    ensures 0.0 <= LiquidationPrice(price, leverage, true) <= price
    ensures LiquidationPrice(price, leverage, false) >= price
  {
    RawLiquidationBounds(price, leverage);
    RoundToDecimal(price, 2);
    RoundToMonotone(RawLiquidation(price, leverage, true), price, 2);
    RoundToMonotone(price, RawLiquidation(price, leverage, false), 2);
  }

  /** At price 0.50 and leverage 100 both rounded estimates equal the price. */
  lemma LiquidationRoundsToPrice()
    ensures LiquidationPrice(0.5, 100, true) == 0.5
    ensures LiquidationPrice(0.5, 100, false) == 0.5
  {
    assert RawLiquidation(0.5, 100, true) == 0.49575;
    assert RawLiquidation(0.5, 100, false) == 0.50425;
    assert Pow10(2) == 100.0;
    assert (0.49575 * 100.0 + 0.5).Floor == 50;
    assert (0.50425 * 100.0 + 0.5).Floor == 50;
  }

  /** Higher leverage brings both estimates closer to the price. */
  lemma LiquidationApproachesPrice(price: real, lo: int, hi: int)
    requires price > 0.0 && 1 <= lo <= hi
    ensures RawLiquidation(price, lo, true) <= RawLiquidation(price, hi, true)
    ensures RawLiquidation(price, lo, false) >= RawLiquidation(price, hi, false)
  {
    var f, g := MaintenanceFactor / lo as real, MaintenanceFactor / hi as real;
    assert g <= f;
    assert RawLiquidation(price, lo, true) == price - price * f;
    assert RawLiquidation(price, hi, true) == price - price * g;
    assert RawLiquidation(price, lo, false) == price + price * f;
    assert RawLiquidation(price, hi, false) == price + price * g;
    assert price * g <= price * f;
  }

  // ---------------------------------------------------------------------
  // Cost
  // ---------------------------------------------------------------------

  /** The margin: `price * amount / leverage` to 2 decimals. */
  function Cost(price: real, amount: real, leverage: int): (r: real)
    requires leverage > 0
    ensures IsDecimal(r, 2)
    ensures price * amount / leverage as real - HalfUnit(2) <= r <= price * amount / leverage as real + HalfUnit(2)
    ensures price * amount >= 0.0 ==> r >= 0.0
  {
    RoundTo(price * amount / leverage as real, 2)
  }

  /** The cost row: "$0.00" unless both price and quantity are filled in. */
  function CostDisplay(price: Option<real>, amount: Option<real>, leverage: int): (r: real)
    requires leverage > 0
    ensures price.None? || amount.None? ==> r == 0.0
    ensures price.Some? && amount.Some? ==> r == Cost(price.value, amount.value, leverage)
  {
    if price.Some? && amount.Some? then Cost(price.value, amount.value, leverage) else 0.0
  }

  /** For a non-negative notional, more leverage never costs more. */
  lemma CostFallsWithLeverage(price: real, amount: real, lo: int, hi: int)
    requires price * amount >= 0.0 && 1 <= lo <= hi
    ensures Cost(price, amount, hi) <= Cost(price, amount, lo)
  {
    var n := price * amount;
    assert n / hi as real <= n / lo as real;
    RoundToMonotone(n / hi as real, n / lo as real, 2);
  }

  // ---------------------------------------------------------------------
  // Submission
  // ---------------------------------------------------------------------

  datatype OrderPrice = AtMarket | At(value: real)

  /** The order details the submit handler assembles. */
  datatype OrderDetails = OrderDetails(
    symbol: string, orderType: OrderType, isBuy: bool, price: OrderPrice,
    amount: real, leverage: int, takeProfit: Option<real>, stopLoss: Option<real>)

  datatype SubmitOutcome = Rejected(message: string) | Placed(details: OrderDetails)

  const MissingQuantityMessage: string := "Please enter a valid quantity"
  const MissingPriceMessage: string := "Please enter a valid price"

  /**
   * The decision of a submit, in the handler's order: no quantity, then no
   * price for an order that is not a market order; otherwise the order.
   */
  function SubmitResult(symbol: string, orderType: OrderType, price: Option<real>, amount: Option<real>,
                        leverage: int, isBuy: bool, takeProfit: Option<real>, stopLoss: Option<real>): (r: SubmitOutcome)
    ensures amount.None? ==> r == Rejected(MissingQuantityMessage)
    ensures amount.Some? && orderType != Market && price.None? ==> r == Rejected(MissingPriceMessage)
    ensures r.Placed? <==> amount.Some? && (orderType == Market || price.Some?)
    ensures r.Placed? ==>
              r.details.symbol == symbol && r.details.orderType == orderType && r.details.isBuy == isBuy &&
              Some(r.details.amount) == amount && r.details.leverage == leverage &&
              r.details.takeProfit == takeProfit && r.details.stopLoss == stopLoss
    ensures r.Placed? ==> (r.details.price == AtMarket <==> orderType == Market)
    ensures r.Placed? && orderType != Market ==> Some(r.details.price.value) == price
  {
    if amount.None? then Rejected(MissingQuantityMessage)
    else if orderType != Market && price.None? then Rejected(MissingPriceMessage)
    else
      var p := if orderType == Market then AtMarket else At(price.value);
      Placed(OrderDetails(symbol, orderType, isBuy, p, amount.value, leverage, takeProfit, stopLoss))
  }

  /** A market order goes through without a price: its price is "Market" whatever the field holds. */
  lemma MarketOrderNeedsNoPrice(symbol: string, amount: real, leverage: int, isBuy: bool,
                                takeProfit: Option<real>, stopLoss: Option<real>)
    ensures SubmitResult(symbol, Market, None, Some(amount), leverage, isBuy, takeProfit, stopLoss).Placed?
    ensures SubmitResult(symbol, Market, None, Some(amount), leverage, isBuy, takeProfit, stopLoss)
              == SubmitResult(symbol, Market, Some(30250.5), Some(amount), leverage, isBuy, takeProfit, stopLoss)
  {
  }

  /** The order form's state fields. */
  class OrderForm {
    var activeSymbol: string
    var orderType: OrderType
    var price: Option<real>
    var amount: Option<real>
    var leverage: int
    var isBuy: bool
    var takeProfit: Option<real>
    var stopLoss: Option<real>

    ghost predicate Valid()
      reads this
    {
      Offered(leverage)
    }

    /** The initial state: the BTC perpetual, a limit order at 30250.50, leverage 5, buying. */
    constructor ()
      ensures Valid()
      ensures activeSymbol == "BTCUSDT_PERP" && orderType == Limit && price == Some(30250.5)
      ensures amount == None && leverage == 5 && isBuy && takeProfit == None && stopLoss == None
    {
      activeSymbol := "BTCUSDT_PERP";
      orderType := Limit;
      price := Some(30250.5);
      amount := None;
      leverage := 5;
      isBuy := true;
      takeProfit := None;
      stopLoss := None;
    }

    /** Choosing one of the offered leverages. */
    method SetLeverage(lev: int)
      requires Valid() && Offered(lev)
      modifies this
      ensures Valid() && leverage == lev
      ensures activeSymbol == old(activeSymbol) && orderType == old(orderType) && price == old(price)
      ensures amount == old(amount) && isBuy == old(isBuy)
      ensures takeProfit == old(takeProfit) && stopLoss == old(stopLoss)
    {
      leverage := lev;
    }

    /**
     * Submitting: a rejection changes nothing; a placed order clears the
     * quantity, take-profit and stop-loss, and keeps everything else.
     */
    method Submit() returns (outcome: SubmitOutcome)
      requires Valid()
      modifies this
      ensures Valid()
      ensures outcome == SubmitResult(old(activeSymbol), old(orderType), old(price), old(amount),
                                      old(leverage), old(isBuy), old(takeProfit), old(stopLoss))
      ensures activeSymbol == old(activeSymbol) && orderType == old(orderType) && price == old(price)
      ensures leverage == old(leverage) && isBuy == old(isBuy)
      ensures outcome.Rejected? ==> amount == old(amount) && takeProfit == old(takeProfit) && stopLoss == old(stopLoss)
      ensures outcome.Placed? ==> amount == None && takeProfit == None && stopLoss == None
    {
      outcome := SubmitResult(activeSymbol, orderType, price, amount, leverage, isBuy, takeProfit, stopLoss);
      if outcome.Placed? {
        amount := None;
        takeProfit := None;
        stopLoss := None;
      }
    }
  }

  // ---------------------------------------------------------------------
  // Recent trades
  // ---------------------------------------------------------------------

  datatype Trade = Trade(id: int, symbol: string, isBuy: bool, price: real, amount: real, value: real, time: string)

  const RecentTrades: seq<Trade> := [
    Trade(1, "BTCUSDT_PERP", true, 30245.50, 0.05, 1512.28, "1m ago"),
    Trade(2, "BTCUSDT_PERP", false, 30240.25, 0.03, 907.21, "2m ago"),
    Trade(3, "ETHUSDT_PERP", true, 2045.75, 0.5, 1022.88, "5m ago"),
    Trade(4, "BTCUSDT_PERP", false, 30235.50, 0.10, 3023.55, "8m ago"),
    Trade(5, "ETHUSDT_PERP", false, 2047.25, 1.2, 2456.70, "10m ago")
  ]

  /** The trades listed for a contract: those of that symbol, in list order. */
  function TradesFor(trades: seq<Trade>, symbol: string): (r: seq<Trade>)
    ensures |r| <= |trades|
  {
    Filter(trades, (t: Trade) => t.symbol == symbol)
  }

  /**
   * The listed trades are exactly those of the active symbol, each as often
   * as in the full list, and in the full list's order.
   */
  lemma TradesForExactly(trades: seq<Trade>, symbol: string)
    ensures forall t :: t in TradesFor(trades, symbol) <==> t in trades && t.symbol == symbol
    ensures forall t :: multiset(TradesFor(trades, symbol))[t] == if t.symbol == symbol then multiset(trades)[t] else 0
    ensures IsSubsequence(TradesFor(trades, symbol), trades)
  {
    var keep := (t: Trade) => t.symbol == symbol;
    forall t ensures t in TradesFor(trades, symbol) <==> t in trades && t.symbol == symbol {
      FilterMembership(trades, keep, t);
    }
    forall t ensures multiset(TradesFor(trades, symbol))[t] == if t.symbol == symbol then multiset(trades)[t] else 0 {
      FilterCounts(trades, keep, t);
    }
    FilterIsSubsequence(trades, keep);
  }

  /** The BTC perpetual lists trades 1, 2 and 4; the SOL perpetual shows "No recent trades". */
  lemma RecentTradesByContract()
    ensures |TradesFor(RecentTrades, "BTCUSDT_PERP")| == 3
    ensures TradesFor(RecentTrades, "BTCUSDT_PERP")[0].id == 1
    ensures TradesFor(RecentTrades, "BTCUSDT_PERP")[1].id == 2
    ensures TradesFor(RecentTrades, "BTCUSDT_PERP")[2].id == 4
    ensures TradesFor(RecentTrades, "SOLUSDT_PERP") == []
  {
    var keepBtc := (t: Trade) => t.symbol == "BTCUSDT_PERP";
    assert Filter(RecentTrades[4..], keepBtc) == [];
    assert Filter(RecentTrades[3..], keepBtc) == [RecentTrades[3]];
    assert Filter(RecentTrades[2..], keepBtc) == [RecentTrades[3]];
    assert Filter(RecentTrades[1..], keepBtc) == [RecentTrades[1], RecentTrades[3]];
    var keepSol := (t: Trade) => t.symbol == "SOLUSDT_PERP";
    FilterNone(RecentTrades, keepSol);
  }
}
