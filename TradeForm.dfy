/**
 * The spot order form: the symbol split into base and quote currency, the
 * default market price, the total field kept equal to `price * amount`, the
 * slider that sizes an order against a mock balance (1000 quote when buying,
 * 1 base when selling), and submission with its validation and reset.
 */
module TradeForm {
  import opened Decimal
  import opened Wrappers
  import Text

  // ---------------------------------------------------------------------
  // Pure calculations
  // ---------------------------------------------------------------------

  /** Where `slice(0, -4)` ends and `slice(-4)` starts: four from the end, clamped at 0. */
  function QuoteStart(symbol: string): (k: nat)
    ensures k <= |symbol|
    ensures |symbol| >= 4 ==> |symbol| - k == 4
    ensures |symbol| < 4 ==> k == 0
  {
    if |symbol| >= 4 then |symbol| - 4 else 0
  }

  /** `symbol.slice(0, -4)`, e.g. "BTC" for "BTCUSDT". */
  function BaseCurrency(symbol: string): (r: string)
    ensures |r| == QuoteStart(symbol)
  {
    symbol[..QuoteStart(symbol)]
  }

  /** `symbol.slice(-4)`, e.g. "USDT" for "BTCUSDT". */
  function QuoteCurrency(symbol: string): (r: string)
    ensures |r| == |symbol| - QuoteStart(symbol)
  {
    symbol[QuoteStart(symbol)..]
  }

  /**
   * The two halves put back together give the symbol; the quote currency is
   * the last four characters when there are at least four, and otherwise the
   * whole symbol with an empty base currency.
   */
  lemma SplitSymbol(symbol: string)
    ensures BaseCurrency(symbol) + QuoteCurrency(symbol) == symbol
    ensures |symbol| >= 4 ==> |QuoteCurrency(symbol)| == 4 && QuoteCurrency(symbol) == symbol[|symbol| - 4..]
    ensures |symbol| < 4 ==> BaseCurrency(symbol) == [] && QuoteCurrency(symbol) == symbol
  {
    assert symbol[..QuoteStart(symbol)] + symbol[QuoteStart(symbol)..] == symbol;
  }

  lemma SplitBtcUsdt()
    ensures BaseCurrency("BTCUSDT") == "BTC" && QuoteCurrency("BTCUSDT") == "USDT"
  {
    assert "BTCUSDT"[..3] == "BTC";
    assert "BTCUSDT"[3..] == "USDT";
  }

  /** The mock market price is the same symbol rule as the order book's base price. */
  function MarketPrice(symbol: string): (r: real)
    ensures r > 0.0 && IsDecimal(r, 2)
    ensures r == Text.BasePrice(symbol)
  {
    var p := Text.BasePrice(symbol);
    assert p == 30000.0 || p == 2000.0 || p == 1.0;
    IntegerIsDecimal(p.Floor, 2);
    p
  }

  /** `price * amount` to 2 decimals: within half a cent of the product, never negative for non-negative inputs. */
  function Total(price: real, amount: real): (r: real)
    ensures price * amount - HalfUnit(2) <= r <= price * amount + HalfUnit(2)
    ensures price >= 0.0 && amount >= 0.0 ==> r >= 0.0
    ensures IsDecimal(r, 2)
  {
    assert price >= 0.0 && amount >= 0.0 ==> price * amount >= 0.0;
    RoundTo(price * amount, 2)
  }

  /** The total field: the rounded total when both fields are filled in, "0.00" otherwise. */
  function TotalOf(price: Option<real>, amount: Option<real>): (r: real)
    ensures (price.None? || amount.None?) ==> r == 0.0
    ensures price.Some? && amount.Some? ==> r == Total(price.value, amount.value)
    ensures IsDecimal(r, 2)
  {
    IntegerIsDecimal(0, 2);
    if price.Some? && amount.Some? then Total(price.value, amount.value) else 0.0
  }

  /** With a fixed non-negative price, a larger amount never shows a smaller total. */
  lemma TotalMonotoneInAmount(price: real, a: real, b: real)
    requires price >= 0.0 && a <= b
    ensures Total(price, a) <= Total(price, b)
  {
    ProductMonotone(price, a, b);
    RoundToMonotone(price * a, price * b, 2);
  }

  lemma ProductMonotone(c: real, a: real, b: real)
    requires c >= 0.0 && a <= b
    ensures c * a <= c * b
  {
    assert c * b - c * a == c * (b - a);
  }

  /** The mock balance: 1000 in the quote currency, 1 in the base currency. */
  const QuoteBalance: real := 1000.0
  const BaseBalance: real := 1.0

  /**
   * The most the slider can size: the quote balance over the price (an empty
   * price counting as 1) to 6 decimals when buying, the base balance when selling.
   */
  function MaxAmount(isBuy: bool, price: Option<real>): (r: real)
    requires isBuy && price.Some? ==> price.value > 0.0
    ensures !isBuy ==> r == BaseBalance
    ensures isBuy && price.None? ==> r == QuoteBalance
    ensures isBuy && price.Some? ==>
              QuoteBalance / price.value - HalfUnit(6) <= r <= QuoteBalance / price.value + HalfUnit(6)
    ensures r >= 0.0 && IsDecimal(r, 6)
  {
    if isBuy then
      var p := price.GetOr(1.0);
      assert p > 0.0;
      assert QuoteBalance / p >= 0.0;
      RoundTo(QuoteBalance / p, 6)
    else
      IntegerIsDecimal(1, 6);
      BaseBalance
  }

  /** Buying the full buy-side maximum costs the quote balance, up to rounding of the amount. */
  lemma MaxBuyCostsBalance(price: real)
    requires price > 0.0
    ensures QuoteBalance - price * HalfUnit(6) <= price * MaxAmount(true, Some(price)) <= QuoteBalance + price * HalfUnit(6)
  {
    var m, q, h := MaxAmount(true, Some(price)), QuoteBalance / price, HalfUnit(6);
    assert q - h <= m <= q + h;
    assert price * q == QuoteBalance;
    assert price * (q - h) <= price * m <= price * (q + h);
  }

  /** The amount a slider position (a percentage) sizes: `v / 100 * max` to 6 decimals. */
  function SliderAmount(v: int, max: real): (r: real)
    requires 0 <= v <= 100 && max >= 0.0
    ensures r >= 0.0 && IsDecimal(r, 6)
    ensures v as real / 100.0 * max - HalfUnit(6) <= r <= v as real / 100.0 * max + HalfUnit(6)
  {
    assert v as real / 100.0 * max >= 0.0;
    RoundTo(v as real / 100.0 * max, 6)
  }

  /** The slider's ends: 0 gives 0; 100 gives the maximum (which is already on the 6-decimal grid). */
  lemma SliderEnds(isBuy: bool, price: Option<real>)
    requires isBuy && price.Some? ==> price.value > 0.0
    ensures SliderAmount(0, MaxAmount(isBuy, price)) == 0.0
    ensures SliderAmount(100, MaxAmount(isBuy, price)) == MaxAmount(isBuy, price)
  {
    var m := MaxAmount(isBuy, price);
    RoundToInteger(0, 6);
    assert 100 as real / 100.0 * m == m;
    RoundToDecimal(m, 6);
  }

  /** Moving the slider right never sizes a smaller amount. */
  lemma SliderMonotone(v: int, w: int, max: real)
    requires 0 <= v <= w <= 100 && max >= 0.0
    ensures SliderAmount(v, max) <= SliderAmount(w, max)
  {
    assert v as real / 100.0 * max <= w as real / 100.0 * max;
    RoundToMonotone(v as real / 100.0 * max, w as real / 100.0 * max, 6);
  }

  /** What the submit handler reports, in place of its toast. */
  datatype SubmitOutcome =
    | Rejected(message: string)
    | Placed(isBuy: bool, amount: real, base: string, price: real, quote: string)

  const MissingFieldsMessage: string := "Please enter valid price and amount"

  /** The outcome of a submit: rejected if either field is empty, otherwise the placed order. */
  function SubmitResult(symbol: string, price: Option<real>, amount: Option<real>, isBuy: bool): (r: SubmitOutcome)
    ensures r.Rejected? <==> price.None? || amount.None?
    ensures r.Rejected? ==> r.message == MissingFieldsMessage
    ensures r.Placed? ==> r.isBuy == isBuy && Some(r.price) == price && Some(r.amount) == amount
    ensures r.Placed? ==> r.base + r.quote == symbol
  {
    SplitSymbol(symbol);
    if price.None? || amount.None? then Rejected(MissingFieldsMessage)
    else Placed(isBuy, amount.value, BaseCurrency(symbol), price.value, QuoteCurrency(symbol))
  }

  // ---------------------------------------------------------------------
  // The form state
  // ---------------------------------------------------------------------

  /**
   * The form's state fields. The total effect runs after every change of
   * price or amount, so each operation below leaves `total` recomputed.
   */
  class OrderForm {
    var symbol: string
    var price: Option<real>
    var amount: Option<real>
    var total: real
    var sliderValue: int
    var isBuy: bool

    ghost predicate Valid()
      reads this
    {
      total == TotalOf(price, amount) && 0 <= sliderValue <= 100
    }

    /** Mounting the form: empty fields, buy side, then the price effect fills the market price. */
    constructor (symbol: string)
      ensures Valid()
      ensures this.symbol == symbol && price == Some(MarketPrice(symbol))
      ensures amount == None && total == 0.0 && sliderValue == 0 && isBuy
    {
      this.symbol := symbol;
      var p := MarketPrice(symbol);
      RoundToDecimal(p, 2);
      price := Some(RoundTo(p, 2));
      amount := None;
      total := 0.0;
      sliderValue := 0;
      isBuy := true;
    }

    /**
     * The symbol prop after a render: the price effect runs only when the
     * symbol changed, and then resets the price to the new market price.
     */
    method ChangeSymbol(s: string)
      requires Valid()
      modifies this
      ensures Valid()
      ensures symbol == s
      ensures s == old(symbol) ==> price == old(price) && total == old(total)
      ensures s != old(symbol) ==> price == Some(MarketPrice(s))
      ensures amount == old(amount) && sliderValue == old(sliderValue) && isBuy == old(isBuy)
    {
      if s != symbol {
        symbol := s;
        var p := MarketPrice(s);
        RoundToDecimal(p, 2);
        price := Some(RoundTo(p, 2));
        total := TotalOf(price, amount);
      }
    }

    /** Typing in the price field. */
    method SetPrice(p: Option<real>)
      requires Valid()
      modifies this
      ensures Valid()
      ensures price == p && symbol == old(symbol) && amount == old(amount)
      ensures sliderValue == old(sliderValue) && isBuy == old(isBuy)
    {
      price := p;
      total := TotalOf(price, amount);
    }

    /** Typing in the amount field (the slider keeps its position). */
    method SetAmount(a: Option<real>)
      requires Valid()
      modifies this
      ensures Valid()
      ensures amount == a && symbol == old(symbol) && price == old(price)
      ensures sliderValue == old(sliderValue) && isBuy == old(isBuy)
    {
      amount := a;
      total := TotalOf(price, amount);
    }

    /** Choosing a tab: buy exactly when the tab value is "buy"; nothing else changes. */
    method SelectTab(value: string)
      requires Valid()
      modifies this
      ensures Valid()
      ensures isBuy == (value == "buy")
      ensures symbol == old(symbol) && price == old(price) && amount == old(amount)
      ensures total == old(total) && sliderValue == old(sliderValue)
    {
      isBuy := value == "buy";
    }

    /** Moving the slider to `v` per cent sizes the amount against the mock balance. */
    method SliderChange(v: int)
      requires Valid() && 0 <= v <= 100
      requires isBuy && price.Some? ==> price.value > 0.0
      modifies this
      ensures Valid()
      ensures symbol == old(symbol) && price == old(price) && isBuy == old(isBuy)
      ensures sliderValue == v && amount == Some(SliderAmount(v, MaxAmount(isBuy, price)))
    {
      sliderValue := v;
      var max := MaxAmount(isBuy, price);
      amount := Some(SliderAmount(v, max));
      total := TotalOf(price, amount);
    }

    /**
     * Submitting: a rejection changes nothing; a placed order clears the
     * amount (so the total shows 0) and the slider, and keeps price and side.
     */
    method Submit() returns (outcome: SubmitOutcome)
      requires Valid()
      modifies this
      ensures Valid()
      ensures outcome == SubmitResult(old(symbol), old(price), old(amount), old(isBuy))
      ensures outcome.Rejected? ==>
                symbol == old(symbol) && price == old(price) && amount == old(amount) &&
                total == old(total) && sliderValue == old(sliderValue) && isBuy == old(isBuy)
      ensures outcome.Placed? ==>
                amount == None && sliderValue == 0 && total == 0.0 &&
                symbol == old(symbol) && price == old(price) && isBuy == old(isBuy)
    {
      outcome := SubmitResult(symbol, price, amount, isBuy);
      if outcome.Placed? {
        amount := None;
        sliderValue := 0;
        total := TotalOf(price, amount);
      }
    }
  }
}
