/**
 * The markets page: the mock market list, the filter by category and
 * case-insensitive search text, and the large-number formatter with its
 * T/B/M/K suffixes and the "-" shown for a market cap of 0.
 */
module Markets {
  import opened Decimal
  import opened Wrappers
  import opened Seqs
  import opened Text

  datatype Market = Market(symbol: string, name: string, price: real, change24h: real,
                           volume24h: real, marketCap: real, category: string)

  const Markets: seq<Market> := [
    Market("BTCUSDT", "Bitcoin", 30245.67, 2.45, 23456789012.0, 567890123456.0, "spot"),
    Market("ETHUSDT", "Ethereum", 2045.32, -1.23, 12345678901.0, 234567890123.0, "spot"),
    Market("XRPUSDT", "XRP", 0.5678, 5.67, 2345678901.0, 23456789012.0, "spot"),
    Market("ADAUSDT", "Cardano", 0.4523, 3.21, 1234567890.0, 12345678901.0, "spot"),
    Market("SOLUSDT", "Solana", 105.78, -2.34, 3456789012.0, 34567890123.0, "spot"),
    Market("DOTUSDT", "Polkadot", 6.789, 1.23, 567890123.0, 5678901234.0, "spot"),
    Market("BTCUSDT_PERP", "Bitcoin", 30250.88, 2.56, 34567890123.0, 0.0, "futures"),
    Market("ETHUSDT_PERP", "Ethereum", 2047.45, -1.10, 23456789012.0, 0.0, "futures"),
    Market("BTCUSDT_M", "Bitcoin", 30245.67, 2.45, 12345678901.0, 0.0, "margin"),
    Market("ETHUSDT_M", "Ethereum", 2045.32, -1.23, 6789012345.0, 0.0, "margin")
  ]

  // ---------------------------------------------------------------------
  // Filtering
  // ---------------------------------------------------------------------

  /** The search text occurs, ignoring case, in the symbol or in the name. */
  predicate MatchesQuery(m: Market, query: string) {
    Contains(Lower(m.symbol), Lower(query)) || Contains(Lower(m.name), Lower(query))
  }

  /** The filter's test: the active category, and the search text in symbol or name. */
  predicate Shown(m: Market, category: string, query: string) {
    m.category == category && MatchesQuery(m, query)
  }

  /** The rows of the table. */
  function FilteredMarkets(markets: seq<Market>, category: string, query: string): (r: seq<Market>)
    ensures |r| <= |markets|
  {
    Filter(markets, (m: Market) => Shown(m, category, query))
  }

  /**
   * A market is listed exactly when it is of the active category and the
   * search text occurs, ignoring case, in its symbol or name; the list keeps
   * the original order.
   */
  lemma FilteredExactly(markets: seq<Market>, category: string, query: string)
    ensures forall m :: m in FilteredMarkets(markets, category, query) <==>
              m in markets && m.category == category &&
              (Contains(Lower(m.symbol), Lower(query)) || Contains(Lower(m.name), Lower(query)))
    ensures forall m :: multiset(FilteredMarkets(markets, category, query))[m] ==
              if Shown(m, category, query) then multiset(markets)[m] else 0
    ensures IsSubsequence(FilteredMarkets(markets, category, query), markets)
  {
    var keep := (m: Market) => Shown(m, category, query);
    forall m ensures m in FilteredMarkets(markets, category, query) <==> m in markets && Shown(m, category, query) {
      FilterMembership(markets, keep, m);
    }
    forall m ensures multiset(FilteredMarkets(markets, category, query))[m] ==
                       if Shown(m, category, query) then multiset(markets)[m] else 0 {
      FilterCounts(markets, keep, m);
    }
    FilterIsSubsequence(markets, keep);
  }

  /** An empty search shows the whole active category. */
  lemma EmptyQueryShowsCategory(markets: seq<Market>, category: string)
    ensures FilteredMarkets(markets, category, "") == Filter(markets, (m: Market) => m.category == category)
  {
    forall i | 0 <= i < |markets| ensures Shown(markets[i], category, "") == (markets[i].category == category) {
      ContainsEmpty(Lower(markets[i].symbol));
    }
    FilterCongruent(markets, (m: Market) => Shown(m, category, ""), (m: Market) => m.category == category);
  }

  /** The futures tab with no search lists the two perpetuals. */
  lemma FuturesTab()
    ensures FilteredMarkets(Markets, "futures", "") == [Markets[6], Markets[7]]
  {
    EmptyQueryShowsCategory(Markets, "futures");
    var keep := (m: Market) => m.category == "futures";
    assert Filter(Markets[8..], keep) == [];
    assert Filter(Markets[6..], keep) == [Markets[6], Markets[7]];
    FilterNone(Markets[..6], keep);
    FilterAppend(Markets[..6], Markets[6..], keep);
    assert Markets[..6] + Markets[6..] == Markets;
  }

  // ---------------------------------------------------------------------
  // Number formatting
  // ---------------------------------------------------------------------

  const Thousand: real := 1000.0
  const Million: real := 1000000.0
  const Billion: real := 1000000000.0
  const Trillion: real := 1000000000000.0

  /** What the formatter prints: a 2-decimal mantissa with a suffix letter, or the number itself. */
  datatype Formatted = Scaled(mantissa: real, suffix: char) | Plain(num: real)

  /** The threshold a suffix stands for. */
  function Threshold(suffix: char): (t: real)
    ensures t >= 1.0
  {
    match suffix
    case 'T' => Trillion
    case 'B' => Billion
    case 'M' => Million
    case 'K' => Thousand
    case _ => 1.0
  }

  /** A number at least the threshold and below 1000 times it shows a mantissa in [1, 1000]. */
  lemma MantissaBounds(num: real, t: real)
    requires t >= 1.0 && num >= t
    ensures RoundTo(num / t, 2) >= 1.0
    ensures num < 1000.0 * t ==> RoundTo(num / t, 2) <= 1000.0
  {
    assert num / t >= 1.0;
    RoundToInteger(1, 2);
    RoundToMonotone(1.0, num / t, 2);
    if num < 1000.0 * t {
      assert num / t < 1000.0;
      RoundToInteger(1000, 2);
      RoundToMonotone(num / t, 1000.0, 2);
    }
  }

  /** `formatLargeNumber`: the first threshold met, checked from the largest down. */
  function FormatLargeNumber(num: real): (r: Formatted)
    ensures num >= Trillion <==> r.Scaled? && r.suffix == 'T'
    ensures Billion <= num < Trillion <==> r.Scaled? && r.suffix == 'B'
    ensures Million <= num < Billion <==> r.Scaled? && r.suffix == 'M'
    ensures Thousand <= num < Million <==> r.Scaled? && r.suffix == 'K'
    ensures num < Thousand <==> r == Plain(num)
    ensures r.Scaled? ==> r.mantissa == RoundTo(num / Threshold(r.suffix), 2)
    ensures r.Scaled? ==> 1.0 <= r.mantissa && (r.suffix != 'T' ==> r.mantissa <= 1000.0)
  {
    if num >= Trillion then
      MantissaBounds(num, Trillion);
      Scaled(RoundTo(num / Trillion, 2), 'T')
    else if num >= Billion then
      MantissaBounds(num, Billion);
      Scaled(RoundTo(num / Billion, 2), 'B')
    else if num >= Million then
      MantissaBounds(num, Million);
      Scaled(RoundTo(num / Million, 2), 'M')
    else if num >= Thousand then
      MantissaBounds(num, Thousand);
      Scaled(RoundTo(num / Thousand, 2), 'K')
    else Plain(num)
  }

  /** Rounding can carry a mantissa up to 1000: 999999.999 shows as "1000.00K", not "1.00M". */
  lemma MantissaCarriesToThousand()
    ensures FormatLargeNumber(999999.999) == Scaled(1000.0, 'K')
  {
    assert 999999.999 / Thousand == 999.999999;
    assert Pow10(2) == 100.0;
    assert (999.999999 * 100.0 + 0.5).Floor == 100000;
  }

  /** The Bitcoin spot market cap shows as "567.89B". */
  lemma BitcoinMarketCap()
    ensures FormatLargeNumber(567890123456.0) == Scaled(567.89, 'B')
  {
    assert 567890123456.0 / Billion == 567.890123456;
    assert Pow10(2) == 100.0;
    assert (567.890123456 * 100.0 + 0.5).Floor == 56789;
  }

  /** The market-cap cell: "-" (`None`) for a cap that is not positive. */
  function MarketCapCell(cap: real): (r: Option<Formatted>)
    ensures r.None? <==> cap <= 0.0
    ensures r.Some? ==> r.value == FormatLargeNumber(cap)
  {
    if cap > 0.0 then Some(FormatLargeNumber(cap)) else None
  }

  /** Every futures and margin market shows "-" as its market cap. */
  lemma DerivativeMarketsShowDash()
    ensures forall i :: 6 <= i < |Markets| ==> MarketCapCell(Markets[i].marketCap) == None
  {
  }
}
