# Trading platform demo — a verified Dafny model of its client-side logic

This project models the logic of a Next.js crypto trading demo that runs in the
browser. It is everything the pages compute once the random draws, the clock
and the authentication backend's answer are given.

It covers these parts:

- **Order book.** The synthetic order book: 15 asks and 15 bids generated from
  the pair's base price, running totals, and the in-place sort by price. Also
  the derived depth-bar widths, spread and spread percentage.
- **Spot order form.** The base/quote split of the symbol and the mock market
  price. The total field kept in step with price and amount. The slider that
  sizes an amount against a mock balance. The submit handler that resets the
  form.
- **Derivatives page.** The liquidation-price estimate, the margin cost, the
  order-submit guard chain and its order details, and the recent-trades
  filter.
- **Wallet page.** The portfolio total, the asset lookup, and the ordered
  withdrawal checks. The MAX button and the "you will receive" amount net of
  the network fee.
- **Markets page and ticker.** The markets page's category and search filter,
  its large-number formatter with T/B/M/K suffixes, and its "-" market-cap
  cell. The ticker's copy of the same formatter.
- **Price chart.** The sample data: 60 daily candles, each opening at the
  previous close. Also the volume bars taken from the candles.
- **Login and registration.** The guard chains of both forms and the mapping
  from authentication error codes to toasts.

Conventions:

- Numbers are exact reals.
- `Number(x.toFixed(n))` is `Decimal.RoundTo(x, n)`: round half away from
  zero to `n` decimals.
- Each `Math.random()` call is an injected draw in `[0, 1)`.
- A text field is an `Option<real>`, or a `string` where the page uses the
  text itself. The empty string is `None`.
- A toast becomes a returned outcome value.
- The awaited `login`/`register` call is a `CallResult` parameter.

Modules:

- `Wrappers`, `Decimal`, `Seqs`, `Text` and `Auth` hold what the page modules
  share.
- `OrderBook` and `TradingView` are imperative: loops with invariants, proved
  against specification functions.
- `TradeForm`, `Derivatives` and `Wallet` have a class for the component's
  state fields, next to pure functions.
- `Markets`, `MarketData`, `Register` and `Login` are pure.

## Model

| member | source | states |
|---|---|---|
| Decimal.RoundTo | src/components/OrderBook.tsx:38 | `toFixed`: the result is on the 10^-n grid and within half a unit of the input. |
| Decimal.RoundToMonotone | src/components/OrderBook.tsx:38-40 | Rounding to n decimals never reverses the order of two numbers. |
| Decimal.RoundToIdempotent | src/components/OrderBook.tsx:38-40 | Rounding an already rounded value changes nothing. |
| Decimal.RoundToDecimal | src/components/OrderBook.tsx:38-40 | A value that already has n decimals is left unchanged. |
| Text.BasePrice | src/components/OrderBook.tsx:27 | Positive. 30000 exactly when the symbol contains "BTC". 2000 exactly when it contains "ETH" but not "BTC". 1 exactly when it contains neither. |
| Text.BasePriceOfBtcPairs | src/components/OrderBook.tsx:27 | "BTCUSDT" and "ETHBTC" both get 30000: BTC takes precedence over ETH. |
| Text.BasePriceOfEthPair | src/components/OrderBook.tsx:27 | "ETHUSDT_PERP" gets 2000. |
| Text.BasePriceOfOtherPair | src/components/OrderBook.tsx:27 | "SOLUSDT" gets 1. |
| Text.ContainsIff | src/components/OrderBook.tsx:27 | `includes` holds exactly when the pattern occurs at some position of the string. |
| Text.ContainsEmpty | src/app/markets/page.tsx:132-133 | The empty search text is contained in every string. |
| Text.Lower | src/app/markets/page.tsx:132-133 | `toLowerCase` keeps the length and lower-cases each ASCII capital in place. |
| Text.LowerIdempotent | src/app/markets/page.tsx:132-133 | Lower-casing twice is the same as lower-casing once. |
| OrderBook.BuildSide | src/components/OrderBook.tsx:31-61 | The generation loop yields exactly the specified ladder. Level `i` shows the raw price to 2 decimals, its own amount, and the running sum of amounts to 3 decimals. |
| OrderBook.Generate | src/components/OrderBook.tsx:25-69 | The stored book is the sorted ladders of the symbol's base price. Each side has 15 levels, both sides are in descending price order, and every ask is at least every bid. |
| OrderBook.LevelAmount | src/components/OrderBook.tsx:35 | One level's amount, the draw times 2 to 3 decimals. The function has no contract of its own; its range is stated by `LevelAmountRange`. |
| OrderBook.StepRate | src/components/OrderBook.tsx:44 | The relative step 0.0001 + draw×0.0005. The function has no contract of its own; `StepBounds` states what one step does to a price. |
| OrderBook.RawPrice | src/components/OrderBook.tsx:32-60 | The running price before rounding: base×1.001 (asks) or base×0.999 (bids), then one step per earlier level. The function has no contract of its own; `RawPriceStep`, `RawPriceMonotone` and `RawPriceFromStart` state its properties. |
| OrderBook.Cumulative | src/components/OrderBook.tsx:36-52 | The running sum of the first `i` amounts. The function has no contract of its own; `CumulativeMonotone` and `CumulativeIsSum` state its properties. |
| OrderBook.Ladder | src/components/OrderBook.tsx:31-61 | One level per draw, in generation order. Each level shows its raw price to 2 decimals, its amount, and the running total to 3 decimals. |
| OrderBook.Snapshot | src/components/OrderBook.tsx:31-66 | Both ladders, each sorted highest price first. The function has no contract of its own; `Generate` states 15 levels per side, the descending order and asks at or above bids. |
| OrderBook.Insert | src/components/OrderBook.tsx:64-66 | One insertion step of the sort adds exactly one element (multiset union). |
| OrderBook.SortDesc | src/components/OrderBook.tsx:64-66 | The sort is a permutation of its input (equal multisets). |
| OrderBook.SortDescSorted | src/components/OrderBook.tsx:64-66 | The sort's result is in descending price order. |
| OrderBook.InsertSorted | src/components/OrderBook.tsx:64-66 | Inserting into a descending side keeps it descending. |
| OrderBook.SortDescOfSorted | src/components/OrderBook.tsx:64-66 | The sort is stable: a side already in descending order is left unchanged. |
| OrderBook.SortDescOfAscending | src/components/OrderBook.tsx:64 | A strictly ascending side comes out exactly reversed. |
| OrderBook.FirstLevelsAtBtc | src/components/OrderBook.tsx:32-38 | For a BTC pair the first ask shows 30030.00 and the first bid 29970.00. |
| OrderBook.LevelAmountRange | src/components/OrderBook.tsx:35 | Every amount is a 3-decimal value in [0, 2]. |
| OrderBook.RawPriceStep | src/components/OrderBook.tsx:44-60 | Raw prices stay positive. Each ask step multiplies by at least 1.0001, and each bid step by at most 0.9999. |
| OrderBook.StepBounds | src/components/OrderBook.tsx:44-60 | One price step on a positive price: up by at least 0.01% for asks, down by at least 0.01% and still positive for bids. |
| OrderBook.RawPriceMonotone | src/components/OrderBook.tsx:32-60 | Before rounding, ask prices strictly increase and bid prices strictly decrease in generation order. |
| OrderBook.RawPriceFromStart | src/components/OrderBook.tsx:32-60 | Asks never fall below base×1.001 and bids never rise above base×0.999. |
| OrderBook.CumulativeMonotone | src/components/OrderBook.tsx:36-52 | The running sum of amounts is non-negative and non-decreasing. |
| OrderBook.CumulativeIsSum | src/components/OrderBook.tsx:36-56 | The running total after `i` levels is the sum of the first `i` displayed amounts. |
| OrderBook.LadderTotals | src/components/OrderBook.tsx:36-56 | Level `j`'s total is the 3-decimal rounding of the sum of amounts up to `j`. Totals never decrease in generation order. |
| OrderBook.AsksAboveBids | src/components/OrderBook.tsx:31-61 | After rounding, every generated ask price is at least every generated bid price. |
| OrderBook.LadderPricesOrdered | src/components/OrderBook.tsx:38-54 | Rounded prices keep the generation order weakly: asks never fall and bids never rise. |
| OrderBook.LadderOnCentGrid | src/components/OrderBook.tsx:38-54 | Every generated price has two decimals. |
| OrderBook.BidsKeepGenerationOrder | src/components/OrderBook.tsx:66 | Sorting leaves the bid side exactly in generation order. |
| OrderBook.BidTotalsGrowDownward | src/components/OrderBook.tsx:52-66 | In the stored book, bid totals are non-decreasing from top to bottom. |
| OrderBook.AskPricesStrictAtLargeBase | src/components/OrderBook.tsx:32-45 | At a base price of 2000 or more, rounded ask prices strictly increase in generation order. |
| OrderBook.AskTotalsShrinkDownwardAtLargeBase | src/components/OrderBook.tsx:36-64 | At a base price of 2000 or more, the sorted ask side's totals are non-increasing from top to bottom. |
| OrderBook.AskTotalsRiseDownwardAtBaseOne | src/components/OrderBook.tsx:36-64 | At base price 1 (flat draws), the first two asks shown have totals 1 and 2, so ask totals rise top to bottom. |
| OrderBook.CorrectedAsks | src/components/OrderBook.tsx:64 | The generation-order ladder reversed. It is descending, and its totals are non-increasing from top to bottom. |
| OrderBook.CorrectedAsksSameLevels | src/components/OrderBook.tsx:64 | The corrected ask side holds the same levels as the sorted one (equal multisets). |
| OrderBook.MaxTotal | src/components/OrderBook.tsx:72-74 | Absent exactly when both sides are empty. Otherwise it is one of the totals and at least every total. |
| OrderBook.BarWidth | src/components/OrderBook.tsx:96 | A total in [0, maxTotal] gives a width in [0, 100]; the largest total gives 100. |
| OrderBook.GeneratedTotalsWithinMax | src/components/OrderBook.tsx:72-126 | Every level of a generated book has a total in [0, maxTotal], so every depth bar is 0–100% wide. |
| OrderBook.DisplayedSpread | src/components/OrderBook.tsx:106-107 | 0 when a side is empty. Otherwise `asks[0].price − bids[0].price` to 2 decimals: a 2-decimal value within half a cent of that difference, and non-negative when `asks[0]` is at least `bids[0]`. |
| OrderBook.SpreadPercent | src/components/OrderBook.tsx:108-110 | 0 when a side is empty. Otherwise (asks[0] − bids[0]) / asks[0] × 100 to 2 decimals: a 2-decimal value within 0.005 of that quotient, and non-negative for a non-negative spread. |
| OrderBook.GeneratedAsksAtLeastOne | src/components/OrderBook.tsx:32-45 | With a base price of at least 1, every generated ask price is at least 1. |
| OrderBook.GeneratedBidsNonNegative | src/components/OrderBook.tsx:48-61 | Every generated bid price is non-negative. |
| OrderBook.GeneratedSpreadNonNegative | src/components/OrderBook.tsx:106-110 | For a generated book, the displayed spread and its percentage are never negative. |
| OrderBook.FlatLaddersAtOne | src/components/OrderBook.tsx:27-66 | At base 1 with the smallest steps, all 15 levels of each side show 1.00, and the sort keeps their order. |
| OrderBook.SpreadCanBeZeroAtBaseOne | src/components/OrderBook.tsx:106-107 | At base price 1 the displayed spread can be 0. |
| OrderBook.DisplayedExceedsBest | src/components/OrderBook.tsx:106-107 | On a cent grid, when `asks[0]` is above the lowest ask, the displayed spread is strictly larger than best ask minus best bid. |
| OrderBook.DisplayedSpreadOverstatesGap | src/components/OrderBook.tsx:106-107 | For every generated book at base ≥ 2000, the displayed spread exceeds the gap between the best ask and the best bid. |
| OrderBook.BestSpread | src/components/OrderBook.tsx:106-107 | Best (lowest) ask minus best (highest) bid; 0 when a side is empty. |
| OrderBook.BestSpreadOfOrderedBook | src/components/OrderBook.tsx:106-107 | For sorted sides that do not cross, the best spread is non-negative, at most the displayed one, and at most the rounded gap of any ask/bid pair. |
| OrderBook.GeneratedBestSpread | src/components/OrderBook.tsx:106-107 | For every generated book, the best spread is non-negative and at most the displayed one. |
| TradeForm.QuoteStart | src/components/TradeForm.tsx:31-32 | The split point lies four characters from the end, clamped at 0. |
| TradeForm.BaseCurrency | src/components/TradeForm.tsx:31 | `slice(0, -4)` is as long as the split point. |
| TradeForm.QuoteCurrency | src/components/TradeForm.tsx:32 | `slice(-4)` runs from the split point to the end. |
| TradeForm.SplitSymbol | src/components/TradeForm.tsx:31-32 | base ++ quote == symbol. The quote is the last 4 characters when the symbol has at least 4; otherwise the base is empty and the quote is the symbol. |
| TradeForm.SplitBtcUsdt | src/components/TradeForm.tsx:31-32 | "BTCUSDT" splits into "BTC" and "USDT". |
| TradeForm.MarketPrice | src/components/TradeForm.tsx:35 | The order book's base-price rule; positive, with two decimals. |
| TradeForm.Total | src/components/TradeForm.tsx:45 | Within half a cent of price×amount, on the cent grid, and non-negative for non-negative inputs. |
| TradeForm.TotalOf | src/components/TradeForm.tsx:43-49 | "0.00" when either field is empty; otherwise the rounded product. |
| TradeForm.TotalMonotoneInAmount | src/components/TradeForm.tsx:43-49 | At a fixed non-negative price, a larger amount never shows a smaller total. |
| TradeForm.MaxAmount | src/components/TradeForm.tsx:57-59 | Selling: 1. Buying with an empty price: 1000. Buying: 1000/price to 6 decimals. Always a non-negative 6-decimal value. |
| TradeForm.MaxBuyCostsBalance | src/components/TradeForm.tsx:57-58 | Buying the whole buy-side maximum costs 1000, up to the 6-decimal rounding of the amount. |
| TradeForm.SliderAmount | src/components/TradeForm.tsx:61 | The sized amount is a non-negative 6-decimal value within half a unit of v/100×max. |
| TradeForm.SliderEnds | src/components/TradeForm.tsx:52-62 | Slider 0 gives 0; slider 100 gives exactly the maximum. |
| TradeForm.SliderMonotone | src/components/TradeForm.tsx:61 | Moving the slider right never sizes a smaller amount. |
| TradeForm.SubmitResult | src/components/TradeForm.tsx:66-75 | Rejected with the fixed message exactly when a field is empty. Otherwise the placed order carries the side, amount and price, and the base and quote that make up the symbol. |
| TradeForm.OrderForm.constructor | src/components/TradeForm.tsx:23-40 | Empty fields, total 0, slider 0, buying; the price effect fills in the market price. |
| TradeForm.OrderForm.ChangeSymbol | src/components/TradeForm.tsx:37-40 | The symbol prop after a render. If it changed, the price effect resets the price to the new market price and the total is recomputed. If it did not change, price and total are kept. Amount, slider and side never change. |
| TradeForm.OrderForm.SetPrice | src/components/TradeForm.tsx:43-49 | A new price recomputes the total; the other fields are unchanged. |
| TradeForm.OrderForm.SetAmount | src/components/TradeForm.tsx:43-49 | A new amount recomputes the total; the other fields are unchanged. |
| TradeForm.OrderForm.SelectTab | src/components/TradeForm.tsx:84 | Buy exactly when the tab value is "buy"; nothing else changes. |
| TradeForm.OrderForm.SliderChange | src/components/TradeForm.tsx:52-63 | Stores the slider value, sets the amount to the sized amount and recomputes the total. Price, symbol and side are unchanged. |
| TradeForm.OrderForm.Submit | src/components/TradeForm.tsx:66-80 | Returns the submit outcome. A rejection changes nothing. A placed order clears the amount, resets the slider to 0 and recomputes the total. |
| Derivatives.LiquidationPrice | src/app/derivatives/page.tsx:99-105 | Two decimals, within half a cent of price×(1∓0.85/leverage). |
| Derivatives.RawLiquidation | src/app/derivatives/page.tsx:99-105 | price×(1 − 0.85/leverage) for a long and price×(1 + 0.85/leverage) for a short. The function has no contract of its own; `RawLiquidationBounds` states the strict bounds. |
| Derivatives.LiquidationDisplay | src/app/derivatives/page.tsx:92-106 | "N/A" exactly when quantity or price is empty; otherwise the rounded estimate for the side. |
| Derivatives.LiquidationIgnoresQuantity | src/app/derivatives/page.tsx:94-97 | The quantity decides only whether an estimate is shown, never its value. |
| Derivatives.FactorBounds | src/app/derivatives/page.tsx:101-104 | For leverage ≥ 1, 0.85/leverage lies in (0, 0.85]. |
| Derivatives.RawLiquidationBounds | src/app/derivatives/page.tsx:99-105 | Before rounding: a long's estimate is strictly between 0 and the price, and a short's is strictly above it. |
| Derivatives.LiquidationBounds | src/app/derivatives/page.tsx:99-105 | For a 2-decimal price, a long's shown estimate is in [0, price] and a short's is at least the price. |
| Derivatives.LiquidationRoundsToPrice | src/app/derivatives/page.tsx:101-104 | At price 0.50 and leverage 100, both shown estimates equal the price. |
| Derivatives.LiquidationApproachesPrice | src/app/derivatives/page.tsx:101-104 | Higher leverage moves both estimates toward the price. |
| Derivatives.Cost | src/app/derivatives/page.tsx:428-430 | Two decimals, within half a cent of price×amount/leverage, and non-negative for a non-negative notional. |
| Derivatives.CostDisplay | src/app/derivatives/page.tsx:428-430 | "$0.00" unless both price and quantity are filled in. |
| Derivatives.CostFallsWithLeverage | src/app/derivatives/page.tsx:429 | More leverage never costs more. |
| Derivatives.SubmitResult | src/app/derivatives/page.tsx:109-131 | The quantity is checked first, then the price unless the order is a market order. Placed exactly when both checks pass. The order details carry symbol, type, side, leverage, TP/SL, and the price, or "Market" exactly for market orders. |
| Derivatives.MarketOrderNeedsNoPrice | src/app/derivatives/page.tsx:117-126 | A market order goes through with an empty price field, priced "Market". |
| Derivatives.OrderForm.constructor | src/app/derivatives/page.tsx:32-40 | BTCUSDT_PERP, limit, 30250.50, empty quantity, leverage 5, buying, no TP/SL. |
| Derivatives.OrderForm.SetLeverage | src/app/derivatives/page.tsx:355-360 | An offered leverage is stored; nothing else changes. |
| Derivatives.OrderForm.Submit | src/app/derivatives/page.tsx:109-141 | Returns the submit outcome. A rejection changes nothing. A placed order clears quantity, TP and SL and keeps the rest. |
| Derivatives.TradesFor | src/app/derivatives/page.tsx:459 | The trade filter is never longer than the list. |
| Derivatives.TradesForExactly | src/app/derivatives/page.tsx:459 | A trade is listed exactly when it is for the active contract, with its multiplicity, in list order. |
| Derivatives.RecentTradesByContract | src/app/derivatives/page.tsx:80-86 | The BTC perpetual lists trades 1, 2 and 4 in that order; the SOL perpetual's list is empty ("No recent trades"). |
| Wallet.TotalValueIsSum | src/app/wallet/page.tsx:157 | The `reduce` total is the sum of the asset values. |
| Wallet.TotalValue | src/app/wallet/page.tsx:157 | The `reduce` from 0 over the asset values. The function has no contract of its own; `TotalValueIsSum` states that it is their sum. |
| Wallet.MockTotalValue | src/app/wallet/page.tsx:73-157 | The mock portfolio is worth 45707.13. |
| Wallet.FindAsset | src/app/wallet/page.tsx:179 | Absent exactly when no asset has the coin; a found asset has that coin and is in the list. |
| Wallet.FindAssetIsFirst | src/app/wallet/page.tsx:179 | The asset found is the first one with that coin. |
| Wallet.WithdrawalResult | src/app/wallet/page.tsx:172-194 | Guards in order: both fields filled in, a known asset, a positive amount, within the available balance. The first failing guard gives its message. A submitted request carries the amount and coin. |
| Wallet.WithdrawalAcceptedIff | src/app/wallet/page.tsx:172-197 | A withdrawal goes through exactly when both fields are filled in and the amount is in (0, available] of the first asset with the selected coin. |
| Wallet.FullBalanceAccepted | src/app/wallet/page.tsx:179-194 | 0.5 BTC is accepted and 0.51 BTC is rejected as insufficient; DOGE is an invalid asset. |
| Wallet.NetOfFee | src/app/wallet/page.tsx:575 | `Math.max(0, amount − 0.0005)` to 6 decimals. For an amount up to the 0.0005 fee it is exactly 0. Above the fee it is within half a 6-decimal unit of amount − 0.0005. It is always a non-negative 6-decimal value, and below any positive amount. |
| Wallet.Received | src/app/wallet/page.tsx:574-576 | "0.0" while the amount is empty; otherwise the amount net of the fee. |
| Wallet.WalletPage.constructor | src/app/wallet/page.tsx:65-69 | Overview tab, nothing selected, empty withdrawal fields. |
| Wallet.WalletPage.HandleWithdrawal | src/app/wallet/page.tsx:165-170 | Selects the coin, clears both fields and opens the withdraw tab. |
| Wallet.WalletPage.Max | src/app/wallet/page.tsx:554-558 | A listed asset's available balance fills the amount; otherwise nothing changes. |
| Wallet.WalletPage.SubmitWithdrawal | src/app/wallet/page.tsx:172-200 | Returns the withdrawal decision. A rejection changes nothing. A submission clears amount and address and keeps the selection. |
| Wallet.MaxIsAccepted | src/app/wallet/page.tsx:554-558 | With an address filled in, MAX on a listed asset with a positive balance is always accepted. |
| Markets.FilteredMarkets | src/app/markets/page.tsx:129-134 | The filter is never longer than the list. |
| Markets.MatchesQuery | src/app/markets/page.tsx:132-133 | The lower-cased search text occurs in the lower-cased symbol or name. The predicate has no contract of its own; `FilteredExactly` states what the filter keeps. |
| Markets.Shown | src/app/markets/page.tsx:131-133 | The filter's test: the active category and a matching search. The predicate has no contract of its own; `FilteredExactly` states what the filter keeps. |
| Markets.FilteredExactly | src/app/markets/page.tsx:129-134 | A market is listed exactly when it is in the active category and the lower-cased search occurs in its lower-cased symbol or name. Each shown market appears as often as in the list and a hidden one never. The list keeps the original order. |
| Markets.EmptyQueryShowsCategory | src/app/markets/page.tsx:129-134 | An empty search shows exactly the active category. |
| Markets.FuturesTab | src/app/markets/page.tsx:36-134 | The futures tab with no search lists the two perpetuals, in order. |
| Markets.MantissaBounds | src/app/markets/page.tsx:137-140 | A number in [t, 1000t) shows a mantissa in [1, 1000]. |
| Markets.FormatLargeNumber | src/app/markets/page.tsx:136-142 | The suffix is T, B, M or K exactly when the number is in that suffix's band; below 1000 the number is printed itself. The mantissa is num/threshold to 2 decimals, in [1, 1000] below T. |
| Markets.MantissaCarriesToThousand | src/app/markets/page.tsx:140 | 999999.999 prints as 1000.00K, not 1.00M. |
| Markets.BitcoinMarketCap | src/app/markets/page.tsx:138 | 567890123456 prints as 567.89B. |
| Markets.MarketCapCell | src/app/markets/page.tsx:221-223 | "-" exactly when the cap is not positive; otherwise the formatted cap. |
| Markets.DerivativeMarketsShowDash | src/app/markets/page.tsx:221-223 | Every futures and margin market shows "-". |
| MarketData.FormatLargeNumber | src/components/MarketData.tsx:120-126 | The ticker prints every number as the markets page does. So a suffix appears exactly from 1000 up, the mantissa is num/threshold to 2 decimals and at least 1, and it is at most 1000 below the T band. |
| TradingView.GenerateCandles | src/components/TradingView.tsx:104-137 | The loop yields exactly the specified 60 candles. The first opens at the base price, and each later one opens at the previous close. Every candle is well formed, and consecutive candles are 86400 s apart. |
| TradingView.Series | src/components/TradingView.tsx:111-134 | One candle per draw. |
| TradingView.ChangePercent | src/components/TradingView.tsx:115-116 | 0.005 + draw×0.01 + the volatility (2×draw − 1)×0.01. The function has no contract of its own; `ChangePercentRange` states its range. |
| TradingView.Close | src/components/TradingView.tsx:119 | The open times the close factor. The function has no contract of its own; `CloseBounds` states the bounds. |
| TradingView.High | src/components/TradingView.tsx:120 | max(open, close)×(1 + draw×0.005). The function has no contract of its own; `CandleShape` states that it is at least open and close. |
| TradingView.Low | src/components/TradingView.tsx:121 | min(open, close)×(1 − draw×0.005). The function has no contract of its own; `CandleShape` states that it is positive and at most open and close. |
| TradingView.Volume | src/components/TradingView.tsx:122 | floor(draw×1000) + 500. The function has no contract of its own; `VolumeRange` states [500, 1499]. |
| TradingView.CandleTime | src/components/TradingView.tsx:112-125 | The current time less 60 − i days, in whole seconds. The function has no contract of its own; `SeriesTimes` states the 86400 s spacing. |
| TradingView.OpenPrice | src/components/TradingView.tsx:109-133 | The base price for the first candle, then each previous close. The function has no contract of its own; `OpenPositive` and `SeriesChained` state its properties. |
| TradingView.CloseFactorSigned | src/components/TradingView.tsx:119 | The close factor is 1 + (±1)×changePercent, the sign given by the draw being above 0.5. |
| TradingView.ChangePercentRange | src/components/TradingView.tsx:115-116 | The change percentage lies in [−0.005, 0.025). |
| TradingView.FactorRange | src/components/TradingView.tsx:119 | The close factor lies in (0.975, 1.025). |
| TradingView.CloseBounds | src/components/TradingView.tsx:119 | A positive open gives a close strictly between 0.975 and 1.025 times the open. |
| TradingView.OpenPositive | src/components/TradingView.tsx:109-133 | Every open (hence every close) is positive. |
| TradingView.CandleShape | src/components/TradingView.tsx:120-121 | High is at least max(open, close); low is in (0, min(open, close)]. |
| TradingView.VolumeRange | src/components/TradingView.tsx:122 | Volume is a whole number in [500, 1499]. |
| TradingView.SeriesChained | src/components/TradingView.tsx:133 | Each candle opens at the previous candle's close. |
| TradingView.SeriesWellFormed | src/components/TradingView.tsx:111-134 | Every generated candle is well formed. |
| TradingView.SeriesTimes | src/components/TradingView.tsx:112-125 | Consecutive candle times differ by exactly 86400 seconds. |
| TradingView.BarOf | src/components/TradingView.tsx:70-74 | A bar has the candle's time. It is green exactly when close ≥ open, and its value is the volume when that is non-zero. |
| TradingView.Bars | src/components/TradingView.tsx:70-74 | One bar per candle. |
| TradingView.GeneratedBars | src/components/TradingView.tsx:70-74 | For generated candles, every bar shows the candle's own volume and is green exactly on up days. |
| Register.Submit | src/app/register/page.tsx:23-66 | Guards in order: fields filled in, passwords equal, terms accepted. `register` is called exactly when all pass. Navigation to /trade happens exactly when it then succeeds, with the success toast. A failure shows the mapped error. |
| Register.RefusalIgnoresCall | src/app/register/page.tsx:26-39 | When a guard stops the submission, the call's result plays no part. |
| Register.EmptyBeforeMismatch | src/app/register/page.tsx:26-34 | An empty confirmation reports "fill in all fields", not a mismatch. A non-empty differing confirmation reports the mismatch. |
| Register.ListedCodeMessages | src/app/register/page.tsx:48-60 | Each of the four listed codes gives its fixed message, whatever the error's own message. |
| Register.OtherErrorMessages | src/app/register/page.tsx:61-66 | Any other Firebase code gives "Registration failed: " + message; a non-Firebase error gives the generic text. |
| Register.FixedMessagesDistinct | src/app/register/page.tsx:48-65 | The four fixed texts and the generic text are pairwise different. |
| Register.PrefixedIsNotFixed | src/app/register/page.tsx:61-62 | No "Registration failed: …" text equals a fixed one. |
| Register.ToastDeterminesCause | src/app/register/page.tsx:47-66 | Equal toasts come from the same branch of the switch: the same listed code, unlisted codes with the same message, or two non-Firebase errors. |
| Register.CauseDeterminesToast | src/app/register/page.tsx:47-66 | Conversely, errors from the same branch of the switch give the same toast. With `ToastDeterminesCause`, the toast and the branch determine each other. |
| Register.ErrorMessage | src/app/register/page.tsx:47-66 | The `switch` on the error code: a fixed text per listed code, the prefix plus the error's message otherwise, the generic text for a non-Firebase error. The function has no contract of its own; `ListedCodeMessages` and `OtherErrorMessages` state it. |
| Register.CauseOf | src/app/register/page.tsx:47-66 | Which branch of the `switch` an error takes: a listed code, an unlisted code with its message, or a non-Firebase error. The function has no contract of its own; it is the partner of `ErrorMessage` in the two lemmas above. |
| Login.Submit | src/app/login/page.tsx:20-53 | An empty email or password is refused and `login` is not called. Otherwise `login` is called. Navigation to /trade happens exactly when it succeeds, with the success toast. A failure shows the mapped error. |
| Login.RefusalIgnoresCall | src/app/login/page.tsx:23-26 | With a field empty, the call's result plays no part. |
| Login.FailureStaysOnPage | src/app/login/page.tsx:28-33 | A failed login never navigates and always shows an error toast. |
| Login.ListedCodeMessages | src/app/login/page.tsx:35-47 | Each of the four listed codes gives its fixed message, whatever the error's own message. |
| Login.OtherErrorMessages | src/app/login/page.tsx:48-53 | Any other Firebase code gives "Login failed: " + message; a non-Firebase error gives the generic text. |
| Login.FixedMessagesDistinct | src/app/login/page.tsx:36-52 | The four fixed texts and the generic text are pairwise different. |
| Login.PrefixedIsNotFixed | src/app/login/page.tsx:48-49 | No "Login failed: …" text equals a fixed one. |
| Login.ToastDeterminesCause | src/app/login/page.tsx:34-53 | Equal toasts come from the same branch of the switch. |
| Login.CauseDeterminesToast | src/app/login/page.tsx:34-53 | Conversely, errors from the same branch of the switch give the same toast. With `ToastDeterminesCause`, the toast and the branch determine each other. |
| Login.ErrorMessage | src/app/login/page.tsx:34-53 | The `switch` on the error code: a fixed text per listed code, the prefix plus the error's message otherwise, the generic text for a non-Firebase error. The function has no contract of its own; `ListedCodeMessages` and `OtherErrorMessages` state it. |
| Login.CauseOf | src/app/login/page.tsx:34-53 | Which branch of the `switch` an error takes: a listed code, an unlisted code with its message, or a non-Firebase error. The function has no contract of its own; it is the partner of `ErrorMessage` in the two lemmas above. |

## Left out

- IEEE-754 doubles: arithmetic is exact. `toFixed` is exact half-away-from-zero rounding, not the rounding of a binary double. `parseFloat` of malformed text (NaN) and the `Number` conversions are not modelled: a non-empty field holds a number.
- `toLocaleString`, the string forms of numbers (`toString`, the "$" and "%" decorations) and all JSX, styling and tab/dialog state other than the fields listed above.
- The chart library calls in `TradingView.tsx` (chart creation, series setup, resize listener, cleanup). `Math.random() * 200` for a zero volume is an injected fallback.
- TradingView.GenerateCandles: `date.setDate(date.getDate() - k)` is modelled as subtracting k×86400000 ms from the current time, which is a parameter. Calendar and daylight-saving effects are not modelled.
- The in-place `Array.prototype.sort` is modelled as a stable insertion sort on sequences, `SortDesc`. Aliasing of the arrays held in React state is not modelled.
- OrderBook.SpreadPercent: requires a non-zero `asks[0].price` when both sides are non-empty. The page would divide by zero; a generated book's asks are always at least 1.
- OrderBook.BarWidth: requires a positive `maxTotal`. The page would divide by zero; on a book whose every total is 0 the width is NaN.
- TradeForm.MaxAmount and TradeForm.OrderForm.SliderChange: require a positive price when buying. The page divides 1000 by the price field.
- Derivatives: the leverage is one of the offered values (at least 1). The contracts list, `selectedContract`, the mock positions, the hedge and "advanced options" flags, the order-type buttons and the symbol selector are display state with no logic. `console.log` of the order details is replaced by returning them.
- TradeForm: `orderType` is a prop the form only displays; "advanced options" is a UI flag. The price effect's "`toFixed(2)` of the market price" is modelled as the market price itself, which is already 2-decimal.
- Wallet: deposit-address generation, the QR code, clipboard writes and the transaction history table are left out (random strings, a browser API, static display).
- Login and registration: the Firebase SDK, `useAuth`, the `isLoading` flag, `console.error` and `router.push` are not modelled. The call's result is a parameter, and the pushed route is part of the returned outcome.
- Text.Lower: `toLowerCase` is modelled for ASCII capitals only; full Unicode case mapping is not modelled.
- Derivatives.LiquidationBounds: after rounding the bounds are non-strict (see `LiquidationRoundsToPrice`); the strict bounds hold only before rounding.

## Findings

| source | as written | input that shows it | evidently intended | confidence | as-written member | corrected member |
|---|---|---|---|---|---|---|
| src/components/OrderBook.tsx:106-109 | The spread is `asks[0].price − bids[0].price`, but the asks are sorted highest first, so `asks[0]` is the worst ask. | Any BTC or ETH book, e.g. "BTCUSDT" with any draws: the displayed spread exceeds lowest ask − highest bid. | The best ask (last in the descending ask list) minus the best bid. | not executed | OrderBook.DisplayedSpreadOverstatesGap | OrderBook.BestSpreadOfOrderedBook |
| src/components/OrderBook.tsx:64 | The ask side is sorted by rounded price only. At base price 1 many levels round to the same price, and the stable sort keeps them in generation order, so ask totals rise from top to bottom. | "SOLUSDT" with the smallest price steps and amounts of 1.000: the first two asks shown have totals 1.000 and 2.000. | Cumulative totals that grow away from the spread: non-increasing from the top of the ask list. | not executed | OrderBook.AskTotalsRiseDownwardAtBaseOne | OrderBook.CorrectedAsks |
