/**
 * The market ticker strip's own copy of the large-number formatter, used
 * for the volume and market-cap lines of each card.
 */
module MarketData {
  import opened Decimal
  import Markets

  /**
   * `formatLargeNumber` of the ticker: the same if-chain as the markets page,
   * the suffix appended by concatenation. It prints every number as the
   * markets page does, so it inherits that formatter's bands and mantissa
   * bounds.
   */
  function FormatLargeNumber(num: real): (r: Markets.Formatted)
    ensures r == Markets.FormatLargeNumber(num)
    ensures num >= Markets.Thousand <==> r.Scaled?
    ensures r.Scaled? ==> r.mantissa == RoundTo(num / Markets.Threshold(r.suffix), 2) && 1.0 <= r.mantissa
    ensures r.Scaled? && r.suffix != 'T' ==> r.mantissa <= 1000.0
  {
    var scaled := Markets.FormatLargeNumber(num);
    assert scaled.Scaled? ==> scaled.suffix in {'T', 'B', 'M', 'K'};
    if num >= Markets.Trillion then Markets.Scaled(RoundTo(num / Markets.Trillion, 2), 'T')
    else if num >= Markets.Billion then Markets.Scaled(RoundTo(num / Markets.Billion, 2), 'B')
    else if num >= Markets.Million then Markets.Scaled(RoundTo(num / Markets.Million, 2), 'M')
    else if num >= Markets.Thousand then Markets.Scaled(RoundTo(num / Markets.Thousand, 2), 'K')
    else Markets.Plain(num)
  }
}
