/**
 * The price chart's sample data: 60 daily candles generated by a loop that
 * opens each candle at the previous close, moves the close by a random
 * percentage, brackets high and low around open and close, and draws a
 * volume; and the volume bars derived from the candles.
 */
module TradingView {
  import Text

  /** The six `Math.random()` results one iteration uses, in call order. */
  datatype CandleDraw = CandleDraw(volatility: real, change: real, direction: real, high: real, low: real, volume: real)

  predicate ValidDraws(ds: seq<CandleDraw>) {
    forall i :: 0 <= i < |ds| ==>
      0.0 <= ds[i].volatility < 1.0 && 0.0 <= ds[i].change < 1.0 && 0.0 <= ds[i].direction < 1.0 &&
      0.0 <= ds[i].high < 1.0 && 0.0 <= ds[i].low < 1.0 && 0.0 <= ds[i].volume < 1.0
  }

  /** `time` is in seconds since the epoch. */
  datatype Candle = Candle(time: int, open: real, high: real, low: real, close: real, volume: int)

  const Days: nat := 60
  const DayMs: int := 86400000

  // ---------------------------------------------------------------------
  // One candle, as specification functions
  // ---------------------------------------------------------------------

  function Max(a: real, b: real): real { if a >= b then a else b }
  function Min(a: real, b: real): real { if a <= b then a else b }

  /** `0.005 + r * 0.01 + volatility`, the volatility being `(r * 2 - 1) * 0.01`. */
  function ChangePercent(d: CandleDraw): real {
    0.005 + d.change * 0.01 + (d.volatility * 2.0 - 1.0) * 0.01
  }

  /** Up when the draw is above 0.5, down otherwise. */
  function Direction(d: CandleDraw): real {
    if d.direction > 0.5 then 1.0 else -1.0
  }

  /** The factor from open to close, `1 + direction * changePercent`, written per direction. */
  function CloseFactor(d: CandleDraw): real {
    if d.direction > 0.5 then 1.0 + ChangePercent(d) else 1.0 - ChangePercent(d)
  }

  /** The per-direction factor is the signed one of the chart code. */
  lemma CloseFactorSigned(d: CandleDraw)
    ensures CloseFactor(d) == 1.0 + Direction(d) * ChangePercent(d)
  {
  }

  function Close(open: real, d: CandleDraw): real {
    Scale(open, CloseFactor(d))
  }

  function Scale(a: real, f: real): real { a * f }

  function High(open: real, close: real, d: CandleDraw): real {
    Max(open, close) * (1.0 + d.high * 0.005)
  }

  function Low(open: real, close: real, d: CandleDraw): real {
    Min(open, close) * (1.0 - d.low * 0.005)
  }

  function Volume(d: CandleDraw): int {
    (d.volume * 1000.0).Floor + 500
  }

  /** Candle `i` is dated `60 - i` days before now, in whole seconds. */
  function CandleTime(nowMs: int, i: int): int {
    (nowMs - (Days - i) * DayMs) / 1000
  }

  /** The open of candle `i`: the base price, then each close in turn. */
  function OpenPrice(base: real, ds: seq<CandleDraw>, i: nat): real
    requires i <= |ds|
  {
    if i == 0 then base else Close(OpenPrice(base, ds, i - 1), ds[i - 1])
  }

  function CandleAt(base: real, nowMs: int, ds: seq<CandleDraw>, i: nat): Candle
    requires i < |ds|
  {
    var open := OpenPrice(base, ds, i);
    var close := Close(open, ds[i]);
    Candle(CandleTime(nowMs, i), open, High(open, close, ds[i]), Low(open, close, ds[i]), close, Volume(ds[i]))
  }

  function Series(base: real, nowMs: int, ds: seq<CandleDraw>): (r: seq<Candle>)
    ensures |r| == |ds|
  {
    seq(|ds|, i requires 0 <= i < |ds| => CandleAt(base, nowMs, ds, i))
  }

  /** A candle's high and low bracket its open and close, all positive; its volume is in [500, 1499]. */
  predicate WellFormed(c: Candle) {
    0.0 < c.low <= Min(c.open, c.close) && Max(c.open, c.close) <= c.high &&
    500 <= c.volume <= 1499
  }

  // ---------------------------------------------------------------------
  // The generation loop
  // ---------------------------------------------------------------------

  /** `generateDummyData`: the loop of 60 days, `price` carrying each close to the next open. */
  method GenerateCandles(symbol: string, nowMs: int, draws: seq<CandleDraw>) returns (data: seq<Candle>)
    requires |draws| == Days && ValidDraws(draws)
    ensures data == Series(Text.BasePrice(symbol), nowMs, draws)
    ensures |data| == Days && data[0].open == Text.BasePrice(symbol)
    ensures forall i :: 0 <= i < Days - 1 ==> data[i + 1].open == data[i].close
    ensures forall i :: 0 <= i < Days ==> WellFormed(data[i])
    ensures forall i :: 0 <= i < Days - 1 ==> data[i + 1].time == data[i].time + 86400
  {
    var base := Text.BasePrice(symbol);
    var price := base;
    data := [];
    for i := 0 to Days
      invariant price == OpenPrice(base, draws, i)
      invariant data == Series(base, nowMs, draws)[..i]
    {
      var d := draws[i];
      var open := price;
      var close := Close(open, d);
      var high := High(open, close, d);
      var low := Low(open, close, d);
      var volume := Volume(d);
      data := data + [Candle(CandleTime(nowMs, i), open, high, low, close, volume)];
      price := close;
      assert data == Series(base, nowMs, draws)[..i + 1] by {
        assert Series(base, nowMs, draws)[i] == CandleAt(base, nowMs, draws, i);
      }
    }
    assert data == Series(base, nowMs, draws);
    SeriesChained(base, nowMs, draws);
    SeriesWellFormed(base, nowMs, draws);
    SeriesTimes(base, nowMs, draws);
  }

  // ---------------------------------------------------------------------
  // Properties
  // ---------------------------------------------------------------------

  /** The change percentage lies in [-0.005, 0.025). */
  lemma ChangePercentRange(d: CandleDraw)
    requires 0.0 <= d.volatility < 1.0 && 0.0 <= d.change < 1.0
    ensures -0.005 <= ChangePercent(d) < 0.025
  {
  }

  /** A close is between 0.975 and 1.025 times its open, so positive opens give positive closes. */
  lemma CloseBounds(open: real, d: CandleDraw)
    requires open > 0.0 && 0.0 <= d.volatility < 1.0 && 0.0 <= d.change < 1.0
    ensures 0.975 * open < Close(open, d) < 1.025 * open
  {
    FactorRange(d);
    ScaleAbove(open, CloseFactor(d));
    ScaleBelow(open, CloseFactor(d));
  }

  lemma ScaleAbove(a: real, f: real)
    requires a > 0.0 && 0.975 < f
    ensures 0.975 * a < Scale(a, f)
  {
    assert a * f - 0.975 * a == a * (f - 0.975);
  }

  lemma ScaleBelow(a: real, f: real)
    requires a > 0.0 && f < 1.025
    ensures Scale(a, f) < 1.025 * a
  {
    assert 1.025 * a - a * f == a * (1.025 - f);
  }

  lemma FactorRange(d: CandleDraw)
    requires 0.0 <= d.volatility < 1.0 && 0.0 <= d.change < 1.0
    ensures 0.975 < CloseFactor(d) < 1.025
  {
    ChangePercentRange(d);
  }

  lemma ScaleStrict(a: real, x: real, y: real)
    requires a > 0.0 && x < y
    ensures a * x < a * y
  {
    assert a * y - a * x == a * (y - x);
  }

  lemma ScaleWeak(a: real, x: real, y: real)
    requires a >= 0.0 && x <= y
    ensures a * x <= a * y
  {
    assert a * y - a * x == a * (y - x);
  }

  /** Every open (and so every close) is positive when the base price is. */
  lemma {:induction false} OpenPositive(base: real, ds: seq<CandleDraw>, i: nat)
    requires base > 0.0 && ValidDraws(ds) && i <= |ds|
    ensures OpenPrice(base, ds, i) > 0.0
  {
    if i > 0 {
      OpenPositive(base, ds, i - 1);
      CloseBounds(OpenPrice(base, ds, i - 1), ds[i - 1]);
    }
  }

  /** High and low bracket open and close; the low stays positive. */
  lemma CandleShape(open: real, d: CandleDraw)
    requires open > 0.0 && 0.0 <= d.volatility < 1.0 && 0.0 <= d.change < 1.0
    requires 0.0 <= d.high < 1.0 && 0.0 <= d.low < 1.0
    ensures var close := Close(open, d);
            0.0 < Low(open, close, d) <= Min(open, close) && Max(open, close) <= High(open, close, d)
  {
    CloseBounds(open, d);
    var close := Close(open, d);
    var lo, hi := Min(open, close), Max(open, close);
    assert lo > 0.0 && hi > 0.0;
    var fl, fh := 1.0 - d.low * 0.005, 1.0 + d.high * 0.005;
    assert 0.0 < fl <= 1.0 && 1.0 <= fh;
    ScaleStrict(lo, 0.0, fl);
    ScaleWeak(lo, fl, 1.0);
    ScaleWeak(hi, 1.0, fh);
    assert Low(open, close, d) == lo * fl;
    assert High(open, close, d) == hi * fh;
  }

  /** The volume is a whole number in [500, 1499]. */
  lemma VolumeRange(d: CandleDraw)
    requires 0.0 <= d.volume < 1.0
    ensures 500 <= Volume(d) <= 1499
  {
  }

  lemma SeriesChained(base: real, nowMs: int, ds: seq<CandleDraw>)
    ensures forall i :: 0 <= i < |ds| - 1 ==> Series(base, nowMs, ds)[i + 1].open == Series(base, nowMs, ds)[i].close
  {
  }

  lemma SeriesWellFormed(base: real, nowMs: int, ds: seq<CandleDraw>)
    requires base > 0.0 && ValidDraws(ds)
    ensures forall i :: 0 <= i < |ds| ==> WellFormed(Series(base, nowMs, ds)[i])
  {
    forall i | 0 <= i < |ds| ensures WellFormed(Series(base, nowMs, ds)[i]) {
      OpenPositive(base, ds, i);
      CandleShape(OpenPrice(base, ds, i), ds[i]);
      VolumeRange(ds[i]);
    }
  }

  /** Consecutive candles are exactly one day (86400 seconds) apart. */
  lemma SeriesTimes(base: real, nowMs: int, ds: seq<CandleDraw>)
    ensures forall i :: 0 <= i < |ds| - 1 ==> Series(base, nowMs, ds)[i + 1].time == Series(base, nowMs, ds)[i].time + 86400
  {
    forall i | 0 <= i < |ds| - 1
      ensures Series(base, nowMs, ds)[i + 1].time == Series(base, nowMs, ds)[i].time + 86400
    {
      var a := nowMs - (Days - i) * DayMs;
      assert nowMs - (Days - (i + 1)) * DayMs == a + 86400 * 1000;
      DivShift(a, 86400);
    }
  }

  lemma DivShift(a: int, k: int)
    ensures (a + k * 1000) / 1000 == a / 1000 + k
  {
  }

  // ---------------------------------------------------------------------
  // Volume bars
  // ---------------------------------------------------------------------

  /** A histogram bar: green when the candle closed at or above its open. */
  datatype VolumeBar = VolumeBar(time: int, value: real, green: bool)

  /** `volume || Math.random() * 200`, coloured by `close >= open`. */
  function BarOf(c: Candle, fallback: real): (b: VolumeBar)
    ensures b.time == c.time
    ensures b.green <==> c.close >= c.open
    ensures c.volume != 0 ==> b.value == c.volume as real
  {
    VolumeBar(c.time, if c.volume != 0 then c.volume as real else fallback * 200.0, c.close >= c.open)
  }

  function Bars(data: seq<Candle>, fallbacks: seq<real>): (r: seq<VolumeBar>)
    requires |fallbacks| == |data|
    ensures |r| == |data|
  {
    seq(|data|, i requires 0 <= i < |data| => BarOf(data[i], fallbacks[i]))
  }

  /** For generated candles every bar shows the candle's own volume, green exactly on up days. */
  lemma GeneratedBars(base: real, nowMs: int, ds: seq<CandleDraw>, fallbacks: seq<real>)
    requires base > 0.0 && ValidDraws(ds) && |fallbacks| == |ds|
    ensures forall i :: 0 <= i < |ds| ==>
              Bars(Series(base, nowMs, ds), fallbacks)[i].value == Series(base, nowMs, ds)[i].volume as real &&
              (Bars(Series(base, nowMs, ds), fallbacks)[i].green <==> Series(base, nowMs, ds)[i].close >= Series(base, nowMs, ds)[i].open)
  {
    SeriesWellFormed(base, nowMs, ds);
  }
}
