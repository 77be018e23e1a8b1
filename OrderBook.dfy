/**
 * The synthetic order book of the trading screen: 15 asks generated upward
 * from `base * 1.001` and 15 bids downward from `base * 0.999`, each with a
 * running cumulative total, then both sides sorted by price, highest first;
 * plus the derived view values (largest total for the depth bars, bar widths,
 * spread and spread percentage).
 */
module OrderBook {
  import opened Decimal
  import opened Seqs
  import opened Wrappers
  import Text

  datatype Side = Ask | Bid

  datatype OrderItem = OrderItem(price: real, amount: real, total: real, side: Side)

  datatype Book = Book(asks: seq<OrderItem>, bids: seq<OrderItem>)

  /** The two `Math.random()` results one loop iteration uses, in call order. */
  datatype LevelDraw = LevelDraw(amount: real, drift: real)

  /** Number of levels generated on each side. */
  const LevelCount: nat := 15

  predicate ValidDraws(ds: seq<LevelDraw>) {
    forall i :: 0 <= i < |ds| ==> 0.0 <= ds[i].amount < 1.0 && 0.0 <= ds[i].drift < 1.0
  }

  // ---------------------------------------------------------------------
  // Generation, as specification functions
  // ---------------------------------------------------------------------

  /** `Number((Math.random() * 2).toFixed(3))`. */
  function LevelAmount(d: LevelDraw): real {
    RoundTo(d.amount * 2.0, 3)
  }

  /** The relative price step `0.0001 + Math.random() * 0.0005`. */
  function StepRate(d: LevelDraw): real {
    0.0001 + d.drift * 0.0005
  }

  function StartPrice(side: Side, base: real): real {
    if side == Ask then base * 1.001 else base * 0.999
  }

  function NextPrice(side: Side, price: real, d: LevelDraw): real {
    if side == Ask then price + price * StepRate(d) else price - price * StepRate(d)
  }

  /** The unrounded price of level `i`, in generation order. */
  function RawPrice(side: Side, base: real, ds: seq<LevelDraw>, i: nat): real
    requires i <= |ds|
  {
    if i == 0 then StartPrice(side, base)
    else NextPrice(side, RawPrice(side, base, ds, i - 1), ds[i - 1])
  }

  /** The running sum of the first `i` amounts. */
  function Cumulative(ds: seq<LevelDraw>, i: nat): real
    requires i <= |ds|
  {
    if i == 0 then 0.0 else Cumulative(ds, i - 1) + LevelAmount(ds[i - 1])
  }

  function Level(side: Side, base: real, ds: seq<LevelDraw>, i: nat): OrderItem
    requires i < |ds|
  {
    OrderItem(RoundTo(RawPrice(side, base, ds, i), 2), LevelAmount(ds[i]),
              RoundTo(Cumulative(ds, i + 1), 3), side)
  }

  /** One side in generation order (best price first), before the sort. */
  function Ladder(side: Side, base: real, ds: seq<LevelDraw>): (r: seq<OrderItem>)
    ensures |r| == |ds|
  {
    seq(|ds|, i requires 0 <= i < |ds| => Level(side, base, ds, i))
  }

  /** The book the generation effect stores for a base price and the draws. */
  function Snapshot(base: real, askDraws: seq<LevelDraw>, bidDraws: seq<LevelDraw>): Book {
    Book(SortDesc(Ladder(Ask, base, askDraws)), SortDesc(Ladder(Bid, base, bidDraws)))
  }

  // ---------------------------------------------------------------------
  // `sort((a, b) => b.price - a.price)`: a stable sort, highest price first
  // ---------------------------------------------------------------------

  predicate SortedDesc(s: seq<OrderItem>) {
    forall i, j :: 0 <= i < j < |s| ==> s[i].price >= s[j].price
  }

  /** Puts `x` after every element whose price is at least its own. */
  function Insert(r: seq<OrderItem>, x: OrderItem): (t: seq<OrderItem>)
    ensures multiset(t) == multiset(r) + multiset{x}
    ensures |t| == |r| + 1
  {
    if r == [] then [x]
    else if r[0].price >= x.price then
      assert r == [r[0]] + r[1..];
      [r[0]] + Insert(r[1..], x)
    else [x] + r
  }

  function SortDesc(s: seq<OrderItem>): (t: seq<OrderItem>)
    ensures multiset(t) == multiset(s)
    ensures |t| == |s|
  {
    if s == [] then []
    else
      assert s == s[..|s| - 1] + [s[|s| - 1]];
      Insert(SortDesc(s[..|s| - 1]), s[|s| - 1])
  }

  lemma {:induction false} InsertSorted(r: seq<OrderItem>, x: OrderItem)
    requires SortedDesc(r)
    ensures SortedDesc(Insert(r, x))
  {
    if r != [] && r[0].price >= x.price {
      InsertSorted(r[1..], x);
      var t := Insert(r[1..], x);
      assert forall k :: 0 <= k < |t| ==> t[k] in multiset(r[1..]) + multiset{x};
      forall k | 0 <= k < |t| ensures r[0].price >= t[k].price {
        assert t[k] in multiset(r[1..]) + multiset{x};
        if t[k] in multiset(r[1..]) {
          var m :| 0 <= m < |r[1..]| && r[1..][m] == t[k];
          assert r[m + 1] == t[k];
        }
      }
    }
  }

  /** The sort orders by price, highest first, and is a permutation. */
  lemma {:induction false} SortDescSorted(s: seq<OrderItem>)
    ensures SortedDesc(SortDesc(s))
  {
    if s != [] {
      SortDescSorted(s[..|s| - 1]);
      InsertSorted(SortDesc(s[..|s| - 1]), s[|s| - 1]);
    }
  }

  lemma {:induction false} InsertAfterAll(r: seq<OrderItem>, x: OrderItem)
    requires forall k :: 0 <= k < |r| ==> r[k].price >= x.price
    ensures Insert(r, x) == r + [x]
  {
    if r != [] {
      InsertAfterAll(r[1..], x);
      assert r == [r[0]] + r[1..];
    }
  }

  /** A side already in descending order is left as it is (the sort is stable). */
  lemma {:induction false} SortDescOfSorted(s: seq<OrderItem>)
    requires SortedDesc(s)
    ensures SortDesc(s) == s
  {
    if s != [] {
      var pre := s[..|s| - 1];
      SortDescOfSorted(pre);
      InsertAfterAll(pre, s[|s| - 1]);
      assert pre + [s[|s| - 1]] == s;
    }
  }

  function Reverse(s: seq<OrderItem>): (r: seq<OrderItem>)
    ensures |r| == |s|
    ensures forall k :: 0 <= k < |s| ==> r[k] == s[|s| - 1 - k]
  {
    if s == [] then [] else [s[|s| - 1]] + Reverse(s[..|s| - 1])
  }

  predicate StrictlyAscending(s: seq<OrderItem>) {
    forall i :: 0 <= i < |s| - 1 ==> s[i].price < s[i + 1].price
  }

  /** A side in strictly ascending order comes out reversed. */
  lemma {:induction false} SortDescOfAscending(s: seq<OrderItem>)
    requires StrictlyAscending(s)
    ensures SortDesc(s) == Reverse(s)
  {
    if s != [] {
      var pre := s[..|s| - 1];
      assert StrictlyAscending(pre);
      SortDescOfAscending(pre);
    }
  }

  // ---------------------------------------------------------------------
  // The generation loops
  // ---------------------------------------------------------------------

  /**
   * One of the two generation loops: push a level at the current price and
   * running total, then move the price by a random step (up for asks, down
   * for bids).
   */
  method BuildSide(side: Side, base: real, ds: seq<LevelDraw>) returns (levels: seq<OrderItem>)
    ensures levels == Ladder(side, base, ds)
  {
    var price := StartPrice(side, base);
    var total := 0.0;
    levels := [];
    for i := 0 to |ds|
      invariant price == RawPrice(side, base, ds, i)
      invariant total == Cumulative(ds, i)
      invariant levels == Ladder(side, base, ds)[..i]
    {
      var amount := LevelAmount(ds[i]);
      total := total + amount;
      levels := levels + [OrderItem(RoundTo(price, 2), amount, RoundTo(total, 3), side)];
      price := NextPrice(side, price, ds[i]);
      assert levels == Ladder(side, base, ds)[..i + 1] by {
        ghost var l := Ladder(side, base, ds);
        assert l[..i + 1] == l[..i] + [l[i]];
      }
    }
  }

  /** The generation effect run when the symbol changes. */
  method Generate(symbol: string, askDraws: seq<LevelDraw>, bidDraws: seq<LevelDraw>) returns (book: Book)
    requires |askDraws| == LevelCount && |bidDraws| == LevelCount
    requires ValidDraws(askDraws) && ValidDraws(bidDraws)
    ensures book == Snapshot(Text.BasePrice(symbol), askDraws, bidDraws)
    ensures |book.asks| == LevelCount && |book.bids| == LevelCount
    ensures SortedDesc(book.asks) && SortedDesc(book.bids)
    ensures forall i, j :: 0 <= i < |book.asks| && 0 <= j < |book.bids| ==>
              book.asks[i].price >= book.bids[j].price
  {
    var base := Text.BasePrice(symbol);
    var asks := BuildSide(Ask, base, askDraws);
    var bids := BuildSide(Bid, base, bidDraws);
    asks := SortDesc(asks);
    bids := SortDesc(bids);
    book := Book(asks, bids);
    SortDescSorted(Ladder(Ask, base, askDraws));
    SortDescSorted(Ladder(Bid, base, bidDraws));
    AsksAboveBids(base, askDraws, bidDraws);
  }

  // ---------------------------------------------------------------------
  // Properties of the generated levels
  // ---------------------------------------------------------------------

  /** Every amount is a 3-decimal value in [0, 2]. */
  lemma LevelAmountRange(d: LevelDraw)
    requires 0.0 <= d.amount < 1.0
    ensures 0.0 <= LevelAmount(d) <= 2.0
    ensures IsDecimal(LevelAmount(d), 3)
  {
    RoundToMonotone(d.amount * 2.0, 2.0, 3);
    RoundToInteger(2, 3);
  }

  /** For a BTC pair the first ask, before any step, shows 30030.00 and the first bid 29970.00. */
  lemma FirstLevelsAtBtc(askDraws: seq<LevelDraw>, bidDraws: seq<LevelDraw>)
    requires askDraws != [] && bidDraws != []
    ensures Ladder(Ask, 30000.0, askDraws)[0].price == 30030.0
    ensures Ladder(Bid, 30000.0, bidDraws)[0].price == 29970.0
  {
    assert RawPrice(Ask, 30000.0, askDraws, 0) == 30030.0;
    assert RawPrice(Bid, 30000.0, bidDraws, 0) == 29970.0;
    RoundToInteger(30030, 2);
    RoundToInteger(29970, 2);
  }

  /** Asks move up and bids move down by at least 0.01% per level. */
  lemma {:induction false} RawPriceStep(side: Side, base: real, ds: seq<LevelDraw>, i: nat)
    requires base > 0.0 && ValidDraws(ds) && i < |ds|
    ensures RawPrice(side, base, ds, i) > 0.0
    ensures side == Ask ==> RawPrice(side, base, ds, i + 1) >= RawPrice(side, base, ds, i) * 1.0001
    ensures side == Bid ==> 0.0 < RawPrice(side, base, ds, i + 1) <= RawPrice(side, base, ds, i) * 0.9999
  {
    if i > 0 {
      RawPriceStep(side, base, ds, i - 1);
    }
    var p := RawPrice(side, base, ds, i);
    assert RawPrice(side, base, ds, i + 1) == NextPrice(side, p, ds[i]);
    StepBounds(side, p, ds[i]);
  }

  /** One step moves a positive price up (asks) or down (bids) by 0.01% to 0.06%. */
  lemma StepBounds(side: Side, p: real, d: LevelDraw)
    requires p > 0.0 && 0.0 <= d.drift < 1.0
    ensures side == Ask ==> NextPrice(side, p, d) >= p * 1.0001
    ensures side == Bid ==> 0.0 < NextPrice(side, p, d) <= p * 0.9999
  {
    RateBounds(p, StepRate(d));
  }

  lemma RateBounds(p: real, r: real)
    requires p > 0.0 && 0.0001 <= r < 0.0006
    ensures p + p * r >= p * 1.0001
    ensures 0.0 < p - p * r <= p * 0.9999
  {
    assert p * r - p * 0.0001 == p * (r - 0.0001);
    assert p * 0.0006 - p * r == p * (0.0006 - r);
  }

  /** Before rounding, ask prices strictly increase and bid prices strictly decrease. */
  lemma {:induction false} RawPriceMonotone(side: Side, base: real, ds: seq<LevelDraw>, i: nat, j: nat)
    requires base > 0.0 && ValidDraws(ds) && i < j <= |ds|
    ensures side == Ask ==> RawPrice(side, base, ds, i) < RawPrice(side, base, ds, j)
    ensures side == Bid ==> RawPrice(side, base, ds, i) > RawPrice(side, base, ds, j)
  {
    RawPriceStep(side, base, ds, j - 1);
    if i < j - 1 {
      RawPriceMonotone(side, base, ds, i, j - 1);
    }
  }

  /** Asks never go below their start and bids never rise above theirs. */
  lemma RawPriceFromStart(side: Side, base: real, ds: seq<LevelDraw>, i: nat)
    requires base > 0.0 && ValidDraws(ds) && i <= |ds|
    ensures side == Ask ==> RawPrice(side, base, ds, i) >= base * 1.001
    ensures side == Bid ==> RawPrice(side, base, ds, i) <= base * 0.999
  {
    if i > 0 {
      RawPriceMonotone(side, base, ds, 0, i);
    }
  }

  lemma {:induction false} CumulativeMonotone(ds: seq<LevelDraw>, i: nat, j: nat)
    requires ValidDraws(ds) && i <= j <= |ds|
    ensures 0.0 <= Cumulative(ds, i) <= Cumulative(ds, j)
  {
    if i < j {
      CumulativeMonotone(ds, i, j - 1);
      LevelAmountRange(ds[j - 1]);
    } else if i > 0 {
      CumulativeMonotone(ds, 0, i);
    }
  }

  function Amounts(levels: seq<OrderItem>): (r: seq<real>)
    ensures |r| == |levels|
  {
    seq(|levels|, k requires 0 <= k < |levels| => levels[k].amount)
  }

  lemma {:induction false} CumulativeIsSum(side: Side, base: real, ds: seq<LevelDraw>, i: nat)
    requires i <= |ds|
    ensures Cumulative(ds, i) == Sum(Amounts(Ladder(side, base, ds)[..i]))
  {
    if i > 0 {
      CumulativeIsSum(side, base, ds, i - 1);
      var l := Ladder(side, base, ds);
      assert Amounts(l[..i]) == Amounts(l[..i - 1]) + [l[i - 1].amount];
      SumAppend(Amounts(l[..i - 1]), l[i - 1].amount);
    }
  }

  /**
   * Each level's total is the running sum of the amounts so far (rounded to
   * 3 places), so totals never decrease from the best price outward.
   */
  lemma LadderTotals(side: Side, base: real, ds: seq<LevelDraw>, i: nat, j: nat)
    requires ValidDraws(ds) && i <= j < |ds|
    ensures Ladder(side, base, ds)[j].total == RoundTo(Sum(Amounts(Ladder(side, base, ds)[..j + 1])), 3)
    ensures 0.0 <= Ladder(side, base, ds)[i].total <= Ladder(side, base, ds)[j].total
  {
    CumulativeIsSum(side, base, ds, j + 1);
    CumulativeMonotone(ds, i + 1, j + 1);
    RoundToMonotone(Cumulative(ds, i + 1), Cumulative(ds, j + 1), 3);
  }

  /** Every generated ask price is at least every generated bid price, rounding included. */
  lemma AsksAboveBids(base: real, askDraws: seq<LevelDraw>, bidDraws: seq<LevelDraw>)
    requires base > 0.0 && ValidDraws(askDraws) && ValidDraws(bidDraws)
    ensures forall a, b :: (a in Snapshot(base, askDraws, bidDraws).asks &&
              b in Snapshot(base, askDraws, bidDraws).bids) ==> a.price >= b.price
  {
    var asks, bids := Ladder(Ask, base, askDraws), Ladder(Bid, base, bidDraws);
    var lo, hi := RoundTo(base * 1.001, 2), RoundTo(base * 0.999, 2);
    RoundToMonotone(base * 0.999, base * 1.001, 2);
    forall a | a in asks ensures a.price >= lo {
      var i :| 0 <= i < |asks| && asks[i] == a;
      RawPriceFromStart(Ask, base, askDraws, i);
      RoundToMonotone(base * 1.001, RawPrice(Ask, base, askDraws, i), 2);
    }
    forall b | b in bids ensures b.price <= hi {
      var j :| 0 <= j < |bids| && bids[j] == b;
      RawPriceFromStart(Bid, base, bidDraws, j);
      RoundToMonotone(RawPrice(Bid, base, bidDraws, j), base * 0.999, 2);
    }
    forall a | a in SortDesc(asks) ensures a in asks {
      assert a in multiset(SortDesc(asks));
    }
    forall b | b in SortDesc(bids) ensures b in bids {
      assert b in multiset(SortDesc(bids));
    }
  }

  /** Rounded prices keep the generation order: asks never fall, bids never rise. */
  lemma LadderPricesOrdered(side: Side, base: real, ds: seq<LevelDraw>, i: nat, j: nat)
    requires base > 0.0 && ValidDraws(ds) && i <= j < |ds|
    ensures side == Ask ==> Ladder(side, base, ds)[i].price <= Ladder(side, base, ds)[j].price
    ensures side == Bid ==> Ladder(side, base, ds)[i].price >= Ladder(side, base, ds)[j].price
  {
    if i < j {
      RawPriceMonotone(side, base, ds, i, j);
      if side == Ask {
        RoundToMonotone(RawPrice(side, base, ds, i), RawPrice(side, base, ds, j), 2);
      } else {
        RoundToMonotone(RawPrice(side, base, ds, j), RawPrice(side, base, ds, i), 2);
      }
    }
  }

  /** The stable sort leaves the bid side in generation order. */
  lemma BidsKeepGenerationOrder(base: real, ds: seq<LevelDraw>)
    requires base > 0.0 && ValidDraws(ds)
    ensures SortDesc(Ladder(Bid, base, ds)) == Ladder(Bid, base, ds)
  {
    var l := Ladder(Bid, base, ds);
    forall i, j | 0 <= i < j < |l| ensures l[i].price >= l[j].price {
      LadderPricesOrdered(Bid, base, ds, i, j);
    }
    SortDescOfSorted(l);
  }

  /**
   * On the bid side, read top to bottom (best price first), totals never
   * decrease.
   */
  lemma BidTotalsGrowDownward(base: real, bidDraws: seq<LevelDraw>, askDraws: seq<LevelDraw>, i: nat, j: nat)
    requires base > 0.0 && ValidDraws(bidDraws) && i <= j < |bidDraws|
    ensures Snapshot(base, askDraws, bidDraws).bids[i].total <= Snapshot(base, askDraws, bidDraws).bids[j].total
  {
    BidsKeepGenerationOrder(base, bidDraws);
    LadderTotals(Bid, base, bidDraws, i, j);
  }

  /**
   * From a base price of 2000 up, one price step (at least 0.01% of at
   * least 2002) is far larger than a cent, so rounded ask prices still
   * strictly increase.
   */
  lemma AskPricesStrictAtLargeBase(base: real, ds: seq<LevelDraw>)
    requires base >= 2000.0 && ValidDraws(ds)
    ensures StrictlyAscending(Ladder(Ask, base, ds))
  {
    var l := Ladder(Ask, base, ds);
    HalfUnitTwo();
    forall i | 0 <= i < |l| - 1 ensures l[i].price < l[i + 1].price {
      RawPriceStep(Ask, base, ds, i);
      RawPriceFromStart(Ask, base, ds, i);
      var p, q := RawPrice(Ask, base, ds, i), RawPrice(Ask, base, ds, i + 1);
      assert q - p >= p * 0.0001 >= 0.2;
    }
  }

  /**
   * At a base price of 2000 or more the sort simply reverses the asks, so
   * ask totals, read top to bottom, never increase.
   */
  lemma AskTotalsShrinkDownwardAtLargeBase(base: real, askDraws: seq<LevelDraw>, bidDraws: seq<LevelDraw>, i: nat, j: nat)
    requires base >= 2000.0 && ValidDraws(askDraws) && i <= j < |askDraws|
    ensures Snapshot(base, askDraws, bidDraws).asks[i].total >= Snapshot(base, askDraws, bidDraws).asks[j].total
  {
    var l := Ladder(Ask, base, askDraws);
    AskPricesStrictAtLargeBase(base, askDraws);
    SortDescOfAscending(l);
    LadderTotals(Ask, base, askDraws, |l| - 1 - j, |l| - 1 - i);
  }

  // ---------------------------------------------------------------------
  // Derived view values
  // ---------------------------------------------------------------------

  function Totals(levels: seq<OrderItem>): (r: seq<real>)
    ensures |r| == |levels|
  {
    seq(|levels|, k requires 0 <= k < |levels| => levels[k].total)
  }

  /**
   * `Math.max(...[...asks, ...bids].map(o => o.total))`; `None` stands for
   * the `-Infinity` of an empty book.
   */
  function MaxTotal(book: Book): (r: Option<real>)
    ensures r.None? <==> book.asks == [] && book.bids == []
    ensures r.Some? ==> r.value in Totals(book.asks + book.bids)
    ensures r.Some? ==> forall x :: x in book.asks + book.bids ==> x.total <= r.value
  {
    var all := Totals(book.asks + book.bids);
    if all == [] then None
    else
      var m := MaxOf(all);
      assert forall x :: x in book.asks + book.bids ==> x.total in all by {
        forall x | x in book.asks + book.bids ensures x.total in all {
          var k :| 0 <= k < |book.asks + book.bids| && (book.asks + book.bids)[k] == x;
          assert all[k] == x.total;
        }
      }
      Some(m)
  }

  /** Width of a depth bar, in percent: `total / maxTotal * 100`. */
  function BarWidth(total: real, maxTotal: real): (r: real)
    requires maxTotal > 0.0
    ensures 0.0 <= total <= maxTotal ==> 0.0 <= r <= 100.0
    ensures total == maxTotal ==> r == 100.0
  {
    total / maxTotal * 100.0
  }

  /** Every level of a generated book has a total in [0, maxTotal]. */
  lemma GeneratedTotalsWithinMax(base: real, askDraws: seq<LevelDraw>, bidDraws: seq<LevelDraw>)
    requires base > 0.0 && ValidDraws(askDraws) && ValidDraws(bidDraws)
    requires |askDraws| == LevelCount && |bidDraws| == LevelCount
    ensures var book := Snapshot(base, askDraws, bidDraws);
      MaxTotal(book).Some? &&
      forall x :: x in book.asks + book.bids ==> 0.0 <= x.total <= MaxTotal(book).value
  {
    var book := Snapshot(base, askDraws, bidDraws);
    forall x | x in book.asks + book.bids ensures 0.0 <= x.total {
      if x in book.asks {
        assert x in multiset(book.asks);
        var l := Ladder(Ask, base, askDraws);
        var i :| 0 <= i < |l| && l[i] == x;
        LadderTotals(Ask, base, askDraws, i, i);
      } else {
        assert x in multiset(book.bids);
        var l := Ladder(Bid, base, bidDraws);
        var i :| 0 <= i < |l| && l[i] == x;
        LadderTotals(Bid, base, bidDraws, i, i);
      }
    }
  }

  /** The displayed spread: from `asks[0]` and `bids[0]`, "0.00" when a side is empty. */
  function DisplayedSpread(book: Book): (r: real)
    ensures (book.asks == [] || book.bids == []) ==> r == 0.0
    ensures book.asks != [] && book.bids != [] ==>
              IsDecimal(r, 2) &&
              book.asks[0].price - book.bids[0].price - HalfUnit(2) <= r <= book.asks[0].price - book.bids[0].price + HalfUnit(2)
    ensures book.asks != [] && book.bids != [] && book.asks[0].price >= book.bids[0].price ==> r >= 0.0
  {
    if book.asks != [] && book.bids != [] then RoundTo(book.asks[0].price - book.bids[0].price, 2)
    else 0.0
  }

  /** The displayed spread percentage: spread over `asks[0].price`, times 100. */
  function SpreadPercent(book: Book): (r: real)
    requires book.asks != [] && book.bids != [] ==> book.asks[0].price != 0.0
    ensures (book.asks == [] || book.bids == []) ==> r == 0.0
    ensures book.asks != [] && book.bids != [] ==>
              var a, b := book.asks[0].price, book.bids[0].price;
              IsDecimal(r, 2) && (a - b) / a * 100.0 - HalfUnit(2) <= r <= (a - b) / a * 100.0 + HalfUnit(2)
    ensures book.asks != [] && book.bids != [] && book.asks[0].price >= book.bids[0].price >= 0.0 ==> r >= 0.0
  {
    if book.asks != [] && book.bids != [] then
      var a, b := book.asks[0].price, book.bids[0].price;
      assert a >= b >= 0.0 ==> (a - b) / a >= 0.0;
      RoundTo((a - b) / a * 100.0, 2)
    else 0.0
  }

  /** Ask prices of a generated book are at least 1 whenever the base price is. */
  lemma GeneratedAsksAtLeastOne(base: real, askDraws: seq<LevelDraw>, bidDraws: seq<LevelDraw>)
    requires base >= 1.0 && ValidDraws(askDraws)
    ensures forall a :: a in Snapshot(base, askDraws, bidDraws).asks ==> a.price >= 1.0
  {
    var l := Ladder(Ask, base, askDraws);
    forall a | a in SortDesc(l) ensures a.price >= 1.0 {
      assert a in multiset(SortDesc(l));
      var i :| 0 <= i < |l| && l[i] == a;
      RawPriceFromStart(Ask, base, askDraws, i);
      RoundToMonotone(1.0, RawPrice(Ask, base, askDraws, i), 2);
      RoundToInteger(1, 2);
    }
  }

  /** Bid prices of a generated book are never negative. */
  lemma GeneratedBidsNonNegative(base: real, askDraws: seq<LevelDraw>, bidDraws: seq<LevelDraw>)
    requires base > 0.0 && ValidDraws(bidDraws)
    ensures forall b :: b in Snapshot(base, askDraws, bidDraws).bids ==> b.price >= 0.0
  {
    var l := Ladder(Bid, base, bidDraws);
    forall b | b in SortDesc(l) ensures b.price >= 0.0 {
      assert b in multiset(SortDesc(l));
      var j :| 0 <= j < |l| && l[j] == b;
      RawPriceStep(Bid, base, bidDraws, j);
    }
  }

  /** For a generated book the displayed spread and its percentage are never negative. */
  lemma GeneratedSpreadNonNegative(base: real, askDraws: seq<LevelDraw>, bidDraws: seq<LevelDraw>)
    requires base >= 1.0 && ValidDraws(askDraws) && ValidDraws(bidDraws)
    requires |askDraws| == LevelCount && |bidDraws| == LevelCount
    ensures DisplayedSpread(Snapshot(base, askDraws, bidDraws)) >= 0.0
    ensures Snapshot(base, askDraws, bidDraws).asks[0].price >= 1.0 &&
            SpreadPercent(Snapshot(base, askDraws, bidDraws)) >= 0.0
  {
    var book := Snapshot(base, askDraws, bidDraws);
    AsksAboveBids(base, askDraws, bidDraws);
    GeneratedAsksAtLeastOne(base, askDraws, bidDraws);
    GeneratedBidsNonNegative(base, askDraws, bidDraws);
    var a, b := book.asks[0], book.bids[0];
    assert a in book.asks && b in book.bids;
    assert a.price >= b.price >= 0.0 && a.price >= 1.0;
  }

  // ---------------------------------------------------------------------
  // A base price of 1: every price shows as 1.00
  // ---------------------------------------------------------------------

  /** Fifteen draws with the smallest price step and an amount of 1.000. */
  function FlatDraws(): (ds: seq<LevelDraw>)
    ensures |ds| == LevelCount && ValidDraws(ds)
  {
    seq(LevelCount, _ => LevelDraw(0.5, 0.0))
  }

  lemma {:induction false} FlatPricesNearOne(side: Side, i: nat)
    requires i <= LevelCount
    ensures side == Ask ==> 1.001 <= RawPrice(side, 1.0, FlatDraws(), i) <= 1.001 + 0.0002 * i as real
    ensures side == Bid ==> 0.999 - 0.0002 * i as real <= RawPrice(side, 1.0, FlatDraws(), i) <= 0.999
  {
    if i > 0 {
      FlatPricesNearOne(side, i - 1);
      var p := RawPrice(side, 1.0, FlatDraws(), i - 1);
      assert StepRate(FlatDraws()[i - 1]) == 0.0001;
    }
  }

  /** With flat draws at base 1 every level, on both sides, shows the price 1.00. */
  lemma FlatLaddersAtOne(side: Side)
    ensures forall k :: 0 <= k < LevelCount ==> Ladder(side, 1.0, FlatDraws())[k].price == 1.0
    ensures SortDesc(Ladder(side, 1.0, FlatDraws())) == Ladder(side, 1.0, FlatDraws())
  {
    var l := Ladder(side, 1.0, FlatDraws());
    forall k | 0 <= k < LevelCount ensures l[k].price == 1.0 {
      FlatPricesNearOne(side, k);
      RoundToOneAtTwoPlaces(RawPrice(side, 1.0, FlatDraws(), k));
    }
    SortDescOfSorted(l);
  }

  /** At base price 1 the displayed spread can be 0 (for instance for "SOLUSDT"). */
  lemma SpreadCanBeZeroAtBaseOne()
    ensures DisplayedSpread(Snapshot(1.0, FlatDraws(), FlatDraws())) == 0.0
  {
    FlatLaddersAtOne(Ask);
    FlatLaddersAtOne(Bid);
    RoundToInteger(0, 2);
  }

  // ---------------------------------------------------------------------
  // Findings
  // ---------------------------------------------------------------------

  /** The spread row as evidently intended: best (lowest) ask minus best (highest) bid. */
  function BestSpread(book: Book): (r: real)
    ensures (book.asks == [] || book.bids == []) ==> r == 0.0
  {
    if book.asks != [] && book.bids != [] then RoundTo(book.asks[|book.asks| - 1].price - book.bids[0].price, 2)
    else 0.0
  }

  /**
   * On any book whose sides are sorted highest first and do not cross, the
   * corrected spread is never negative, is the smallest gap between an ask
   * and a bid, and never exceeds the displayed one.
   */
  lemma BestSpreadOfOrderedBook(book: Book)
    requires book.asks != [] && book.bids != []
    requires SortedDesc(book.asks) && SortedDesc(book.bids)
    requires book.asks[|book.asks| - 1].price >= book.bids[0].price
    ensures BestSpread(book) >= 0.0
    ensures BestSpread(book) <= DisplayedSpread(book)
    ensures forall i, j :: 0 <= i < |book.asks| && 0 <= j < |book.bids| ==>
              BestSpread(book) <= RoundTo(book.asks[i].price - book.bids[j].price, 2)
  {
    var lo, b := book.asks[|book.asks| - 1].price, book.bids[0].price;
    RoundToMonotone(0.0, lo - b, 2);
    RoundToInteger(0, 2);
    forall i, j | 0 <= i < |book.asks| && 0 <= j < |book.bids|
      ensures RoundTo(lo - b, 2) <= RoundTo(book.asks[i].price - book.bids[j].price, 2)
    {
      RoundToMonotone(lo - b, book.asks[i].price - book.bids[j].price, 2);
    }
  }

  /** For every generated book the corrected spread has those properties. */
  lemma GeneratedBestSpread(base: real, askDraws: seq<LevelDraw>, bidDraws: seq<LevelDraw>)
    requires base > 0.0 && ValidDraws(askDraws) && ValidDraws(bidDraws)
    requires |askDraws| == LevelCount && |bidDraws| == LevelCount
    ensures BestSpread(Snapshot(base, askDraws, bidDraws)) >= 0.0
    ensures BestSpread(Snapshot(base, askDraws, bidDraws)) <= DisplayedSpread(Snapshot(base, askDraws, bidDraws))
  {
    var book := Snapshot(base, askDraws, bidDraws);
    SortDescSorted(Ladder(Ask, base, askDraws));
    SortDescSorted(Ladder(Bid, base, bidDraws));
    AsksAboveBids(base, askDraws, bidDraws);
    assert book.asks[|book.asks| - 1] in book.asks && book.bids[0] in book.bids;
    BestSpreadOfOrderedBook(book);
  }

  /** Every generated price is shown with two decimals. */
  lemma LadderOnCentGrid(side: Side, base: real, ds: seq<LevelDraw>)
    ensures forall x :: x in Ladder(side, base, ds) ==> IsDecimal(x.price, 2)
  {
    var l := Ladder(side, base, ds);
    forall x | x in l ensures IsDecimal(x.price, 2) {
      var i :| 0 <= i < |l| && l[i] == x;
      assert x.price == RoundTo(RawPrice(side, base, ds, i), 2);
    }
  }

  /**
   * When the prices are on the cent grid and the top ask is strictly above
   * the bottom ask, the displayed spread is strictly above the corrected one.
   */
  lemma DisplayedExceedsBest(book: Book)
    requires book.asks != [] && book.bids != []
    requires book.asks[0].price > book.asks[|book.asks| - 1].price
    requires IsDecimal(book.asks[0].price, 2) && IsDecimal(book.asks[|book.asks| - 1].price, 2)
    requires IsDecimal(book.bids[0].price, 2)
    ensures DisplayedSpread(book) > BestSpread(book)
  {
    var hi, lo, b := book.asks[0].price, book.asks[|book.asks| - 1].price, book.bids[0].price;
    DecimalDifference(hi, b, 2);
    DecimalDifference(lo, b, 2);
    RoundToDecimal(hi - b, 2);
    RoundToDecimal(lo - b, 2);
  }

  /**
   * As written, the spread row uses `asks[0]`, which after the descending
   * sort is the highest ask. From a base price of 2000 up it is strictly
   * larger than the gap between the best ask and the best bid.
   */
  lemma DisplayedSpreadOverstatesGap(base: real, askDraws: seq<LevelDraw>, bidDraws: seq<LevelDraw>)
    requires base >= 2000.0 && ValidDraws(askDraws) && ValidDraws(bidDraws)
    requires |askDraws| == LevelCount && |bidDraws| == LevelCount
    ensures DisplayedSpread(Snapshot(base, askDraws, bidDraws)) > BestSpread(Snapshot(base, askDraws, bidDraws))
  {
    var book := Snapshot(base, askDraws, bidDraws);
    var l := Ladder(Ask, base, askDraws);
    AskPricesStrictAtLargeBase(base, askDraws);
    SortDescOfAscending(l);
    assert book.asks == Reverse(l);
    assert book.asks[0] == l[LevelCount - 1] && book.asks[LevelCount - 1] == l[0];
    assert l[0].price < l[1].price;
    LadderPricesOrdered(Ask, base, askDraws, 1, LevelCount - 1);
    LadderOnCentGrid(Ask, base, askDraws);
    LadderOnCentGrid(Bid, base, bidDraws);
    var bl := Ladder(Bid, base, bidDraws);
    assert book.bids[0] in multiset(SortDesc(bl));
    DisplayedExceedsBest(book);
  }

  /**
   * As written, at base price 1 rounding gives every ask the price 1.00, the
   * stable sort then keeps generation order, and the ask totals read top to
   * bottom go up instead of down: the largest cumulative total is not at the
   * top of the ask ladder.
   */
  lemma AskTotalsRiseDownwardAtBaseOne()
    ensures Snapshot(1.0, FlatDraws(), FlatDraws()).asks[0].total == 1.0
    ensures Snapshot(1.0, FlatDraws(), FlatDraws()).asks[1].total == 2.0
  {
    FlatLaddersAtOne(Ask);
    var d := FlatDraws()[0];
    assert LevelAmount(d) == 1.0 by { RoundToInteger(1, 3); }
    assert Cumulative(FlatDraws(), 1) == 1.0;
    assert Cumulative(FlatDraws(), 2) == 2.0;
    RoundToInteger(1, 3);
    RoundToInteger(2, 3);
  }

  /**
   * The ask side as evidently intended: the generated ladder reversed, so the
   * highest ask comes first and, whatever the base, totals never increase
   * from top to bottom.
   */
  function CorrectedAsks(base: real, askDraws: seq<LevelDraw>): (r: seq<OrderItem>)
    requires base > 0.0 && ValidDraws(askDraws)
    ensures |r| == |askDraws|
    ensures SortedDesc(r)
    ensures forall i, j :: 0 <= i <= j < |r| ==> r[i].total >= r[j].total
  {
    var l := Ladder(Ask, base, askDraws);
    var r := Reverse(l);
    assert forall i, j :: 0 <= i <= j < |r| ==> r[i].price >= r[j].price && r[i].total >= r[j].total by {
      forall i, j | 0 <= i <= j < |r| ensures r[i].price >= r[j].price && r[i].total >= r[j].total {
        LadderPricesOrdered(Ask, base, askDraws, |l| - 1 - j, |l| - 1 - i);
        LadderTotals(Ask, base, askDraws, |l| - 1 - j, |l| - 1 - i);
      }
    }
    r
  }

  /** The corrected ask side holds the same levels as the sorted one. */
  lemma CorrectedAsksSameLevels(base: real, askDraws: seq<LevelDraw>)
    requires base > 0.0 && ValidDraws(askDraws)
    ensures multiset(CorrectedAsks(base, askDraws)) == multiset(Snapshot(base, askDraws, []).asks)
  {
    ReverseMultiset(Ladder(Ask, base, askDraws));
  }

  lemma {:induction false} ReverseMultiset(s: seq<OrderItem>)
    ensures multiset(Reverse(s)) == multiset(s)
  {
    if s != [] {
      ReverseMultiset(s[..|s| - 1]);
      assert s == s[..|s| - 1] + [s[|s| - 1]];
    }
  }
}
