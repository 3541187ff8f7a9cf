/**
 * The gap-based scalping strategy: rolling means of the latest bids, a bucket for the gap
 * between the 1- and 3-point means, the already-holding gate, and a three-order bracket
 * (entry at the ask, a take-profit sell and a stop-loss sell) sized per bucket.
 */
module ScalpingStrategy {
  import opened Wrappers
  import opened Venue

  /** With fewer history rows than this, no average is computed. */
  const MinHistory: nat := 15

  function Sum(s: seq<real>): real
    decreases |s|
  {
    if s == [] then 0.0 else Sum(s[..|s| - 1]) + s[|s| - 1]
  }

  /** `rolling(window=k).mean()` read at the last row: the mean of the last `k` bids. */
  function TrailingMean(bids: seq<real>, k: nat): real
    requires 1 <= k <= |bids|
  {
    Sum(bids[|bids| - k..]) / (k as real)
  }

  datatype Averages = Averages(avg1: real, avg3: real, avg5: real, avg15: real)

  /**
   * `calculate_moving_averages` over the bid column, oldest row first. After `dropna`, the last
   * row is the newest one, so each average is the mean of the newest 1, 3, 5 and 15 bids.
   */
  function MovingAverages(bids: seq<real>): (r: Option<Averages>)
    ensures r.None? <==> |bids| < 15
  {
    if |bids| < MinHistory then None
    else Some(Averages(TrailingMean(bids, 1), TrailingMean(bids, 3), TrailingMean(bids, 5), TrailingMean(bids, 15)))
  }

  datatype Gaps = Gaps(oneThree: real, threeFive: real, fiveFifteen: real)

  /** The three gaps `execute_strategy` computes; only the first is ever used. */
  function GapsOf(a: Averages): Gaps {
    Gaps(a.avg1 - a.avg3, a.avg3 - a.avg5, a.avg5 - a.avg15)
  }

  datatype Category = Medium | Large | Extreme

  /**
   * `determine_gap_category`. The buckets are disjoint and cover every gap from 0.0001 up;
   * below it, negatives included, there is none.
   */
  function GapCategory(gap: real): (r: Option<Category>)
    ensures r == Some(Medium) <==> 0.0001 <= gap < 0.0003
    ensures r == Some(Large) <==> 0.0003 <= gap < 0.0005
    ensures r == Some(Extreme) <==> 0.0005 <= gap
    ensures r.None? <==> gap < 0.0001
  {
    if 0.0001 <= gap < 0.0003 then Some(Medium)
    else if 0.0003 <= gap < 0.0005 then Some(Large)
    else if gap >= 0.0005 then Some(Extreme)
    else None
  }

  function Rank(c: Category): nat {
    match c
    case Medium => 1
    case Large => 2
    case Extreme => 3
  }

  datatype TradeParameters = TradeParameters(profit: real, stopLoss: real)

  /** The per-bucket multipliers of the take-profit and stop-loss prices. */
  function ParametersFor(c: Category): (p: TradeParameters)
    ensures 1.0 < p.profit && 0.0 < p.stopLoss < 1.0
  {
    match c
    case Medium => TradeParameters(1.015, 0.9925)
    case Large => TradeParameters(1.03, 0.9875)
    case Extreme => TradeParameters(1.05, 0.98)
  }

  /**
   * `float(best_price_dict["results"][0]["ask_inclusive_of_buy_spread"])`: the FIRST entry's ask,
   * whatever its symbol; None where that lookup raises.
   */
  function FirstAsk(quote: Option<Quote>): Option<real> {
    if HasEntries(quote) then quote.value.results.value[0].ask else None
  }

  /** The three orders of a bracket, in the order they are placed. */
  function Bracket(coin: string, ask: real, quantity: real, c: Category): seq<OrderIntent> {
    var p := ParametersFor(c);
    [ OrderIntent(Buy, coin, ask, quantity, None),
      OrderIntent(Sell, coin, ask * p.profit, quantity, None),
      OrderIntent(Sell, coin, ask * p.stopLoss, quantity, Some(ask * p.stopLoss)) ]
  }

  /**
   * What `buy_strategy` submits. `quantity` is what the sizing collaborator returned (None: it
   * raised); an exception before the first order is caught, so then nothing is placed.
   */
  function BuyOrders(coin: string, quote: Option<Quote>, quantity: Option<real>, c: Category): (r: seq<OrderIntent>)
    ensures r != [] <==> quantity.Some? && quantity.value > 0.0 && FirstAsk(quote).Some?
    ensures r != [] ==> |r| == 3 && r[0] == OrderIntent(Buy, coin, FirstAsk(quote).value, quantity.value, None)
    ensures forall i :: 0 <= i < |r| ==> r[i].coin == coin && r[i].quantity == quantity.value
  {
    if quantity.None? || quantity.value <= 0.0 then []
    else match FirstAsk(quote)
      case None => []
      case Some(ask) => Bracket(coin, ask, quantity.value, c)
  }

  /**
   * What `execute_strategy` submits from given averages. `holds` is what `already_holds_coin`
   * returned (None: it raised, which the strategy catches), `quote` what `get_best_price` did.
   */
  function OrdersFor(coin: string, averages: Option<Averages>, quote: Option<Quote>, holds: Option<bool>, quantity: Option<real>): seq<OrderIntent> {
    match averages
    case None => []
    case Some(a) =>
      match GapCategory(GapsOf(a).oneThree)
      case None => []
      case Some(c) => if holds == Some(false) then BuyOrders(coin, quote, quantity, c) else []
  }

  /** What `execute_strategy` submits for a bid history, oldest first. */
  function StrategyOrders(coin: string, bids: seq<real>, quote: Option<Quote>, holds: Option<bool>, quantity: Option<real>): seq<OrderIntent> {
    OrdersFor(coin, MovingAverages(bids), quote, holds, quantity)
  }

  /** `buy_strategy`: place the entry, then the take-profit, then the stop-loss. */
  method BuyStrategy(desk: OrderDesk, coin: string, quote: Option<Quote>, quantity: Option<real>, c: Category)
    modifies desk
    ensures desk.placed == old(desk.placed) + BuyOrders(coin, quote, quantity, c)
  {
    var params := ParametersFor(c);
    if quantity.Some? && quantity.value > 0.0 {
      var ask := FirstAsk(quote);
      if ask.Some? {
        var adjustedAsk := ask.value;
        ghost var before := desk.placed;
        desk.PlaceOrder(Buy, coin, adjustedAsk, quantity.value, None);
        var profitTarget := adjustedAsk * params.profit;
        var stopLossPrice := adjustedAsk * params.stopLoss;
        desk.PlaceOrder(Sell, coin, profitTarget, quantity.value, None);
        desk.PlaceOrder(Sell, coin, stopLossPrice, quantity.value, Some(stopLossPrice));
        var q := quantity.value;
        assert desk.placed == before + [OrderIntent(Buy, coin, adjustedAsk, q, None)]
          + [OrderIntent(Sell, coin, profitTarget, q, None)] + [OrderIntent(Sell, coin, stopLossPrice, q, Some(stopLossPrice))];
        var b := Bracket(coin, adjustedAsk, q, c);
        assert |b| == 3 && b[0] == OrderIntent(Buy, coin, adjustedAsk, q, None);
        assert b[1] == OrderIntent(Sell, coin, profitTarget, q, None);
        assert b[2] == OrderIntent(Sell, coin, stopLossPrice, q, Some(stopLossPrice));
        assert b == [OrderIntent(Buy, coin, adjustedAsk, q, None),
          OrderIntent(Sell, coin, profitTarget, q, None), OrderIntent(Sell, coin, stopLossPrice, q, Some(stopLossPrice))];
      }
    }
  }

  /** `execute_strategy`: compute the averages, classify the short gap, gate, and buy. */
  method ExecuteStrategy(desk: OrderDesk, coin: string, bids: seq<real>, quote: Option<Quote>, holds: Option<bool>, quantity: Option<real>)
    modifies desk
    ensures desk.placed == old(desk.placed) + StrategyOrders(coin, bids, quote, holds, quantity)
  {
    var averages := MovingAverages(bids);
    if averages.None? {
      return;
    }
    var gaps := GapsOf(averages.value);
    var category := GapCategory(gaps.oneThree);
    if category.Some? {
      if holds == Some(false) {
        BuyStrategy(desk, coin, quote, quantity, category.value);
      }
    }
  }

  // ---- The averages ----

  /** The one-point average is the newest bid. */
  lemma ShortestAverageIsNewestBid(bids: seq<real>)
    requires |bids| >= MinHistory
    ensures MovingAverages(bids).value.avg1 == bids[|bids| - 1]
  {
    var w := bids[|bids| - 1..];
    assert w[..0] == [];
    assert Sum(w) == Sum(w[..0]) + w[0] == bids[|bids| - 1];
  }

  /** A sum of values within [lo, hi] lies within [|s| * lo, |s| * hi]. */
  lemma {:induction false} SumBounds(s: seq<real>, lo: real, hi: real)
    requires forall i :: 0 <= i < |s| ==> lo <= s[i] <= hi
    ensures (|s| as real) * lo <= Sum(s) <= (|s| as real) * hi
    decreases |s|
  {
    if s != [] {
      var init := s[..|s| - 1];
      assert forall i :: 0 <= i < |init| ==> init[i] == s[i];
      SumBounds(init, lo, hi);
      var n := |init| as real;
      assert (|s| as real) * lo == n * lo + lo;
      assert (|s| as real) * hi == n * hi + hi;
    }
  }

  /** Every average lies between the smallest and the largest bid of its window. */
  lemma AverageWithinWindow(bids: seq<real>, k: nat, lo: real, hi: real)
    requires 1 <= k <= |bids|
    requires forall i :: |bids| - k <= i < |bids| ==> lo <= bids[i] <= hi
    ensures lo <= TrailingMean(bids, k) <= hi
  {
    var w := bids[|bids| - k..];
    assert forall i :: 0 <= i < |w| ==> w[i] == bids[|bids| - k + i];
    SumBounds(w, lo, hi);
    var n := k as real;
    var m := Sum(w) / n;
    assert m * n == Sum(w);
    assert n * (m - lo) >= 0.0 && n * (hi - m) >= 0.0;
    if m < lo {
      assert n * (m - lo) < 0.0;
    }
    if hi < m {
      assert n * (hi - m) < 0.0;
    }
  }

  /** The deciding gap, in terms of the newest three bids. */
  lemma ShortGapFormula(bids: seq<real>)
    requires |bids| >= MinHistory
    ensures var n := |bids|;
      GapsOf(MovingAverages(bids).value).oneThree == (2.0 * bids[n - 1] - bids[n - 2] - bids[n - 3]) / 3.0
  {
    var n := |bids|;
    ShortestAverageIsNewestBid(bids);
    var w := bids[n - 3..];
    var w2 := w[..2];
    var w1 := w2[..1];
    assert w1[..0] == [];
    assert Sum(w1) == Sum(w1[..0]) + w1[0] == bids[n - 3];
    assert Sum(w2) == Sum(w1) + w2[1];
    assert Sum(w) == Sum(w2) + w[2];
    assert Sum(w) == bids[n - 3] + bids[n - 2] + bids[n - 1];
  }

  // ---- The gap buckets ----

  /** A larger gap never gives a lower bucket. */
  lemma GapCategoryMonotone(g1: real, g2: real)
    requires g1 <= g2 && GapCategory(g1).Some?
    ensures GapCategory(g2).Some? && Rank(GapCategory(g1).value) <= Rank(GapCategory(g2).value)
  {
  }

  // ---- What gets ordered ----

  lemma NoOrdersWithoutHistory(coin: string, bids: seq<real>, quote: Option<Quote>, holds: Option<bool>, quantity: Option<real>)
    requires |bids| < MinHistory
    ensures StrategyOrders(coin, bids, quote, holds, quantity) == []
  {
  }

  lemma NoOrdersWithoutSignal(coin: string, bids: seq<real>, quote: Option<Quote>, holds: Option<bool>, quantity: Option<real>)
    requires |bids| >= MinHistory
    requires GapsOf(MovingAverages(bids).value).oneThree < 0.0001
    ensures StrategyOrders(coin, bids, quote, holds, quantity) == []
  {
  }

  /** Holding the coin (or failing to find out) blocks the buy. */
  lemma NoOrdersUnlessNotHolding(coin: string, bids: seq<real>, quote: Option<Quote>, holds: Option<bool>, quantity: Option<real>)
    requires holds != Some(false)
    ensures StrategyOrders(coin, bids, quote, holds, quantity) == []
  {
  }

  lemma NoOrdersForNonPositiveQuantity(coin: string, bids: seq<real>, quote: Option<Quote>, holds: Option<bool>, q: real)
    requires q <= 0.0
    ensures StrategyOrders(coin, bids, quote, holds, Some(q)) == []
  {
  }

  /** Only the 1-3 gap decides: the other two gaps never change what is ordered. */
  lemma OnlyShortGapDecides(coin: string, a1: Averages, a2: Averages, quote: Option<Quote>, holds: Option<bool>, quantity: Option<real>)
    requires GapsOf(a1).oneThree == GapsOf(a2).oneThree
    ensures OrdersFor(coin, Some(a1), quote, holds, quantity) == OrdersFor(coin, Some(a2), quote, holds, quantity)
  {
  }

  /**
   * Orders are placed exactly when there is enough history, a bucket, no holding, a positive
   * quantity and a first ask; then they are the bracket, three orders of the same quantity.
   */
  lemma OrdersPlacedExactly(coin: string, bids: seq<real>, quote: Option<Quote>, holds: Option<bool>, quantity: Option<real>)
    ensures var orders := StrategyOrders(coin, bids, quote, holds, quantity);
      orders != [] <==>
        (|bids| >= MinHistory && GapCategory(GapsOf(MovingAverages(bids).value).oneThree).Some?
         && holds == Some(false) && quantity.Some? && quantity.value > 0.0 && FirstAsk(quote).Some?)
    ensures var orders := StrategyOrders(coin, bids, quote, holds, quantity);
      orders != [] ==>
        var c := GapCategory(GapsOf(MovingAverages(bids).value).oneThree).value;
        var ask := FirstAsk(quote).value;
        var q := quantity.value;
        && orders == [ OrderIntent(Buy, coin, ask, q, None),
                       OrderIntent(Sell, coin, ask * ParametersFor(c).profit, q, None),
                       OrderIntent(Sell, coin, ask * ParametersFor(c).stopLoss, q, Some(ask * ParametersFor(c).stopLoss)) ]
  {
  }

  /** For a positive ask, the stop price lies below the entry and the profit target above it. */
  lemma BracketPricesOrdered(coin: string, ask: real, quantity: real, c: Category)
    requires ask > 0.0
    ensures var b := Bracket(coin, ask, quantity, c);
      && b[2].price < b[0].price < b[1].price
      && b[2].stopPrice == Some(b[2].price)
      && b[0].quantity == b[1].quantity == b[2].quantity == quantity
      && b[0].side == Buy && b[1].side == Sell && b[2].side == Sell
  {
    var p := ParametersFor(c);
    assert ask * p.stopLoss < ask * 1.0;
    assert ask * 1.0 < ask * p.profit;
  }

  /** Three equal newest bids give a zero gap, hence no order. */
  lemma FlatMarketNoOrders(coin: string, bids: seq<real>, quote: Option<Quote>, holds: Option<bool>, quantity: Option<real>)
    requires |bids| >= MinHistory
    requires bids[|bids| - 1] == bids[|bids| - 2] == bids[|bids| - 3]
    ensures StrategyOrders(coin, bids, quote, holds, quantity) == []
  {
    ShortGapFormula(bids);
  }

  /** A newest bid at least 0.00015 above each of the two before it always falls in a bucket. */
  lemma RisingBidSignals(bids: seq<real>)
    requires |bids| >= MinHistory
    requires bids[|bids| - 1] - bids[|bids| - 2] >= 0.00015
    requires bids[|bids| - 1] - bids[|bids| - 3] >= 0.00015
    ensures GapCategory(GapsOf(MovingAverages(bids).value).oneThree).Some?
  {
    ShortGapFormula(bids);
  }
}
