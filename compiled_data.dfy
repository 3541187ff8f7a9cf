/**
 * ScalpingData's account figures: cash buying power, the "true buying power" allocation
 * (2% of cash plus the value of the holdings at their ask prices) and the compiled record
 * of holdings, allocation and bid/ask prices for one coin.
 */
module CompiledData {
  import opened Wrappers
  import opened Venue

  /** The share of the portfolio one trade may use. */
  const AllocationShare: real := 0.02
  const QuoteSuffix: string := "-USD"

  datatype CompileError =
    | MissingAssetCode             // KeyError on a holding's "asset_code"
    | MissingQuantity              // KeyError on a holding's "total_quantity"
    | MissingAsk(symbol: string)   // KeyError on "ask_inclusive_of_buy_spread"
    | MissingBid(symbol: string)   // KeyError on "bid_inclusive_of_sell_spread"
    | HoldingsNotIterable          // iterating a None holdings response

  /** `__get_buying_power`: 0.0 when the account figure is unavailable. */
  function BuyingPower(account: Option<real>): (r: real)
    ensures account.None? ==> r == 0.0
    ensures account.Some? ==> r == account.value
  {
    account.GetOr(0.0)
  }

  function PairSymbol(assetCode: string): string {
    assetCode + QuoteSuffix
  }

  /**
   * What one holding adds to the portfolio value: quantity times the ask of the first quote
   * entry for its pair, and nothing for a non-positive quantity, a quote without entries or
   * no entry for the pair. Its two keys are read first, "asset_code" before "total_quantity".
   */
  function Contribution(h: Holding, quoteOf: string -> Option<Quote>): Result<real, CompileError> {
    if h.assetCode.None? then Failure(MissingAssetCode)
    else if h.quantity.None? then Failure(MissingQuantity)
    else if h.quantity.value <= 0.0 then Success(0.0)
    else
      var pair := PairSymbol(h.assetCode.value);
      var q := quoteOf(pair);
      if !HasEntries(q) then Success(0.0)
      else
        match FirstFor(q.value.results.value, pair)
        case None => Success(0.0)
        case Some(e) =>
          if e.ask.None? then Failure(MissingAsk(pair))
          else Success(h.quantity.value * e.ask.value)
  }

  /** Adds a contribution to a running total; an earlier error wins. */
  function Combine(total: Result<real, CompileError>, c: Result<real, CompileError>): Result<real, CompileError> {
    match total
    case Failure(err) => Failure(err)
    case Success(v) =>
      match c
      case Failure(err) => Failure(err)
      case Success(x) => Success(v + x)
  }

  /** The holdings value summed in list order; the first failing holding's error ends it. */
  function HoldingsValue(hs: seq<Holding>, quoteOf: string -> Option<Quote>): Result<real, CompileError>
    decreases |hs|
  {
    if hs == [] then Success(0.0)
    else Combine(HoldingsValue(hs[..|hs| - 1], quoteOf), Contribution(hs[|hs| - 1], quoteOf))
  }

  /** A dictionary response contributes its "results" (none when absent); None cannot be iterated. */
  function HoldingsListOf(holdings: Holdings): Result<seq<Holding>, CompileError> {
    match holdings
    case HoldingsDict(results) => Success(results.GetOr([]))
    case HoldingsList(items) => Success(items)
    case NoHoldings => Failure(HoldingsNotIterable)
  }

  function Allocation(holdingsValue: real, cash: real): real {
    AllocationShare * (holdingsValue + cash)
  }

  /** `__true_buying_power`. */
  function TrueBuyingPowerOf(holdings: Holdings, account: Option<real>, quoteOf: string -> Option<Quote>): Result<real, CompileError> {
    match HoldingsListOf(holdings)
    case Failure(err) => Failure(err)
    case Success(hs) =>
      match HoldingsValue(hs, quoteOf)
      case Failure(err) => Failure(err)
      case Success(v) => Success(Allocation(v, BuyingPower(account)))
  }

  /** The "price_data" entry: never set, set to None, or the first matching entry's bid and ask. */
  datatype PriceData = Unset | NullPriceData | Prices(bid: real, ask: real)

  function PriceDataOf(coin: string, q: Option<Quote>): (r: Result<PriceData, CompileError>)
    ensures r.Failure? ==> r.error == MissingBid(coin) || r.error == MissingAsk(coin)
    ensures r.Failure? || r.value.Prices? ==> HasEntries(q) && FirstFor(q.value.results.value, coin).Some?
  {
    if !HasEntries(q) then Success(NullPriceData)
    else
      match FirstFor(q.value.results.value, coin)
      case None => Success(Unset)
      case Some(e) =>
        if e.bid.None? then Failure(MissingBid(coin))
        else if e.ask.None? then Failure(MissingAsk(coin))
        else Success(Prices(e.bid.value, e.ask.value))
  }

  datatype Compiled = Compiled(symbol: string, holdings: Holdings, buyingPower: real, priceData: PriceData)

  /** `compile_data(coin)`: the allocation is computed before the prices, so its error comes first. */
  function CompiledOf(coin: string, holdings: Holdings, account: Option<real>, quoteOf: string -> Option<Quote>): Result<Compiled, CompileError> {
    match TrueBuyingPowerOf(holdings, account, quoteOf)
    case Failure(err) => Failure(err)
    case Success(power) =>
      match PriceDataOf(coin, quoteOf(coin))
      case Failure(err) => Failure(err)
      case Success(p) => Success(Compiled(coin, holdings, power, p))
  }

  // ---- Methods ----

  /** The loop of `__true_buying_power` over the holdings. */
  method TrueBuyingPower(holdings: Holdings, account: Option<real>, quoteOf: string -> Option<Quote>) returns (r: Result<real, CompileError>)
    ensures r == TrueBuyingPowerOf(holdings, account, quoteOf)
  {
    var cash := BuyingPower(account);
    var list := HoldingsListOf(holdings);
    if list.Failure? {
      return Failure(list.error);
    }
    var hs := list.value;
    var total := 0.0;
    var i := 0;
    while i < |hs|
      invariant 0 <= i <= |hs|
      invariant HoldingsValue(hs[..i], quoteOf).Success? && HoldingsValue(hs[..i], quoteOf).value == total
    {
      HoldingsValueStep(hs, i, quoteOf);
      var c := HoldingContribution(hs[i], quoteOf);
      if c.Failure? {
        ValueOfFailingPrefix(hs, i + 1, quoteOf);
        return Failure(c.error);
      }
      total := total + c.value;
      i := i + 1;
    }
    assert hs[..i] == hs;
    r := Success(Allocation(total, cash));
  }

  /** The body of `__true_buying_power`'s loop for one holding: what it adds, or its KeyError. */
  method HoldingContribution(h: Holding, quoteOf: string -> Option<Quote>) returns (c: Result<real, CompileError>)
    ensures c == Contribution(h, quoteOf)
  {
    if h.assetCode.None? {
      return Failure(MissingAssetCode);
    }
    if h.quantity.None? {
      return Failure(MissingQuantity);
    }
    var quantity := h.quantity.value;
    c := Success(0.0);
    if quantity > 0.0 {
      var pair := PairSymbol(h.assetCode.value);
      var q := quoteOf(pair);
      if HasEntries(q) {
        var info := FirstFor(q.value.results.value, pair);
        if info.Some? {
          if info.value.ask.None? {
            return Failure(MissingAsk(pair));
          }
          c := Success(quantity * info.value.ask.value);
          assert Contribution(h, quoteOf).value == quantity * info.value.ask.value;
        }
      }
    }
    assert Contribution(h, quoteOf).Success?;
  }

  /** `compile_data(coin)`. */
  method CompileData(coin: string, holdings: Holdings, account: Option<real>, quoteOf: string -> Option<Quote>) returns (r: Result<Compiled, CompileError>)
    ensures r == CompiledOf(coin, holdings, account, quoteOf)
  {
    var power := TrueBuyingPower(holdings, account, quoteOf);
    if power.Failure? {
      return Failure(power.error);
    }
    var p := PriceDataOf(coin, quoteOf(coin));
    if p.Failure? {
      return Failure(p.error);
    }
    r := Success(Compiled(coin, holdings, power.value, p.value));
  }

  // ---- Properties ----

  /** The value of one more holding of the list. */
  lemma HoldingsValueStep(hs: seq<Holding>, i: nat, quoteOf: string -> Option<Quote>)
    requires i < |hs|
    ensures HoldingsValue(hs[..i + 1], quoteOf) == Combine(HoldingsValue(hs[..i], quoteOf), Contribution(hs[i], quoteOf))
  {
    assert hs[..i + 1][..i] == hs[..i];
  }

  /** A failure in a prefix is the failure of the whole list. */
  lemma {:induction false} ValueOfFailingPrefix(hs: seq<Holding>, k: nat, quoteOf: string -> Option<Quote>)
    requires k <= |hs|
    requires HoldingsValue(hs[..k], quoteOf).Failure?
    ensures HoldingsValue(hs, quoteOf) == HoldingsValue(hs[..k], quoteOf)
    decreases |hs| - k
  {
    if k < |hs| {
      assert hs[..k + 1][..k] == hs[..k];
      ValueOfFailingPrefix(hs, k + 1, quoteOf);
    } else {
      assert hs[..k] == hs;
    }
  }

  /** A holding that contributes nothing can be removed without changing the value or the error. */
  lemma {:induction false} ZeroContributionIgnored(pre: seq<Holding>, h: Holding, post: seq<Holding>, quoteOf: string -> Option<Quote>)
    requires Contribution(h, quoteOf) == Success(0.0)
    ensures HoldingsValue(pre + [h] + post, quoteOf) == HoldingsValue(pre + post, quoteOf)
    decreases |post|
  {
    if post == [] {
      assert pre + [h] + post == pre + [h];
      assert (pre + [h])[..|pre + [h]| - 1] == pre;
      assert pre + post == pre;
    } else {
      var last := post[|post| - 1];
      var init := post[..|post| - 1];
      assert post == init + [last];
      ZeroContributionIgnored(pre, h, init, quoteOf);
      assert (pre + [h] + post)[..|pre + [h] + post| - 1] == pre + [h] + init;
      assert (pre + post)[..|pre + post| - 1] == pre + init;
      assert (pre + [h] + post)[|pre + [h] + post| - 1] == last;
      assert (pre + post)[|pre + post| - 1] == last;
    }
  }

  /**
   * After holdings that succeed, a holding without "asset_code" fails the sum with that KeyError,
   * and one with "asset_code" but no "total_quantity" with the other.
   */
  lemma MissingHoldingKeyFails(pre: seq<Holding>, h: Holding, post: seq<Holding>, quoteOf: string -> Option<Quote>)
    requires HoldingsValue(pre, quoteOf).Success?
    ensures h.assetCode.None? ==> HoldingsValue(pre + [h] + post, quoteOf) == Failure(MissingAssetCode)
    ensures h.assetCode.Some? && h.quantity.None? ==> HoldingsValue(pre + [h] + post, quoteOf) == Failure(MissingQuantity)
  {
    var hs := pre + [h] + post;
    assert hs[..|pre| + 1][..|pre|] == pre;
    assert hs[..|pre| + 1][|pre|] == h;
    if h.assetCode.None? || h.quantity.None? {
      ValueOfFailingPrefix(hs, |pre| + 1, quoteOf);
    }
  }

  /** A holding with a non-positive quantity is ignored. */
  lemma NonPositiveHoldingIgnored(pre: seq<Holding>, h: Holding, post: seq<Holding>, quoteOf: string -> Option<Quote>)
    requires h.assetCode.Some? && h.quantity.Some? && h.quantity.value <= 0.0
    ensures HoldingsValue(pre + [h] + post, quoteOf) == HoldingsValue(pre + post, quoteOf)
  {
    ZeroContributionIgnored(pre, h, post, quoteOf);
  }

  /** A holding whose pair has no quote entries, or none for the pair, is ignored. */
  lemma UnquotedHoldingIgnored(pre: seq<Holding>, h: Holding, post: seq<Holding>, quoteOf: string -> Option<Quote>)
    requires h.assetCode.Some? && h.quantity.Some?
    requires var q := quoteOf(PairSymbol(h.assetCode.value));
      !HasEntries(q) || forall i :: 0 <= i < |q.value.results.value| ==> q.value.results.value[i].symbol != PairSymbol(h.assetCode.value)
    ensures HoldingsValue(pre + [h] + post, quoteOf) == HoldingsValue(pre + post, quoteOf)
  {
    ZeroContributionIgnored(pre, h, post, quoteOf);
  }

  /** A quote whose every entry with an ask has a non-negative ask. */
  predicate NonNegativeAsks(q: Option<Quote>) {
    HasResults(q) ==> forall i :: 0 <= i < |q.value.results.value| && q.value.results.value[i].ask.Some? ==> q.value.results.value[i].ask.value >= 0.0
  }

  /** The quote for a holding's pair, where the holding names its asset, has non-negative asks. */
  predicate PairAsksNonNegative(h: Holding, quoteOf: string -> Option<Quote>) {
    h.assetCode.Some? ==> NonNegativeAsks(quoteOf(PairSymbol(h.assetCode.value)))
  }

  lemma ContributionNonNegative(h: Holding, quoteOf: string -> Option<Quote>)
    requires PairAsksNonNegative(h, quoteOf)
    ensures Contribution(h, quoteOf).Success? ==> Contribution(h, quoteOf).value >= 0.0
  {
    if h.assetCode.Some? && h.quantity.Some? && h.quantity.value > 0.0 && HasEntries(quoteOf(PairSymbol(h.assetCode.value))) {
      var q := quoteOf(PairSymbol(h.assetCode.value));
      var e := FirstFor(q.value.results.value, PairSymbol(h.assetCode.value));
      if e.Some? && e.value.ask.Some? {
        var k :| 0 <= k < |q.value.results.value| && q.value.results.value[k] == e.value;
        assert e.value.ask.value >= 0.0;
      }
    }
  }

  /** With non-negative asks the holdings are worth at least nothing. */
  lemma {:induction false} HoldingsValueNonNegative(hs: seq<Holding>, quoteOf: string -> Option<Quote>)
    requires forall i :: 0 <= i < |hs| ==> PairAsksNonNegative(hs[i], quoteOf)
    ensures HoldingsValue(hs, quoteOf).Success? ==> HoldingsValue(hs, quoteOf).value >= 0.0
    decreases |hs|
  {
    if hs != [] {
      var init := hs[..|hs| - 1];
      assert forall i :: 0 <= i < |init| ==> init[i] == hs[i];
      HoldingsValueNonNegative(init, quoteOf);
      ContributionNonNegative(hs[|hs| - 1], quoteOf);
    }
  }

  /** With non-negative asks the allocation is at least 2% of the cash buying power. */
  lemma AllocationAtLeastCashShare(holdings: Holdings, account: Option<real>, quoteOf: string -> Option<Quote>)
    requires HoldingsListOf(holdings).Success?
    requires var hs := HoldingsListOf(holdings).value;
      forall i :: 0 <= i < |hs| ==> PairAsksNonNegative(hs[i], quoteOf)
    ensures TrueBuyingPowerOf(holdings, account, quoteOf).Success? ==>
      TrueBuyingPowerOf(holdings, account, quoteOf).value >= AllocationShare * BuyingPower(account)
  {
    HoldingsValueNonNegative(HoldingsListOf(holdings).value, quoteOf);
  }

  /** A single priced holding is worth its quantity at the ask; with no holdings only cash counts. */
  lemma SingleHoldingValue(h: Holding, e: QuoteEntry, account: Option<real>, quoteOf: string -> Option<Quote>)
    requires h.assetCode.Some? && h.quantity.Some? && h.quantity.value > 0.0
    requires e.symbol == PairSymbol(h.assetCode.value) && e.ask.Some?
    requires quoteOf(PairSymbol(h.assetCode.value)) == Some(Quote(Some([e])))
    ensures TrueBuyingPowerOf(HoldingsList([h]), account, quoteOf).Success?
    ensures TrueBuyingPowerOf(HoldingsList([h]), account, quoteOf).value == AllocationShare * (h.quantity.value * e.ask.value + BuyingPower(account))
  {
    assert [h][..0] == [];
    assert FirstFor([e], PairSymbol(h.assetCode.value)) == Some(e);
    assert Contribution(h, quoteOf).Success? && Contribution(h, quoteOf).value == h.quantity.value * e.ask.value;
    assert [h][|[h]| - 1] == h;
    assert HoldingsValue([h][..0], quoteOf).Success? && HoldingsValue([h][..0], quoteOf).value == 0.0;
    assert HoldingsValue([h], quoteOf).Success? && HoldingsValue([h], quoteOf).value == 0.0 + h.quantity.value * e.ask.value;
  }

  /** A dictionary's "results" and the bare list give the same allocation; a dictionary without them counts cash only. */
  lemma DictAndListAgree(hs: seq<Holding>, account: Option<real>, quoteOf: string -> Option<Quote>)
    ensures TrueBuyingPowerOf(HoldingsDict(Some(hs)), account, quoteOf) == TrueBuyingPowerOf(HoldingsList(hs), account, quoteOf)
    ensures TrueBuyingPowerOf(HoldingsDict(None), account, quoteOf).Success?
    ensures TrueBuyingPowerOf(HoldingsDict(None), account, quoteOf).value == AllocationShare * BuyingPower(account)
  {
  }

  /** Without an account figure the cash is 0.0 and the allocation is 2% of the holdings alone. */
  lemma MissingAccountMeansNoCash(holdings: Holdings, quoteOf: string -> Option<Quote>)
    ensures BuyingPower(None) == 0.0
    ensures TrueBuyingPowerOf(holdings, None, quoteOf).Success? ==>
      TrueBuyingPowerOf(holdings, None, quoteOf).value == AllocationShare * HoldingsValue(HoldingsListOf(holdings).value, quoteOf).value
  {
  }

  /** The price entry in each of its outcomes, and the allocation's error overriding a price error. */
  lemma PriceDataOutcomes(coin: string, q: Option<Quote>)
    ensures PriceDataOf(coin, q) == Success(NullPriceData) <==> !HasEntries(q)
    ensures PriceDataOf(coin, q) == Success(Unset) <==>
      HasEntries(q) && forall i :: 0 <= i < |q.value.results.value| ==> q.value.results.value[i].symbol != coin
    ensures PriceDataOf(coin, q) == Failure(MissingBid(coin)) <==>
      HasEntries(q) && FirstFor(q.value.results.value, coin).Some? && FirstFor(q.value.results.value, coin).value.bid.None?
    ensures PriceDataOf(coin, q).Success? && PriceDataOf(coin, q).value.Prices? ==>
      exists k :: 0 <= k < |q.value.results.value| && q.value.results.value[k].symbol == coin &&
        q.value.results.value[k].bid == Some(PriceDataOf(coin, q).value.bid) &&
        q.value.results.value[k].ask == Some(PriceDataOf(coin, q).value.ask) &&
        (forall i :: 0 <= i < k ==> q.value.results.value[i].symbol != coin)
  {
    if HasEntries(q) {
      var e := FirstFor(q.value.results.value, coin);
      if e.Some? {
        var k :| 0 <= k < |q.value.results.value| && q.value.results.value[k] == e.value && forall i :: 0 <= i < k ==> q.value.results.value[i].symbol != coin;
      }
    }
  }

  /** Holdings that cannot be iterated fail the whole compilation, whatever the prices. */
  lemma NoHoldingsFails(coin: string, account: Option<real>, quoteOf: string -> Option<Quote>)
    ensures CompiledOf(coin, NoHoldings, account, quoteOf) == Failure(HoldingsNotIterable)
  {
  }
}
