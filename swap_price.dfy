/**
 * The swap-impact calculator: for each direction whose amount field is
 * filled in, quote the swap and report the pool price before and after it,
 * with the percentage change; the reports are concatenated token0 -> token1
 * first, and any failure replaces the whole result with a generic error.
 *
 * The network is abstracted as `observe(tokenIn, tokenOut, amountIn)`: the
 * pool's token0 address, both tokens' decimals and the pool price before and
 * after the quoted swap, or `None` when any of those calls throws.
 */
module SwapPrice {
  import opened Wrappers
  import opened PoolPrice

  datatype SwapQuote = SwapQuote(
    token0Address: string,
    decimalsIn: nat,
    decimalsOut: nat,
    sqrtBefore: SqrtPriceX96,
    sqrtAfter: SqrtPriceX96)

  /** One direction's report: prices are "1 tokenIn = price tokenOut". */
  datatype SwapReport = SwapReport(amountIn: string, priceBefore: real, priceAfter: real, percentChange: real)

  datatype SubmitResult = Reports(reports: seq<SwapReport>) | CalculationError

  /** The pool price as tokenOut base units per tokenIn base unit. */
  function RawOutPerIn(sqrtX96: SqrtPriceX96, token0IsInput: bool): (r: real)
    ensures r > 0.0
  {
    if token0IsInput then Ratio(sqrtX96) else 1.0 / Ratio(sqrtX96)
  }

  /** The call as written: `sqrtToPrice(sqrt, decimalsIn, decimalsOut, token0IsInput)`,
      which hands the decimals over in swap order, not pool order. */
  function PriceAsWritten(sqrtX96: SqrtPriceX96, decimalsIn: nat, decimalsOut: nat, token0IsInput: bool): (p: real)
    ensures p > 0.0
  {
    SqrtToPrice(sqrtX96, decimalsIn, decimalsOut, token0IsInput)
  }

  /** As written, a token1-input price is divided by `10^(decimalsIn - decimalsOut)`
      where converting base units to whole units multiplies by it. */
  lemma {:induction false} PriceAsWrittenScale(sqrtX96: SqrtPriceX96, decimalsIn: nat, decimalsOut: nat, token0IsInput: bool)
    ensures token0IsInput ==>
      PriceAsWritten(sqrtX96, decimalsIn, decimalsOut, token0IsInput) == RawOutPerIn(sqrtX96, true) * Pow10(decimalsIn - decimalsOut)
    ensures !token0IsInput ==>
      PriceAsWritten(sqrtX96, decimalsIn, decimalsOut, token0IsInput) == RawOutPerIn(sqrtX96, false) / Pow10(decimalsIn - decimalsOut)
  {
    var r, k := Ratio(sqrtX96), Pow10(decimalsIn - decimalsOut);
    assert 1.0 / (r * k) == (1.0 / r) / k;
  }

  /** A USDC(6)/WETH(18) pool at `sqrtPriceX96 = 2^96`, quoting WETH (token1) in:
      one whole WETH is worth 10^12 whole USDC, but the call as written reports 10^-12. */
  lemma PriceAsWrittenMismatch()
    ensures RawOutPerIn(Q96, false) * Pow10(18 - 6) == 1000000000000.0
    ensures PriceAsWritten(Q96, 18, 6, false) == 1.0 / 1000000000000.0
  {
    assert Ratio(Q96) == 1.0;
    assert Pow10(12) == 1000000000000.0;
  }

  /** The corrected call: decimals handed over in pool order, as the
      price-increase calculator does. */
  function PairPrice(sqrtX96: SqrtPriceX96, decimalsIn: nat, decimalsOut: nat, token0IsInput: bool): (p: real)
    ensures p > 0.0
  {
    if token0IsInput then SqrtToPrice(sqrtX96, decimalsIn, decimalsOut, true)
    else SqrtToPrice(sqrtX96, decimalsOut, decimalsIn, false)
  }

  /** The corrected price is the raw tokenOut-per-tokenIn price converted to
      whole units, `raw * 10^(decimalsIn - decimalsOut)`, in both directions. */
  lemma {:induction false} PairPriceConverts(sqrtX96: SqrtPriceX96, decimalsIn: nat, decimalsOut: nat, token0IsInput: bool)
    ensures token0IsInput ==>
      PairPrice(sqrtX96, decimalsIn, decimalsOut, token0IsInput) == RawOutPerIn(sqrtX96, true) * Pow10(decimalsIn - decimalsOut)
    ensures !token0IsInput ==>
      PairPrice(sqrtX96, decimalsIn, decimalsOut, token0IsInput) == RawOutPerIn(sqrtX96, false) * Pow10(decimalsIn - decimalsOut)
  {
    if !token0IsInput {
      var r, m, k := Ratio(sqrtX96), Pow10(decimalsIn - decimalsOut), Pow10(decimalsOut - decimalsIn);
      Pow10Negate(decimalsIn - decimalsOut);
      InverseScale(r, k, m);
    }
  }

  lemma InverseScale(r: real, k: real, m: real)
    requires r > 0.0 && m > 0.0 && k == 1.0 / m
    ensures 1.0 / (r * k) == (1.0 / r) * m
  {
    assert k * m == 1.0;
    assert (r * k) * ((1.0 / r) * m) == (r * (1.0 / r)) * (k * m);
  }

  /** `((priceAfter - priceBefore) / priceBefore) * 100`. */
  function PercentChange(priceBefore: real, priceAfter: real): (c: real)
    requires priceBefore != 0.0
  {
    (priceAfter - priceBefore) / priceBefore * 100.0
  }

  /** For a positive starting price, the change is zero exactly when the price
      stays put, positive exactly when it rises, negative exactly when it falls. */
  lemma PercentChangeSign(priceBefore: real, priceAfter: real)
    requires priceBefore > 0.0
    ensures PercentChange(priceBefore, priceAfter) == 0.0 <==> priceAfter == priceBefore
    ensures PercentChange(priceBefore, priceAfter) > 0.0 <==> priceAfter > priceBefore
    ensures PercentChange(priceBefore, priceAfter) < 0.0 <==> priceAfter < priceBefore
  {
    var d := priceAfter - priceBefore;
    assert PercentChange(priceBefore, priceAfter) == d * (100.0 / priceBefore);
  }

  /** Scaling both prices by the same factor leaves the change unchanged. */
  lemma PercentChangeScaleFree(priceBefore: real, priceAfter: real, k: real)
    requires priceBefore != 0.0 && k > 0.0
    ensures PercentChange(k * priceBefore, k * priceAfter) == PercentChange(priceBefore, priceAfter)
  {
    assert (k * priceAfter - k * priceBefore) / (k * priceBefore) == (priceAfter - priceBefore) / priceBefore;
  }

  /** The mis-scaled call as written still reports the right percentage change:
      the decimal factor is common to both prices. */
  lemma {:induction false} AsWrittenChangeUnaffected(sqrtBefore: SqrtPriceX96, sqrtAfter: SqrtPriceX96,
                                                     decimalsIn: nat, decimalsOut: nat, token0IsInput: bool)
    ensures PercentChange(PriceAsWritten(sqrtBefore, decimalsIn, decimalsOut, token0IsInput),
                          PriceAsWritten(sqrtAfter, decimalsIn, decimalsOut, token0IsInput))
         == PercentChange(PairPrice(sqrtBefore, decimalsIn, decimalsOut, token0IsInput),
                          PairPrice(sqrtAfter, decimalsIn, decimalsOut, token0IsInput))
  {
    if !token0IsInput {
      var k := Pow10(decimalsIn - decimalsOut);
      PriceAsWrittenScale(sqrtBefore, decimalsIn, decimalsOut, false);
      PriceAsWrittenScale(sqrtAfter, decimalsIn, decimalsOut, false);
      PairPriceConverts(sqrtBefore, decimalsIn, decimalsOut, false);
      PairPriceConverts(sqrtAfter, decimalsIn, decimalsOut, false);
      CommonFactorCancels(RawOutPerIn(sqrtBefore, false), RawOutPerIn(sqrtAfter, false), k,
        PriceAsWritten(sqrtBefore, decimalsIn, decimalsOut, false),
        PriceAsWritten(sqrtAfter, decimalsIn, decimalsOut, false),
        PairPrice(sqrtBefore, decimalsIn, decimalsOut, false),
        PairPrice(sqrtAfter, decimalsIn, decimalsOut, false));
    }
  }

  lemma CommonFactorCancels(b: real, a: real, k: real, wb: real, wa: real, pb: real, pa: real)
    requires b > 0.0 && k > 0.0
    requires wb == b / k && wa == a / k && pb == b * k && pa == a * k
    ensures PercentChange(wb, wa) == PercentChange(pb, pa)
  {
    PercentChangeScaleFree(b, a, 1.0 / k);
    PercentChangeScaleFree(b, a, k);
    assert wb == (1.0 / k) * b && wa == (1.0 / k) * a;
    assert pb == k * b && pa == k * a;
  }

  /** One direction's report as written: both prices from the same call with
      the decimals in swap order and the same direction flag, and the change. */
  function QuoteReport(amountIn: string, q: SwapQuote, token0IsInput: bool): (r: SwapReport)
    ensures r.amountIn == amountIn && r.priceBefore > 0.0 && r.priceAfter > 0.0
  {
    var priceBefore := PriceAsWritten(q.sqrtBefore, q.decimalsIn, q.decimalsOut, token0IsInput);
    var priceAfter := PriceAsWritten(q.sqrtAfter, q.decimalsIn, q.decimalsOut, token0IsInput);
    SwapReport(amountIn, priceBefore, priceAfter, PercentChange(priceBefore, priceAfter))
  }

  /**
   * What a report as written holds: for token0 input, the tokenIn price in
   * whole tokenOut units; for token1 input, the raw price divided (not
   * multiplied) by `10^(decimalsIn - decimalsOut)`. Either way the change is
   * positive exactly when the price rose and zero exactly when it did not move.
   */
  lemma {:induction false} QuoteReportPrices(amountIn: string, q: SwapQuote, token0IsInput: bool)
    ensures var r := QuoteReport(amountIn, q, token0IsInput);
      var k := Pow10(q.decimalsIn - q.decimalsOut);
      && (token0IsInput ==>
            r.priceBefore == RawOutPerIn(q.sqrtBefore, true) * k && r.priceAfter == RawOutPerIn(q.sqrtAfter, true) * k)
      && (!token0IsInput ==>
            r.priceBefore == RawOutPerIn(q.sqrtBefore, false) / k && r.priceAfter == RawOutPerIn(q.sqrtAfter, false) / k)
      && (r.percentChange > 0.0 <==> r.priceAfter > r.priceBefore)
      && (r.percentChange == 0.0 <==> r.priceAfter == r.priceBefore)
  {
    var r := QuoteReport(amountIn, q, token0IsInput);
    PriceAsWrittenScale(q.sqrtBefore, q.decimalsIn, q.decimalsOut, token0IsInput);
    PriceAsWrittenScale(q.sqrtAfter, q.decimalsIn, q.decimalsOut, token0IsInput);
    PercentChangeSign(r.priceBefore, r.priceAfter);
  }

  /** The corrected report: the same, with the decimals in pool order. */
  function CorrectedQuoteReport(amountIn: string, q: SwapQuote, token0IsInput: bool): (r: SwapReport)
    ensures r.amountIn == amountIn && r.priceBefore > 0.0 && r.priceAfter > 0.0
  {
    var priceBefore := PairPrice(q.sqrtBefore, q.decimalsIn, q.decimalsOut, token0IsInput);
    var priceAfter := PairPrice(q.sqrtAfter, q.decimalsIn, q.decimalsOut, token0IsInput);
    SwapReport(amountIn, priceBefore, priceAfter, PercentChange(priceBefore, priceAfter))
  }

  /** With the correction, both prices are the tokenIn price in whole tokenOut
      units in both directions, and the change keeps its meaning. */
  lemma {:induction false} CorrectedQuoteReportPrices(amountIn: string, q: SwapQuote, token0IsInput: bool)
    ensures var r := CorrectedQuoteReport(amountIn, q, token0IsInput);
      var k := Pow10(q.decimalsIn - q.decimalsOut);
      && (token0IsInput ==>
            r.priceBefore == RawOutPerIn(q.sqrtBefore, true) * k && r.priceAfter == RawOutPerIn(q.sqrtAfter, true) * k)
      && (!token0IsInput ==>
            r.priceBefore == RawOutPerIn(q.sqrtBefore, false) * k && r.priceAfter == RawOutPerIn(q.sqrtAfter, false) * k)
      && (r.percentChange > 0.0 <==> r.priceAfter > r.priceBefore)
      && (r.percentChange == 0.0 <==> r.priceAfter == r.priceBefore)
  {
    var r := CorrectedQuoteReport(amountIn, q, token0IsInput);
    PairPriceConverts(q.sqrtBefore, q.decimalsIn, q.decimalsOut, token0IsInput);
    PairPriceConverts(q.sqrtAfter, q.decimalsIn, q.decimalsOut, token0IsInput);
    PercentChangeSign(r.priceBefore, r.priceAfter);
  }

  /** The report as written and the corrected one agree on the change, and
      entirely for token0 input. */
  lemma {:induction false} CorrectionKeepsChange(amountIn: string, q: SwapQuote, token0IsInput: bool)
    ensures QuoteReport(amountIn, q, token0IsInput).percentChange == CorrectedQuoteReport(amountIn, q, token0IsInput).percentChange
    ensures token0IsInput ==> QuoteReport(amountIn, q, token0IsInput) == CorrectedQuoteReport(amountIn, q, token0IsInput)
  {
    AsWrittenChangeUnaffected(q.sqrtBefore, q.sqrtAfter, q.decimalsIn, q.decimalsOut, token0IsInput);
  }

  /** Selling tokenIn moves a Uniswap pool's square-root price down when tokenIn
      is token0 and up when it is token1; either way the change reported as
      written is not positive. */
  lemma {:induction false} SellingNeverRaisesPrice(amountIn: string, q: SwapQuote, token0IsInput: bool)
    requires if token0IsInput then q.sqrtAfter <= q.sqrtBefore else q.sqrtBefore <= q.sqrtAfter
    ensures QuoteReport(amountIn, q, token0IsInput).percentChange <= 0.0
  {
    var r := QuoteReport(amountIn, q, token0IsInput);
    if q.sqrtBefore != q.sqrtAfter {
      if token0IsInput {
        SqrtToPriceMonotone(q.sqrtAfter, q.sqrtBefore, q.decimalsIn, q.decimalsOut);
      } else {
        SqrtToPriceMonotone(q.sqrtBefore, q.sqrtAfter, q.decimalsIn, q.decimalsOut);
      }
    }
    PercentChangeSign(r.priceBefore, r.priceAfter);
  }

  /**
   * `simulateSwap`: read the pool and quote the swap, locate token0
   * case-insensitively, and report the prices as written.
   */
  function SimulateSwap(tokenIn: string, tokenOut: string, amountIn: string,
                        observe: (string, string, string) -> Option<SwapQuote>): (r: Option<SwapReport>)
    ensures r.Some? <==> observe(tokenIn, tokenOut, amountIn).Some?
    ensures r.Some? ==> r.value.amountIn == amountIn && r.value.priceBefore > 0.0 && r.value.priceAfter > 0.0
  {
    match observe(tokenIn, tokenOut, amountIn)
    case None => None
    case Some(q) => Some(QuoteReport(amountIn, q, SameAddress(tokenIn, q.token0Address)))
  }

  /** `simulateSwap` with the decimals handed over in pool order. */
  function SimulateSwapCorrected(tokenIn: string, tokenOut: string, amountIn: string,
                                 observe: (string, string, string) -> Option<SwapQuote>): (r: Option<SwapReport>)
    ensures r.Some? <==> observe(tokenIn, tokenOut, amountIn).Some?
    ensures r.Some? ==> r.value.amountIn == amountIn && r.value.priceBefore > 0.0 && r.value.priceAfter > 0.0
  {
    match observe(tokenIn, tokenOut, amountIn)
    case None => None
    case Some(q) => Some(CorrectedQuoteReport(amountIn, q, SameAddress(tokenIn, q.token0Address)))
  }

  /**
   * A direction's report as written, in the terms of the pool: both prices
   * from the one quote with the same case-insensitive direction flag, scaled
   * as `QuoteReportPrices` says, and a change whose sign is the price's move;
   * it differs from the corrected report at most in the prices of a token1
   * input, never in the change.
   */
  lemma {:induction false} SimulateSwapPrices(tokenIn: string, tokenOut: string, amountIn: string,
                                              observe: (string, string, string) -> Option<SwapQuote>, q: SwapQuote)
    requires observe(tokenIn, tokenOut, amountIn) == Some(q)
    ensures var token0IsInput := SameAddress(tokenIn, q.token0Address);
      var r := SimulateSwap(tokenIn, tokenOut, amountIn, observe).value;
      var c := SimulateSwapCorrected(tokenIn, tokenOut, amountIn, observe).value;
      var k := Pow10(q.decimalsIn - q.decimalsOut);
      && (token0IsInput ==>
            r.priceBefore == RawOutPerIn(q.sqrtBefore, true) * k && r.priceAfter == RawOutPerIn(q.sqrtAfter, true) * k)
      && (!token0IsInput ==>
            r.priceBefore == RawOutPerIn(q.sqrtBefore, false) / k && r.priceAfter == RawOutPerIn(q.sqrtAfter, false) / k)
      && (r.percentChange > 0.0 <==> r.priceAfter > r.priceBefore)
      && (r.percentChange == 0.0 <==> r.priceAfter == r.priceBefore)
      && r.percentChange == c.percentChange
      && (token0IsInput ==> r == c)
  {
    var token0IsInput := SameAddress(tokenIn, q.token0Address);
    assert SimulateSwap(tokenIn, tokenOut, amountIn, observe).value == QuoteReport(amountIn, q, token0IsInput);
    assert SimulateSwapCorrected(tokenIn, tokenOut, amountIn, observe).value == CorrectedQuoteReport(amountIn, q, token0IsInput);
    QuoteReportPrices(amountIn, q, token0IsInput);
    CorrectionKeepsChange(amountIn, q, token0IsInput);
  }

  /** The corrected report holds the tokenIn price in whole tokenOut units in
      both directions. */
  lemma {:induction false} SimulateSwapCorrectedPrices(tokenIn: string, tokenOut: string, amountIn: string,
                                                       observe: (string, string, string) -> Option<SwapQuote>, q: SwapQuote)
    requires observe(tokenIn, tokenOut, amountIn) == Some(q)
    ensures var token0IsInput := SameAddress(tokenIn, q.token0Address);
      var r := SimulateSwapCorrected(tokenIn, tokenOut, amountIn, observe).value;
      var k := Pow10(q.decimalsIn - q.decimalsOut);
      && (token0IsInput ==>
            r.priceBefore == RawOutPerIn(q.sqrtBefore, true) * k && r.priceAfter == RawOutPerIn(q.sqrtAfter, true) * k)
      && (!token0IsInput ==>
            r.priceBefore == RawOutPerIn(q.sqrtBefore, false) * k && r.priceAfter == RawOutPerIn(q.sqrtAfter, false) * k)
      && (r.percentChange > 0.0 <==> r.priceAfter > r.priceBefore)
  {
    var token0IsInput := SameAddress(tokenIn, q.token0Address);
    assert SimulateSwapCorrected(tokenIn, tokenOut, amountIn, observe).value == CorrectedQuoteReport(amountIn, q, token0IsInput);
    CorrectedQuoteReportPrices(amountIn, q, token0IsInput);
  }

  /**
   * `handleSubmit`: simulate only the directions whose amount is non-empty,
   * token0 -> token1 first; any failure discards the partial output.
   */
  method HandleSubmit(token0: string, token1: string, amount0: string, amount1: string,
                      observe: (string, string, string) -> Option<SwapQuote>) returns (result: SubmitResult)
    ensures amount0 == "" && amount1 == "" ==> result == Reports([])
    ensures result.Reports? <==>
      (amount0 != "" ==> SimulateSwap(token0, token1, amount0, observe).Some?) &&
      (amount1 != "" ==> SimulateSwap(token1, token0, amount1, observe).Some?)
    ensures result.Reports? ==>
      && |result.reports| == (if amount0 != "" then 1 else 0) + (if amount1 != "" then 1 else 0)
      && (amount0 != "" ==> result.reports[0] == SimulateSwap(token0, token1, amount0, observe).value)
      && (amount1 != "" ==> result.reports[|result.reports| - 1] == SimulateSwap(token1, token0, amount1, observe).value)
  {
    var output: seq<SwapReport> := [];
    if amount0 != "" {
      var report := SimulateSwap(token0, token1, amount0, observe);
      if report.None? {
        return CalculationError;
      }
      output := output + [report.value];
    }
    if amount1 != "" {
      var report := SimulateSwap(token1, token0, amount1, observe);
      if report.None? {
        return CalculationError;
      }
      output := output + [report.value];
    }
    result := Reports(output);
  }
}
