# Uniswap V3 price calculators, modelled in Dafny

This project models the two calculators of a React front end for Uniswap V3
pools.

The **price-increase calculator** (`src/components/PriceIncreaseCalculator.jsx`) works in three stages:
- It estimates the current price of token0 in token1 from two one-unit quotes. It averages the forward price with the inverse of the reverse price.
- It rejects a desired price that is not a number or is not above that estimate.
- It bisects over the amount of token1 to swap into the pool, within [1, 1e9]. The search stops when the simulated post-swap price is within 0.1% of the target, when `min` is no longer below `max`, or after 30 iterations. A failed quote counts as "too large". The answer is the amount of the hit that stopped the search; failing that, the last amount whose price stayed below the target; failing that, the final upper bound.
- The simulated price is the quoted post-swap price of token0 in token1, inverted once more whenever the user's token0 string differs from the pool's token0 string (see Findings).

The **swap-price calculator** (`src/components/SwapPriceCalculator.jsx`) takes an amount for each direction of a pair. For each amount that is filled in, it quotes the swap and reports the pool price before and after, with the percentage change. The reports are concatenated, token0 → token1 first, and any failure replaces the whole output with a generic error.

Both convert a pool's `sqrtPriceX96` (a Q64.96 square root of the raw price) into a human price:
- square it and divide by 2^192;
- scale by `10^(decimals0 - decimals1)`;
- invert when token0 is not the input token.

Modules:

- `Wrappers` (`wrappers.dfy`): `Option`.
- `PoolPrice` (`pool_price.dfy`): the shared arithmetic. It holds `sqrtToPrice` over exact reals, powers of ten with negative exponents, and the case-insensitive address comparison (`toLowerCase() === toLowerCase()`).
- `PriceIncrease` (`price_increase.dfy`):
  - the probes, current price, target check, and the simulated price as written (`SimulatedPriceAsWritten`) and corrected (`SimulatedPrice`);
  - the search, as a spec function `Run` built from one loop pass `Pass` and as the loop method `Search` proved equal to it;
  - the calculation for any oracle (`Estimate`); the calculation as written, which searches on `SimulatedPriceAsWritten`, as the function `PriceIncrease` and the method `CalculatePriceIncrease`; and the corrected calculation `PriceIncreaseCorrected`, which searches on `SimulatedPrice`.
- `SwapPrice` (`swap_price.dfy`): one direction's report as written (`QuoteReport`, `SimulateSwap`), the corrected report (`CorrectedQuoteReport`, `SimulateSwapCorrected`), and the submit handler (`HandleSubmit`, a method that builds the output step by step from `SimulateSwap`).

Network calls are parameters:
- The factory, pool, token and quoter results of the price-increase calculator arrive in a `PoolSnapshot`. The quoter used by the search is a function `real -> Option<SqrtPriceX96>`, where `None` means the call threw.
- The swap calculator's calls are one function `observe(tokenIn, tokenOut, amountIn) -> Option<SwapQuote>`.

Prices are exact `real`s.

## Model

| member | source | states |
|---|---|---|
| PoolPrice.SqrtToPrice | src/components/PriceIncreaseCalculator.jsx:34-41 | the converted price is strictly positive for every positive `sqrtPriceX96`, whatever the decimals and direction |
| PoolPrice.DirectionIsReciprocal | src/components/PriceIncreaseCalculator.jsx:34-41 | the token1-input price is exactly `1 /` the token0-input price, and their product is 1 |
| PoolPrice.EqualDecimalsNoScaling | src/components/PriceIncreaseCalculator.jsx:35-40 | with equal decimals the token0-input price is exactly `sqrtX96^2 / 2^192` |
| PoolPrice.DecimalStep | src/components/PriceIncreaseCalculator.jsx:37-39 | one more decimal on token0 multiplies the token0-input price by 10 and divides the token1-input price by 10 |
| PoolPrice.Pow10Negate | src/components/PriceIncreaseCalculator.jsx:37 | `10 ** -e` is `1 / 10 ** e`, so negative decimal differences scale down exactly |
| PoolPrice.SqrtToPriceMonotone | src/components/PriceIncreaseCalculator.jsx:34-41 | a larger `sqrtPriceX96` gives a strictly larger token0-input price and a strictly smaller token1-input price |
| PoolPrice.ScenarioPriceFour | src/components/PriceIncreaseCalculator.jsx:34-41 | at `sqrtPriceX96 = 2 * 2^96` with equal decimals the prices are 4 and 0.25 |
| PoolPrice.LowerCaseIdempotent | src/components/PriceIncreaseCalculator.jsx:65 | lower-casing twice is lower-casing once |
| PoolPrice.SameAddress | src/components/PriceIncreaseCalculator.jsx:65 | defines the address match used here and in `SwapPriceCalculator.jsx:38`: two addresses match exactly when their lower-case spellings are equal |
| PoolPrice.SameAddressIgnoresCase | src/components/SwapPriceCalculator.jsx:38 | an address matches its own lower-case spelling, and equal strings always match |
| PriceIncrease.PoolFound | src/components/PriceIncreaseCalculator.jsx:57 | defines the pool check: the factory's answer is neither empty nor the zero address |
| PriceIncrease.ProbePrice | src/components/PriceIncreaseCalculator.jsx:81-96 | a probe gives a price exactly when its quote succeeded; the price is `amountOut / 10^decimalsOut`, non-negative, and zero exactly when `amountOut` is zero |
| PriceIncrease.CurrentPrice | src/components/PriceIncreaseCalculator.jsx:110-114 | a current price exists exactly when both probes are truthy (not failed, not zero), and twice it is `price0to1 + 1 / price1to0` |
| PriceIncrease.CurrentPriceBetween | src/components/PriceIncreaseCalculator.jsx:114 | the average lies between the forward price and the inverted reverse price, and equals the forward price when the probes are exact reciprocals |
| PriceIncrease.TargetAccepted | src/components/PriceIncreaseCalculator.jsx:117 | defines the target check: the desired price is a number strictly above the current price |
| PriceIncrease.Token0Price | src/components/PriceIncreaseCalculator.jsx:138-143 | the converted post-swap price, with decimals in pool order and the case-insensitive direction flag, is strictly positive |
| PriceIncrease.SimulatedPriceAsWritten | src/components/PriceIncreaseCalculator.jsx:127-148 | `simulate` as written, second inversion included: a price exists exactly when the quote succeeds, and is then positive |
| PriceIncrease.SimulatedPriceAsWrittenOrientation | src/components/PriceIncreaseCalculator.jsx:138-144 | as written, the search sees the token0 price only when the user's token0 string equals the pool's token0 string exactly, and its reciprocal otherwise |
| PriceIncrease.SimulatedPriceAsWrittenMismatch | src/components/PriceIncreaseCalculator.jsx:138-144 | for a pair entered in the pool's reverse order, a swap that lifts token0 from 0.25 to 1 appears to the search as a fall from 4 to 1 |
| PriceIncrease.SimulatedPrice | src/components/PriceIncreaseCalculator.jsx:138-143 | corrected `simulate`, without the inversion at line 144: the token0 price exists exactly when the quote succeeds, and is then positive |
| PriceIncrease.SimulatedPriceRisesWithSwap | src/components/PriceIncreaseCalculator.jsx:127-143 | when the swap moves `sqrtPriceX96` the way token1 input drives it (up if token0 is the pool's token0, down otherwise), the simulated token0 price rises above the pre-swap one |
| PriceIncrease.SimulatedPriceIgnoresCase | src/components/PriceIncreaseCalculator.jsx:65 | the corrected simulated price is the same whether or not the user's token0 address is written in lower case |
| PriceIncrease.ErrorPercent | src/components/PriceIncreaseCalculator.jsx:168-169 | the relative error is non-negative and zero exactly when the price equals the target |
| PriceIncrease.WithinTolerance | src/components/PriceIncreaseCalculator.jsx:176 | `errorPercent < 0.1` holds exactly when the price is within a thousandth of the target |
| PriceIncrease.Pass | src/components/PriceIncreaseCalculator.jsx:155-187 | one loop pass tries the midpoint of `[min, max]`, adds one trace line recording what the quoter said, and updates the state. A failure sets `max = amount`. A hit sets `bestAmount` and stops without counting. Below target sets `bestAmount = amount` and `min = amount + 1`. Otherwise `max = amount - 1`. A non-converging pass adds exactly one iteration. |
| PriceIncrease.Run | src/components/PriceIncreaseCalculator.jsx:155-187 | the loop terminates with its guard false or after a hit. Iterations never exceed 30. `min` never decreases and `max` never increases. The trace only grows, one line per pass. |
| PriceIncrease.PassKeepsInv | src/components/PriceIncreaseCalculator.jsx:155-187 | one pass preserves the loop invariant. Bounds stay inside the initial ones, every amount tried lies strictly between them and its line reports the quote, only a final line can be a hit, and `bestAmount` is 0 or the largest below-target amount. |
| PriceIncrease.RunKeepsInv | src/components/PriceIncreaseCalculator.jsx:155-187 | the whole loop preserves that invariant |
| PriceIncrease.SearchBounds | src/components/PriceIncreaseCalculator.jsx:150-187 | a search quotes at most 30 amounts, each strictly inside the initial bounds |
| PriceIncrease.SearchAnswer | src/components/PriceIncreaseCalculator.jsx:176-189 | the final amount is the hit's amount after a hit. Otherwise it is the largest amount whose price stayed below the target. Otherwise it is the final `max`, at or below the upper bound and every amount tried. |
| PriceIncrease.SearchPass | src/components/PriceIncreaseCalculator.jsx:156-186 | the loop body run on the loop variables yields exactly the state `Pass` describes, with `converged` standing for the `break` |
| PriceIncrease.Search | src/components/PriceIncreaseCalculator.jsx:150-189 | the imperative loop computes exactly `Finish(Run(...))`, with at most 30 steps, all strictly inside the bounds |
| PriceIncrease.Finish | src/components/PriceIncreaseCalculator.jsx:189 | defines the answer: `bestAmount` when it is positive, otherwise the final `max`, with the trace of the search |
| PriceIncrease.DisplayedAmount | src/components/PriceIncreaseCalculator.jsx:189-192 | the shown amount is the ceiling: the least whole number not below the final amount, and at least 1 for a positive amount |
| PriceIncrease.Estimate | src/components/PriceIncreaseCalculator.jsx:56-189 | for any oracle, an estimate is only produced with `0 < currentPrice < desiredPrice` |
| PriceIncrease.PriceIncrease | src/components/PriceIncreaseCalculator.jsx:56-189 | the calculation as written, searching on the `simulate` of lines 127-148 with its second inversion; an estimate is only produced with `0 < currentPrice < desiredPrice` |
| PriceIncrease.PriceIncreaseCorrected | src/components/PriceIncreaseCalculator.jsx:56-143 | the corrected calculation, searching on the token0 price without the inversion at line 144; an estimate is only produced with `0 < currentPrice < desiredPrice` |
| PriceIncrease.CalculatePriceIncrease | src/components/PriceIncreaseCalculator.jsx:56-189 | the step-by-step calculation as written, with the search loop, yields exactly the outcome of `PriceIncrease` |
| PriceIncrease.ProbeFailureAborts | src/components/PriceIncreaseCalculator.jsx:110-113 | a failed or zero probe in either direction ends in `PriceUnavailable`, whatever the quoter would answer during a search |
| PriceIncrease.TargetValidation | src/components/PriceIncreaseCalculator.jsx:114-120 | with usable probes, a NaN target or one at or below the average ends in `InvalidTarget`; a target above it, and only such a target, starts the search, with the current price the exact average |
| PriceIncrease.AbortIgnoresQuoter | src/components/PriceIncreaseCalculator.jsx:57-120 | an aborted calculation has the same outcome for every quoter: no search quote influences it |
| PriceIncrease.EstimateTrace | src/components/PriceIncreaseCalculator.jsx:150-192 | for any oracle, a finished estimate has at most 30 steps, each strictly inside (1, 1e9) and each recording what the oracle said; the answer lies in (0, 1e9] and is shown as a whole number from 1 to 1e9 |
| PriceIncrease.EstimateBounds | src/components/PriceIncreaseCalculator.jsx:127-192 | the calculation as written has at most 30 steps, each strictly inside (1, 1e9). A line is a failure exactly when its quote failed, and a priced line carries the as-written `simulate` price, second inversion included. The answer lies in (0, 1e9] and is shown as a whole number from 1 to 1e9. |
| PriceIncrease.CorrectedEstimateBounds | src/components/PriceIncreaseCalculator.jsx:138-189 | the corrected calculation has the same bounds, and every priced line carries the token0 price at the quoted post-swap `sqrtPriceX96` |
| PriceIncrease.RunAgrees | src/components/PriceIncreaseCalculator.jsx:155-187 | the loop depends on the oracle only through its answers: two oracles that agree at every amount give the same search |
| PriceIncrease.CorrectionAgreesOnExactMatch | src/components/PriceIncreaseCalculator.jsx:144 | when the user's token0 string is exactly the pool's token0 string, the corrected calculation and the one as written give the same outcome |
| PriceIncrease.LinearScenario | src/components/PriceIncreaseCalculator.jsx:150-189 | for a pool whose price is `100 + amount / 10000`, the search for 150 converges on its 18th quote at an amount within [499000, 501000] |
| SwapPrice.PriceAsWritten | src/components/SwapPriceCalculator.jsx:77-88 | the call as written, decimals in swap order: the price is strictly positive |
| SwapPrice.PriceAsWrittenScale | src/components/SwapPriceCalculator.jsx:77-88 | as written, a token1-input price is the raw price divided by `10^(decimalsIn - decimalsOut)` instead of multiplied by it |
| SwapPrice.PriceAsWrittenMismatch | src/components/SwapPriceCalculator.jsx:77-88 | for a USDC(6)/WETH(18) pool at `sqrtPriceX96 = 2^96`, one WETH is worth 10^12 USDC while the call as written reports 10^-12 |
| SwapPrice.PairPriceConverts | src/components/SwapPriceCalculator.jsx:68-75 | with the decimals in pool order the price is the raw tokenOut-per-tokenIn price times `10^(decimalsIn - decimalsOut)` in both directions |
| SwapPrice.PercentChange | src/components/SwapPriceCalculator.jsx:90 | defines the change: the difference of the prices over the starting price, in percent |
| SwapPrice.PercentChangeSign | src/components/SwapPriceCalculator.jsx:90 | for a positive starting price the change is zero, positive or negative exactly when the price stayed, rose or fell |
| SwapPrice.PercentChangeScaleFree | src/components/SwapPriceCalculator.jsx:90 | scaling both prices by the same positive factor leaves the change unchanged |
| SwapPrice.AsWrittenChangeUnaffected | src/components/SwapPriceCalculator.jsx:77-90 | the mis-scaled prices as written still give the correct percentage change |
| SwapPrice.QuoteReport | src/components/SwapPriceCalculator.jsx:77-90 | one direction's report as written carries the amount entered and two positive prices |
| SwapPrice.QuoteReportPrices | src/components/SwapPriceCalculator.jsx:77-90 | as written, a token0 input gives the raw prices times `10^(decimalsIn - decimalsOut)` and a token1 input the raw prices divided by it; the change is positive or zero exactly when the price rose or stayed |
| SwapPrice.CorrectedQuoteReport | src/components/SwapPriceCalculator.jsx:68-90 | the corrected report, decimals in pool order, carries the amount entered and two positive prices |
| SwapPrice.CorrectedQuoteReportPrices | src/components/SwapPriceCalculator.jsx:68-90 | corrected, both prices are the tokenIn price in whole tokenOut units in both directions, and the change keeps its sign meaning |
| SwapPrice.CorrectionKeepsChange | src/components/SwapPriceCalculator.jsx:77-90 | the report as written and the corrected one have the same change, and are identical for token0 input |
| SwapPrice.SellingNeverRaisesPrice | src/components/SwapPriceCalculator.jsx:77-90 | when the pool price moves the way selling tokenIn drives it, the change reported as written is never positive |
| SwapPrice.SimulateSwap | src/components/SwapPriceCalculator.jsx:26-98 | `simulateSwap` as written: a report exists exactly when the pool read and the quote succeeded; it carries the amount entered and positive prices |
| SwapPrice.SimulateSwapCorrected | src/components/SwapPriceCalculator.jsx:26-98 | the corrected `simulateSwap`, decimals in pool order: a report exists exactly when the quote succeeded, with the amount entered and positive prices |
| SwapPrice.SimulateSwapPrices | src/components/SwapPriceCalculator.jsx:37-90 | as written, with the case-insensitive direction flag of line 38: token0 input gives the raw prices times `10^(decimalsIn - decimalsOut)`, token1 input the raw prices divided by it; the change's sign is the price's move; the change equals the corrected one, and the whole report does for token0 input |
| SwapPrice.SimulateSwapCorrectedPrices | src/components/SwapPriceCalculator.jsx:37-90 | corrected, both prices are the tokenIn price in whole tokenOut units in both directions, and the change is positive exactly when the price rose |
| SwapPrice.HandleSubmit | src/components/SwapPriceCalculator.jsx:100-124 | only non-empty amounts are simulated. Both empty gives an empty output. The output is a list of reports exactly when every simulated direction succeeds, one report per direction, token0 → token1 first. Any failure gives the generic error. |

## Left out

- Network calls: the factory, pool, ERC-20, quoter and `JsonRpcProvider`, and `parseUnits`/`formatUnits`. They are replaced by a `PoolSnapshot`, a quoter function and an `observe` function. An exception in any of them becomes `None`.
- Token names, `fee` and `network` only feed those calls and the message text, so they are not modelled.
- React state, the forms, `setLoading`/`setResult` and the tab switching in `src/App.jsx`. These are UI with no logic to verify.
- Message text and number formatting (`toFixed`, `toPrecision`, `toLocaleString`, `formatFullDecimal`). The trace and the errors are datatypes, and only the `Math.ceil` of the final amount is modelled.
- IEEE-754 doubles. Prices, amounts and the `Number(...)` conversions are exact reals, so rounding, overflow to `Infinity` and the `isFinite` test (which never fails on a real) are not modelled.
- A non-numeric target is `None` (NaN); `parseFloat`'s prefix parsing is not modelled.
- The generic catch of the price-increase calculator (`src/components/PriceIncreaseCalculator.jsx:194-196`): exceptions outside the quoter are outside the abstraction.
- `sqrtPriceX96` is taken to be positive (`SqrtPriceX96`), which Uniswap pools and the quoter guarantee. A zero value would give a division by zero in JavaScript.
- Pool state is fixed across the quotes of one calculation; staleness between calls is not modelled.
- `LowerCase` folds ASCII letters only, which is all a hex address contains.
- The swap calculator reports nothing when one direction fails, as the code does. A design that reports each direction independently is not what the code does.
- `PriceDecreaseCalculator` is imported by `src/App.jsx` but is not part of this model.

## Findings

| source | as written | input that shows it | evidently intended | confidence | as-written member | corrected member |
|---|---|---|---|---|---|---|
| src/components/SwapPriceCalculator.jsx:77-88 | `sqrtToPrice(sqrt, decimalsIn, decimalsOut, token0IsInput)` passes the decimals in swap order, but the function scales by `10^(decimals0 - decimals1)` in pool order | USDC(6)/WETH(18) pool, `sqrtPriceX96 = 2^96`, WETH in: reports 10^-12 USDC per WETH instead of 10^12 | pass the decimals in pool order, so that both directions give the tokenIn price in whole tokenOut units (the percentage change is the same either way) | not executed | SwapPrice.PriceAsWrittenMismatch | SwapPrice.SimulateSwapCorrectedPrices |
| src/components/PriceIncreaseCalculator.jsx:138-144 | after `sqrtToPrice(..., token0IsTokenA)` has already produced the price of the user's token0 in token1, `token0 === token0Address ? newPrice : 1 / newPrice` inverts it again whenever the strings differ: the pair entered in the pool's reverse order, or the same address in another case | pool token0 `0xB`, user pair (`0xA`, `0xB`), equal decimals, post-swap `sqrtPriceX96` from `2 * 2^96` to `2^96`: token0 rises from 0.25 to 1, the search sees 4 then 1 | compare the target with the token0 price, which rises as token1 is swapped in and does not depend on letter case | not executed | PriceIncrease.SimulatedPriceAsWrittenMismatch | PriceIncrease.CorrectedEstimateBounds |
