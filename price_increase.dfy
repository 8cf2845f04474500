/**
 * The price-increase calculator: estimate the current price of token0 in
 * token1 from two one-unit probes, validate the desired price, then run a
 * bounded bisection over the amount of token1 to swap into the pool until the
 * simulated post-swap price is within 0.1% of the target.
 *
 * The network is abstracted: the pool lookup, token0 address, decimals and
 * probe quotes arrive in a `PoolSnapshot`, and the quoter used by the search
 * is a function from an amount of token1 to the quoted `sqrtPriceX96After`
 * (`None` when the call throws).
 */
module PriceIncrease {
  import opened Wrappers
  import opened PoolPrice

  /** The search's hard iteration cap. */
  const MaxIterations: nat := 30
  /** Convergence threshold on the relative error, in percent. */
  const TolerancePercent: real := 0.1
  /** The initial bisection bounds, in whole units of token1. */
  const InitialMin: real := 1.0
  const InitialMax: real := 1000000000.0

  const AddressZero: string := "0x0000000000000000000000000000000000000000"

  // ---------------------------------------------------------------------------
  // Inputs and outcomes

  /** What the user typed: the two token addresses (as written) and the target
      price, already through `parseFloat` (`None` stands for NaN). */
  datatype Request = Request(token0: string, token1: string, desiredPrice: Option<real>)

  /** What the collaborators reported: the factory's pool address, the pool's
      token0, each token's decimals, and the `amountOut` of the two one-unit
      probe quotes (`None` when the quote threw). */
  datatype PoolSnapshot = PoolSnapshot(
    poolAddress: string,
    token0Address: string,
    decimals0: nat,
    decimals1: nat,
    probe0to1: Option<nat>,
    probe1to0: Option<nat>)

  datatype Failure = PoolNotFound | PriceUnavailable | InvalidTarget

  /** One line of the search trace: a quote that failed, or the simulated price
      and its relative error (percent) at the amount tried. */
  datatype Step = Failed(amount: real) | Priced(amount: real, price: real, errorPercent: real)

  datatype SearchResult = SearchResult(amount: real, steps: seq<Step>)

  datatype Outcome =
    | Aborted(failure: Failure)
    | Estimated(currentPrice: real, desiredPrice: real, search: SearchResult)

  // ---------------------------------------------------------------------------
  // Pre-search phase

  /** `!poolAddress || poolAddress === AddressZero` is the not-found test. */
  predicate PoolFound(poolAddress: string)
  {
    poolAddress != "" && poolAddress != AddressZero
  }

  /** JavaScript truthiness of a price: `null` and `0` are falsy. */
  predicate Truthy(p: Option<real>)
  {
    p.Some? && p.value != 0.0
  }

  /** `parseFloat(formatUnits(amountOut, decimalsOut))`: the probe's output in
      whole units of the output token. */
  function ProbePrice(amountOut: Option<nat>, decimalsOut: nat): (p: Option<real>)
    ensures p.Some? <==> amountOut.Some?
    ensures p.Some? ==> p.value >= 0.0 && p.value * Pow10(decimalsOut) == amountOut.value as real
    ensures p.Some? ==> (p.value == 0.0 <==> amountOut.value == 0)
  {
    match amountOut
    case None => None
    case Some(a) => Some(a as real / Pow10(decimalsOut))
  }

  /** The current price: the forward probe averaged with the inverse of the
      reverse probe; nothing when either probe is falsy. */
  function CurrentPrice(price0to1: Option<real>, price1to0: Option<real>): (c: Option<real>)
    ensures c.Some? <==> Truthy(price0to1) && Truthy(price1to0)
    ensures c.Some? ==> 2.0 * c.value == price0to1.value + 1.0 / price1to0.value
  {
    if Truthy(price0to1) && Truthy(price1to0) then
      Some((price0to1.value + 1.0 / price1to0.value) / 2.0)
    else
      None
  }

  /** The average lies between the two one-sided estimates, and when the
      probes are exact reciprocals it is the forward price itself. */
  lemma CurrentPriceBetween(price0to1: real, price1to0: real)
    requires price0to1 != 0.0 && price1to0 != 0.0
    ensures var c := CurrentPrice(Some(price0to1), Some(price1to0)).value;
      var back := 1.0 / price1to0;
      (price0to1 <= back ==> price0to1 <= c <= back) &&
      (back <= price0to1 ==> back <= c <= price0to1) &&
      (price0to1 * price1to0 == 1.0 ==> c == price0to1)
  {
  }

  /** The target is accepted only when it is a number strictly above the
      current price (`isNaN(d) || d <= current` is rejected). */
  predicate TargetAccepted(desiredPrice: Option<real>, currentPrice: real)
  {
    desiredPrice.Some? && desiredPrice.value > currentPrice
  }

  // ---------------------------------------------------------------------------
  // The simulated price at an amount

  /** The price of the user's token0 in the user's token1 that a pool
      `sqrtPriceX96` stands for: `sqrtToPrice` with the decimals in pool order
      and `token0IsTokenA`, the case-insensitive match, as direction flag. */
  function Token0Price(req: Request, snap: PoolSnapshot, sqrtX96: SqrtPriceX96): (p: real)
    ensures p > 0.0
  {
    var token0IsTokenA := SameAddress(req.token0, snap.token0Address);
    SqrtToPrice(sqrtX96,
                if token0IsTokenA then snap.decimals0 else snap.decimals1,
                if token0IsTokenA then snap.decimals1 else snap.decimals0,
                token0IsTokenA)
  }

  /**
   * `simulate(amount)` as written: quote a swap of `amount` token1 into
   * token0, convert `sqrtPriceX96After` with `Token0Price`, then invert once
   * more unless the user's token0 string is exactly the pool's token0 string.
   */
  function SimulatedPriceAsWritten(req: Request, snap: PoolSnapshot, quote: real -> Option<SqrtPriceX96>, amount: real): (p: Option<real>)
    ensures p.Some? <==> quote(amount).Some?
    ensures p.Some? ==> p.value > 0.0
  {
    match quote(amount)
    case None => None
    case Some(sqrtAfter) =>
      var newPrice := Token0Price(req, snap, sqrtAfter);
      Some(if req.token0 == snap.token0Address then newPrice else 1.0 / newPrice)
  }

  /** As written, the search sees the token0 price only when the user's token0
      string is exactly the pool's token0 string, and its reciprocal (token1
      priced in token0) otherwise, including the same address in another case. */
  lemma SimulatedPriceAsWrittenOrientation(req: Request, snap: PoolSnapshot, quote: real -> Option<SqrtPriceX96>, amount: real)
    requires quote(amount).Some?
    ensures var p := Token0Price(req, snap, quote(amount).value);
      && (req.token0 == snap.token0Address ==> SimulatedPriceAsWritten(req, snap, quote, amount) == Some(p))
      && (req.token0 != snap.token0Address ==> SimulatedPriceAsWritten(req, snap, quote, amount) == Some(1.0 / p))
  {
  }

  /**
   * A pool "0xB"/"0xA" (token0 "0xB", equal decimals) and a user pair
   * token0 = "0xA", token1 = "0xB": selling 0xB into the pool moves
   * `sqrtPriceX96` from `2 * 2^96` down to `2^96`, so 0xA goes from 0.25 to
   * 1 0xB. The price as written goes from 4 to 1: the search sees a rise as a fall.
   */
  lemma SimulatedPriceAsWrittenMismatch()
    ensures var req := Request("0xA", "0xB", Some(2.0));
      var snap := PoolSnapshot("0xP", "0xB", 18, 18, Some(1), Some(1));
      && Token0Price(req, snap, 2 * Q96) == 0.25 && Token0Price(req, snap, Q96) == 1.0
      && SimulatedPriceAsWritten(req, snap, _ => Some(2 * Q96), 1.0) == Some(4.0)
      && SimulatedPriceAsWritten(req, snap, _ => Some(Q96), 1.0) == Some(1.0)
  {
    assert LowerCase("0xA") == "0xa" && LowerCase("0xB") == "0xb";
    ScenarioPriceFour();
    EqualDecimalsNoScaling(Q96, 18);
    assert Ratio(Q96) == 1.0;
  }

  /** `simulate(amount)` without the second inversion: the quoted post-swap
      price of token0 in token1, `None` when the quote throws. */
  function SimulatedPrice(req: Request, snap: PoolSnapshot, quote: real -> Option<SqrtPriceX96>, amount: real): (p: Option<real>)
    ensures p.Some? <==> quote(amount).Some?
    ensures p.Some? ==> p.value > 0.0
  {
    match quote(amount)
    case None => None
    case Some(sqrtAfter) => Some(Token0Price(req, snap, sqrtAfter))
  }

  /**
   * Swapping token1 in pushes `sqrtPriceX96` up when token0 is the pool's
   * token0 and down when it is the pool's token1; either way the corrected
   * simulated price of token0 rises, as the search assumes.
   */
  lemma {:induction false} SimulatedPriceRisesWithSwap(req: Request, snap: PoolSnapshot, quote: real -> Option<SqrtPriceX96>,
                                                       amount: real, sqrtBefore: SqrtPriceX96)
    requires quote(amount).Some?
    requires if SameAddress(req.token0, snap.token0Address) then sqrtBefore < quote(amount).value
             else quote(amount).value < sqrtBefore
    ensures SimulatedPrice(req, snap, quote, amount).value > Token0Price(req, snap, sqrtBefore)
  {
    var sqrtAfter := quote(amount).value;
    if SameAddress(req.token0, snap.token0Address) {
      SqrtToPriceMonotone(sqrtBefore, sqrtAfter, snap.decimals0, snap.decimals1);
    } else {
      SqrtToPriceMonotone(sqrtAfter, sqrtBefore, snap.decimals1, snap.decimals0);
    }
  }

  /** The corrected price does not depend on how the user's token0 address is
      capitalised. */
  lemma {:induction false} SimulatedPriceIgnoresCase(req: Request, snap: PoolSnapshot, quote: real -> Option<SqrtPriceX96>, amount: real)
    ensures SimulatedPrice(req.(token0 := LowerCase(req.token0)), snap, quote, amount) == SimulatedPrice(req, snap, quote, amount)
  {
    LowerCaseIdempotent(req.token0);
  }

  // ---------------------------------------------------------------------------
  // The bisection search

  function Abs(x: real): (r: real)
    ensures r >= 0.0 && (r == x || r == -x)
  {
    if x < 0.0 then -x else x
  }

  /** `|price - target| / target * 100`. */
  function ErrorPercent(price: real, target: real): (e: real)
    requires target > 0.0
    ensures e >= 0.0
    ensures e == 0.0 <==> price == target
  {
    Abs(price - target) / target * 100.0
  }

  /** Below the tolerance means the price is within 0.1% of the target. */
  lemma WithinTolerance(price: real, target: real)
    requires target > 0.0
    ensures ErrorPercent(price, target) < TolerancePercent <==> Abs(price - target) * 1000.0 < target
  {
    var e, a := ErrorPercent(price, target), Abs(price - target);
    assert e * target == a * 100.0;
    ScaleStrict(e, TolerancePercent, target);
  }

  lemma ScaleStrict(u: real, v: real, k: real)
    requires k > 0.0
    ensures u < v <==> u * k < v * k
  {
    if u < v {
      assert (v - u) * k > 0.0;
    } else {
      assert (u - v) * k >= 0.0;
    }
  }

  /** A step that stopped the search. */
  predicate Hit(st: Step)
  {
    st.Priced? && st.errorPercent < TolerancePercent
  }

  /** A step whose price was below the target: the amount was too small. */
  predicate TooSmall(st: Step, target: real)
  {
    st.Priced? && !Hit(st) && st.price < target
  }

  /** A step whose quote failed or whose price reached the target. */
  predicate TooLarge(st: Step, target: real)
  {
    st.Failed? || (!Hit(st) && st.price >= target)
  }

  function Last(steps: seq<Step>): Step
    requires |steps| > 0
  {
    steps[|steps| - 1]
  }

  /** The loop variables `min`, `max`, `bestAmount`, `iterations`, the trace so
      far, and whether the loop left through its `break`. */
  datatype SearchState = SearchState(min: real, max: real, best: real, iterations: nat, trace: seq<Step>, converged: bool)

  function Start(lo: real, hi: real): SearchState
  {
    SearchState(lo, hi, 0.0, 0, [], false)
  }

  /** The loop guard `min < max && iterations < 30`, before any `break`. */
  predicate Searching(s: SearchState)
  {
    !s.converged && s.min < s.max && s.iterations < MaxIterations
  }

  /** One pass of the loop body. */
  function Pass(s: SearchState, target: real, simulate: real -> Option<real>): (r: SearchState)
    requires target > 0.0
    requires Searching(s)
    ensures |r.trace| == |s.trace| + 1 && r.trace[..|s.trace|] == s.trace
    ensures var st := Last(r.trace);
      && s.min < st.amount < s.max
      && st.amount - s.min == s.max - st.amount
      && (st.Failed? <==> !Truthy(simulate(st.amount)))
      && (st.Priced? ==> simulate(st.amount) == Some(st.price) && st.errorPercent == ErrorPercent(st.price, target))
      && r.converged == Hit(st)
      && r.iterations == (if Hit(st) then s.iterations else s.iterations + 1)
      && (st.Failed? ==> r.max == st.amount && r.min == s.min && r.best == s.best)
      && (Hit(st) ==> r.best == st.amount && r.min == s.min && r.max == s.max)
      && (TooSmall(st, target) ==> r.best == st.amount && r.min == st.amount + 1.0 && r.max == s.max)
      && (st.Priced? && TooLarge(st, target) ==> r.max == st.amount - 1.0 && r.min == s.min && r.best == s.best)
  {
    var testAmount := (s.min + s.max) / 2.0;
    var simulated := simulate(testAmount);
    if !Truthy(simulated) then
      s.(max := testAmount, iterations := s.iterations + 1, trace := s.trace + [Failed(testAmount)])
    else
      var price := simulated.value;
      var err := ErrorPercent(price, target);
      var trace := s.trace + [Priced(testAmount, price, err)];
      if err < TolerancePercent then
        s.(best := testAmount, trace := trace, converged := true)
      else if price < target then
        s.(best := testAmount, min := testAmount + 1.0, iterations := s.iterations + 1, trace := trace)
      else
        s.(max := testAmount - 1.0, iterations := s.iterations + 1, trace := trace)
  }

  /** The whole loop: passes until the guard fails or a pass converges. */
  function Run(s: SearchState, target: real, simulate: real -> Option<real>): (r: SearchState)
    requires target > 0.0
    requires s.iterations <= MaxIterations
    ensures !Searching(r)
    ensures s.iterations <= r.iterations <= MaxIterations
    ensures s.min <= r.min && r.max <= s.max
    ensures |s.trace| <= |r.trace| && r.trace[..|s.trace|] == s.trace
    ensures |r.trace| - |s.trace| == r.iterations - s.iterations + (if r.converged && !s.converged then 1 else 0)
    ensures !Searching(s) ==> r == s
    decreases MaxIterations - s.iterations, if s.converged then 0 else 1
  {
    if Searching(s) then Run(Pass(s, target, simulate), target, simulate) else s
  }

  /** `finalAmount = bestAmount > 0 ? bestAmount : max`. */
  function Finish(s: SearchState): SearchResult
  {
    SearchResult(if s.best > 0.0 then s.best else s.max, s.trace)
  }

  /** `Math.ceil(finalAmount)`, the whole number of token1 the page shows. */
  function DisplayedAmount(amount: real): (n: int)
    ensures amount <= n as real < amount + 1.0
    ensures amount > 0.0 ==> n >= 1
  {
    if amount.Floor as real == amount then amount.Floor else amount.Floor + 1
  }

  /** The oracle's answer is recorded faithfully in a step. */
  predicate Records(st: Step, target: real, simulate: real -> Option<real>)
    requires target > 0.0
  {
    && (st.Failed? <==> !Truthy(simulate(st.amount)))
    && (st.Priced? ==> simulate(st.amount) == Some(st.price) && st.errorPercent == ErrorPercent(st.price, target))
  }

  /**
   * What the loop keeps true, for a search started on [lo, hi]: the bounds
   * stay inside [lo, hi]; one trace line per pass; every amount tried lies
   * strictly inside (lo, hi) and its line reports what the oracle said; only
   * a final line can be a hit; `min` is above every too-small amount and
   * `max` at or below every failed or too-large one; `bestAmount` is 0 or a
   * too-small (or hit) amount, and no smaller than any too-small amount.
   */
  predicate Inv(s: SearchState, lo: real, hi: real, target: real, simulate: real -> Option<real>)
    requires target > 0.0
  {
    && lo <= s.min && s.max <= hi
    && (s.max == hi || lo - 1.0 < s.max)
    && s.iterations <= MaxIterations
    && |s.trace| == s.iterations + (if s.converged then 1 else 0)
    && (forall i :: 0 <= i < |s.trace| ==> lo < s.trace[i].amount < hi && Records(s.trace[i], target, simulate))
    && (forall i :: 0 <= i < |s.trace| && (i < |s.trace| - 1 || !s.converged) ==> !Hit(s.trace[i]))
    && (s.converged ==> s.iterations < MaxIterations && Hit(Last(s.trace)) && s.best == Last(s.trace).amount)
    && (forall i :: 0 <= i < |s.trace| && TooSmall(s.trace[i], target) ==> s.trace[i].amount < s.min && s.trace[i].amount <= s.best)
    && (forall i :: 0 <= i < |s.trace| && TooLarge(s.trace[i], target) ==> s.max <= s.trace[i].amount)
    && (s.best == 0.0 || exists i :: 0 <= i < |s.trace| && s.trace[i].amount == s.best && (TooSmall(s.trace[i], target) || Hit(s.trace[i])))
  }

  lemma StartInv(lo: real, hi: real, target: real, simulate: real -> Option<real>)
    requires target > 0.0
    ensures Inv(Start(lo, hi), lo, hi, target, simulate)
  {
  }

  /** One pass keeps the invariant. */
  lemma {:induction false} PassKeepsInv(s: SearchState, lo: real, hi: real, target: real, simulate: real -> Option<real>)
    requires target > 0.0
    requires Searching(s) && Inv(s, lo, hi, target, simulate)
    ensures Inv(Pass(s, target, simulate), lo, hi, target, simulate)
  {
    var r := Pass(s, target, simulate);
    var n := |s.trace|;
    var st := Last(r.trace);
    assert r.trace == s.trace + [st];
    forall i | 0 <= i < |r.trace|
      ensures lo < r.trace[i].amount < hi && Records(r.trace[i], target, simulate)
    {
      if i < n { assert r.trace[i] == s.trace[i]; }
    }
    forall i | 0 <= i < |r.trace| && TooSmall(r.trace[i], target)
      ensures r.trace[i].amount < r.min && r.trace[i].amount <= r.best
    {
      if i < n { assert r.trace[i] == s.trace[i]; }
    }
    forall i | 0 <= i < |r.trace| && TooLarge(r.trace[i], target)
      ensures r.max <= r.trace[i].amount
    {
      if i < n { assert r.trace[i] == s.trace[i]; }
    }
    forall i | 0 <= i < |r.trace| && (i < |r.trace| - 1 || !r.converged)
      ensures !Hit(r.trace[i])
    {
      if i < n { assert r.trace[i] == s.trace[i]; }
    }
    if r.best != 0.0 {
      if r.best == s.best {
        var j :| 0 <= j < n && s.trace[j].amount == s.best && (TooSmall(s.trace[j], target) || Hit(s.trace[j]));
        assert r.trace[j] == s.trace[j];
      } else {
        assert r.trace[n] == st;
      }
    }
  }

  /** The whole loop keeps the invariant. */
  lemma {:induction false} RunKeepsInv(s: SearchState, lo: real, hi: real, target: real, simulate: real -> Option<real>)
    requires target > 0.0
    requires Inv(s, lo, hi, target, simulate)
    ensures Inv(Run(s, target, simulate), lo, hi, target, simulate)
    decreases MaxIterations - s.iterations, if s.converged then 0 else 1
  {
    if Searching(s) {
      PassKeepsInv(s, lo, hi, target, simulate);
      RunKeepsInv(Pass(s, target, simulate), lo, hi, target, simulate);
    }
  }

  /** A search makes at most 30 quotes, each strictly inside the initial bounds. */
  lemma SearchBounds(lo: real, hi: real, target: real, simulate: real -> Option<real>)
    requires target > 0.0
    ensures var steps := Finish(Run(Start(lo, hi), target, simulate)).steps;
      |steps| <= MaxIterations && forall i :: 0 <= i < |steps| ==> lo < steps[i].amount < hi
  {
    StartInv(lo, hi, target, simulate);
    RunKeepsInv(Start(lo, hi), lo, hi, target, simulate);
  }

  /**
   * What a finished search answers, for non-negative bounds: the amount of the
   * hit that stopped it; otherwise the largest amount whose price stayed below
   * the target; otherwise the final upper bound, which lies at or below every
   * amount that failed or overshot.
   */
  lemma {:induction false} SearchAnswer(lo: real, hi: real, target: real, simulate: real -> Option<real>)
    requires target > 0.0 && lo >= 0.0
    ensures var res := Finish(Run(Start(lo, hi), target, simulate));
      var steps := res.steps;
      && ((exists i :: 0 <= i < |steps| && Hit(steps[i])) ==>
            Hit(Last(steps)) && res.amount == Last(steps).amount)
      && ((forall i :: 0 <= i < |steps| ==> !Hit(steps[i])) && (exists i :: 0 <= i < |steps| && TooSmall(steps[i], target)) ==>
            (exists i :: 0 <= i < |steps| && TooSmall(steps[i], target) && res.amount == steps[i].amount) &&
            (forall i :: 0 <= i < |steps| && TooSmall(steps[i], target) ==> steps[i].amount <= res.amount))
      && ((forall i :: 0 <= i < |steps| ==> !Hit(steps[i]) && !TooSmall(steps[i], target)) ==>
            res.amount <= hi && forall i :: 0 <= i < |steps| ==> res.amount <= steps[i].amount)
  {
    var r := Run(Start(lo, hi), target, simulate);
    StartInv(lo, hi, target, simulate);
    RunKeepsInv(Start(lo, hi), lo, hi, target, simulate);
    var steps := r.trace;
    if exists i :: 0 <= i < |steps| && Hit(steps[i]) {
      var i :| 0 <= i < |steps| && Hit(steps[i]);
      assert r.converged;
    } else if exists i :: 0 <= i < |steps| && TooSmall(steps[i], target) {
      var i :| 0 <= i < |steps| && TooSmall(steps[i], target);
      assert r.best > 0.0;
    } else {
      assert r.best == 0.0;
      forall i | 0 <= i < |steps|
        ensures r.max <= steps[i].amount
      {
        assert TooLarge(steps[i], target);
      }
    }
  }

  /**
   * One pass of the loop body on the loop variables: try the midpoint, record
   * the trace line, and move the bounds; `converged` reports the `break`. It
   * is `Pass` again, statement by statement, kept as its own method so that
   * the proof of `Search`'s loop only has to match one call against `Pass`.
   */
  method SearchPass(min: real, max: real, bestAmount: real, iterations: nat, trace: seq<Step>,
                    target: real, simulate: real -> Option<real>)
    returns (min': real, max': real, bestAmount': real, iterations': nat, trace': seq<Step>, converged: bool)
    requires target > 0.0 && Searching(SearchState(min, max, bestAmount, iterations, trace, false))
    ensures SearchState(min', max', bestAmount', iterations', trace', converged)
         == Pass(SearchState(min, max, bestAmount, iterations, trace, false), target, simulate)
  {
    min', max', bestAmount', iterations', converged := min, max, bestAmount, iterations, false;
    var testAmount := (min + max) / 2.0;
    var simulatedPrice := simulate(testAmount);
    if !Truthy(simulatedPrice) {
      trace' := trace + [Failed(testAmount)];
      max' := testAmount;
      iterations' := iterations + 1;
      return;
    }
    var errorPercent := ErrorPercent(simulatedPrice.value, target);
    trace' := trace + [Priced(testAmount, simulatedPrice.value, errorPercent)];
    if errorPercent < TolerancePercent {
      bestAmount' := testAmount;
      converged := true;
      return;
    }
    if simulatedPrice.value < target {
      bestAmount' := testAmount;
      min' := testAmount + 1.0;
    } else {
      max' := testAmount - 1.0;
    }
    iterations' := iterations + 1;
  }

  /**
   * `Search`: the bisection loop, run imperatively on the loop variables and
   * proved to compute `Finish(Run(Start(lo, hi), ...))`.
   */
  method Search(lo: real, hi: real, target: real, simulate: real -> Option<real>) returns (result: SearchResult)
    requires target > 0.0
    ensures result == Finish(Run(Start(lo, hi), target, simulate))
    ensures |result.steps| <= MaxIterations
    ensures forall i :: 0 <= i < |result.steps| ==> lo < result.steps[i].amount < hi
  {
    var min, max, bestAmount, iterations := lo, hi, 0.0, 0;
    var trace: seq<Step> := [];
    var converged := false;
    while min < max && iterations < MaxIterations
      invariant !converged
      invariant iterations <= MaxIterations
      invariant Run(SearchState(min, max, bestAmount, iterations, trace, converged), target, simulate)
             == Run(Start(lo, hi), target, simulate)
      decreases MaxIterations - iterations
    {
      ghost var before := SearchState(min, max, bestAmount, iterations, trace, converged);
      assert Run(before, target, simulate) == Run(Pass(before, target, simulate), target, simulate);
      min, max, bestAmount, iterations, trace, converged := SearchPass(min, max, bestAmount, iterations, trace, target, simulate);
      if converged {
        break;
      }
    }
    ghost var final := SearchState(min, max, bestAmount, iterations, trace, converged);
    assert Run(final, target, simulate) == final;
    SearchBounds(lo, hi, target, simulate);
    var finalAmount := if bestAmount > 0.0 then bestAmount else max;
    result := SearchResult(finalAmount, trace);
  }

  // ---------------------------------------------------------------------------
  // The calculation as a whole

  /** The search's oracle as written: `simulate` bound to this request and
      pool, second inversion included. */
  function Simulator(req: Request, snap: PoolSnapshot, quote: real -> Option<SqrtPriceX96>): real -> Option<real>
  {
    amount => SimulatedPriceAsWritten(req, snap, quote, amount)
  }

  /** The corrected oracle: `simulate` without the second inversion. */
  function CorrectedSimulator(req: Request, snap: PoolSnapshot, quote: real -> Option<SqrtPriceX96>): real -> Option<real>
  {
    amount => SimulatedPrice(req, snap, quote, amount)
  }

  /**
   * The calculation for a given oracle: pool lookup, the two probes and their
   * average, target validation, then the search from [1, 1e9].
   */
  function Estimate(req: Request, snap: PoolSnapshot, simulate: real -> Option<real>): (o: Outcome)
    ensures o.Estimated? ==> 0.0 < o.currentPrice < o.desiredPrice
  {
    if !PoolFound(snap.poolAddress) then Aborted(PoolNotFound)
    else
      var current := CurrentPrice(ProbePrice(snap.probe0to1, snap.decimals1), ProbePrice(snap.probe1to0, snap.decimals0));
      if current.None? then Aborted(PriceUnavailable)
      else if !TargetAccepted(req.desiredPrice, current.value) then Aborted(InvalidTarget)
      else
        var target := req.desiredPrice.value;
        Estimated(current.value, target, Finish(Run(Start(InitialMin, InitialMax), target, simulate)))
  }

  /** `calculatePriceIncrease` as written: the search runs on `simulate` with
      its second inversion. */
  function PriceIncrease(req: Request, snap: PoolSnapshot, quote: real -> Option<SqrtPriceX96>): (o: Outcome)
    ensures o.Estimated? ==> 0.0 < o.currentPrice < o.desiredPrice
  {
    Estimate(req, snap, Simulator(req, snap, quote))
  }

  /** The corrected calculation: the search runs on the price of token0 in
      token1, whatever the capitalisation of the addresses. */
  function PriceIncreaseCorrected(req: Request, snap: PoolSnapshot, quote: real -> Option<SqrtPriceX96>): (o: Outcome)
    ensures o.Estimated? ==> 0.0 < o.currentPrice < o.desiredPrice
  {
    Estimate(req, snap, CorrectedSimulator(req, snap, quote))
  }

  /** The calculation as written, run step by step, with the search as a loop. */
  method CalculatePriceIncrease(req: Request, snap: PoolSnapshot, quote: real -> Option<SqrtPriceX96>) returns (o: Outcome)
    ensures o == PriceIncrease(req, snap, quote)
  {
    if !PoolFound(snap.poolAddress) {
      return Aborted(PoolNotFound);
    }
    var price0to1 := ProbePrice(snap.probe0to1, snap.decimals1);
    var price1to0 := ProbePrice(snap.probe1to0, snap.decimals0);
    if !Truthy(price0to1) || !Truthy(price1to0) {
      return Aborted(PriceUnavailable);
    }
    var currentPrice := (price0to1.value + 1.0 / price1to0.value) / 2.0;
    if req.desiredPrice.None? || req.desiredPrice.value <= currentPrice {
      return Aborted(InvalidTarget);
    }
    var desiredPrice := req.desiredPrice.value;
    var search := Search(InitialMin, InitialMax, desiredPrice, Simulator(req, snap, quote));
    o := Estimated(currentPrice, desiredPrice, search);
  }

  /** A missing or zero probe quote in either direction aborts with
      `PriceUnavailable`, whatever the quoter would say during a search. */
  lemma ProbeFailureAborts(req: Request, snap: PoolSnapshot, quote: real -> Option<SqrtPriceX96>)
    requires PoolFound(snap.poolAddress)
    requires snap.probe0to1 == None || snap.probe0to1 == Some(0) || snap.probe1to0 == None || snap.probe1to0 == Some(0)
    ensures PriceIncrease(req, snap, quote) == Aborted(PriceUnavailable)
  {
  }

  /** With both probes usable, a NaN target or one not above the average
      aborts with `InvalidTarget`; a target above it starts the search. */
  lemma TargetValidation(req: Request, snap: PoolSnapshot, quote: real -> Option<SqrtPriceX96>)
    requires PoolFound(snap.poolAddress)
    requires snap.probe0to1.Some? && snap.probe0to1.value > 0
    requires snap.probe1to0.Some? && snap.probe1to0.value > 0
    ensures var p01 := snap.probe0to1.value as real / Pow10(snap.decimals1);
      var p10 := snap.probe1to0.value as real / Pow10(snap.decimals0);
      var current := (p01 + 1.0 / p10) / 2.0;
      var o := PriceIncrease(req, snap, quote);
      (o == Aborted(InvalidTarget) <==> req.desiredPrice.None? || req.desiredPrice.value <= current) &&
      (o.Estimated? <==> req.desiredPrice.Some? && req.desiredPrice.value > current) &&
      (o.Estimated? ==> o.currentPrice == current)
  {
  }

  /** An aborted calculation never reaches the quoter: its outcome is the same
      for every quoter. */
  lemma AbortIgnoresQuoter(req: Request, snap: PoolSnapshot, quote: real -> Option<SqrtPriceX96>, other: real -> Option<SqrtPriceX96>)
    requires PriceIncrease(req, snap, quote).Aborted?
    ensures PriceIncrease(req, snap, other) == PriceIncrease(req, snap, quote)
  {
  }

  /**
   * A finished estimate, for any oracle, made at most 30 quotes, each for an
   * amount strictly inside (1, 1e9) and each line recording what the oracle
   * said, and answers an amount in (0, 1e9], shown as a whole number from 1
   * to 1e9.
   */
  lemma {:induction false} EstimateTrace(req: Request, snap: PoolSnapshot, simulate: real -> Option<real>)
    requires Estimate(req, snap, simulate).Estimated?
    ensures var o := Estimate(req, snap, simulate);
      var steps := o.search.steps;
      && |steps| <= MaxIterations
      && 0.0 < o.search.amount <= InitialMax
      && 1 <= DisplayedAmount(o.search.amount) <= 1000000000
      && (forall i :: 0 <= i < |steps| ==> InitialMin < steps[i].amount < InitialMax && Records(steps[i], o.desiredPrice, simulate))
  {
    var o := Estimate(req, snap, simulate);
    var target := o.desiredPrice;
    StartInv(InitialMin, InitialMax, target, simulate);
    RunKeepsInv(Start(InitialMin, InitialMax), InitialMin, InitialMax, target, simulate);
    var r := Run(Start(InitialMin, InitialMax), target, simulate);
    assert o.search == Finish(r);
    if r.best != 0.0 {
      var j :| 0 <= j < |r.trace| && r.trace[j].amount == r.best && (TooSmall(r.trace[j], target) || Hit(r.trace[j]));
    }
  }

  /**
   * The calculation as written: at most 30 quotes, amounts strictly inside
   * (1, 1e9), an answer in (0, 1e9] shown as 1 to 1e9, a failed line exactly
   * where the quote threw, and every priced line holding the as-written
   * `simulate` price at its amount.
   */
  lemma {:induction false} EstimateBounds(req: Request, snap: PoolSnapshot, quote: real -> Option<SqrtPriceX96>)
    requires PriceIncrease(req, snap, quote).Estimated?
    ensures var o := PriceIncrease(req, snap, quote);
      var steps := o.search.steps;
      && |steps| <= MaxIterations
      && 0.0 < o.search.amount <= InitialMax
      && 1 <= DisplayedAmount(o.search.amount) <= 1000000000
      && (forall i :: 0 <= i < |steps| ==> InitialMin < steps[i].amount < InitialMax)
      && (forall i :: 0 <= i < |steps| ==>
            (steps[i].Failed? <==> quote(steps[i].amount).None?) &&
            (steps[i].Priced? ==> Some(steps[i].price) == SimulatedPriceAsWritten(req, snap, quote, steps[i].amount)))
  {
    var simulate := Simulator(req, snap, quote);
    EstimateTrace(req, snap, simulate);
    var o := Estimate(req, snap, simulate);
    forall i | 0 <= i < |o.search.steps|
      ensures o.search.steps[i].Failed? <==> quote(o.search.steps[i].amount).None?
    {
      assert Records(o.search.steps[i], o.desiredPrice, simulate);
    }
  }

  /** The corrected calculation keeps the same bounds, and every priced line
      holds the price of token0 in token1 at its amount. */
  lemma {:induction false} CorrectedEstimateBounds(req: Request, snap: PoolSnapshot, quote: real -> Option<SqrtPriceX96>)
    requires PriceIncreaseCorrected(req, snap, quote).Estimated?
    ensures var o := PriceIncreaseCorrected(req, snap, quote);
      var steps := o.search.steps;
      && |steps| <= MaxIterations
      && 0.0 < o.search.amount <= InitialMax
      && (forall i :: 0 <= i < |steps| ==> InitialMin < steps[i].amount < InitialMax)
      && (forall i :: 0 <= i < |steps| ==>
            (steps[i].Failed? <==> quote(steps[i].amount).None?) &&
            (steps[i].Priced? ==> steps[i].price == Token0Price(req, snap, quote(steps[i].amount).value)))
  {
    var simulate := CorrectedSimulator(req, snap, quote);
    EstimateTrace(req, snap, simulate);
    var o := Estimate(req, snap, simulate);
    forall i | 0 <= i < |o.search.steps|
      ensures o.search.steps[i].Failed? <==> quote(o.search.steps[i].amount).None?
    {
      assert Records(o.search.steps[i], o.desiredPrice, simulate);
    }
  }

  /** Two oracles that agree at every amount drive the search identically. */
  lemma {:induction false} RunAgrees(s: SearchState, target: real, f: real -> Option<real>, g: real -> Option<real>)
    requires target > 0.0 && s.iterations <= MaxIterations
    requires forall amount :: f(amount) == g(amount)
    ensures Run(s, target, f) == Run(s, target, g)
    decreases MaxIterations - s.iterations, if s.converged then 0 else 1
  {
    if Searching(s) {
      assert Pass(s, target, f) == Pass(s, target, g);
      RunAgrees(Pass(s, target, f), target, f, g);
    }
  }

  /** When the user's token0 string is exactly the pool's token0 string, the
      second inversion never fires and the correction changes nothing. */
  lemma {:induction false} CorrectionAgreesOnExactMatch(req: Request, snap: PoolSnapshot, quote: real -> Option<SqrtPriceX96>)
    requires req.token0 == snap.token0Address
    ensures PriceIncreaseCorrected(req, snap, quote) == PriceIncrease(req, snap, quote)
  {
    var f, g := CorrectedSimulator(req, snap, quote), Simulator(req, snap, quote);
    if PriceIncrease(req, snap, quote).Estimated? {
      RunAgrees(Start(InitialMin, InitialMax), req.desiredPrice.value, f, g);
    }
  }

  /** A pool whose simulated price rises linearly from 100 at amount 0 to 200
      at amount 1e6. */
  function LinearOracle(amount: real): (p: Option<real>)
    ensures p.Some? && (amount >= 0.0 ==> p.value >= 100.0)
  {
    Some(100.0 + amount / 10000.0)
  }

  /** One pass against the linear pool, for target 150: the quote at `t` is
      within 0.1% exactly when `t` is within 1500 of 500000. */
  lemma LinearPass(s: SearchState)
    requires Searching(s) && 0.0 <= s.min
    ensures var t := (s.min + s.max) / 2.0;
      var r := Pass(s, 150.0, LinearOracle);
      && |r.trace| == |s.trace| + 1
      && Run(s, 150.0, LinearOracle) == Run(r, 150.0, LinearOracle)
      && (498500.0 < t < 501500.0 ==>
            r.converged && r.best == t && r.min == s.min && r.max == s.max && r.iterations == s.iterations)
      && (t <= 498500.0 ==>
            !r.converged && r.best == t && r.min == t + 1.0 && r.max == s.max && r.iterations == s.iterations + 1)
      && (501500.0 <= t ==>
            !r.converged && r.best == s.best && r.min == s.min && r.max == t - 1.0 && r.iterations == s.iterations + 1)
  {
    var t := (s.min + s.max) / 2.0;
    assert ErrorPercent(100.0 + t / 10000.0, 150.0) == Abs(t - 500000.0) / 15000.0;
  }

  /** Quotes 1 to 6 of the linear scenario. */
  lemma {:induction false} LinearLeg1(s: SearchState)
    requires s.min == 1.0 && s.max == 1000000000.0 && s.best == 0.0 && s.iterations == 0 && !s.converged
    ensures var r := Run(s, 150.0, LinearOracle);
      |r.trace| == |s.trace| + 18 && r.converged && Hit(Last(r.trace)) && r.best == 131000000131.0 / 262144.0
  {
    LinearPass(s);
    var s1 := Pass(s, 150.0, LinearOracle);
    assert s1.min == 1.0 && s1.max == 999999999.0 / 2.0 && s1.best == 0.0 && s1.iterations == 1 && !s1.converged;
    LinearPass(s1);
    var s2 := Pass(s1, 150.0, LinearOracle);
    assert s2.min == 1.0 && s2.max == 999999997.0 / 4.0 && s2.best == 0.0 && s2.iterations == 2 && !s2.converged;
    LinearPass(s2);
    var s3 := Pass(s2, 150.0, LinearOracle);
    assert s3.min == 1.0 && s3.max == 999999993.0 / 8.0 && s3.best == 0.0 && s3.iterations == 3 && !s3.converged;
    LinearPass(s3);
    var s4 := Pass(s3, 150.0, LinearOracle);
    assert s4.min == 1.0 && s4.max == 999999985.0 / 16.0 && s4.best == 0.0 && s4.iterations == 4 && !s4.converged;
    LinearPass(s4);
    var s5 := Pass(s4, 150.0, LinearOracle);
    assert s5.min == 1.0 && s5.max == 999999969.0 / 32.0 && s5.best == 0.0 && s5.iterations == 5 && !s5.converged;
    LinearPass(s5);
    var s6 := Pass(s5, 150.0, LinearOracle);
    assert s6.min == 1.0 && s6.max == 999999937.0 / 64.0 && s6.best == 0.0 && s6.iterations == 6 && !s6.converged;
    LinearLeg2(s6);
  }

  /** Quotes 7 to 12 of the linear scenario. */
  lemma {:induction false} LinearLeg2(s: SearchState)
    requires s.min == 1.0 && s.max == 999999937.0 / 64.0 && s.best == 0.0 && s.iterations == 6 && !s.converged
    ensures var r := Run(s, 150.0, LinearOracle);
      |r.trace| == |s.trace| + 12 && r.converged && Hit(Last(r.trace)) && r.best == 131000000131.0 / 262144.0
  {
    LinearPass(s);
    var s7 := Pass(s, 150.0, LinearOracle);
    assert s7.min == 1.0 && s7.max == 999999873.0 / 128.0 && s7.best == 0.0 && s7.iterations == 7 && !s7.converged;
    LinearPass(s7);
    var s8 := Pass(s7, 150.0, LinearOracle);
    assert s8.min == 1.0 && s8.max == 999999745.0 / 256.0 && s8.best == 0.0 && s8.iterations == 8 && !s8.converged;
    LinearPass(s8);
    var s9 := Pass(s8, 150.0, LinearOracle);
    assert s9.min == 1.0 && s9.max == 999999489.0 / 512.0 && s9.best == 0.0 && s9.iterations == 9 && !s9.converged;
    LinearPass(s9);
    var s10 := Pass(s9, 150.0, LinearOracle);
    assert s10.min == 1.0 && s10.max == 999998977.0 / 1024.0 && s10.best == 0.0 && s10.iterations == 10 && !s10.converged;
    LinearPass(s10);
    var s11 := Pass(s10, 150.0, LinearOracle);
    assert s11.min == 1000002049.0 / 2048.0 && s11.max == 999998977.0 / 1024.0 && s11.best == 1000000001.0 / 2048.0 && s11.iterations == 11 && !s11.converged;
    LinearPass(s11);
    var s12 := Pass(s11, 150.0, LinearOracle);
    assert s12.min == 1000002049.0 / 2048.0 && s12.max == 2999995907.0 / 4096.0 && s12.best == 1000000001.0 / 2048.0 && s12.iterations == 12 && !s12.converged;
    LinearLeg3(s12);
  }

  /** Quotes 13 to 18 of the linear scenario. */
  lemma {:induction false} LinearLeg3(s: SearchState)
    requires s.min == 1000002049.0 / 2048.0 && s.max == 2999995907.0 / 4096.0 && s.best == 1000000001.0 / 2048.0 && s.iterations == 12 && !s.converged
    ensures var r := Run(s, 150.0, LinearOracle);
      |r.trace| == |s.trace| + 6 && r.converged && Hit(Last(r.trace)) && r.best == 131000000131.0 / 262144.0
  {
    LinearPass(s);
    var s13 := Pass(s, 150.0, LinearOracle);
    assert s13.min == 1000002049.0 / 2048.0 && s13.max == 4999991813.0 / 8192.0 && s13.best == 1000000001.0 / 2048.0 && s13.iterations == 13 && !s13.converged;
    LinearPass(s13);
    var s14 := Pass(s13, 150.0, LinearOracle);
    assert s14.min == 1000002049.0 / 2048.0 && s14.max == 8999983625.0 / 16384.0 && s14.best == 1000000001.0 / 2048.0 && s14.iterations == 14 && !s14.converged;
    LinearPass(s14);
    var s15 := Pass(s14, 150.0, LinearOracle);
    assert s15.min == 1000002049.0 / 2048.0 && s15.max == 16999967249.0 / 32768.0 && s15.best == 1000000001.0 / 2048.0 && s15.iterations == 15 && !s15.converged;
    LinearPass(s15);
    var s16 := Pass(s15, 150.0, LinearOracle);
    assert s16.min == 1000002049.0 / 2048.0 && s16.max == 32999934497.0 / 65536.0 && s16.best == 1000000001.0 / 2048.0 && s16.iterations == 16 && !s16.converged;
    LinearPass(s16);
    var s17 := Pass(s16, 150.0, LinearOracle);
    assert s17.min == 65000131137.0 / 131072.0 && s17.max == 32999934497.0 / 65536.0 && s17.best == 65000000065.0 / 131072.0 && s17.iterations == 17 && !s17.converged;
    LinearPass(s17);
    var s18 := Pass(s17, 150.0, LinearOracle);
    assert s18.min == 65000131137.0 / 131072.0 && s18.max == 32999934497.0 / 65536.0 && s18.best == 131000000131.0 / 262144.0 && s18.iterations == 17 && s18.converged;
    assert Run(s18, 150.0, LinearOracle) == s18;
  }

  /**
   * Against the linear pool, a search for 150 from [1, 1e9] converges on its
   * 18th quote, well inside 30, at an amount within [499000, 501000] (the
   * exact answer is 500000).
   */
  lemma LinearScenario()
    ensures var r := Finish(Run(Start(InitialMin, InitialMax), 150.0, LinearOracle));
      && |r.steps| == 18
      && Hit(Last(r.steps))
      && 499000.0 <= r.amount <= 501000.0
  {
    LinearLeg1(Start(InitialMin, InitialMax));
  }
}
