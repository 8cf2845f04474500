/**
 * The price arithmetic shared by both calculators: converting a Uniswap V3
 * `sqrtPriceX96` into a human price ratio, with decimal normalisation and
 * direction inversion, and the case-insensitive address comparison used to
 * find out whether a token is the pool's token0.
 */
module PoolPrice {

  /** A pool's square-root price in Q64.96 fixed point. An initialised pool
      and the quoter never report 0 (Uniswap's lower bound is MIN_SQRT_RATIO). */
  type SqrtPriceX96 = x: int | 0 < x witness 1

  /** 2^96, the fixed-point scale of `sqrtPriceX96`. */
  const Q96: nat := 0x1_0000_0000_0000_0000_0000_0000

  /** `10 ** e` for any integer exponent, negative ones included. */
  function Pow10(e: int): (r: real)
    ensures r > 0.0
    decreases if e < 0 then -e else e
  {
    if e == 0 then 1.0
    else if e > 0 then 10.0 * Pow10(e - 1)
    else Pow10(e + 1) / 10.0
  }

  /** Raising the exponent by one multiplies by ten, on both sides of zero. */
  lemma {:induction false} Pow10Step(e: int)
    ensures Pow10(e + 1) == 10.0 * Pow10(e)
  {
  }

  lemma {:induction false} Pow10NegateNat(n: int)
    requires n >= 0
    ensures Pow10(-n) * Pow10(n) == 1.0
  {
    if n > 0 {
      Pow10NegateNat(n - 1);
      Pow10Step(n - 1);
      Pow10Step(-n);
    }
  }

  /** `10 ** -e` is the reciprocal of `10 ** e`. */
  lemma {:induction false} Pow10Negate(e: int)
    ensures Pow10(-e) == 1.0 / Pow10(e)
  {
    if e >= 0 {
      Pow10NegateNat(e);
    } else {
      Pow10NegateNat(-e);
    }
  }

  /** The raw pool price `sqrtPriceX96^2 / 2^192`: token1 base units per token0 base unit. */
  function Ratio(sqrtX96: SqrtPriceX96): (r: real)
    ensures r > 0.0
  {
    (sqrtX96 * sqrtX96) as real / (Q96 * Q96) as real
  }

  /**
   * `sqrtToPrice`: the raw price scaled by `10^(decimals0 - decimals1)`, and its
   * reciprocal when token0 is not the input token.
   */
  function SqrtToPrice(sqrtX96: SqrtPriceX96, decimals0: int, decimals1: int, token0IsInput: bool): (p: real)
    ensures p > 0.0
  {
    var adjusted := Ratio(sqrtX96) * Pow10(decimals0 - decimals1);
    if token0IsInput then adjusted else 1.0 / adjusted
  }

  /** Turning the direction flag off gives the reciprocal price. */
  lemma DirectionIsReciprocal(sqrtX96: SqrtPriceX96, decimals0: int, decimals1: int)
    ensures SqrtToPrice(sqrtX96, decimals0, decimals1, false) == 1.0 / SqrtToPrice(sqrtX96, decimals0, decimals1, true)
    ensures SqrtToPrice(sqrtX96, decimals0, decimals1, false) * SqrtToPrice(sqrtX96, decimals0, decimals1, true) == 1.0
  {
  }

  /** With equal decimals there is no scaling: the token0-input price is `sqrtX96^2 / 2^192`. */
  lemma EqualDecimalsNoScaling(sqrtX96: SqrtPriceX96, decimals: int)
    ensures SqrtToPrice(sqrtX96, decimals, decimals, true) == (sqrtX96 * sqrtX96) as real / (Q96 * Q96) as real
  {
  }

  /** One more decimal on token0 multiplies the token0-input price by ten and
      divides the other direction by ten. */
  lemma {:induction false} DecimalStep(sqrtX96: SqrtPriceX96, decimals0: int, decimals1: int)
    ensures SqrtToPrice(sqrtX96, decimals0 + 1, decimals1, true) == 10.0 * SqrtToPrice(sqrtX96, decimals0, decimals1, true)
    ensures SqrtToPrice(sqrtX96, decimals0 + 1, decimals1, false) * 10.0 == SqrtToPrice(sqrtX96, decimals0, decimals1, false)
  {
    Pow10Step(decimals0 - decimals1);
  }

  lemma SquareLess(x: int, y: int)
    requires 0 < x < y
    ensures x * x < y * y
  {
    assert x * x <= x * y;
  }

  lemma ScaleLess(u: real, v: real, k: real)
    requires u < v && k > 0.0
    ensures u * k < v * k && u / k < v / k
  {
  }

  lemma RecipLess(u: real, v: real)
    requires 0.0 < u < v
    ensures 1.0 / v < 1.0 / u
  {
  }

  /** A larger `sqrtPriceX96` means a larger token0-input price and a smaller
      token1-input price. */
  lemma {:induction false} SqrtToPriceMonotone(x: SqrtPriceX96, y: SqrtPriceX96, decimals0: int, decimals1: int)
    requires x < y
    ensures SqrtToPrice(x, decimals0, decimals1, true) < SqrtToPrice(y, decimals0, decimals1, true)
    ensures SqrtToPrice(x, decimals0, decimals1, false) > SqrtToPrice(y, decimals0, decimals1, false)
  {
    SquareLess(x, y);
    ScaleLess((x * x) as real, (y * y) as real, (Q96 * Q96) as real);
    ScaleLess(Ratio(x), Ratio(y), Pow10(decimals0 - decimals1));
    RecipLess(Ratio(x) * Pow10(decimals0 - decimals1), Ratio(y) * Pow10(decimals0 - decimals1));
  }

  /** A pool at `sqrtPriceX96 = 2 * 2^96` with equal decimals quotes 4 token1 per
      token0, and 0.25 token0 per token1. */
  lemma ScenarioPriceFour()
    ensures SqrtToPrice(2 * Q96, 18, 18, true) == 4.0
    ensures SqrtToPrice(2 * Q96, 18, 18, false) == 0.25
  {
    assert (2 * Q96) * (2 * Q96) == 4 * (Q96 * Q96);
  }

  /** ASCII lower-casing, which is all `toLowerCase` does to a hex address. */
  function LowerChar(c: char): (d: char)
  {
    if 'A' <= c <= 'Z' then (c as int + 32) as char else c
  }

  function LowerCase(s: string): (t: string)
    ensures |t| == |s|
  {
    if s == [] then [] else [LowerChar(s[0])] + LowerCase(s[1..])
  }

  lemma {:induction false} LowerCaseIdempotent(s: string)
    ensures LowerCase(LowerCase(s)) == LowerCase(s)
  {
    if s != [] {
      LowerCaseIdempotent(s[1..]);
      var t := LowerCase(s);
      assert t[0] == LowerChar(s[0]) && t[1..] == LowerCase(s[1..]);
    }
  }

  /** `a.toLowerCase() === b.toLowerCase()`. */
  predicate SameAddress(a: string, b: string)
  {
    LowerCase(a) == LowerCase(b)
  }

  /** The comparison ignores letter case: an address matches its own lower-case
      spelling, and exact equality implies a match. */
  lemma SameAddressIgnoresCase(a: string, b: string)
    ensures SameAddress(a, LowerCase(a))
    ensures a == b ==> SameAddress(a, b)
  {
    LowerCaseIdempotent(a);
  }
}
