/**
 * The shared vocabulary of the market: the two outcomes, a recorded bet, and
 * the logarithmic market scoring rule that prices a share of each outcome.
 *
 * Prices are real numbers. The exponential is not built in: every price is
 * computed relative to a function `exp` that the caller supplies and that is
 * only assumed to be positive (and, where monotonicity is stated, strictly
 * increasing).
 */
module Elements {

  /** The two sides of a binary market. */
  datatype Outcome = YES | NO

  /** One user's position in one market: the side and the number of shares. */
  datatype Bet = Bet(side: Outcome, quantity: nat)

  /** `exp` only ever yields positive values. */
  ghost predicate Positive(exp: real -> real)
  {
    forall x :: exp(x) > 0.0
  }

  /** `exp` is strictly increasing. */
  ghost predicate Increasing(exp: real -> real)
  {
    forall x, y :: x < y ==> exp(x) < exp(y)
  }

  /**
   * The LMSR price pair `(priceYes, priceNo)` for `qYes` YES shares and `qNo`
   * NO shares at liquidity `b`: each side's exponential divided by their sum.
   * The two prices form a probability distribution over the outcomes.
   */
  function LmsrPrice(qYes: nat, qNo: nat, b: real, exp: real -> real): (r: (real, real))
    requires b != 0.0
    requires Positive(exp)
    ensures 0.0 < r.0 < 1.0 && 0.0 < r.1 < 1.0
    ensures r.0 + r.1 == 1.0
  {
    var expYes := exp(qYes as real / b);
    var expNo := exp(qNo as real / b);
    var sum := expYes + expNo;
    assert expYes > 0.0 && expNo > 0.0;
    ShareOfSum(expYes, expNo);
    ShareOfSum(expNo, expYes);
    (expYes / sum, expNo / sum)
  }

  /** A positive part of a sum of two positive reals is a proper fraction of it. */
  lemma ShareOfSum(x: real, y: real)
    requires x > 0.0 && y > 0.0
    ensures 0.0 < x / (x + y) < 1.0
    ensures x / (x + y) + y / (x + y) == 1.0
  {
  }

  /** The price of one share of `side`, taken from a price pair. */
  function Quote(prices: (real, real), side: Outcome): real
  {
    match side
    case YES => prices.0
    case NO => prices.1
  }

  /** What `quantity` shares of `side` cost at the given price pair. */
  function Cost(prices: (real, real), side: Outcome, quantity: nat): real
  {
    Quote(prices, side) * quantity as real
  }

  /** A bet never costs more than the one-unit-per-share payout it can win, and never less than nothing. */
  lemma CostWithinPayout(qYes: nat, qNo: nat, b: real, exp: real -> real, side: Outcome, quantity: nat)
    requires b != 0.0
    requires Positive(exp)
    ensures 0.0 <= Cost(LmsrPrice(qYes, qNo, b, exp), side, quantity) <= quantity as real
  {
  }

  /** Equal share counts price both sides at one half; a fresh market quotes 0.5 per side. */
  lemma EqualCountsHalf(q: nat, b: real, exp: real -> real)
    requires b != 0.0
    requires Positive(exp)
    ensures LmsrPrice(q, q, b, exp) == (0.5, 0.5)
  {
  }

  /** Exchanging the two share counts exchanges the two prices. */
  lemma SwapSymmetric(qYes: nat, qNo: nat, b: real, exp: real -> real)
    requires b != 0.0
    requires Positive(exp)
    ensures LmsrPrice(qNo, qYes, b, exp).0 == LmsrPrice(qYes, qNo, b, exp).1
    ensures LmsrPrice(qNo, qYes, b, exp).1 == LmsrPrice(qYes, qNo, b, exp).0
  {
  }

  /**
   * With a strictly increasing `exp` and positive liquidity, buying pressure
   * on YES raises the YES price and lowers the NO price, when the NO count
   * stays put.
   */
  lemma PriceYesIncreasing(qYes: nat, qYes': nat, qNo: nat, b: real, exp: real -> real)
    requires b > 0.0
    requires Positive(exp) && Increasing(exp)
    requires qYes < qYes'
    ensures LmsrPrice(qYes, qNo, b, exp).0 < LmsrPrice(qYes', qNo, b, exp).0
    ensures LmsrPrice(qYes', qNo, b, exp).1 < LmsrPrice(qYes, qNo, b, exp).1
  {
    var x, x' := qYes as real / b, qYes' as real / b;
    assert x < x' by {
      assert qYes as real < qYes' as real;
      DivideMonotone(qYes as real, qYes' as real, b);
    }
    var e, e', n := exp(x), exp(x'), exp(qNo as real / b);
    assert 0.0 < e < e' && n > 0.0;
    FractionIncreasing(e, e', n);
  }

  /** Dividing by a positive real keeps strict order. */
  lemma DivideMonotone(u: real, v: real, b: real)
    requires b > 0.0 && u < v
    ensures u / b < v / b
  {
  }

  /** `e / (e + n)` grows with `e` when `n` is positive. */
  lemma FractionIncreasing(e: real, e': real, n: real)
    requires 0.0 < e < e' && n > 0.0
    ensures e / (e + n) < e' / (e' + n)
  {
    ShareOfSum(e, n);
    ShareOfSum(e', n);
    LargerDenominator(n, e + n, e' + n);
  }

  /** A positive numerator over a larger denominator gives a smaller quotient. */
  lemma LargerDenominator(n: real, d: real, g: real)
    requires n > 0.0 && 0.0 < d < g
    ensures n / g < n / d
  {
  }
}
