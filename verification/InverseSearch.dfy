// The bracketing search for an argument at which a function takes a given value, over exact reals.

module InverseSearch {
  datatype Result = Found(x: real) | AssertionFailed

  function Abs(x: real): (r: real)
    ensures r >= 0.0 && (r == x || r == -x)
  {
    if x < 0.0 then -x else x
  }

  /** Over distances up to `delta`, `fx` changes by less than two thresholds. It need not be monotone. */
  ghost predicate Gentle(fx: real -> real, delta: real, thresh: real) {
    delta > 0.0 && forall a, b :: Abs(a - b) <= delta ==> Abs(fx(a) - fx(b)) < 2.0 * thresh
  }

  ghost predicate Lipschitz(fx: real -> real, rate: real) {
    rate > 0.0 && forall a, b :: Abs(fx(a) - fx(b)) <= rate * Abs(a - b)
  }

  lemma LipschitzIsGentle(fx: real -> real, rate: real, thresh: real)
    requires Lipschitz(fx, rate) && thresh > 0.0
    ensures Gentle(fx, thresh / rate, thresh)
  {
    var delta := thresh / rate;
    Quotient(rate, thresh);
    forall a, b | Abs(a - b) <= delta
      ensures Abs(fx(a) - fx(b)) < 2.0 * thresh
    {
      Product(rate, Abs(a - b), delta);
    }
  }

  lemma Quotient(r: real, x: real)
    requires r > 0.0 && x > 0.0
    ensures x / r > 0.0 && r * (x / r) == x
  {
  }

  lemma Product(r: real, x: real, y: real)
    requires r > 0.0 && x <= y
    ensures r * x <= r * y
  {
  }

  /** `delta`, doubled `n` times. */
  function Scale(delta: real, n: nat): real { if n == 0 then delta else 2.0 * Scale(delta, n - 1) }

  /** Doubling reaches every width. */
  lemma {:induction false} ScaleGrows(delta: real, n: nat)
    requires delta > 0.0
    ensures Scale(delta, n) >= delta * (n + 1) as real
  {
    if n > 0 {
      ScaleGrows(delta, n - 1);
      assert delta * (n + 1) as real == delta * n as real + delta;
      assert delta * n as real >= delta;
    }
  }

  function Doublings(delta: real, w: real): (n: nat)
    requires delta > 0.0 && w >= 0.0
    ensures w <= Scale(delta, n)
  {
    var n := (w / delta).Floor;
    ScaleGrows(delta, n);
    assert w / delta <= (n + 1) as real;
    Product(delta, w / delta, (n + 1) as real);
    assert delta * (w / delta) == w;
    n
  }

  /** The values at the ends are at least a threshold away from `y`, on both sides. */
  predicate Brackets(fx: real -> real, y: real, thresh: real, min: real, max: real) {
    fx(min) <= y - thresh && fx(max) >= y + thresh
  }

  function Middle(a: real, b: real): real { (a + b) / 2.0 }

  predicate Between(x: real, a: real, b: real) { a <= x <= b || b <= x <= a }

  /** A bracket can be halved: it is wider than `delta`. */
  lemma Halves(fx: real -> real, y: real, thresh: real, min: real, max: real, delta: real, n: nat)
    requires thresh > 0.0 && Gentle(fx, delta, thresh) && Abs(max - min) <= Scale(delta, n)
    requires Brackets(fx, y, thresh, min, max)
    ensures n > 0 && Between(Middle(min, max), min, max)
    ensures Abs(Middle(min, max) - min) <= Scale(delta, n - 1) && Abs(max - Middle(min, max)) <= Scale(delta, n - 1)
  {
    assert Abs(fx(max) - fx(min)) >= 2.0 * thresh;
  }

  lemma BetweenHalves(x: real, a: real, b: real)
    ensures Between(x, a, Middle(a, b)) || Between(x, Middle(a, b), b) ==> Between(x, a, b)
  {
  }

  /** `binarySearchInverse`. The ghost parameters only bound the recursion. */
  function Search(fx: real -> real, y: real, thresh: real, min: real, max: real, ghost delta: real, ghost n: nat): Result
    requires thresh > 0.0 && Gentle(fx, delta, thresh) && Abs(max - min) <= Scale(delta, n)
    decreases n
  {
    var y0, yn := fx(min), fx(max);
    if !(y0 <= yn) then AssertionFailed
    else if y0 > y - thresh then Found(min)
    else if yn < y + thresh then Found(max)
    else
      Halves(fx, y, thresh, min, max, delta, n);
      var guess := Middle(min, max);
      var yguess := fx(guess);
      if Abs(yguess - y) < thresh then Found(guess)
      else if yguess > y then Search(fx, y, thresh, min, guess, delta, n - 1)
      else Search(fx, y, thresh, guess, max, delta, n - 1)
  }

  /** How many times the search from a bracket evaluates `fx` at a guess. */
  ghost function Guesses(fx: real -> real, y: real, thresh: real, min: real, max: real, delta: real, n: nat): nat
    requires thresh > 0.0 && Gentle(fx, delta, thresh) && Abs(max - min) <= Scale(delta, n)
    requires Brackets(fx, y, thresh, min, max)
    decreases n
  {
    Halves(fx, y, thresh, min, max, delta, n);
    var guess := Middle(min, max);
    if Abs(fx(guess) - y) < thresh then 1
    else if fx(guess) > y then 1 + Guesses(fx, y, thresh, min, guess, delta, n - 1)
    else 1 + Guesses(fx, y, thresh, guess, max, delta, n - 1)
  }

  /**
   * From ends that bracket the value, the search finds an argument between them where `fx` is within the threshold; the
   * number of guesses is logarithmic in the width, because `n` doublings of `delta` reach the width.
   */
  lemma {:induction false} SearchWithin(fx: real -> real, y: real, thresh: real, min: real, max: real, delta: real, n: nat)
    requires thresh > 0.0 && Gentle(fx, delta, thresh) && Abs(max - min) <= Scale(delta, n)
    requires Brackets(fx, y, thresh, min, max)
    ensures var r := Search(fx, y, thresh, min, max, delta, n);
      r.Found? && Abs(fx(r.x) - y) < thresh && Between(r.x, min, max)
    ensures 1 <= Guesses(fx, y, thresh, min, max, delta, n) <= n
    decreases n
  {
    hide Middle, Between, Scale, Gentle;
    Halves(fx, y, thresh, min, max, delta, n);
    var guess := Middle(min, max);
    if Abs(fx(guess) - y) >= thresh {
      if fx(guess) > y {
        SearchWithin(fx, y, thresh, min, guess, delta, n - 1);
      } else {
        SearchWithin(fx, y, thresh, guess, max, delta, n - 1);
      }
      BetweenHalves(Search(fx, y, thresh, min, max, delta, n).x, min, max);
    }
  }

  /** Otherwise it returns an end of the interval, or stops because the values at the ends are the wrong way round. */
  lemma SearchWithoutBracket(fx: real -> real, y: real, thresh: real, min: real, max: real, delta: real, n: nat)
    requires thresh > 0.0 && Gentle(fx, delta, thresh) && Abs(max - min) <= Scale(delta, n)
    ensures var r := Search(fx, y, thresh, min, max, delta, n);
      (r.AssertionFailed? <==> fx(min) > fx(max)) &&
      (!Brackets(fx, y, thresh, min, max) && r.Found? ==>
        (r.x == min && fx(min) > y - thresh) || (r.x == max && fx(max) < y + thresh))
  {
    if Brackets(fx, y, thresh, min, max) { SearchWithin(fx, y, thresh, min, max, delta, n); }
  }

  /** For every Lipschitz function: an end of the interval, or an argument whose value is within the threshold. */
  lemma InverseFound(fx: real -> real, y: real, thresh: real, min: real, max: real, rate: real)
    requires thresh > 0.0 && Lipschitz(fx, rate) && fx(min) <= fx(max)
    ensures thresh / rate > 0.0 && Gentle(fx, thresh / rate, thresh)
    ensures var r := Search(fx, y, thresh, min, max, thresh / rate, Doublings(thresh / rate, Abs(max - min)));
      r.Found? &&
      if fx(min) > y - thresh then r.x == min
      else if fx(max) < y + thresh then r.x == max
      else Abs(fx(r.x) - y) < thresh
  {
    LipschitzIsGentle(fx, rate, thresh);
    var delta := thresh / rate;
    hide Lipschitz, Gentle, Scale, Abs, Doublings;
    var n := Doublings(delta, Abs(max - min));
    if Brackets(fx, y, thresh, min, max) { SearchWithin(fx, y, thresh, min, max, delta, n); }
  }
}
