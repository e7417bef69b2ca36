/**
 Real products behind a name.

 `Times` is multiplication.  Proofs about sums of products hide its body and use the laws
 below instead, so that the solver treats a product as an atom; only the laws themselves
 are proved by nonlinear reasoning, each on plain variables.
 */
module Arithmetic {

  function Times(a: real, b: real): real { a * b }

  function Abs(x: real): real { if x < 0.0 then -x else x }

  function Larger(a: real, b: real): real { if a < b then b else a }

  function Square(d: real): real { Times(d, d) }

  lemma TimesMono(c: real, a: real, b: real)
    requires c >= 0.0 && a <= b
    ensures Times(c, a) <= Times(c, b)
  {
    assert c * (b - a) >= 0.0;
  }

  lemma TimesPositive(a: real, b: real)
    requires a > 0.0 && b > 0.0
    ensures Times(a, b) > 0.0
  {
  }

  lemma TimesSign(a: real, b: real)
    requires a >= 0.0 && b >= 0.0
    ensures Times(a, b) >= 0.0
  {
  }

  lemma TimesZero(a: real, b: real)
    requires a == 0.0
    ensures Times(a, b) == 0.0 && Times(b, a) == 0.0
  {
  }

  lemma TimesOne(a: real)
    ensures Times(1.0, a) == a && Times(a, 1.0) == a
  {
  }

  lemma Commute(a: real, b: real)
    ensures Times(a, b) == Times(b, a)
  {
  }

  lemma Associate(a: real, b: real, c: real)
    ensures Times(a, Times(b, c)) == Times(Times(a, b), c)
  {
    assert a * (b * c) == (a * b) * c;
  }

  lemma Distribute(a: real, b: real, c: real)
    ensures Times(a, b + c) == Times(a, b) + Times(a, c)
    ensures Times(b + c, a) == Times(b, a) + Times(c, a)
  {
  }

  lemma DistributeMinus(a: real, b: real, c: real)
    ensures Times(a, b - c) == Times(a, b) - Times(a, c)
    ensures Times(b - c, a) == Times(b, a) - Times(c, a)
  {
  }

  lemma Negate(a: real, b: real)
    ensures Times(-a, b) == -Times(a, b) && Times(a, -b) == -Times(a, b)
  {
  }

  lemma Scale(k: real, a: real, b: real)
    ensures Times(a, Times(k, b)) == Times(k, Times(a, b))
  {
    assert a * (k * b) == k * (a * b);
  }

  function Ratio(a: real, b: real): real
    requires b != 0.0
  {
    a / b
  }

  /** Division undoes multiplication. */
  lemma Quotient(a: real, b: real)
    requires b != 0.0
    ensures Times(Ratio(a, b), b) == a
  {
  }

  /** A quotient is within a bound exactly when the dividend is within the product. */
  lemma AtMostTimes(a: real, b: real, bound: real)
    requires b > 0.0
    ensures Ratio(a, b) <= bound <==> a <= Times(bound, b)
  {
    Quotient(a, b);
    var q := Ratio(a, b);
    hide Times, Ratio;
    Commute(q, b);
    Commute(bound, b);
    if q <= bound {
      TimesMono(b, q, bound);
    } else {
      DistributeMinus(b, q, bound);
      TimesPositive(b, q - bound);
    }
  }

  /** A quotient reaches a bound exactly when the dividend reaches the product. */
  lemma AtLeastTimes(a: real, b: real, bound: real)
    requires b > 0.0
    ensures Ratio(a, b) >= bound <==> a >= Times(bound, b)
  {
    Quotient(a, b);
    var q := Ratio(a, b);
    hide Times, Ratio;
    Commute(q, b);
    Commute(bound, b);
    if q >= bound {
      TimesMono(b, bound, q);
    } else {
      DistributeMinus(b, bound, q);
      TimesPositive(b, bound - q);
    }
  }

  lemma Cancel(a: real, b: real, q: real)
    requires q != 0.0 && Times(a, q) == Times(b, q)
    ensures a == b
  {
    assert (a - b) * q == 0.0;
  }

  lemma SquareEven(d: real)
    ensures Square(-d) == Square(d)
  {
  }

  lemma SquareOfDifference(a: real, b: real)
    ensures Square(a - b) == Square(a) - 2.0 * Times(a, b) + Square(b)
  {
    assert (a - b) * (a - b) == a * a - 2.0 * (a * b) + b * b;
  }

  lemma SquarePositive(d: real)
    requires d != 0.0
    ensures Square(d) > 0.0
  {
    if d > 0.0 {
      TimesPositive(d, d);
    } else {
      TimesPositive(-d, -d);
      SquareEven(d);
      hide Times;
    }
  }

  lemma SquareSign(d: real)
    ensures Square(d) >= 0.0
    ensures d != 0.0 ==> Square(d) > 0.0
  {
    hide Times;
    if d == 0.0 {
      TimesZero(d, d);
    } else {
      SquarePositive(d);
    }
  }

  lemma SquareMono(a: real, b: real)
    requires 0.0 <= a <= b || b <= a <= 0.0
    ensures Square(a) <= Square(b)
  {
    hide Times;
    if 0.0 <= a <= b {
      TimesMono(a, a, b);
      TimesMono(b, a, b);
      Commute(a, b);
    } else {
      TimesMono(-a, -a, -b);
      TimesMono(-b, -a, -b);
      Commute(-a, -b);
      SquareEven(a);
      SquareEven(b);
    }
  }

  lemma RatioOne(a: real, q: real)
    requires q != 0.0 && a == q
    ensures Ratio(a, q) == 1.0
  {
  }

  lemma RatioInUnit(a: real, n: real)
    requires 0.0 <= a <= n && n > 0.0
    ensures 0.0 <= Ratio(a, n) <= 1.0
    ensures a == n ==> Ratio(a, n) == 1.0
  {
    Quotient(a, n);
    if a == n {
      RatioOne(a, n);
    }
    hide Times, Ratio;
    var m := Ratio(a, n);
    if m < 0.0 {
      TimesPositive(-m, n);
      Negate(m, n);
    }
    if m > 1.0 {
      TimesPositive(m - 1.0, n);
      DistributeMinus(n, m, 1.0);
      TimesOne(n);
    }
  }

  lemma RatioOfDifference(c: real, q: real)
    requires q > 0.0
    ensures Ratio(q - c, q) == 1.0 - Ratio(c, q)
  {
    Quotient(c, q);
    Quotient(q - c, q);
    hide Times, Ratio;
    DistributeMinus(q, 1.0, Ratio(c, q));
    TimesOne(q);
    Cancel(Ratio(q - c, q), 1.0 - Ratio(c, q), q);
  }

  lemma RatioOfSum(a: real, b: real, q: real)
    requires q != 0.0
    ensures Ratio(a + b, q) == Ratio(a, q) + Ratio(b, q)
  {
    Quotient(a, q);
    Quotient(b, q);
    Quotient(a + b, q);
    hide Times, Ratio;
    Distribute(q, Ratio(a, q), Ratio(b, q));
    Cancel(Ratio(a + b, q), Ratio(a, q) + Ratio(b, q), q);
  }

  /** Shares of shares multiply. */
  lemma RatioChain(x: real, q: real, r: real, s: real)
    requires q > 0.0 && r > 0.0
    ensures Times(Times(x, Ratio(r, q)), Ratio(s, r)) == Times(x, Ratio(s, q))
  {
    Quotient(r, q);
    Quotient(s, r);
    Quotient(s, q);
    hide Times, Ratio;
    var f, g := Ratio(r, q), Ratio(s, r);
    Commute(f, g);
    Associate(g, f, q);
    Cancel(Times(f, g), Ratio(s, q), q);
    Associate(x, f, g);
  }
}
