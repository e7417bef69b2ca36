/** Money on a grid of eight decimals (`paper_trading/contracts.py`). */
module Monetary {

  /** Grid points per unit of currency. */
  const GRID: real := 100000000.0

  /** Half of the smallest amount of money. */
  const HALF_UNIT: real := 0.5 / GRID

  /** The nearest integer; a tie goes to the even one. */
  function RoundHalfEven(x: real): int {
    var low := x.Floor;
    var part := x - low as real;
    if part < 0.5 then low
    else if part > 0.5 then low + 1
    else if low % 2 == 0 then low
    else low + 1
  }

  /** It is the nearest integer, and the even one of two that are equally near. */
  lemma RoundHalfEvenIs(x: real)
    ensures -0.5 <= RoundHalfEven(x) as real - x <= 0.5
    ensures (RoundHalfEven(x) as real - x == 0.5 || x - RoundHalfEven(x) as real == 0.5) ==> RoundHalfEven(x) % 2 == 0
  {
  }

  /** An amount quantised to eight decimals. */
  function Money(x: real): real {
    RoundHalfEven(x * GRID) as real / GRID
  }

  /** The amount has at most eight decimals. */
  predicate OnGrid(x: real) {
    (x * GRID).Floor as real == x * GRID
  }

  lemma MoneyOnGrid(x: real)
    ensures OnGrid(Money(x))
  {
    assert Money(x) * GRID == RoundHalfEven(x * GRID) as real;
  }

  /** Quantising changes nothing exactly when the amount is already on the grid. */
  lemma MoneyFixedIffOnGrid(x: real)
    ensures Money(x) == x <==> OnGrid(x)
  {
    if Money(x) == x {
      MoneyOnGrid(x);
    }
  }

  lemma MoneyNear(x: real)
    ensures -HALF_UNIT <= Money(x) - x <= HALF_UNIT
  {
  }

  lemma MoneyMono(x: real, y: real)
    requires x <= y
    ensures Money(x) <= Money(y)
  {
    var a, b := x * GRID, y * GRID;
    assert a.Floor <= b.Floor;
  }

  lemma MoneyOfZero()
    ensures Money(0.0) == 0.0 && OnGrid(0.0)
  {
  }

  lemma GridPoint(x: real, n: int)
    requires x * GRID == n as real
    ensures OnGrid(x)
  {
  }

  lemma GridSum(x: real, y: real)
    requires OnGrid(x) && OnGrid(y)
    ensures OnGrid(x + y) && OnGrid(x - y) && OnGrid(-x)
  {
    var a, b := (x * GRID).Floor, (y * GRID).Floor;
    GridPoint(x + y, a + b);
    GridPoint(x - y, a - b);
    GridPoint(-x, -a);
  }

  /** Two amounts of money less than two units apart are at most one unit apart. */
  lemma GridGap(x: real, y: real)
    requires OnGrid(x) && OnGrid(y) && x - y < 2.0 / GRID
    ensures x - y <= 1.0 / GRID
  {
    var a, b := (x * GRID).Floor, (y * GRID).Floor;
    assert (a - b) as real == (x - y) * GRID;
    assert a - b < 2;
  }
}
