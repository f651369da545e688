/** Decimal columns. Amounts on their way to the database are exact reals measured in the column's
    last place (cents for a two-decimal column); a stored amount is an integer number of them. */
module Money {

  /** What a `Decimal(18, 2)` column, or `toDecimalPlaces(2)`, keeps of a value: the nearest integer
      number of cents, halves going away from zero. The three clauses determine the result. */
  function Round(x: real): (c: int)
    ensures x - 0.5 <= c as real <= x + 0.5
    ensures 0.0 <= x ==> 0 <= c && x - 0.5 < c as real
    ensures x <= 0.0 ==> c <= 0 && c as real < x + 0.5
  {
    if x >= 0.0 then (x + 0.5).Floor else -((0.5 - x).Floor)
  }

  /** A value that the column can hold is stored unchanged. */
  lemma RoundWhole(n: int)
    ensures Round(n as real) == n
  {
    var c := Round(n as real);
    assert (c - n) as real <= 0.5 && (n - c) as real <= 0.5;
  }

  lemma RoundMonotone(x: real, y: real)
    requires x <= y
    ensures Round(x) <= Round(y)
  {
  }

  lemma RoundNegated(x: real)
    ensures Round(-x) == -Round(x)
  {
  }

  /** A value half way between two that the column can hold. */
  predicate Half(x: real) {
    x - x.Floor as real == 0.5
  }

  /** The result from the fraction: up from a half on, except that a negative half goes down. */
  lemma RoundByFraction(x: real)
    ensures Round(x) == x.Floor + if x - x.Floor as real < 0.5 || (Half(x) && x < 0.0) then 0 else 1
  {
  }

  /** Two nonnegative parts of a whole amount are stored as parts of it unless both sit on a half cent,
      in which case both go up and the stored parts exceed the whole by one cent. */
  lemma RoundParts(x: real, y: real, whole: int)
    requires 0.0 <= x && 0.0 <= y && x + y == whole as real
    ensures Round(x) + Round(y) == if x - x.Floor as real == 0.5 then whole + 1 else whole
  {
    var f := x - x.Floor as real;
    if f < 0.5 {
      assert Round(x) == x.Floor;
      assert (Round(y) - (whole - x.Floor)) as real <= 0.5 + f;
    } else {
      assert Round(x) == x.Floor + 1;
    }
  }

  /** Whether two amounts rounded one by one give their rounded sum, told from their fractions. */
  predicate AddUp(x: real, y: real) {
    var f, g := x - x.Floor as real, y - y.Floor as real;
    if f < 0.5 && g < 0.5 then f + g < 0.5
    else if 0.5 <= f && 0.5 <= g then 1.5 <= f + g
    else true
  }

  lemma RoundSum(x: real, y: real)
    requires 0.0 <= x && 0.0 <= y
    ensures Round(x) + Round(y) == Round(x + y) <==> AddUp(x, y)
  {
    var f, g := x - x.Floor as real, y - y.Floor as real;
    RoundByFraction(x);
    RoundByFraction(y);
    RoundByFraction(x + y);
    FloorOfSum(x, y);
  }

  lemma FloorOfSum(x: real, y: real)
    ensures var f, g := x - x.Floor as real, y - y.Floor as real;
            (x + y).Floor == x.Floor + y.Floor + if f + g < 1.0 then 0 else 1
  {
  }

  /** A rounded quotient, multiplied back, misses the dividend by at most half the divisor. */
  lemma RoundQuotient(a: real, n: int)
    requires 0 < n
    ensures a - n as real * 0.5 <= (n * Round(a / n as real)) as real <= a + n as real * 0.5
  {
    Quotient(a, n as real);
    Above(a, n, a / n as real, Round(a / n as real));
    Below(a, n, a / n as real, Round(a / n as real));
  }

  lemma Quotient(a: real, k: real)
    requires k > 0.0
    ensures k * (a / k) == a
  {
  }

  lemma Above(a: real, n: int, x: real, c: int)
    requires 0 < n && n as real * x == a && c as real <= x + 0.5
    ensures (n * c) as real <= a + n as real * 0.5
  {
    Scale(n as real, c as real, x + 0.5);
    assert n as real * c as real == (n * c) as real;
    assert n as real * (x + 0.5) == a + n as real * 0.5;
  }

  lemma Below(a: real, n: int, x: real, c: int)
    requires 0 < n && n as real * x == a && x - 0.5 <= c as real
    ensures a - n as real * 0.5 <= (n * c) as real
  {
    Scale(n as real, x - 0.5, c as real);
    assert n as real * c as real == (n * c) as real;
    assert n as real * (x - 0.5) == a - n as real * 0.5;
  }

  lemma Scale(k: real, x: real, y: real)
    requires 0.0 <= k && x <= y
    ensures k * x <= k * y
  {
  }

  lemma ScaleInt(n: nat, x: int, y: int)
    requires x <= y
    ensures n * x <= n * y
  {
  }

  lemma ProductAsReal(m: int, n: int)
    ensures m as real * n as real == (m * n) as real
  {
  }

  /** A quotient between whole bounds. */
  lemma QuotientWithin(a: real, n: int, lo: int, hi: int)
    requires 0 < n && (n * lo) as real <= a <= (n * hi) as real
    ensures lo <= Round(a / n as real) <= hi
  {
    hide Round;
    var x := a / n as real;
    Quotient(a, n as real);
    ProductAsReal(n, lo);
    ProductAsReal(n, hi);
    Unscale(n as real, lo as real, x);
    Unscale(n as real, x, hi as real);
    RoundWhole(lo);
    RoundWhole(hi);
    RoundMonotone(lo as real, x);
    RoundMonotone(x, hi as real);
  }

  lemma Unscale(k: real, x: real, y: real)
    requires 0.0 < k && k * x <= k * y
    ensures x <= y
  {
  }
}
