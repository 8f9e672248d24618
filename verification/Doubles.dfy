/** IEEE 754 doubles as far as whole numbers go: 53 significant bits, rounded to
    nearest, ties to even. Scaling by a power of two is exact, so a product with
    a fraction over 2^53 rounds as the product of the numerators does. */
module Doubles {
  /** 2^53, and half of it. */
  const Precision := 0x20_0000_0000_0000
  const Half := 0x10_0000_0000_0000

  function Pow2(n: nat): (p: nat)
    ensures p >= 1
  {
    if n == 0 then 1 else 2 * Pow2(n - 1)
  }

  /** The exponent of the unit in the last place of the doubles around `n`. */
  function Exponent(n: nat): nat {
    if n < Precision then 0 else 1 + Exponent(n / 2)
  }

  function Unit(n: nat): (u: nat)
    ensures u >= 1
  {
    Pow2(Exponent(n))
  }

  /** The multiple of the unit at or below `n`. */
  function Floor(n: nat): (f: nat)
    ensures f <= n < f + Unit(n)
  {
    n - n % Unit(n)
  }

  /** float64(n). */
  function Rounded(n: nat): (r: nat)
    ensures Floor(n) <= r && 2 * n - Unit(n) <= 2 * r <= 2 * n + Unit(n)
  {
    var rest := n - Floor(n);
    if 2 * rest < Unit(n) || (2 * rest == Unit(n) && (n / Unit(n)) % 2 == 0) then Floor(n) else Floor(n) + Unit(n)
  }

  ghost predicate Holds(n: int, m: nat, e: nat) {
    m <= Precision && n == m * Pow2(e)
  }

  /** A whole number that a double holds exactly. */
  ghost predicate IsDouble(n: int) {
    exists m: nat, e: nat :: Holds(n, m, e)
  }

  // ---------------------------------------------------------- arithmetic

  lemma MulMonotone(k: int, x: int, y: int)
    requires k >= 0 && x <= y
    ensures k * x <= k * y
  {
  }

  lemma {:induction false} Pow2Sum(i: nat, j: nat)
    ensures Pow2(i + j) == Pow2(i) * Pow2(j)
    decreases j
  {
    if j == 0 {
      assert Pow2(j) == 1;
    } else {
      Pow2Sum(i, j - 1);
      assert Pow2(i + j) == 2 * Pow2(i + (j - 1)) && Pow2(j) == 2 * Pow2(j - 1);
      hide Pow2;
      Twice(Pow2(i), Pow2(j - 1));
    }
  }

  lemma Twice(x: int, y: int)
    ensures 2 * (x * y) == x * (2 * y)
  {
  }

  lemma {:induction false} Pow2Monotone(i: nat, j: nat)
    requires i <= j
    ensures Pow2(i) <= Pow2(j)
    decreases j
  {
    if i < j { Pow2Monotone(i, j - 1); }
  }

  lemma DivMod(n: nat, u: nat)
    requires u >= 1
    ensures n == (n / u) * u + n % u && 0 <= n % u < u && n / u >= 0
  {
  }

  // ----------------------------------------------------------- exponents

  lemma {:induction false} ExponentAtMost(n: nat, k: nat)
    requires n < Precision * Pow2(k)
    ensures Exponent(n) <= k
  {
    if n >= Precision {
      assert k > 0;
      assert n / 2 < Precision * Pow2(k - 1);
      ExponentAtMost(n / 2, k - 1);
    }
  }

  lemma {:induction false} ExponentIs(n: nat, k: nat)
    requires Half * Pow2(k) <= n < Precision * Pow2(k)
    ensures Exponent(n) == k
  {
    if k > 0 {
      assert Half * Pow2(k) == Precision * Pow2(k - 1);
      MulMonotone(Precision, 1, Pow2(k - 1));
      assert Half * Pow2(k - 1) <= n / 2 < Precision * Pow2(k - 1);
      ExponentIs(n / 2, k - 1);
    }
  }

  lemma {:induction false} ExponentRange(n: nat)
    ensures n < Precision * Unit(n)
    ensures n >= Precision ==> n >= Half * Unit(n)
  {
    if n >= Precision {
      ExponentRange(n / 2);
    }
  }

  // ------------------------------------------------------------ rounding

  /** The multiples of `u` around n. */
  lemma Multiples(n: nat, u: nat, c: nat)
    requires u >= 1
    ensures c * u <= n ==> c * u <= n - n % u
    ensures n <= c * u ==> n % u == 0 || n - n % u + u <= c * u
  {
    DivMod(n, u);
    if c * u <= n {
      LessFactor(u, c, n / u + 1);
      MulMonotone(u, c, n / u);
    }
    if n <= c * u && n % u > 0 {
      LessFactor(u, n / u, c);
      MulMonotone(u, n / u + 1, c);
    }
  }

  lemma LessFactor(u: nat, x: int, y: int)
    requires x * u < y * u
    ensures x < y
  {
    if y <= x { MulMonotone(u, y, x); assert false; }
  }

  /** No double lies strictly between the two multiples of the unit around n. */
  lemma NoneBetween(n: nat, d: int)
    requires IsDouble(d)
    ensures d <= n ==> d <= Floor(n)
    ensures n <= d ==> Floor(n) == n || Floor(n) + Unit(n) <= d
  {
    var m: nat, e: nat :| Holds(d, m, e);
    var k := Exponent(n);
    if k <= e {
      Pow2Sum(k, e - k);
      Regroup(m, Pow2(e - k), Pow2(k));
      Multiples(n, Pow2(k), m * Pow2(e - k));
    } else {
      SmallDouble(n, m, e);
      Multiples(n, Pow2(k), Half);
    }
  }

  lemma Regroup(x: nat, y: nat, z: nat)
    ensures (x * y) * z == x * (z * y)
  {
  }

  /** A double of a smaller unit lies below n. */
  lemma SmallDouble(n: nat, m: nat, e: nat)
    requires m <= Precision && e < Exponent(n)
    ensures m * Pow2(e) <= Half * Unit(n) <= n
    ensures m * Pow2(e) == n ==> Half * Unit(n) == n
  {
    var k := Exponent(n);
    ExponentRange(n);
    MulMonotone(Pow2(e), m, Precision);
    Pow2Monotone(e, k - 1);
    MulMonotone(Precision, Pow2(e), Pow2(k - 1));
    assert Half * Unit(n) == Precision * Pow2(k - 1);
  }

  /** The two multiples of the unit around n are doubles. */
  lemma Neighbours(n: nat)
    ensures IsDouble(Floor(n)) && IsDouble(Floor(n) + Unit(n))
  {
    var q := n / Unit(n);
    DivMod(n, Unit(n));
    ExponentRange(n);
    LessFactor(Unit(n), q, Precision);
    assert Holds(Floor(n), q, Exponent(n)) && Holds(Floor(n) + Unit(n), q + 1, Exponent(n));
  }

  /** Rounding gives a double, and none is nearer. */
  lemma RoundedNearest(n: nat, d: int)
    requires IsDouble(d)
    ensures IsDouble(Rounded(n))
    ensures n - Rounded(n) <= (if d <= n then n - d else d - n)
    ensures Rounded(n) - n <= (if d <= n then n - d else d - n)
  {
    hide Unit, Floor, IsDouble;
    NoneBetween(n, d);
    Neighbours(n);
  }

  lemma RoundedIsDouble(n: nat)
    ensures IsDouble(Rounded(n))
  {
    Neighbours(n);
  }

  lemma RoundedExact(n: nat)
    requires IsDouble(n)
    ensures Rounded(n) == n
  {
    RoundedNearest(n, n);
  }

  // ------------------------------------------------------------- products

  function Log(n: nat): nat
    requires n > 0
  {
    if n == 1 then 0 else 1 + Log(n / 2)
  }

  lemma {:induction false} LogRange(n: nat)
    requires n > 0
    ensures Pow2(Log(n)) <= n < 2 * Pow2(Log(n))
  {
    if n > 1 { LogRange(n / 2); }
  }

  /** The error of rounding a product by a 53-bit number is below the other
      factor, or none. */
  lemma ProductError(s: nat, f: nat)
    requires s < Precision && f > 0
    ensures s * f >= 0
    ensures Rounded(s * f) == s * f || (s * f - f < Rounded(s * f) < s * f + f)
  {
    var n, p := s * f, Pow2(Log(f));
    LogRange(f);
    MulMonotone(f, 0, s);
    if f == p {
      assert Holds(n, s, Log(f));
      RoundedExact(n);
    } else {
      MulMonotone(f, s, Precision);
      assert n < Precision * Pow2(Log(f) + 1);
      ExponentAtMost(n, Log(f) + 1);
      Pow2Monotone(Exponent(n), Log(f) + 1);
    }
  }

  /** A fraction below 1 of a positive number, in doubles: the number rounded,
      multiplied, rounded again and cut off. */
  function Fraction(s: nat, j: nat): int
    requires s < Precision
  {
    Rounded(s * Rounded(j)) / Precision
  }

  /** The fraction stays below the number itself, however much both roundings
      rounded up. */
  lemma FractionBelow(s: nat, j: nat)
    requires s < Precision && j > 0
    ensures 0 <= Fraction(s, j) < j
  {
    var f := Rounded(j);
    RoundedPositive(j);
    if f <= j {
      ProductBelow(s, f);
      MulMonotone(Precision, f, j);
    } else {
      RoundedUpBelow(s, j);
    }
  }

  lemma RoundedPositive(n: nat)
    requires n > 0
    ensures Rounded(n) > 0
  {
    assert Holds(1, 1, 0);
    NoneBetween(n, 1);
  }

  lemma ProductBelow(s: nat, f: nat)
    requires s < Precision && f > 0
    ensures Rounded(s * f) < Precision * f
  {
    ProductError(s, f);
    MulMonotone(f, s, Precision - 1);
  }

  /** A number rounded up is one unit above its floor, `q` units; the product is
      below q + 1 units, by more than half the unit it is itself rounded in. */
  lemma RoundedUpBelow(s: nat, j: nat)
    requires s < Precision && Rounded(j) > j
    ensures Rounded(s * Rounded(j)) < Precision * j
  {
    var u := Unit(j);
    var q := j / u;
    DivMod(j, u);
    assert Floor(j) == q * u && Rounded(j) == (q + 1) * u && q * u < j;
    assert j < Precision ==> Exponent(j) == 0;
    ExponentRange(j);
    LessFactor(u, q, Precision);
    LessFactor(u, Half - 1, q);
    ProductOfUnits(s, q, Exponent(j));
    MulMonotone(Precision, q * u, j - 1);
  }

  lemma ProductOfUnits(s: nat, q: nat, k: nat)
    requires s < Precision && Half <= q < Precision
    ensures Rounded(s * ((q + 1) * Pow2(k))) <= Precision * (q * Pow2(k))
  {
    hide Pow2, Rounded, IsDouble;
    WideUnit(q, k);
    ProductAt(s * ((q + 1) * Pow2(k)), s, q, q * Pow2(k), Pow2(k), k + 53);
  }

  lemma ProductAt(n: nat, s: nat, q: nat, x: nat, u: nat, e: nat)
    requires s < Precision && Half <= q < Precision && u > 0
    requires n == s * (x + u) && x == q * u && Pow2(e) == Precision * u && q * Pow2(e) == Precision * x
    ensures Rounded(n) <= Precision * x
  {
    if n <= Precision * x {
      assert Holds(Precision * x, q, e);
      RoundedDown(n, Precision * x);
    } else {
      hide Rounded, Pow2;
      MulMonotone(u, Half, q);
      MulMonotone(u, q, Precision - 1);
      Gap(s, x, u);
      JustAbove(n, q, e);
    }
  }

  lemma PrecisionIs()
    ensures Pow2(53) == Precision
  {
    assert Pow2(13) == 8192 && Pow2(20) == 0x10_0000;
    Pow2Sum(20, 20);
    Pow2Sum(40, 13);
  }

  lemma WideUnit(q: nat, k: nat)
    ensures Pow2(k + 53) == Precision * Pow2(k)
    ensures q * Pow2(k + 53) == Precision * (q * Pow2(k)) && (q + 1) * Pow2(k) == q * Pow2(k) + Pow2(k)
  {
    hide Pow2;
    PrecisionIs();
    Pow2Sum(k, 53);
    Regroup(q, Precision, Pow2(k));
  }

  lemma RoundedDown(n: nat, d: int)
    requires IsDouble(d) && n <= d
    ensures Rounded(n) <= d
  {
    NoneBetween(n, d);
  }

  lemma Gap(s: nat, x: nat, u: nat)
    requires s < Precision && Half * u <= x <= (Precision - 1) * u && u > 0
    ensures 2 * (s * (x + u) - Precision * x) < Precision * u
    ensures s * (x + u) < Precision * (Precision * u)
  {
    MulMonotone(x + u, s, Precision - 1);
  }

  lemma JustAbove(n: nat, q: nat, e: nat)
    requires Half <= q < Precision && q * Pow2(e) < n < Precision * Pow2(e) && 2 * (n - q * Pow2(e)) < Pow2(e)
    ensures Rounded(n) == q * Pow2(e)
  {
    MulMonotone(Pow2(e), Half, q);
    ExponentIs(n, e);
    Remainder(n, q, Pow2(e));
  }

  lemma Remainder(n: nat, q: nat, w: nat)
    requires q * w <= n < q * w + w
    ensures n / w == q && n % w == n - q * w
  {
    DivMod(n, w);
    LessFactor(w, n / w, q + 1);
    LessFactor(w, q, n / w + 1);
  }

  /** Below 2^53 the exact fraction is missed by one at most. */
  lemma FractionNear(s: nat, j: nat)
    requires s < Precision && 0 < j < Precision
    ensures s * j / Precision - 1 <= Fraction(s, j) <= s * j / Precision + 1
  {
    assert Holds(j, j, 0);
    RoundedExact(j);
    ProductError(s, j);
    var n := s * j;
    DivMod(n, Precision);
    DivMod(Rounded(n), Precision);
  }

  /** And it is missed: a third of 2^53, of three. */
  lemma FractionRoundsUp()
    ensures 6004799503160661 * 3 / Precision == 1 && Fraction(6004799503160661, 3) == 2
  {
    assert Holds(3, 3, 0);
    RoundedExact(3);
    assert Exponent(18014398509481983) == 1;
  }
}
