/** The numbers that parseInt returns: whole numbers rounded to binary64, ties to even, as IEEE 754 has it. */
module Binary64 {
  const EXACT := 0x20_0000_0000_0000  // 2^53

  function Pow2(e: nat): (p: nat)
    ensures p > 0
  {
    if e == 0 then 1 else 2 * Pow2(e - 1)
  }

  /** By how many binary digits a number is too long. */
  function Scale(n: nat): nat {
    if n < EXACT then 0 else 1 + Scale(n / 2)
  }

  /** The nearest multiple, ties to an even one. */
  function Rounded(n: nat, unit: nat): nat
    requires unit > 0
  {
    var q, r := n / unit, n % unit;
    (if 2 * r > unit || (2 * r == unit && q % 2 == 1) then q + 1 else q) * unit
  }

  function Nearest(n: nat): nat {
    if n < EXACT then n else Rounded(n, Pow2(Scale(n)))
  }

  lemma SmallNumbersAreExact(n: nat)
    requires n <= EXACT
    ensures Nearest(n) == n
  {
    if n == EXACT {
      assert Scale(n) == 1 + Scale(n / 2) == 1;
      assert Pow2(1) == 2;
    }
  }

  // ---- rounding keeps the order ----

  lemma MulKeepsOrder(a: nat, b: nat, unit: nat)
    requires a <= b
    ensures a * unit <= b * unit
  {
  }

  lemma Quotient(n: nat, unit: nat)
    requires unit > 0
    ensures (n / unit) * unit + n % unit == n && n % unit < unit
  {
  }

  /** A number below a multiple has a quotient below its factor. */
  lemma QuotientBelow(n: nat, unit: nat, k: nat)
    requires unit > 0
    ensures n < k * unit <==> n / unit < k
  {
    Quotient(n, unit);
    if n / unit < k { MulKeepsOrder(n / unit + 1, k, unit); } else { MulKeepsOrder(k, n / unit, unit); }
  }

  lemma RoundedBetween(n: nat, unit: nat)
    requires unit > 0
    ensures Rounded(n, unit) == (n / unit) * unit || Rounded(n, unit) == (n / unit + 1) * unit
  {
  }

  lemma QuotientKeepsOrder(m: nat, n: nat, unit: nat)
    requires unit > 0 && m <= n
    ensures m / unit <= n / unit
  {
    Quotient(m, unit);
    QuotientBelow(n, unit, m / unit);
  }

  lemma StepsKeepOrder(p: nat, q: nat, unit: nat)
    requires p < q
    ensures p * unit <= (p + 1) * unit <= q * unit <= (q + 1) * unit
  {
    MulKeepsOrder(p, p + 1, unit);
    MulKeepsOrder(p + 1, q, unit);
    MulKeepsOrder(q, q + 1, unit);
  }

  lemma RoundedKeepsOrder(m: nat, n: nat, unit: nat)
    requires unit > 0 && m <= n
    ensures Rounded(m, unit) <= Rounded(n, unit)
  {
    QuotientKeepsOrder(m, n, unit);
    if m / unit < n / unit {
      StepsKeepOrder(m / unit, n / unit, unit);
      RoundedBetween(m, unit);
      RoundedBetween(n, unit);
    } else {
      SameQuotient(m, n, unit);
    }
  }

  lemma SameQuotient(m: nat, n: nat, unit: nat)
    requires unit > 0 && m <= n && m / unit == n / unit
    ensures Rounded(m, unit) <= Rounded(n, unit)
  {
    Quotient(m, unit);
    Quotient(n, unit);
    var q := m / unit;
    assert m % unit <= n % unit;
    MulKeepsOrder(q, q + 1, unit);
  }

  lemma {:induction false} ScaleKeepsOrder(m: nat, n: nat)
    requires m <= n
    ensures Scale(m) <= Scale(n)
  {
    if m >= EXACT { ScaleKeepsOrder(m / 2, n / 2); }
  }

  /** A number that is too long has exactly 53 binary digits left of its last unit. */
  lemma {:induction false} ScaleBounds(n: nat)
    requires n >= EXACT
    ensures Scale(n) > 0 && (EXACT / 2) * Pow2(Scale(n)) <= n < EXACT * Pow2(Scale(n))
  {
    if n / 2 < EXACT {
      assert Scale(n) == 1 && Pow2(1) == 2;
    } else {
      ScaleBounds(n / 2);
      var p := Pow2(Scale(n / 2));
      assert Pow2(Scale(n)) == 2 * p;
    }
  }

  lemma {:induction false} Pow2KeepsOrder(d: nat, e: nat)
    requires d <= e
    ensures Pow2(d) <= Pow2(e)
  {
    if d < e { Pow2KeepsOrder(d, e - 1); }
  }

  lemma NearestBounds(n: nat)
    requires n >= EXACT
    ensures (EXACT / 2) * Pow2(Scale(n)) <= Nearest(n) <= EXACT * Pow2(Scale(n))
  {
    var unit := Pow2(Scale(n));
    var q := n / unit;
    ScaleBounds(n);
    RoundedBetween(n, unit);
    QuotientBelow(n, unit, EXACT);
    QuotientBelow(n, unit, EXACT / 2);
    MulKeepsOrder(q, EXACT, unit);
    MulKeepsOrder(q + 1, EXACT, unit);
    MulKeepsOrder(EXACT / 2, q, unit);
    MulKeepsOrder(EXACT / 2, q + 1, unit);
  }

  lemma NearestAtMost(m: nat)
    ensures Nearest(m) <= (EXACT / 2) * Pow2(Scale(m) + 1)
  {
    var p := Pow2(Scale(m));
    assert Pow2(Scale(m) + 1) == 2 * p && (EXACT / 2) * (2 * p) == EXACT * p;
    if m >= EXACT { NearestBounds(m); } else { assert p == 1; }
  }

  lemma NearestBelow(m: nat, n: nat)
    requires n >= EXACT && Scale(m) < Scale(n)
    ensures Nearest(m) <= Nearest(n)
  {
    var d, e := Scale(m) + 1, Scale(n);
    NearestAtMost(m);
    Pow2KeepsOrder(d, e);
    MulKeepsLeft(EXACT / 2, Pow2(d), Pow2(e));
    NearestBounds(n);
  }

  lemma MulKeepsLeft(k: nat, a: nat, b: nat)
    requires a <= b
    ensures k * a <= k * b
  {
  }

  /** A greater number is never rounded to a lesser one. */
  lemma NearestKeepsOrder(m: nat, n: nat)
    requires m <= n
    ensures Nearest(m) <= Nearest(n)
  {
    ScaleKeepsOrder(m, n);
    if n >= EXACT {
      if Scale(m) < Scale(n) {
        NearestBelow(m, n);
      } else {
        assert m >= EXACT;
        RoundedKeepsOrder(m, n, Pow2(Scale(n)));
      }
    }
  }

  // ---- rounding is to the nearest ----

  /** A multiple of the unit at most half a unit away, and an even one if two are as near. */
  ghost predicate IsNearest(n: nat, unit: nat, q: nat) {
    var away := if n < q * unit then q * unit - n else n - q * unit;
    2 * away <= unit && (2 * away == unit ==> q % 2 == 0)
  }

  lemma RoundedIsNearest(n: nat, unit: nat) returns (q: nat)
    requires unit > 0
    ensures Rounded(n, unit) == q * unit && IsNearest(n, unit, q)
  {
    Quotient(n, unit);
    q := n / unit;
    if 2 * (n % unit) > unit || (2 * (n % unit) == unit && q % 2 == 1) {
      assert (q + 1) * unit == q * unit + unit;
      q := q + 1;
    }
  }

  /** A number is rounded to 53 binary digits: to the nearest number that has no more, and to an even one at a tie. */
  lemma NearestIsNearest(n: nat)
    requires n >= EXACT
    ensures exists e: nat, q: nat ::
              && (EXACT / 2) * Pow2(e) <= n < EXACT * Pow2(e)
              && Nearest(n) == q * Pow2(e) && IsNearest(n, Pow2(e), q)
  {
    ScaleBounds(n);
    var q := RoundedIsNearest(n, Pow2(Scale(n)));
  }
}
