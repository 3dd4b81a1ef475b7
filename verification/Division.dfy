/** Facts about integer division by a positive divisor that the token buckets need. */
module Division {
  function CeilDiv(a: nat, p: nat): nat
    requires p > 0
  {
    (a + p - 1) / p
  }

  lemma MulGrows(d: int, p: int)
    requires p > 0
    ensures d >= 1 ==> d * p >= p
  {
    if d >= 1 {
      assert d * p == p + (d - 1) * p;
      assert (d - 1) * p >= 0;
    }
  }

  /** A multiple of p strictly between -p and p is zero. */
  lemma SmallMultiple(d: int, p: int)
    requires p > 0 && -p < d * p < p
    ensures d == 0
  {
    MulGrows(d, p);
    MulGrows(-d, p);
  }

  lemma DivUnique(a: int, p: int, q: int, r: int)
    requires p > 0 && a == q * p + r && 0 <= r < p
    ensures a / p == q && a % p == r
  {
    var q', r' := a / p, a % p;
    assert a == q' * p + r' by { DivMod(a, p); }
    assert (q - q') * p == r' - r by { assert (q - q') * p == q * p - q' * p; }
    SmallMultiple(q - q', p);
  }

  lemma DivMod(a: int, p: int)
    requires p > 0
    ensures a == a / p * p + a % p && 0 <= a % p < p
  {
  }

  /** Adding whole periods to the dividend adds them to the quotient. */
  lemma DivShift(a: int, p: int, m: int)
    requires p > 0
    ensures (a + m * p) / p == a / p + m
  {
    DivMod(a, p);
    assert a + m * p == (a / p + m) * p + a % p;
    DivUnique(a + m * p, p, a / p + m, a % p);
  }

  /** The quotient moves exactly at multiples of the divisor. */
  lemma DivStep(a: nat, p: nat)
    requires p > 0
    ensures (a + 1) / p == a / p + if (a + 1) % p == 0 then 1 else 0
  {
    DivMod(a, p);
    var q, r := a / p, a % p;
    if r + 1 < p {
      DivUnique(a + 1, p, q, r + 1);
    } else {
      assert a + 1 == (q + 1) * p;
      DivUnique(a + 1, p, q + 1, 0);
    }
  }

  lemma DivMono(a: int, b: int, p: int)
    requires p > 0 && a <= b
    ensures a / p <= b / p
  {
    var d := a / p - b / p;
    DivMod(a, p);
    DivMod(b, p);
    assert d * p == a / p * p - b / p * p;
    MulGrows(d, p);
  }

  /** Ticks between two instants: at least the floor, at most the ceiling of the gap. */
  lemma QuotientGap(x: nat, y: nat, p: nat)
    requires p > 0 && x <= y
    ensures (y - x) / p <= y / p - x / p <= CeilDiv(y - x, p)
  {
    var q := y / p - x / p;
    DivMod(x, p);
    DivMod(y, p);
    assert q * p == y / p * p - x / p * p;
    // (y - x) is q whole periods plus a remainder in (-p, p)
    DivShift(y % p - x % p, p, q);
    assert (y - x) / p == (y % p - x % p) / p + q;
    DivMono(y % p - x % p, p - 1, p);
    DivUnique(p - 1, p, 0, p - 1);
    DivShift(y % p - x % p + p - 1, p, q);
    assert CeilDiv(y - x, p) == (y % p - x % p + p - 1) / p + q;
    DivMono(0, y % p - x % p + p - 1, p);
  }
}
