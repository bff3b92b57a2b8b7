/** Powers of two, and division by them. */
module Powers {

  function Pow2(n: nat): (p: nat)
    ensures p >= 1
  {
    if n == 0 then 1 else 2 * Pow2(n - 1)
  }

  lemma {:induction false} PowAdds(a: nat, b: nat)
    ensures Pow2(a + b) == Pow2(a) * Pow2(b)
  {
    if a > 0 {
      PowAdds(a - 1, b);
      assert Pow2(a + b) == 2 * (Pow2(a - 1) * Pow2(b)) == Pow2(a) * Pow2(b);
    }
  }

  lemma {:induction false} PowGrows(a: nat, b: nat)
    requires a <= b
    ensures Pow2(a) <= Pow2(b)
  {
    if a < b { PowGrows(a, b - 1); }
  }

  lemma SmallPowers()
    ensures Pow2(4) == 16 && Pow2(8) == 256 && Pow2(9) == 512 && Pow2(12) == 0x1000 && Pow2(16) == 0x1_0000
    ensures Pow2(17) == 0x2_0000 && Pow2(20) == 0x10_0000 && Pow2(22) == 0x40_0000 && Pow2(24) == 0x100_0000
    ensures Pow2(28) == 0x1000_0000 && Pow2(29) == 0x2000_0000
  {
    assert Pow2(4) == 16;
    PowAdds(4, 4);
    PowAdds(8, 1);
    PowAdds(8, 4);
    PowAdds(8, 8);
    PowAdds(16, 1);
    PowAdds(16, 4);
    PowAdds(20, 2);
    PowAdds(16, 8);
    PowAdds(24, 4);
    PowAdds(28, 1);
  }

  /** The quotient is `q` exactly on the q-th interval. */
  lemma QuotientIs(v: nat, p: nat, q: nat)
    requires p >= 1
    ensures v / p == q <==> q * p <= v < q * p + p
  {
    var d, r := v / p, v % p;
    assert v == d * p + r && 0 <= r < p;
    if d < q { assert (d + 1) * p <= q * p; }
    if d > q { assert (q + 1) * p <= d * p; }
  }

  lemma QuotientOfQuotient(v: nat, a: nat, b: nat)
    requires a >= 1 && b >= 1
    ensures a * b >= 1 && v / a / b == v / (a * b)
  {
    ProductIsPositive(a, b);
    QuotientIsNat(v, a);
    QuotientIsNat(v / a, b);
    var w, q := v / a, v / a / b;
    QuotientIs(w, b, q);
    QuotientIs(v, a, w);
    Regroup(v, w, q, a, b);
    QuotientIs(v, a * b, q);
  }

  lemma ProductIsPositive(a: nat, b: nat)
    requires a >= 1 && b >= 1
    ensures a * b >= 1
  {
    Scales(1, a, b);
  }

  lemma QuotientIsNat(v: nat, a: nat)
    requires a >= 1
    ensures v / a >= 0
  {
  }

  lemma Regroup(v: nat, w: nat, q: nat, a: nat, b: nat)
    requires q * b <= w < q * b + b && w * a <= v < w * a + a
    ensures q * (a * b) <= v < q * (a * b) + a * b
  {
    Scales(q * b, w, a);
    Scales(w + 1, q * b + b, a);
    assert (w + 1) * a == w * a + a;
    assert q * b * a == q * (a * b);
    assert (q * b + b) * a == q * (a * b) + a * b;
  }

  lemma Scales(x: int, y: int, a: nat)
    requires x <= y
    ensures x * a <= y * a
  {
  }
}
