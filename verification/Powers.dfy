/** Powers of two: the sizes of address blocks and the values of bit masks. */
module Powers {

  function Pow2(n: nat): (p: nat)
    ensures p >= 1
  {
    if n == 0 then 1 else 2 * Pow2(n - 1)
  }

  lemma {:induction false} Pow2Add(a: nat, b: nat)
    ensures Pow2(a + b) == Pow2(a) * Pow2(b)
  {
    if a == 0 {
    } else {
      Pow2Add(a - 1, b);
      assert Pow2(a + b) == 2 * Pow2(a - 1 + b);
    }
  }

  lemma {:induction false} Pow2Grows(a: nat, b: nat)
    requires a < b
    ensures 2 * Pow2(a) <= Pow2(b)
  {
    if b == a + 1 {
    } else {
      Pow2Grows(a, b - 1);
    }
  }

  lemma MulAssoc(x: int, y: int, z: int)
    ensures (x * y) * z == x * (y * z)
  {
  }

  lemma MulMono(x: nat, y: nat, p: nat)
    requires x <= y
    ensures x * p <= y * p
  {
  }

  /** Euclid: quotient and remainder are determined by the equation. */
  lemma DivUnique(n: nat, d: nat, q: nat, r: nat)
    requires d > 0 && r < d && n == q * d + r
    ensures n / d == q && n % d == r
  {
    var q' := n / d;
    assert n == d * q' + n % d;
    if q' < q {
      MulMono(q' + 1, q, d);
      assert false;
    }
    if q' > q {
      MulMono(q + 1, q', d);
      assert false;
    }
  }

  lemma MulMod(k: nat, d: nat)
    requires d > 0
    ensures (k * d) % d == 0 && (k * d) / d == k
  {
    DivUnique(k * d, d, k, 0);
  }

  lemma ModOfProduct(k: nat, m: nat, p: nat)
    requires p > 0
    ensures (k * (m * p)) % p == 0
  {
    MulAssoc(k, m, p);
    MulMod(k * m, p);
  }

  /** A multiple of 2^b is a multiple of every smaller power. */
  lemma MultipleOfSmaller(n: nat, a: nat, b: nat)
    requires a <= b && n % Pow2(b) == 0
    ensures n % Pow2(a) == 0
  {
    Pow2Add(b - a, a);
    var d := Pow2(b);
    var k := n / d;
    assert n == k * d;
    ModOfProduct(k, Pow2(b - a), Pow2(a));
  }

  /** n with its low k bits cleared. */
  function ClearLow(n: nat, k: nat): nat {
    if k == 0 then n else 2 * ClearLow(n / 2, k - 1)
  }

  lemma {:induction false} ClearLowAligned(n: nat, k: nat)
    ensures ClearLow(n, k) % Pow2(k) == 0
    ensures ClearLow(n, k) <= n < ClearLow(n, k) + Pow2(k)
  {
    if k > 0 {
      ClearLowAligned(n / 2, k - 1);
      var p := Pow2(k - 1);
      var q := ClearLow(n / 2, k - 1) / p;
      assert ClearLow(n / 2, k - 1) == q * p;
      assert ClearLow(n, k) == q * (2 * p);
      MulMod(q, 2 * p);
    }
  }

  /** n >> s: halving, rounding down, s times. */
  function Shr(n: nat, s: nat): nat {
    if s == 0 then n else Shr(n, s - 1) / 2
  }

  lemma {:induction false} ShrBound(n: nat, s: nat, t: nat)
    requires n < Pow2(s + t)
    ensures Shr(n, s) < Pow2(t)
  {
    if s > 0 {
      ShrBound(n, s - 1, t + 1);
    }
  }

  lemma ShrNibble(n: nat, s: nat)
    ensures Shr(n, s + 4) == Shr(n, s) / 16
  {
    assert Shr(n, s + 2) == Shr(n, s + 1) / 2 == Shr(n, s) / 4;
    assert Shr(n, s + 4) == Shr(n, s + 3) / 2 == Shr(n, s + 2) / 4;
  }

  lemma ShrWord(n: nat, s: nat)
    ensures Shr(n, s + 16) == Shr(n, s) / 65536
  {
    ShrNibble(n, s);
    ShrNibble(n, s + 4);
    ShrNibble(n, s + 8);
    ShrNibble(n, s + 12);
  }
}
