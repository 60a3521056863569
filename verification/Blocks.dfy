/** Aligned address blocks (section 3.1 of RFC 4632): a CIDR of prefix length p in
    a b-bit family is the block of 2^(b-p) addresses at a multiple of that size. */
module Blocks {
  import opened Powers

  /** `size` is the number of free low bits; the printed prefix length is bits - size. */
  datatype Block = Block(base: nat, size: nat) {
    function End(): nat { base + Pow2(size) }

    predicate Aligned() { base % Pow2(size) == 0 }

    predicate Has(x: int) { base <= x < End() }
  }

  predicate Inside(a: Block, b: Block) {
    b.base <= a.base && a.End() <= b.End()
  }

  predicate Disjoint(a: Block, b: Block) {
    a.End() <= b.base || b.End() <= a.base
  }

  /** Two aligned blocks are nested or disjoint. */
  lemma {:induction false} Laminar(a: Block, b: Block)
    requires a.Aligned() && b.Aligned() && a.size <= b.size
    ensures Inside(a, b) || Disjoint(a, b)
  {
    var P, M := Pow2(a.size), Pow2(b.size - a.size);
    var k, j := a.base / P, b.base / Pow2(b.size);
    assert Pow2(b.size) == M * P by { Pow2Add(b.size - a.size, a.size); }
    assert a.base == k * P && b.base == j * (M * P);
    MulAssoc(j, M, P);
    LaminarTimes(k, j * M, M, P);
  }

  lemma {:induction false} LaminarTimes(k: nat, jm: nat, m: nat, p: nat)
    ensures (jm * p <= k * p && k * p + p <= jm * p + m * p) || k * p + p <= jm * p || jm * p + m * p <= k * p
  {
    Ends(k, jm, m, p);
    if k + 1 <= jm {
      MulMono(k + 1, jm, p);
    } else if jm + m <= k {
      MulMono(jm + m, k, p);
    } else {
      MulMono(jm, k, p);
      MulMono(k + 1, jm + m, p);
    }
  }

  lemma Ends(k: nat, jm: nat, m: nat, p: nat)
    ensures (k + 1) * p == k * p + p && (jm + m) * p == jm * p + m * p
  {
  }

  /** An aligned block that has an address of another, not smaller, one lies inside it. */
  lemma SharedAddress(a: Block, b: Block, x: nat)
    requires a.Aligned() && b.Aligned() && a.Has(x) && b.Has(x)
    ensures a.size <= b.size ==> Inside(a, b)
    ensures b.size <= a.size ==> Inside(b, a)
  {
    if a.size <= b.size { Laminar(a, b); }
    if b.size <= a.size { Laminar(b, a); }
  }

  /** Doubling a block keeps it aligned exactly when its base allows the next size. */
  lemma NextAligned(base: nat, size: nat)
    requires base % Pow2(size + 1) == 0
    ensures base % Pow2(size) == 0
  {
    MultipleOfSmaller(base, size, size + 1);
  }
}
