/** bigRangeToCidrs (backend/internal/geo-filter.js): an address range becomes the
    shortest list of CIDRs that covers exactly that range. */
module GeoRanges {
  import opened Seqs
  import opened Powers
  import opened Blocks

  // ---- what a list of blocks covers ----

  /** The blocks of `out` lie end to end from `lo` up to (not including) `end`. */
  predicate Tiles(out: seq<Block>, lo: nat, end: nat) {
    if out == [] then lo == end
    else out[0].base == lo && Tiles(out[1..], out[0].End(), end)
  }

  ghost predicate Covers(out: seq<Block>, x: int) {
    exists i :: 0 <= i < |out| && out[i].Has(x)
  }

  predicate AllAligned(out: seq<Block>, bits: nat) {
    forall i :: 0 <= i < |out| ==> out[i].Aligned() && out[i].size <= bits
  }

  predicate Ascending(out: seq<Block>) {
    forall i, j :: 0 <= i < j < |out| ==> out[i].End() <= out[j].base
  }

  // ---- the greedy decomposition ----

  /** May the block at `lo` grow from `size` to `size + 1`? (the inner loop's guard) */
  predicate CanGrow(lo: nat, hi: int, size: nat, bits: nat) {
    size < bits && lo % Pow2(size + 1) == 0 && lo + Pow2(size + 1) - 1 <= hi
  }

  function GreedySize(lo: nat, hi: int, size: nat, bits: nat): (s: nat)
    requires lo % Pow2(size) == 0 && size <= bits && lo + Pow2(size) - 1 <= hi
    ensures size <= s <= bits && lo % Pow2(s) == 0 && lo + Pow2(s) - 1 <= hi
    ensures !CanGrow(lo, hi, s, bits)
    decreases bits - size
  {
    if CanGrow(lo, hi, size, bits) then GreedySize(lo, hi, size + 1, bits) else size
  }

  function Decompose(lo: nat, hi: int, bits: nat): seq<Block>
    decreases hi - lo
  {
    if lo > hi then []
    else
      var b := Block(lo, GreedySize(lo, hi, 0, bits));
      [b] + Decompose(b.End(), hi, bits)
  }

  method BigRangeToCidrs(start: nat, hi: int, bits: nat) returns (out: seq<Block>)
    ensures out == Decompose(start, hi, bits)
    ensures start <= hi + 1 ==> Tiles(out, start, hi + 1)
    ensures AllAligned(out, bits)
  {
    out := [];
    var lo := start;
    while lo <= hi
      invariant out + Decompose(lo, hi, bits) == Decompose(start, hi, bits)
      invariant lo >= start
      decreases hi - lo
    {
      var size := 0;
      while CanGrow(lo, hi, size, bits)
        invariant size <= bits && lo % Pow2(size) == 0 && lo + Pow2(size) - 1 <= hi
        invariant GreedySize(lo, hi, size, bits) == GreedySize(lo, hi, 0, bits)
        decreases bits - size
      {
        size := size + 1;
      }
      var b := Block(lo, size);
      assert Decompose(lo, hi, bits) == [b] + Decompose(b.End(), hi, bits);
      Associate(out, [b], Decompose(b.End(), hi, bits));
      out := out + [b];
      lo := lo + Pow2(size);
    }
    if start <= hi + 1 { DecomposeTiles(start, hi, bits); }
    DecomposeAligned(start, hi, bits);
  }

  lemma {:induction false} DecomposeTiles(lo: nat, hi: int, bits: nat)
    requires lo <= hi + 1
    ensures Tiles(Decompose(lo, hi, bits), lo, hi + 1)
    decreases hi - lo
  {
    if lo <= hi {
      var b := Block(lo, GreedySize(lo, hi, 0, bits));
      DecomposeTiles(b.End(), hi, bits);
      assert Decompose(lo, hi, bits)[1..] == Decompose(b.End(), hi, bits);
    }
  }

  lemma {:induction false} DecomposeAligned(lo: nat, hi: int, bits: nat)
    ensures AllAligned(Decompose(lo, hi, bits), bits)
    decreases hi - lo
  {
    if lo <= hi {
      DecomposeAligned(lo + Pow2(GreedySize(lo, hi, 0, bits)), hi, bits);
    }
  }

  // ---- a tiling is disjoint and covers exactly its range ----

  lemma {:induction false} TilesExact(out: seq<Block>, lo: nat, end: nat)
    requires Tiles(out, lo, end)
    ensures lo <= end
    ensures forall i :: 0 <= i < |out| ==> lo <= out[i].base && out[i].End() <= end
    ensures Ascending(out)
    ensures forall x :: Covers(out, x) <==> lo <= x < end
  {
    if out != [] {
      TilesExact(out[1..], out[0].End(), end);
      forall x | lo <= x < end ensures Covers(out, x) {
        if x < out[0].End() {
          assert out[0].Has(x);
        } else {
          assert Covers(out[1..], x);
          var i :| 0 <= i < |out[1..]| && out[1..][i].Has(x);
          assert out[i + 1].Has(x);
        }
      }
      forall i, j | 0 <= i < j < |out| ensures out[i].End() <= out[j].base {
        assert out[j] == out[1..][j - 1];
        if i > 0 { assert out[i] == out[1..][i - 1]; }
      }
      forall i | 0 <= i < |out| ensures lo <= out[i].base && out[i].End() <= end {
        if i > 0 { assert out[i] == out[1..][i - 1]; }
      }
    }
  }

  /** The printed list covers exactly [start, hi] with disjoint aligned blocks. */
  lemma RangeExact(start: nat, hi: int, bits: nat)
    requires start <= hi + 1
    ensures var out := Decompose(start, hi, bits);
      && AllAligned(out, bits) && Ascending(out)
      && (forall x :: Covers(out, x) <==> start <= x <= hi)
  {
    DecomposeTiles(start, hi, bits);
    DecomposeAligned(start, hi, bits);
    TilesExact(Decompose(start, hi, bits), start, hi + 1);
  }

  // ---- minimality ----

  /** No aligned block within [from, hi] reaches across `lo` from the left. */
  ghost predicate LeftTight(from: nat, lo: nat, hi: int, bits: nat) {
    forall b: Block :: b.Aligned() && b.size <= bits && from <= b.base && b.End() <= hi + 1 && b.Has(lo)
      ==> b.base == lo
  }

  lemma TightStep(from: nat, lo: nat, hi: int, bits: nat)
    requires from <= lo <= hi && LeftTight(from, lo, hi, bits)
    ensures LeftTight(from, lo + Pow2(GreedySize(lo, hi, 0, bits)), hi, bits)
  {
    var g := Block(lo, GreedySize(lo, hi, 0, bits));
    forall b: Block | b.Aligned() && b.size <= bits && from <= b.base && b.End() <= hi + 1 && b.Has(g.End())
      ensures b.base == g.End()
    {
      if b.base < g.End() {
        if b.base <= lo {
          assert b.Has(lo);
          if b.size < g.size { Pow2Grows(b.size, g.size); }
          GrowsTo(lo, hi, g.size, b.size, bits);
        } else {
          SharedAddress(g, b, b.base);
        }
        assert false;
      }
    }
  }

  /** A larger aligned block that starts at `lo` and fits would have made the loop go on. */
  lemma GrowsTo(lo: nat, hi: int, s: nat, t: nat, bits: nat)
    requires s < t <= bits && lo % Pow2(t) == 0 && lo + Pow2(t) - 1 <= hi
    ensures CanGrow(lo, hi, s, bits)
  {
    MultipleOfSmaller(lo, s + 1, t);
    if s + 1 < t { Pow2Grows(s + 1, t); }
  }

  /** Every block the loop emits starts where any exact cover must start a block. */
  lemma {:induction false} TightStarts(from: nat, lo: nat, hi: int, bits: nat)
    requires from <= lo && LeftTight(from, lo, hi, bits)
    ensures forall i :: 0 <= i < |Decompose(lo, hi, bits)| ==>
      LeftTight(from, Decompose(lo, hi, bits)[i].base, hi, bits)
    decreases hi - lo
  {
    if lo <= hi {
      TightStep(from, lo, hi, bits);
      TightStarts(from, lo + Pow2(GreedySize(lo, hi, 0, bits)), hi, bits);
    }
  }

  function Bases(s: seq<Block>): set<nat> {
    set i | 0 <= i < |s| :: s[i].base
  }

  lemma {:induction false} BasesSnoc(s: seq<Block>, b: Block)
    ensures Bases(s + [b]) == Bases(s) + {b.base}
  {
    var t := s + [b];
    assert t[|s|] == b;
    forall x | x in Bases(s) ensures x in Bases(t) {
      var i :| 0 <= i < |s| && s[i].base == x;
      assert t[i].base == x;
    }
  }

  lemma {:induction false} BasesCount(s: seq<Block>)
    ensures |Bases(s)| <= |s|
    ensures Ascending(s) ==> |Bases(s)| == |s|
  {
    if s != [] {
      var n := |s| - 1;
      var init, last := s[..n], s[n];
      assert s == init + [last];
      BasesCount(init);
      BasesSnoc(init, last);
      if Ascending(s) { LastIsNew(init, last); }
    }
  }

  lemma {:induction false} LastIsNew(s: seq<Block>, b: Block)
    requires Ascending(s + [b])
    ensures Ascending(s) && b.base !in Bases(s)
  {
    var t := s + [b];
    assert forall i :: 0 <= i < |s| ==> t[i] == s[i];
    assert t[|s|] == b;
  }

  /** A list whose block starts all occur in another list is not longer. */
  lemma FewerStarts(out: seq<Block>, other: seq<Block>)
    requires Ascending(out)
    requires forall i :: 0 <= i < |out| ==> out[i].base in Bases(other)
    ensures |out| <= |other|
  {
    BasesCount(out);
    BasesCount(other);
    CardMono(Bases(out), Bases(other));
  }

  lemma {:induction false} CardMono(a: set<nat>, b: set<nat>)
    requires a <= b
    ensures |a| <= |b|
  {
    if a != {} {
      var x :| x in a;
      CardMono(a - {x}, b - {x});
    }
  }

  /** [start, hi] is one maximal stretch of what `other` covers. */
  ghost predicate Stretch(other: seq<Block>, start: int, hi: int) {
    && (forall y :: start <= y <= hi ==> Covers(other, y))
    && !Covers(other, start - 1) && !Covers(other, hi + 1)
  }

  /** A cover of which [start, hi] is a maximal stretch has a block at every start the loop chose. */
  lemma CoverHasStarts(start: nat, hi: int, bits: nat, other: seq<Block>)
    requires start <= hi + 1 && AllAligned(other, bits) && Stretch(other, start, hi)
    ensures forall i :: 0 <= i < |Decompose(start, hi, bits)| ==>
      Decompose(start, hi, bits)[i].base in Bases(other)
  {
    var out := Decompose(start, hi, bits);
    RangeExact(start, hi, bits);
    TightStarts(start, start, hi, bits);
    forall i | 0 <= i < |out| ensures out[i].base in Bases(other) {
      assert Covers(out, out[i].base) by { assert out[i].Has(out[i].base); }
      StartsAt(other, start, hi, out[i].base, bits);
    }
  }

  lemma StartsAt(other: seq<Block>, start: nat, hi: int, x: nat, bits: nat)
    requires AllAligned(other, bits) && LeftTight(start, x, hi, bits)
    requires Stretch(other, start, hi) && start <= x <= hi
    ensures x in Bases(other)
  {
    assert Covers(other, x);
    var j :| 0 <= j < |other| && other[j].Has(x);
    assert !other[j].Has(start - 1) && !other[j].Has(hi + 1);
    assert other[j].base == x;
  }

  /** No list of CIDRs with the same union is shorter. */
  lemma RangeMinimal(start: nat, hi: int, bits: nat, other: seq<Block>)
    requires start <= hi + 1 && AllAligned(other, bits)
    requires forall x :: Covers(other, x) <==> start <= x <= hi
    ensures |Decompose(start, hi, bits)| <= |other|
  {
    RangeExact(start, hi, bits);
    CoverHasStarts(start, hi, bits, other);
    FewerStarts(Decompose(start, hi, bits), other);
  }

  // ---- the bound 2 * bits - 2 ----

  /** Recursive halving of the block at `base`: an independent cover of its part of [lo, hi]. */
  function Halving(lo: int, hi: int, base: nat, k: nat): seq<Block>
    decreases k
  {
    if hi < base || base + Pow2(k) <= lo then []
    else if lo <= base && base + Pow2(k) <= hi + 1 then [Block(base, k)]
    else if k == 0 then []
    else Halving(lo, hi, base, k - 1) + Halving(lo, hi, base + Pow2(k - 1), k - 1)
  }

  lemma {:induction false} HalvingCovers(lo: int, hi: int, base: nat, k: nat)
    requires base % Pow2(k) == 0
    ensures AllAligned(Halving(lo, hi, base, k), k)
    ensures forall x :: Covers(Halving(lo, hi, base, k), x) <==> lo <= x <= hi && base <= x < base + Pow2(k)
    decreases k
  {
    var c := Halving(lo, hi, base, k);
    if hi < base || base + Pow2(k) <= lo {
    } else if lo <= base && base + Pow2(k) <= hi + 1 {
      assert c[0].Has(base);
      forall x | lo <= x <= hi && base <= x < base + Pow2(k) ensures Covers(c, x) {
        assert c[0].Has(x);
      }
    } else if k > 0 {
      var mid := base + Pow2(k - 1);
      NextAligned(base, k - 1);
      HalfAligned(base, k - 1);
      HalvingCovers(lo, hi, base, k - 1);
      HalvingCovers(lo, hi, mid, k - 1);
      HalvesCover(lo, hi, base, mid, k, Halving(lo, hi, base, k - 1), Halving(lo, hi, mid, k - 1));
    }
  }

  lemma {:induction false} HalvesCover(lo: int, hi: int, base: nat, mid: nat, k: nat, a: seq<Block>, b: seq<Block>)
    requires k > 0 && mid == base + Pow2(k - 1) && AllAligned(a, k) && AllAligned(b, k)
    requires forall x :: Covers(a, x) <==> lo <= x <= hi && base <= x < mid
    requires forall x :: Covers(b, x) <==> lo <= x <= hi && mid <= x < mid + Pow2(k - 1)
    ensures AllAligned(a + b, k)
    ensures forall x :: Covers(a + b, x) <==> lo <= x <= hi && base <= x < base + Pow2(k)
  {
    CoversConcat(a, b);
    Pow2Add(1, k - 1);
  }

  lemma HalfAligned(base: nat, k: nat)
    requires base % Pow2(k + 1) == 0
    ensures (base + Pow2(k)) % Pow2(k) == 0
  {
    NextAligned(base, k);
    var p := Pow2(k);
    var q := base / p;
    assert base == q * p;
    MulMod(q + 1, p);
    assert (q + 1) * p == q * p + p;
  }

  lemma CoversConcat(a: seq<Block>, b: seq<Block>)
    ensures forall x :: Covers(a + b, x) <==> Covers(a, x) || Covers(b, x)
  {
    forall x ensures Covers(a + b, x) <==> Covers(a, x) || Covers(b, x) {
      if Covers(a, x) {
        var i :| 0 <= i < |a| && a[i].Has(x);
        assert (a + b)[i].Has(x);
      }
      if Covers(b, x) {
        var i :| 0 <= i < |b| && b[i].Has(x);
        assert (a + b)[|a| + i].Has(x);
      }
    }
  }

  lemma {:induction false} HalvingSuffix(lo: int, hi: int, base: nat, k: nat)
    requires base + Pow2(k) <= hi + 1
    ensures |Halving(lo, hi, base, k)| <= if lo <= base then 1 else k
    decreases k
  {
    if k > 0 && base < lo {
      HalvingSuffix(lo, hi, base, k - 1);
      HalvingSuffix(lo, hi, base + Pow2(k - 1), k - 1);
    }
  }

  lemma {:induction false} HalvingPrefix(lo: int, hi: int, base: nat, k: nat)
    requires lo <= base
    ensures |Halving(lo, hi, base, k)| <= if base + Pow2(k) <= hi + 1 then 1 else k
    decreases k
  {
    if k > 0 && hi + 1 < base + Pow2(k) {
      HalvingPrefix(lo, hi, base, k - 1);
      HalvingPrefix(lo, hi, base + Pow2(k - 1), k - 1);
    }
  }

  lemma {:induction false} HalvingBound(lo: int, hi: int, base: nat, k: nat)
    requires k >= 1
    ensures |Halving(lo, hi, base, k)| <= if k == 1 then 1 else 2 * k - 2
    decreases k
  {
    if k >= 2 {
      var mid := base + Pow2(k - 1);
      if lo < mid <= hi {
        HalvingSuffix(lo, hi, base, k - 1);
        HalvingPrefix(lo, hi, mid, k - 1);
      } else {
        HalvingBound(lo, hi, base, k - 1);
        HalvingBound(lo, hi, mid, k - 1);
      }
    }
  }

  /** At most 2 * bits - 2 CIDRs for any range of a family of at least 2 bits. */
  lemma RangeAtMost(start: nat, hi: int, bits: nat)
    requires bits >= 2 && start <= hi + 1 <= Pow2(bits)
    ensures |Decompose(start, hi, bits)| <= 2 * bits - 2
  {
    var other := Halving(start, hi, 0, bits);
    MulMod(0, Pow2(bits));
    HalvingCovers(start, hi, 0, bits);
    RangeMinimal(start, hi, bits, other);
    HalvingBound(start, hi, 0, bits);
  }
}
