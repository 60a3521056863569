/** IPv4 hosts and CIDRs (backend/internal/agent-ingress-rules.js, canonicalCidr and
    cidrContains): masks are written with % and powers of two. */
module Ipv4Nets {
  import opened Wrappers
  import opened Powers
  import opened Blocks

  /** What a written address looks like once trimmed and cut at '/' and '.'. */
  datatype Text =
    | Empty
    | Colons                                           // contains ':'
    | Garbage                                          // anything else that is no a.b.c.d[/p]
    | Dotted(a: nat, b: nat, c: nat, d: nat, prefix: Prefix)
  datatype Prefix = NoPrefix | Prefix(p: nat)

  datatype Cidr = Cidr(addr: nat, prefix: nat)

  const MAX_ADDR := 0x1_0000_0000

  type Addr = x: nat | x < MAX_ADDR

  // ---- meaning ----

  predicate Canonical(c: Cidr) {
    c.prefix <= 32 && c.addr < MAX_ADDR && c.addr % Pow2(32 - c.prefix) == 0
  }

  function ToBlock(c: Cidr): Block
    requires c.prefix <= 32
  {
    Block(c.addr, 32 - c.prefix)
  }

  predicate InNet(c: Cidr, x: int) {
    c.prefix <= 32 && ToBlock(c).Has(x)
  }

  function Host(x: nat): Cidr { Cidr(x, 32) }

  // ---- canonicalCidr ----

  /** addr & mask(prefix): the low 32 - prefix bits cleared. */
  function Mask(addr: nat, prefix: nat): nat
    requires prefix <= 32
  {
    ClearLow(addr, 32 - prefix)
  }

  function CanonicalCidr(t: Text): Option<Cidr> {
    if !t.Dotted? || t.a > 255 || t.b > 255 || t.c > 255 || t.d > 255 then None
    else
      var p := if t.prefix.NoPrefix? then 32 else t.prefix.p;
      if p > 32 then None
      else Some(Cidr(Mask(((t.a * 256 + t.b) * 256 + t.c) * 256 + t.d, p), p))
  }

  lemma MaskAligned(addr: nat, prefix: nat)
    requires prefix <= 32
    ensures Mask(addr, prefix) % Pow2(32 - prefix) == 0
    ensures Mask(addr, prefix) <= addr < Mask(addr, prefix) + Pow2(32 - prefix)
  {
    ClearLowAligned(addr, 32 - prefix);
  }

  /** The result is canonical, and it is the network that contains the written address. */
  lemma CanonicalCidrSound(t: Text)
    ensures CanonicalCidr(t).Some? ==>
      && Canonical(CanonicalCidr(t).value)
      && InNet(CanonicalCidr(t).value, ((t.a * 256 + t.b) * 256 + t.c) * 256 + t.d)
      && CanonicalCidr(t).value.prefix == if t.prefix.NoPrefix? then 32 else t.prefix.p
  {
    if CanonicalCidr(t).Some? {
      MaskAligned(((t.a * 256 + t.b) * 256 + t.c) * 256 + t.d, CanonicalCidr(t).value.prefix);
    }
  }

  /** The text canonicalCidr prints. */
  function ToText(c: Cidr): Text {
    Dotted(c.addr / 256 / 256 / 256 % 256, c.addr / 256 / 256 % 256, c.addr / 256 % 256, c.addr % 256, Prefix(c.prefix))
  }

  /** Canonicalising a printed network gives it back, so canonicalCidr is idempotent. */
  lemma CanonicalRoundTrip(c: Cidr)
    requires Canonical(c)
    ensures CanonicalCidr(ToText(c)) == Some(c)
  {
    MaskOfAligned(c.addr, c.addr, c.prefix);
  }

  // ---- cidrContains ----

  function CidrContains(outer: Cidr, inner: Cidr): bool
    requires outer.prefix <= 32
  {
    inner.prefix >= outer.prefix && Mask(inner.addr, outer.prefix) == Mask(outer.addr, outer.prefix)
  }

  function CidrOverlaps(x: Cidr, y: Cidr): bool
    requires x.prefix <= 32 && y.prefix <= 32
  {
    CidrContains(x, y) || CidrContains(y, x)
  }

  lemma MaskOfAligned(addr: nat, x: nat, prefix: nat)
    requires prefix <= 32 && addr % Pow2(32 - prefix) == 0
    ensures Mask(addr, prefix) == addr
    ensures Mask(x, prefix) == addr <==> addr <= x < addr + Pow2(32 - prefix)
  {
    MaskAligned(x, prefix);
    MaskAligned(addr, prefix);
    SameMultiple(Mask(addr, prefix), addr, addr, Pow2(32 - prefix));
    if addr <= x < addr + Pow2(32 - prefix) {
      SameMultiple(Mask(x, prefix), addr, x, Pow2(32 - prefix));
    }
  }

  /** The multiple of d in (x - d, x] is unique. */
  lemma SameMultiple(a: nat, b: nat, x: nat, d: nat)
    requires d > 0 && a % d == 0 && b % d == 0 && a <= x < a + d && b <= x < b + d
    ensures a == b
  {
    var q, r := a / d, b / d;
    assert a == q * d && b == r * d;
    DivUnique(x, d, q, x - a);
    DivUnique(x, d, r, x - b);
  }

  lemma ContainsIncludes(outer: Cidr, inner: Cidr)
    requires Canonical(outer) && Canonical(inner) && CidrContains(outer, inner)
    ensures Inside(ToBlock(inner), ToBlock(outer))
  {
    MaskOfAligned(outer.addr, inner.addr, outer.prefix);
    assert ToBlock(inner).Has(inner.addr) && ToBlock(outer).Has(inner.addr);
    SharedAddress(ToBlock(inner), ToBlock(outer), inner.addr);
  }

  lemma IncludedContains(outer: Cidr, inner: Cidr)
    requires Canonical(outer) && Canonical(inner) && Inside(ToBlock(inner), ToBlock(outer))
    ensures CidrContains(outer, inner)
  {
    MaskOfAligned(outer.addr, inner.addr, outer.prefix);
    if inner.prefix < outer.prefix {
      Pow2Grows(32 - outer.prefix, 32 - inner.prefix);
    }
  }

  /** An outer CIDR contains an inner one exactly when its address set does. */
  lemma ContainsIsInclusion(outer: Cidr, inner: Cidr)
    requires Canonical(outer) && Canonical(inner)
    ensures CidrContains(outer, inner) <==> forall x :: InNet(inner, x) ==> InNet(outer, x)
  {
    if CidrContains(outer, inner) {
      ContainsIncludes(outer, inner);
    }
    if forall x :: InNet(inner, x) ==> InNet(outer, x) {
      assert InNet(inner, inner.addr) && InNet(inner, ToBlock(inner).End() - 1);
      IncludedContains(outer, inner);
    }
  }

  lemma HostNet(x: Addr)
    ensures Canonical(Host(x)) && forall y :: InNet(Host(x), y) <==> y == x
  {
    assert Pow2(0) == 1;
  }

  lemma ContainsHost(outer: Cidr, x: Addr)
    requires Canonical(outer)
    ensures Canonical(Host(x))
    ensures CidrContains(outer, Host(x)) <==> InNet(outer, x)
    ensures forall y :: InNet(Host(x), y) <==> y == x
  {
    HostNet(x);
    MaskOfAligned(outer.addr, outer.addr, outer.prefix);
    MaskOfAligned(outer.addr, x, outer.prefix);
  }

  lemma {:induction false} OverlapShares(x: Cidr, y: Cidr)
    requires Canonical(x) && Canonical(y) && CidrContains(x, y)
    ensures InNet(x, y.addr) && InNet(y, y.addr)
  {
    assert InNet(y, y.addr);
    ContainsIsInclusion(x, y);
  }

  lemma {:induction false} ShareOverlaps(x: Cidr, y: Cidr, a: int)
    requires Canonical(x) && Canonical(y) && InNet(x, a) && InNet(y, a)
    ensures CidrOverlaps(x, y)
  {
    SharedAddress(ToBlock(x), ToBlock(y), a);
    if Inside(ToBlock(x), ToBlock(y)) { IncludedContains(y, x); } else { IncludedContains(x, y); }
  }

  /** Two CIDRs are nested or disjoint; overlapping is sharing an address. */
  lemma {:induction false} NestedOrDisjoint(x: Cidr, y: Cidr)
    requires Canonical(x) && Canonical(y)
    ensures CidrOverlaps(x, y) <==> exists a: int :: InNet(x, a) && InNet(y, a)
  {
    if CidrContains(x, y) { OverlapShares(x, y); }
    if CidrContains(y, x) { OverlapShares(y, x); }
    if a: int :| InNet(x, a) && InNet(y, a) { ShareOverlaps(x, y, a); }
  }

  lemma ContainsTransitive(a: Cidr, b: Cidr, c: Cidr)
    requires Canonical(a) && Canonical(b) && Canonical(c)
    requires CidrContains(a, b) && CidrContains(b, c)
    ensures CidrContains(a, c)
  {
    ContainsIsInclusion(a, b);
    ContainsIsInclusion(b, c);
    ContainsIsInclusion(a, c);
  }
}
