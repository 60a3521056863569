/** Printing and reading IPv6 addresses (backend/internal/geo-filter.js, v6ToBig and
    bigToV6): eight hexadecimal fields with the first longest zero run shortened. */
module Ipv6Text {
  import opened Wrappers
  import opened Powers
  import opened ConfigText

  datatype Malformed = BadAddress

  // ---- hexadecimal fields ----

  const DIGITS := "0123456789abcdef"

  function ToHex(n: nat): (s: string)
    ensures s != ""
  {
    if n < 16 then [DIGITS[n]] else ToHex(n / 16) + [DIGITS[n % 16]]
  }

  function HexValue(c: char): int {
    if '0' <= c <= '9' then c as int - '0' as int
    else if 'a' <= c <= 'f' then c as int - 'a' as int + 10
    else if 'A' <= c <= 'F' then c as int - 'A' as int + 10
    else -1
  }

  predicate IsHex(s: string) {
    s != "" && forall i :: 0 <= i < |s| ==> HexValue(s[i]) >= 0
  }

  function ParseHex(s: string): nat
    requires forall i :: 0 <= i < |s| ==> HexValue(s[i]) >= 0
  {
    if s == "" then 0 else ParseHex(s[..|s| - 1]) * 16 + HexValue(s[|s| - 1])
  }

  lemma DigitValue(d: nat)
    requires d < 16
    ensures HexValue(DIGITS[d]) == d
  {
  }

  lemma {:induction false} HexRoundTrip(n: nat)
    ensures IsHex(ToHex(n)) && ParseHex(ToHex(n)) == n
    ensures ToHex(n) == "0" <==> n == 0
  {
    if n < 16 {
      DigitValue(n);
      assert ToHex(n)[..0] == "";
    } else {
      HexRoundTrip(n / 16);
      DigitValue(n % 16);
      assert ToHex(n)[..|ToHex(n)| - 1] == ToHex(n / 16);
      assert |ToHex(n)| > 1;
    }
  }

  // ---- the fields of a number, most significant first ----

  function Field(n: nat, i: nat): nat
    requires i < 8
  {
    Shr(n, 112 - 16 * i) % 65536
  }

  function Fields(n: nat): seq<string> {
    seq(8, i requires 0 <= i < 8 => ToHex(Field(n, i)))
  }

  /** `groups.reduce((n, g) => (n << 16) + g, 0)` */
  function Fold(gs: seq<string>): nat
    requires forall i :: 0 <= i < |gs| ==> IsHex(gs[i])
  {
    if gs == [] then 0
    else
      var last := gs[|gs| - 1];
      assert IsHex(last);
      Fold(gs[..|gs| - 1]) * 65536 + ParseHex(last)
  }

  lemma FieldsReadable(n: nat)
    ensures ColonFree(Fields(n))
    ensures forall i :: 0 <= i < 8 ==> IsHex(Fields(n)[i])
  {
    forall i | 0 <= i < 8 ensures IsHex(Fields(n)[i]) && Fields(n)[i] != "" && ':' !in Fields(n)[i] {
      HexRoundTrip(Field(n, i));
      HexHasNoColon(Fields(n)[i]);
    }
  }

  lemma HexHasNoColon(s: string)
    requires IsHex(s)
    ensures ':' !in s
  {
    assert HexValue(':') == -1;
  }

  /** The words of a number, most significant first: `gs` holds its leading ones. */
  ghost predicate WordsOf(gs: seq<string>, n: nat, bits: nat) {
    && (forall i :: 0 <= i < |gs| ==> IsHex(gs[i]))
    && 16 * |gs| <= bits
    && forall k :: 0 < k <= |gs| ==> WordAt(gs[k - 1], n, bits - 16 * k)
  }

  /** The word at a shift reads `g`. */
  ghost predicate WordAt(g: string, n: nat, s: nat)
    requires IsHex(g)
  {
    Shr(n, s) == Shr(n, s + 16) * 65536 + ParseHex(g)
  }

  lemma {:induction false} FoldWords(gs: seq<string>, n: nat, bits: nat)
    requires n < Pow2(bits) && WordsOf(gs, n, bits)
    ensures Fold(gs) == Shr(n, bits - 16 * |gs|)
    decreases |gs|
  {
    var k := |gs|;
    if k == 0 {
      ShrBound(n, bits, 0);
    } else {
      var init := gs[..k - 1];
      assert forall i :: 0 <= i < |init| ==> init[i] == gs[i];
      FoldWords(init, n, bits);
    }
  }

  lemma {:induction false} FieldsAreWords(gs: seq<string>, n: nat, bits: nat)
    requires bits == 128 && gs == Fields(n) && forall i :: 0 <= i < |gs| ==> IsHex(gs[i])
    ensures WordsOf(gs, n, bits)
  {
    forall k | 0 < k <= |gs| ensures WordAt(gs[k - 1], n, bits - 16 * k) {
      FieldValue(gs, n, k, bits - 16 * k);
    }
  }

  lemma {:induction false} FieldValue(gs: seq<string>, n: nat, k: nat, s: nat)
    requires gs == Fields(n) && 0 < k <= 8 && s == 128 - 16 * k && IsHex(gs[k - 1])
    ensures WordAt(gs[k - 1], n, s)
  {
    assert gs[k - 1] == ToHex(Field(n, k - 1));
    HexRoundTrip(Field(n, k - 1));
    ShrWord(n, s);
  }

  // ---- the zero run to shorten ----

  datatype Run = Run(start: int, len: nat)

  function RunEnd(g: seq<string>, i: nat): (j: nat)
    requires i <= |g|
    ensures i <= j <= |g| && (j < |g| ==> g[j] != "0")
    ensures forall k :: i <= k < j ==> g[k] == "0"
    decreases |g| - i
  {
    if i < |g| && g[i] == "0" then RunEnd(g, i + 1) else i
  }

  function BestFrom(g: seq<string>, i: nat, best: Run): Run
    requires i <= |g|
    decreases |g| - i
  {
    if i == |g| then best
    else if g[i] != "0" then BestFrom(g, i + 1, best)
    else
      var j := RunEnd(g, i);
      BestFrom(g, j, if j - i > best.len && j - i > 1 then Run(i, j - i) else best)
  }

  function BestRun(g: seq<string>): Run { BestFrom(g, 0, Run(-1, 0)) }

  ghost predicate ZeroRun(g: seq<string>, a: int, l: int) {
    0 <= a && 0 <= l && a + l <= |g| && forall k :: a <= k < a + l ==> g[k] == "0"
  }

  /** `best` is the first longest run of at least two zero fields among the runs that end by `i`. */
  ghost predicate FirstLongest(g: seq<string>, i: nat, best: Run) {
    if best.start < 0 then
      best.len == 0 && forall a, l | ZeroRun(g, a, l) && a + l <= i :: l <= 1
    else
      && best.len >= 2 && ZeroRun(g, best.start, best.len) && best.start + best.len <= i
      && forall a, l | ZeroRun(g, a, l) && a + l <= i :: l <= best.len && (a < best.start ==> l < best.len)
  }

  lemma {:induction false} BestFromIsFirstLongest(g: seq<string>, i: nat, best: Run)
    requires i <= |g| && FirstLongest(g, i, best)
    requires i > 0 && i < |g| ==> g[i - 1] != "0" || g[i] != "0"
    ensures FirstLongest(g, |g|, BestFrom(g, i, best))
    decreases |g| - i
  {
    if i == |g| {
    } else if g[i] != "0" {
      assert forall a, l :: ZeroRun(g, a, l) && a + l == i + 1 ==> l == 0;
      BestFromIsFirstLongest(g, i + 1, best);
    } else {
      var j := RunEnd(g, i);
      var next := if j - i > best.len && j - i > 1 then Run(i, j - i) else best;
      assert j > i;
      forall a, l | ZeroRun(g, a, l) && a + l <= j && a + l > i && l > 0 ensures a >= i && l <= j - i {
        assert a < i ==> i - 1 < i < a + l;
      }
      assert ZeroRun(g, i, j - i);
      BestFromIsFirstLongest(g, j, next);
    }
  }

  // ---- printing ----

  function Render(g: seq<string>, best: Run): string
    requires best.start >= 0 ==> best.start + best.len <= |g|
  {
    if best.start < 0 then Join(g, ":")
    else Join(g[..best.start], ":") + "::" + Join(g[best.start + best.len..], ":")
  }

  lemma FieldsBest(n: nat)
    ensures FirstLongest(Fields(n), 8, BestRun(Fields(n)))
  {
    assert FirstLongest(Fields(n), 0, Run(-1, 0));
    BestFromIsFirstLongest(Fields(n), 0, Run(-1, 0));
  }

  function V6Text(n: nat): string {
    FieldsBest(n);
    Render(Fields(n), BestRun(Fields(n)))
  }

  method FieldsOf(n: nat) returns (groups: seq<string>)
    ensures groups == Fields(n)
  {
    groups := [];
    var s := 112;
    while s >= 0
      invariant -16 <= s <= 112 && s == 112 - 16 * |groups|
      invariant |groups| <= 8 && groups == Fields(n)[..|groups|]
    {
      assert Fields(n)[|groups|] == ToHex(Shr(n, s) % 65536);
      groups := groups + [ToHex(Shr(n, s) % 65536)];
      s := s - 16;
    }
    assert |groups| == 8;
  }

  method LongestZeroRun(groups: seq<string>) returns (best: Run)
    ensures best == BestRun(groups)
  {
    best := Run(-1, 0);
    var i := 0;
    while i < |groups|
      invariant i <= |groups|
      invariant BestFrom(groups, i, best) == BestRun(groups)
    {
      if groups[i] != "0" {
        i := i + 1;
      } else {
        var j := i;
        while j < |groups| && groups[j] == "0"
          invariant i <= j <= |groups|
          invariant RunEnd(groups, j) == RunEnd(groups, i)
        {
          j := j + 1;
        }
        if j - i > best.len && j - i > 1 { best := Run(i, j - i); }
        i := j;
      }
    }
  }

  method BigToV6(n: nat) returns (t: string)
    ensures t == V6Text(n)
  {
    var groups := FieldsOf(n);
    var best := LongestZeroRun(groups);
    FieldsBest(n);
    return Render(groups, best);
  }

  // ---- reading ----

  /** Index of the first "::", or the length. */
  function DoubleAt(s: string, i: nat): (p: nat)
    requires i <= |s|
    ensures i <= p <= |s| && (p < |s| ==> p + 2 <= |s|)
    decreases |s| - i
  {
    if i + 2 <= |s| && s[i] == ':' && s[i + 1] == ':' then i
    else if i == |s| then i
    else DoubleAt(s, i + 1)
  }

  function SplitNonEmpty(s: string): seq<string> {
    if s == "" then [] else Split(s, ':')
  }

  /** The groups of the text; no value when too many groups surround "::". */
  function Groups(a: string): seq<string> {
    var p := DoubleAt(a, 0);
    if p == |a| then SplitNonEmpty(a)
    else
      var rest := a[p + 2..];
      Fill(SplitNonEmpty(a[..p]), SplitNonEmpty(rest[..DoubleAt(rest, 0)]))
  }

  function Fill(h: seq<string>, t: seq<string>): seq<string> {
    if |h| + |t| > 8 then [] else h + Zeros(8 - |h| - |t|) + t
  }

  function Zeros(k: nat): (z: seq<string>)
    ensures |z| == k && forall i :: 0 <= i < k ==> z[i] == "0"
  {
    seq(k, i => "0")
  }

  function OrZero(g: string): string { if g == "" then "0" else g }

  function V6ToBig(a: string): Result<nat, Malformed> {
    var gs := Groups(a);
    var zs := seq(|gs|, i requires 0 <= i < |gs| => OrZero(gs[i]));
    if |gs| == 8 && forall i :: 0 <= i < |zs| ==> IsHex(zs[i]) then Ok(Fold(zs)) else Err(BadAddress)
  }

  // ---- reading undoes printing ----

  predicate ColonFree(gs: seq<string>) {
    forall i :: 0 <= i < |gs| ==> gs[i] != "" && ':' !in gs[i]
  }

  predicate NoDouble(s: string) {
    forall p :: 0 <= p < |s| - 1 ==> s[p] != ':' || s[p + 1] != ':'
  }

  lemma {:induction false} JoinShape(gs: seq<string>)
    requires ColonFree(gs)
    ensures NoDouble(Join(gs, ":"))
    ensures gs != [] <==> Join(gs, ":") != ""
    ensures gs != [] ==> Join(gs, ":")[0] != ':' && Join(gs, ":")[|Join(gs, ":")| - 1] != ':'
  {
    if |gs| > 1 {
      JoinShape(gs[1..]);
    }
  }

  lemma {:induction false} DoubleFound(s: string, i: nat, p: nat)
    requires i <= p && p + 2 <= |s| && s[p] == ':' && s[p + 1] == ':'
    requires forall k :: i <= k < p ==> s[k] != ':' || s[k + 1] != ':'
    ensures DoubleAt(s, i) == p
    decreases p - i
  {
    if i < p { DoubleFound(s, i + 1, p); }
  }

  lemma {:induction false} DoubleAbsent(s: string, i: nat)
    requires i <= |s| && NoDouble(s)
    ensures DoubleAt(s, i) == |s|
    decreases |s| - i
  {
    if i < |s| { DoubleAbsent(s, i + 1); }
  }

  lemma {:induction false} SplitJoin(gs: seq<string>)
    requires ColonFree(gs)
    ensures SplitNonEmpty(Join(gs, ":")) == gs
  {
    JoinShape(gs);
    if |gs| == 1 {
      IndexNone(gs[0], ':');
    } else if |gs| > 1 {
      JoinShape(gs[1..]);
      SplitJoin(gs[1..]);
      SplitFirst(gs[0], ':', Join(gs[1..], ":"));
      assert [gs[0]] + gs[1..] == gs;
    }
  }

  lemma GroupsAround(h: seq<string>, t: seq<string>)
    requires ColonFree(h) && ColonFree(t)
    ensures Groups(Join(h, ":") + "::" + Join(t, ":")) == Fill(h, t)
  {
    var x, y := Join(h, ":"), Join(t, ":");
    JoinShape(h);
    JoinShape(t);
    SplitJoin(h);
    SplitJoin(t);
    DoubleAbsent(y, 0);
    assert y[..|y|] == y;
    GroupsSplit(x, y);
  }

  lemma GroupsSplit(x: string, y: string)
    requires NoDouble(x) && (x != "" ==> x[|x| - 1] != ':')
    ensures DoubleAt(x + "::" + y, 0) == |x|
    ensures (x + "::" + y)[..|x|] == x && (x + "::" + y)[|x| + 2..] == y
  {
    DoubleFound(x + "::" + y, 0, |x|);
  }

  /** The groups read back are the groups printed, whichever zero run was shortened. */
  lemma GroupsOfRender(g: seq<string>, best: Run)
    requires |g| == 8 && ColonFree(g)
    requires best.start >= 0 ==> ZeroRun(g, best.start, best.len)
    ensures Groups(Render(g, best)) == g
  {
    if best.start < 0 {
      JoinShape(g);
      DoubleAbsent(Join(g, ":"), 0);
      SplitJoin(g);
    } else {
      var h, t := g[..best.start], g[best.start + best.len..];
      GroupsAround(h, t);
      assert Fill(h, t) == g;
    }
  }

  /** v6ToBig(bigToV6(n)) is n for every 128-bit n. */
  lemma V6RoundTrip(n: nat, bits: nat)
    requires bits == 128 && n < Pow2(bits)
    ensures V6ToBig(V6Text(n)) == Ok(n)
  {
    var g := Fields(n);
    FieldsBest(n);
    FieldsReadable(n);
    GroupsOfRender(g, BestRun(g));
    assert seq(|g|, i requires 0 <= i < |g| => OrZero(g[i])) == g;
    FieldsAreWords(g, n, bits);
    FoldWords(g, n, bits);
  }

  /** What the printed text may look like by sections 4.2.2 and 4.2.3 of RFC 5952: the eight fields
      with one zero run of at least two fields replaced by "::", the first among the longest; all
      fields are printed only when no two neighbouring ones are zero. */
  ghost predicate Shortened(n: nat, best: Run, t: string) {
    var g := Fields(n);
    if best.start < 0 then
      t == Join(g, ":") && forall i :: 0 <= i < 7 ==> Field(n, i) != 0 || Field(n, i + 1) != 0
    else
      && best.len >= 2 && ZeroRun(g, best.start, best.len)
      && t == Join(g[..best.start], ":") + "::" + Join(g[best.start + best.len..], ":")
      && forall a, l :: ZeroRun(g, a, l) ==> l <= best.len && (l == best.len ==> best.start <= a)
  }

  lemma V6Shortening(n: nat)
    ensures Shortened(n, BestRun(Fields(n)), V6Text(n))
  {
    var g, best := Fields(n), BestRun(Fields(n));
    FieldsBest(n);
    if best.start < 0 {
      forall i | 0 <= i < 7 ensures Field(n, i) != 0 || Field(n, i + 1) != 0 {
        HexRoundTrip(Field(n, i));
        HexRoundTrip(Field(n, i + 1));
        assert !ZeroRun(g, i, 2);
      }
    }
  }
}
