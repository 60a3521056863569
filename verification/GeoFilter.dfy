/** parseDbip (backend/internal/geo-filter.js): the rows of the selected countries,
    merged per address family into maximal spans and written as CIDRs. */
module GeoFilter {
  import opened Wrappers
  import opened Seqs
  import opened Blocks
  import opened GeoRanges

  datatype Error = MixedFamilies(line: nat) | Reversed(line: nat)

  /** The value of a printed address; the family is decided by the ':' in the text. */
  datatype Addr = V4(n: nat) | V6(n: nat)

  /** One line of the list: empty, fewer than three fields, or start,end,country. */
  datatype Line = Blank | Short | Row(start: Addr, end: Addr, cc: string)

  datatype Span = Span(lo: nat, hi: nat) {
    predicate Has(x: int) { lo <= x <= hi }
  }

  /** A network of the result; its printed prefix length is Bits(v6) - block.size. */
  datatype Net = Net(v6: bool, block: Block)

  datatype Parsed = Parsed(ranges: seq<Net>, rows: nat, perCountry: map<string, nat>)

  function Bits(v6: bool): nat { if v6 then 128 else 32 }

  // ---- the rows that count ----

  predicate Wanted(l: Line, countries: seq<string>) {
    l.Row? && l.cc in countries
  }

  predicate Broken(l: Line) {
    l.Row? && (l.start.V6? != l.end.V6? || l.end.n < l.start.n)
  }

  function Spans(lines: seq<Line>, countries: seq<string>, v6: bool): seq<Span> {
    if lines == [] then []
    else
      var l := lines[|lines| - 1];
      Spans(lines[..|lines| - 1], countries, v6) +
      (if Wanted(l, countries) && l.start.V6? == v6 then [Span(l.start.n, l.end.n)] else [])
  }

  function CountRows(lines: seq<Line>): nat {
    if lines == [] then 0
    else CountRows(lines[..|lines| - 1]) + (if lines[|lines| - 1].Blank? then 0 else 1)
  }

  function CountOf(lines: seq<Line>, cc: string): nat {
    if lines == [] then 0
    else
      var l := lines[|lines| - 1];
      CountOf(lines[..|lines| - 1], cc) + (if l.Row? && l.cc == cc then 1 else 0)
  }

  /** Some wanted row contains the address. */
  ghost predicate Selected(lines: seq<Line>, countries: seq<string>, v6: bool, x: int) {
    exists i :: 0 <= i < |lines| && Wanted(lines[i], countries) && lines[i].start.V6? == v6
      && lines[i].start.n <= x <= lines[i].end.n
  }

  ghost predicate InSpans(list: seq<Span>, x: int) {
    exists i :: 0 <= i < |list| && list[i].Has(x)
  }

  predicate Proper(list: seq<Span>) {
    forall i :: 0 <= i < |list| ==> list[i].lo <= list[i].hi
  }

  lemma {:induction false} SpansSelect(lines: seq<Line>, countries: seq<string>, v6: bool)
    ensures forall x :: InSpans(Spans(lines, countries, v6), x) <==> Selected(lines, countries, v6, x)
    ensures (forall i :: 0 <= i < |lines| && Wanted(lines[i], countries) ==> !Broken(lines[i]))
      ==> Proper(Spans(lines, countries, v6))
  {
    if lines != [] {
      var n := |lines| - 1;
      var init := lines[..n];
      SpansSelect(init, countries, v6);
      var ss, ti := Spans(lines, countries, v6), Spans(init, countries, v6);
      forall x ensures InSpans(ss, x) <==> Selected(lines, countries, v6, x) {
        if InSpans(ss, x) {
          var i :| 0 <= i < |ss| && ss[i].Has(x);
          if i < |ti| {
            assert ti[i].Has(x);
            assert Selected(init, countries, v6, x);
            var j :| 0 <= j < n && Wanted(init[j], countries) && init[j].start.V6? == v6
              && init[j].start.n <= x <= init[j].end.n;
            assert lines[j] == init[j];
          } else {
            assert Wanted(lines[n], countries);
          }
        }
        if Selected(lines, countries, v6, x) {
          var j :| 0 <= j < |lines| && Wanted(lines[j], countries) && lines[j].start.V6? == v6
            && lines[j].start.n <= x <= lines[j].end.n;
          if j < n {
            assert lines[j] == init[j];
            assert InSpans(ti, x);
            var i :| 0 <= i < |ti| && ti[i].Has(x);
            assert ss[i].Has(x);
          } else {
            assert ss[|ti|].Has(x);
          }
        }
      }
    }
  }

  // ---- sorting by start, then merging touching spans ----

  predicate SortedByLo(list: seq<Span>) {
    forall i, j :: 0 <= i < j < |list| ==> list[i].lo <= list[j].lo
  }

  function Insert(s: Span, list: seq<Span>): seq<Span> {
    if list == [] || s.lo < list[0].lo then [s] + list
    else [list[0]] + Insert(s, list[1..])
  }

  /** The library sort: stable, by the start of the span only. */
  function SortSpans(list: seq<Span>): seq<Span> {
    if list == [] then []
    else Insert(list[|list| - 1], SortSpans(list[..|list| - 1]))
  }

  predicate AllFrom(list: seq<Span>, lower: nat) {
    forall i :: 0 <= i < |list| ==> lower <= list[i].lo
  }

  lemma {:induction false} InsertSorted(s: Span, list: seq<Span>, lower: nat)
    requires SortedByLo(list) && AllFrom(list, lower) && lower <= s.lo
    ensures SortedByLo(Insert(s, list)) && AllFrom(Insert(s, list), lower)
  {
    if list == [] || s.lo < list[0].lo {
    } else {
      InsertSorted(s, list[1..], list[0].lo);
    }
  }

  lemma {:induction false} InsertAdds(s: Span, list: seq<Span>)
    ensures multiset(Insert(s, list)) == multiset(list) + multiset{s}
  {
    if list == [] || s.lo < list[0].lo {
    } else {
      InsertAdds(s, list[1..]);
      assert list == [list[0]] + list[1..];
    }
  }

  lemma {:induction false} SortSpansSorted(list: seq<Span>)
    ensures SortedByLo(SortSpans(list)) && multiset(SortSpans(list)) == multiset(list)
  {
    if list != [] {
      var n := |list| - 1;
      SortSpansSorted(list[..n]);
      InsertSorted(list[n], SortSpans(list[..n]), 0);
      InsertAdds(list[n], SortSpans(list[..n]));
      assert list == list[..n] + [list[n]];
    }
  }

  lemma SameSpansSameUnion(a: seq<Span>, b: seq<Span>)
    requires multiset(a) == multiset(b)
    ensures forall x :: InSpans(a, x) <==> InSpans(b, x)
    ensures Proper(a) ==> Proper(b)
  {
    forall i | 0 <= i < |a| ensures a[i] in b { assert a[i] in multiset(a); }
    forall i | 0 <= i < |b| ensures b[i] in a { assert b[i] in multiset(b); }
  }

  datatype Cur = NoCur | Cur(span: Span)

  /** The merge loop: `cur` is the open span, `list` what is still to come. */
  function MergeFrom(cur: Cur, list: seq<Span>): seq<Span>
    decreases |list|
  {
    if list == [] then
      if cur.Cur? then [cur.span] else []
    else if cur.Cur? && list[0].lo <= cur.span.hi + 1 then
      MergeFrom(Cur(Span(cur.span.lo, if list[0].hi > cur.span.hi then list[0].hi else cur.span.hi)), list[1..])
    else
      (if cur.Cur? then [cur.span] else []) + MergeFrom(Cur(list[0]), list[1..])
  }

  function Flatten(spans: seq<Span>, bits: nat): seq<Block> {
    if spans == [] then [] else Decompose(spans[0].lo, spans[0].hi, bits) + Flatten(spans[1..], bits)
  }

  /** The CIDRs of one family. */
  function Compress(list: seq<Span>, bits: nat): seq<Block> {
    Flatten(MergeFrom(NoCur, SortSpans(list)), bits)
  }

  lemma FlattenCons(s: Span, rest: seq<Span>, bits: nat)
    ensures Flatten([s] + rest, bits) == Decompose(s.lo, s.hi, bits) + Flatten(rest, bits)
  {
    assert ([s] + rest)[1..] == rest;
  }

  // ---- what merging guarantees: maximal spans that do not touch ----

  predicate Separated(list: seq<Span>) {
    && Proper(list)
    && forall i, j :: 0 <= i < j < |list| ==> list[i].hi + 1 < list[j].lo
  }

  lemma {:induction false} MergeSeparates(cur: Cur, list: seq<Span>)
    requires SortedByLo(list) && Proper(list)
    requires cur.Cur? ==> cur.span.lo <= cur.span.hi && forall i :: 0 <= i < |list| ==> cur.span.lo <= list[i].lo
    ensures var m := MergeFrom(cur, list);
      && Separated(m)
      && (forall x :: InSpans(m, x) <==> (cur.Cur? && cur.span.Has(x)) || InSpans(list, x))
      && (forall i :: 0 <= i < |m| ==> (cur.Cur? && cur.span.lo <= m[i].lo) || (list != [] && list[0].lo <= m[i].lo))
    decreases |list|
  {
    var m := MergeFrom(cur, list);
    if list == [] {
      if cur.Cur? {
        forall x ensures InSpans(m, x) <==> cur.span.Has(x) {
          if cur.span.Has(x) { assert m[0].Has(x); }
        }
      }
    } else {
      var s, rest := list[0], list[1..];
      if cur.Cur? && s.lo <= cur.span.hi + 1 {
        var c := Span(cur.span.lo, if s.hi > cur.span.hi then s.hi else cur.span.hi);
        MergeSeparates(Cur(c), rest);
        InSpansCons(s, rest);
        assert list == [s] + rest;
      } else {
        MergeSeparates(Cur(s), rest);
        InSpansCons(s, rest);
        assert list == [s] + rest;
        if cur.Cur? {
          InSpansCons(cur.span, MergeFrom(Cur(s), rest));
          assert m == [cur.span] + MergeFrom(Cur(s), rest);
        } else {
          assert m == MergeFrom(Cur(s), rest);
        }
      }
    }
  }

  lemma InSpansCons(s: Span, list: seq<Span>)
    ensures forall x :: InSpans([s] + list, x) <==> s.Has(x) || InSpans(list, x)
  {
    var all := [s] + list;
    forall x ensures InSpans(all, x) <==> s.Has(x) || InSpans(list, x) {
      if s.Has(x) { assert all[0].Has(x); }
      if InSpans(list, x) {
        var i :| 0 <= i < |list| && list[i].Has(x);
        assert all[i + 1].Has(x);
      }
      if InSpans(all, x) {
        var i :| 0 <= i < |all| && all[i].Has(x);
        if i > 0 { assert list[i - 1].Has(x); }
      }
    }
  }

  /** Separated span lists are determined by the set they cover. */
  lemma {:induction false} SeparatedUnique(a: seq<Span>, b: seq<Span>)
    requires Separated(a) && Separated(b)
    requires forall x :: InSpans(a, x) <==> InSpans(b, x)
    ensures a == b
  {
    if a == [] || b == [] {
      if a != [] { assert a[0].Has(a[0].lo); assert InSpans(a, a[0].lo); }
      if b != [] { assert b[0].Has(b[0].lo); assert InSpans(b, b[0].lo); }
    } else {
      FirstSpan(a, b);
      FirstSpan(b, a);
      assert a == [a[0]] + a[1..] && b == [b[0]] + b[1..];
      InSpansCons(a[0], a[1..]);
      InSpansCons(b[0], b[1..]);
      forall x ensures InSpans(a[1..], x) <==> InSpans(b[1..], x) {
        TailAbove(a, x);
        TailAbove(b, x);
      }
      SeparatedUnique(a[1..], b[1..]);
    }
  }

  lemma TailAbove(a: seq<Span>, x: int)
    requires Separated(a) && a != []
    ensures InSpans(a[1..], x) ==> x > a[0].hi + 1
  {
    if InSpans(a[1..], x) {
      var i :| 0 <= i < |a[1..]| && a[1..][i].Has(x);
      assert a[i + 1].Has(x);
    }
  }

  lemma FirstSpan(a: seq<Span>, b: seq<Span>)
    requires Separated(a) && Separated(b) && a != [] && b != []
    requires forall x :: InSpans(a, x) <==> InSpans(b, x)
    ensures a[0].lo >= b[0].lo
    ensures a[0].lo == b[0].lo ==> a[0].hi <= b[0].hi
  {
    assert InSpans(a, a[0].lo) by { assert a[0].Has(a[0].lo); }
    var i :| 0 <= i < |b| && b[i].Has(a[0].lo);
    if a[0].lo == b[0].lo {
      var x := b[0].hi + 1;
      Gap(b, 0);
      assert !InSpans(a, x);
      assert !a[0].Has(x);
    }
  }

  lemma MergedSpans(list: seq<Span>)
    requires Proper(list)
    ensures Separated(MergeFrom(NoCur, SortSpans(list)))
    ensures forall x :: InSpans(MergeFrom(NoCur, SortSpans(list)), x) <==> InSpans(list, x)
  {
    SortSpansSorted(list);
    SameSpansSameUnion(list, SortSpans(list));
    MergeSeparates(NoCur, SortSpans(list));
  }

  // ---- the CIDR list of one family ----

  lemma {:induction false} FlattenExact(spans: seq<Span>, bits: nat)
    requires Separated(spans)
    ensures var out := Flatten(spans, bits);
      && AllAligned(out, bits) && Ascending(out)
      && (forall x :: Covers(out, x) <==> InSpans(spans, x))
      && (forall i :: 0 <= i < |out| ==> spans != [] && spans[0].lo <= out[i].base)
  {
    if spans != [] {
      var s, rest := spans[0], spans[1..];
      FlattenExact(rest, bits);
      RangeExact(s.lo, s.hi, bits);
      var d, f := Decompose(s.lo, s.hi, bits), Flatten(rest, bits);
      CoversConcat(d, f);
      InSpansCons(s, rest);
      assert spans == [s] + rest;
      forall i | 0 <= i < |d| ensures s.lo <= d[i].base && d[i].End() <= s.hi + 1 {
        assert Covers(d, d[i].base) by { assert d[i].Has(d[i].base); }
        assert Covers(d, d[i].End() - 1) by { assert d[i].Has(d[i].End() - 1); }
      }
    }
  }

  /** Exactly the addresses of the given spans, as disjoint ascending CIDRs. */
  lemma CompressExact(list: seq<Span>, bits: nat)
    requires Proper(list)
    ensures var out := Compress(list, bits);
      && AllAligned(out, bits) && Ascending(out)
      && (forall x :: Covers(out, x) <==> InSpans(list, x))
  {
    MergedSpans(list);
    FlattenExact(MergeFrom(NoCur, SortSpans(list)), bits);
  }

  lemma {:induction false} FlattenStarts(spans: seq<Span>, k: nat, bits: nat, other: seq<Block>)
    requires Separated(spans) && k <= |spans| && AllAligned(other, bits)
    requires forall x :: Covers(other, x) <==> InSpans(spans, x)
    ensures forall i :: 0 <= i < |Flatten(spans[k..], bits)| ==> Flatten(spans[k..], bits)[i].base in Bases(other)
    decreases |spans| - k
  {
    if k < |spans| {
      FlattenStarts(spans, k + 1, bits, other);
      var s := spans[k];
      assert spans[k..][1..] == spans[k + 1..];
      forall y | s.lo <= y <= s.hi ensures Covers(other, y) {
        assert s.Has(y);
        assert InSpans(spans, y);
      }
      assert !InSpans(spans, s.lo - 1) && !InSpans(spans, s.hi + 1) by { Gap(spans, k); }
      CoverHasStarts(s.lo, s.hi, bits, other);
    }
  }

  lemma Gap(spans: seq<Span>, k: nat)
    requires Separated(spans) && k < |spans|
    ensures !InSpans(spans, spans[k].lo - 1) && !InSpans(spans, spans[k].hi + 1)
  {
    forall i | 0 <= i < |spans| ensures !spans[i].Has(spans[k].lo - 1) && !spans[i].Has(spans[k].hi + 1) {
      if i < k { assert spans[i].hi + 1 < spans[k].lo; }
      if i > k { assert spans[k].hi + 1 < spans[i].lo; }
    }
  }

  /** No CIDR list with the same union is shorter. */
  lemma CompressMinimal(list: seq<Span>, bits: nat, other: seq<Block>)
    requires Proper(list) && AllAligned(other, bits)
    requires forall x :: Covers(other, x) <==> InSpans(list, x)
    ensures |Compress(list, bits)| <= |other|
  {
    var spans := MergeFrom(NoCur, SortSpans(list));
    MergedSpans(list);
    CompressExact(list, bits);
    FlattenStarts(spans, 0, bits, other);
    assert spans[0..] == spans;
    FewerStarts(Compress(list, bits), other);
  }

  /** The CIDR list depends on nothing but the set of addresses. */
  lemma CompressCanonical(a: seq<Span>, b: seq<Span>, bits: nat)
    requires Proper(a) && Proper(b)
    requires forall x :: InSpans(a, x) <==> InSpans(b, x)
    ensures Compress(a, bits) == Compress(b, bits)
  {
    MergedSpans(a);
    MergedSpans(b);
    SeparatedUnique(MergeFrom(NoCur, SortSpans(a)), MergeFrom(NoCur, SortSpans(b)));
  }

  // ---- the whole list ----

  function Tag(v6: bool, bs: seq<Block>): seq<Net> {
    seq(|bs|, i requires 0 <= i < |bs| => Net(v6, bs[i]))
  }

  function Ranges(lines: seq<Line>, countries: seq<string>): seq<Net> {
    Tag(false, Compress(Spans(lines, countries, false), 32)) +
    Tag(true, Compress(Spans(lines, countries, true), 128))
  }

  function OfFamily(nets: seq<Net>, v6: bool): seq<Block> {
    if nets == [] then []
    else (if nets[0].v6 == v6 then [nets[0].block] else []) + OfFamily(nets[1..], v6)
  }

  ghost predicate Sound(lines: seq<Line>, countries: seq<string>) {
    forall i :: 0 <= i < |lines| && Wanted(lines[i], countries) ==> !Broken(lines[i])
  }

  /** The reported line is the first wanted row that is broken, with what breaks it. */
  ghost predicate FirstBroken(lines: seq<Line>, countries: seq<string>, e: Error) {
    && e.line < |lines| && Wanted(lines[e.line], countries)
    && Sound(lines[..e.line], countries)
    && var l := lines[e.line];
      if e.MixedFamilies? then l.start.V6? != l.end.V6?
      else l.start.V6? == l.end.V6? && l.end.n < l.start.n
  }

  /** A span that the next one does not touch is written out. */
  lemma {:induction false} Flush(out: seq<Block>, cur: Cur, s: Span, rest: seq<Span>, list: seq<Span>, bits: nat)
    requires cur.Cur? && list == [s] + rest && s.lo > cur.span.hi + 1
    ensures out + Flatten(MergeFrom(cur, list), bits)
      == out + Decompose(cur.span.lo, cur.span.hi, bits) + Flatten(MergeFrom(Cur(s), rest), bits)
  {
    assert list[1..] == rest;
    assert MergeFrom(cur, list) == [cur.span] + MergeFrom(Cur(s), rest);
    FlattenCons(cur.span, MergeFrom(Cur(s), rest), bits);
    Associate(out, Decompose(cur.span.lo, cur.span.hi, bits), Flatten(MergeFrom(Cur(s), rest), bits));
  }

  /** A span that the next one touches grows. */
  lemma {:induction false} Absorb(cur: Cur, s: Span, rest: seq<Span>, list: seq<Span>)
    requires list == [s] + rest && (cur.Cur? ==> s.lo <= cur.span.hi + 1)
    ensures MergeFrom(cur, list)
      == MergeFrom(if cur.NoCur? then Cur(s) else if s.hi > cur.span.hi then Cur(Span(cur.span.lo, s.hi)) else cur, rest)
  {
    assert list[1..] == rest;
  }

  method CompressFamily(list: seq<Span>, bits: nat) returns (out: seq<Block>)
    requires Proper(list)
    ensures out == Compress(list, bits)
  {
    var sorted := SortSpans(list);
    SortSpansSorted(list);
    SameSpansSameUnion(list, sorted);
    var cur := NoCur;
    out := [];
    for i := 0 to |sorted|
      invariant out + Flatten(MergeFrom(cur, sorted[i..]), bits) == Compress(list, bits)
      invariant cur.Cur? ==> cur.span.lo <= cur.span.hi
    {
      var s, rest := sorted[i], sorted[i + 1..];
      DropOneMore(sorted, i);
      if cur.Cur? && s.lo <= cur.span.hi + 1 {
        Absorb(cur, s, rest, sorted[i..]);
        if s.hi > cur.span.hi {
          cur := Cur(Span(cur.span.lo, s.hi));
        }
      } else {
        if cur.Cur? {
          var bs := BigRangeToCidrs(cur.span.lo, cur.span.hi, bits);
          Flush(out, cur, s, rest, sorted[i..], bits);
          out := out + bs;
        } else {
          Absorb(cur, s, rest, sorted[i..]);
        }
        cur := Cur(s);
      }
    }
    if cur.Cur? {
      var bs := BigRangeToCidrs(cur.span.lo, cur.span.hi, bits);
      FlattenCons(cur.span, [], bits);
      out := out + bs;
    }
  }

  method ParseDbip(lines: seq<Line>, countries: seq<string>) returns (r: Result<Parsed, Error>)
    ensures r.Ok? <==> Sound(lines, countries)
    ensures r.Err? ==> FirstBroken(lines, countries, r.error)
    ensures r.Ok? ==> r.value.ranges == Ranges(lines, countries)
    ensures r.Ok? ==> r.value.rows == CountRows(lines)
    ensures r.Ok? ==> r.value.perCountry == map c | c in countries :: CountOf(lines, c)
  {
    var perCountry := map c | c in countries :: 0;
    var v4, v6: seq<Span> := [], [];
    var rows := 0;
    for i := 0 to |lines|
      invariant Sound(lines[..i], countries)
      invariant v4 == Spans(lines[..i], countries, false) && v6 == Spans(lines[..i], countries, true)
      invariant rows == CountRows(lines[..i])
      invariant perCountry.Keys == set c | c in countries
      invariant forall c :: c in countries ==> perCountry[c] == CountOf(lines[..i], c)
    {
      assert lines[..i + 1][..i] == lines[..i];
      var l := lines[i];
      if l.Blank? { continue; }
      rows := rows + 1;
      if l.Short? || l.cc !in countries { continue; }
      if l.start.V6? != l.end.V6? { return Err(MixedFamilies(i)); }
      if l.end.n < l.start.n { return Err(Reversed(i)); }
      if l.start.V6? {
        v6 := v6 + [Span(l.start.n, l.end.n)];
      } else {
        v4 := v4 + [Span(l.start.n, l.end.n)];
      }
      perCountry := perCountry[l.cc := perCountry[l.cc] + 1];
    }
    assert lines[..|lines|] == lines;
    SpansSelect(lines, countries, false);
    SpansSelect(lines, countries, true);
    var c4 := CompressFamily(v4, 32);
    var c6 := CompressFamily(v6, 128);
    return Ok(Parsed(Tag(false, c4) + Tag(true, c6), rows, perCountry));
  }

  lemma {:induction false} OfFamilyCons(net: Net, rest: seq<Net>, v6: bool)
    ensures OfFamily([net] + rest, v6) == (if net.v6 == v6 then [net.block] else []) + OfFamily(rest, v6)
  {
    assert ([net] + rest)[1..] == rest;
  }

  lemma {:induction false} OfFamilyConcat(a: seq<Net>, b: seq<Net>, v6: bool)
    ensures OfFamily(a + b, v6) == OfFamily(a, v6) + OfFamily(b, v6)
  {
    if a == [] {
      assert a + b == b;
    } else {
      var net, rest := a[0], a[1..];
      OfFamilyConcat(rest, b, v6);
      assert a + b == [net] + (rest + b);
      OfFamilyCons(net, rest + b, v6);
      Associate(if net.v6 == v6 then [net.block] else [], OfFamily(rest, v6), OfFamily(b, v6));
    }
  }

  lemma {:induction false} OfFamilyTag(bs: seq<Block>, tag: bool, v6: bool)
    ensures OfFamily(Tag(tag, bs), v6) == if tag == v6 then bs else []
  {
    if bs != [] {
      OfFamilyTag(bs[1..], tag, v6);
      assert Tag(tag, bs)[1..] == Tag(tag, bs[1..]);
    }
  }

  lemma RangesOfFamily(lines: seq<Line>, countries: seq<string>, v6: bool)
    ensures OfFamily(Ranges(lines, countries), v6) == Compress(Spans(lines, countries, v6), Bits(v6))
  {
    var a, b := Compress(Spans(lines, countries, false), 32), Compress(Spans(lines, countries, true), 128);
    OfFamilyConcat(Tag(false, a), Tag(true, b), v6);
    OfFamilyTag(a, false, v6);
    OfFamilyTag(b, true, v6);
  }

  /** Per family: exactly the addresses of the selected rows, each in one CIDR only,
      and no shorter CIDR list covers them. */
  lemma DbipExactAndShortest(lines: seq<Line>, countries: seq<string>, v6: bool, other: seq<Block>)
    requires Sound(lines, countries)
    ensures var out := OfFamily(Ranges(lines, countries), v6);
      && AllAligned(out, Bits(v6)) && Ascending(out)
      && (forall x :: Covers(out, x) <==> Selected(lines, countries, v6, x))
      && (AllAligned(other, Bits(v6)) && (forall x :: Covers(other, x) <==> Selected(lines, countries, v6, x))
          ==> |out| <= |other|)
  {
    var list := Spans(lines, countries, v6);
    RangesOfFamily(lines, countries, v6);
    SpansSelect(lines, countries, v6);
    CompressExact(list, Bits(v6));
    if AllAligned(other, Bits(v6)) && (forall x :: Covers(other, x) <==> Selected(lines, countries, v6, x)) {
      CompressMinimal(list, Bits(v6), other);
    }
  }

  /** Two lists that select the same addresses give the same networks in the same order:
      neither the row order nor the cutting into rows or countries matters. */
  lemma DbipOrderFree(a: seq<Line>, b: seq<Line>, ca: seq<string>, cb: seq<string>)
    requires Sound(a, ca) && Sound(b, cb)
    requires forall v6, x :: Selected(a, ca, v6, x) <==> Selected(b, cb, v6, x)
    ensures Ranges(a, ca) == Ranges(b, cb)
  {
    forall v6 ensures Compress(Spans(a, ca, v6), Bits(v6)) == Compress(Spans(b, cb, v6), Bits(v6)) {
      SpansSelect(a, ca, v6);
      SpansSelect(b, cb, v6);
      forall x ensures InSpans(Spans(a, ca, v6), x) <==> InSpans(Spans(b, cb, v6), x) {
        assert Selected(a, ca, v6, x) <==> Selected(b, cb, v6, x);
      }
      CompressCanonical(Spans(a, ca, v6), Spans(b, cb, v6), Bits(v6));
    }
    assert Compress(Spans(a, ca, false), Bits(false)) == Compress(Spans(b, cb, false), Bits(false));
    assert Compress(Spans(a, ca, true), Bits(true)) == Compress(Spans(b, cb, true), Bits(true));
  }

  /** In particular the order of the rows does not matter. */
  lemma DbipPermuted(a: seq<Line>, b: seq<Line>, countries: seq<string>)
    requires multiset(a) == multiset(b) && Sound(a, countries)
    ensures Sound(b, countries) && Ranges(a, countries) == Ranges(b, countries)
  {
    forall i | 0 <= i < |a| ensures a[i] in b { assert a[i] in multiset(a); }
    forall i | 0 <= i < |b| ensures b[i] in a { assert b[i] in multiset(b); }
    DbipOrderFree(a, b, countries, countries);
  }
}
