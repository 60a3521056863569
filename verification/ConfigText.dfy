/** The string operations of JavaScript that the config rewriting and the log reader use (trim,
    startsWith, indexOf, split, join, sort), with the round trips they rely on. */
module ConfigText {
  /** What /\s/ matches and trim() removes. */
  predicate Space(c: char) {
    if c <= '\U{007F}' then c == ' ' || '\t' <= c <= '\r' else IsWideSpace(c)
  }

  predicate IsWideSpace(c: char) {
    || c == '\U{00A0}' || c == '\U{1680}' || '\U{2000}' <= c <= '\U{200A}'
    || c == '\U{2028}' || c == '\U{2029}' || c == '\U{202F}' || c == '\U{205F}' || c == '\U{3000}' || c == '\U{FEFF}'
  }

  function TrimLeft(s: string): string { if s != "" && Space(s[0]) then TrimLeft(s[1..]) else s }

  function TrimRight(s: string): string {
    if s != "" && Space(s[|s| - 1]) then TrimRight(s[..|s| - 1]) else s
  }

  function Trim(s: string): string { TrimRight(TrimLeft(s)) }

  predicate StartsWith(s: string, p: string) { p <= s }

  /** Not empty, no white space, none of the characters that separate fields. */
  predicate Clean(s: string) { s != "" && forall c :: c in s ==> !Space(c) && c != ',' && c != '#' }

  /** The first index of c, or the length. */
  function IndexOf(s: string, c: char): (i: nat)
    ensures i <= |s| && c !in s[..i] && (i < |s| ==> s[i] == c)
  {
    if s == "" || s[0] == c then 0
    else
      var i := 1 + IndexOf(s[1..], c);
      assert s[..i] == [s[0]] + s[1..][..i - 1];
      i
  }

  /** The last index of c, or -1. */
  function LastIndexOf(s: string, c: char): (i: int)
    ensures -1 <= i < |s| && (i >= 0 ==> s[i] == c) && forall j :: i < j < |s| ==> s[j] != c
  {
    if s == "" then -1 else if s[|s| - 1] == c then |s| - 1 else LastIndexOf(s[..|s| - 1], c)
  }

  function Split(s: string, c: char): (parts: seq<string>)
    ensures parts != [] && forall p :: p in parts ==> c !in p
    decreases |s|
  {
    var i := IndexOf(s, c);
    if i == |s| then assert s[..i] == s; [s] else [s[..i]] + Split(s[i + 1..], c)
  }

  function Join(parts: seq<string>, sep: string): string {
    if parts == [] then "" else if |parts| == 1 then parts[0] else parts[0] + sep + Join(parts[1..], sep)
  }

  lemma TrimKeeps(s: string)
    requires s != "" && !Space(s[0]) && !Space(s[|s| - 1])
    ensures Trim(s) == s && TrimRight(s) == s && TrimLeft(s) == s
  {
  }

  /** Trimming never leaves white space at an end. */
  lemma Trimmed(s: string)
    ensures Trim(s) == "" || (!Space(Trim(s)[0]) && !Space(Trim(s)[|Trim(s)| - 1]))
  {
    LeftDone(s);
    RightDone(TrimLeft(s));
  }

  lemma LeftDone(s: string)
    ensures TrimLeft(s) == "" || !Space(TrimLeft(s)[0])
  {
  }

  lemma RightDone(s: string)
    ensures TrimRight(s) == "" || !Space(TrimRight(s)[|TrimRight(s)| - 1])
    ensures TrimRight(s) <= s
  {
  }

  lemma IndexAt(a: string, c: char, b: string)
    requires c !in a
    ensures IndexOf(a + [c] + b, c) == |a|
  {
    if a != "" {
      assert (a + [c] + b)[1..] == a[1..] + [c] + b;
      IndexAt(a[1..], c, b);
    }
  }

  lemma IndexNone(a: string, c: char)
    requires c !in a
    ensures IndexOf(a, c) == |a|
  {
  }

  lemma SplitFirst(a: string, c: char, b: string)
    requires c !in a
    ensures Split(a + [c] + b, c) == [a] + Split(b, c)
  {
    IndexAt(a, c, b);
    var s := a + [c] + b;
    assert s[..|a|] == a && s[|a| + 1..] == b;
  }

  /** The non-empty trimmed fields of a comma list. */
  function Fields(s: string): seq<string> { Kept(Split(Trim(s), ',')) }

  function Kept(parts: seq<string>): seq<string> {
    if parts == [] then []
    else (if Trim(parts[0]) == "" then [] else [Trim(parts[0])]) + Kept(parts[1..])
  }

  /** Reading back a list written with ", " between its entries. */
  lemma {:induction false} FieldsOfJoin(parts: seq<string>)
    requires parts != [] && forall p :: p in parts ==> Clean(p)
    ensures Fields(Join(parts, ", ")) == parts
  {
    JoinEnds(parts);
    TrimKeeps(Join(parts, ", "));
    SplitJoin(parts, "");
    assert "" + Join(parts, ", ") == Join(parts, ", ");
  }

  lemma {:induction false} JoinEnds(parts: seq<string>)
    requires parts != [] && forall p :: p in parts ==> Clean(p)
    ensures var s := Join(parts, ", "); s != "" && !Space(s[0]) && !Space(s[|s| - 1])
  {
    assert Clean(parts[0]);
    assert parts[0][0] in parts[0] && parts[0][|parts[0]| - 1] in parts[0];
    if |parts| > 1 {
      assert forall p :: p in parts[1..] ==> p in parts;
      JoinEnds(parts[1..]);
      var rest := Join(parts[1..], ", ");
      var s := parts[0] + ", " + rest;
      assert s[|s| - 1] == rest[|rest| - 1];
      assert s[0] == parts[0][0];
    }
  }

  lemma {:induction false} SplitJoin(parts: seq<string>, lead: string)
    requires parts != [] && (lead == "" || lead == " ") && forall p :: p in parts ==> Clean(p)
    ensures Kept(Split(lead + Join(parts, ", "), ',')) == parts
  {
    var p, more := parts[0], parts[1..];
    assert Clean(p) && parts == [p] + more;
    TrimLead(p, lead);
    assert ',' !in lead + p;
    if more == [] {
      IndexNone(lead + p, ',');
      KeptCons(lead + p, []);
      assert [lead + p] + [] == [lead + p];
    } else {
      var rest := Join(more, ", ");
      JoinCut(lead, p, rest);
      SplitFirst(lead + p, ',', " " + rest);
      SplitJoin(more, " ");
      KeptCons(lead + p, Split(" " + rest, ','));
    }
  }

  lemma {:induction false} JoinCut(lead: string, p: string, rest: string)
    ensures lead + (p + ", " + rest) == (lead + p) + [','] + (" " + rest)
  {
  }

  lemma {:induction false} KeptCons(part: string, rest: seq<string>)
    ensures Kept([part] + rest) == (if Trim(part) == "" then [] else [Trim(part)]) + Kept(rest)
  {
    assert ([part] + rest)[1..] == rest;
  }

  lemma TrimLead(p: string, lead: string)
    requires Clean(p) && (lead == "" || lead == " ")
    ensures Trim(lead + p) == p
  {
    assert p[0] in p && p[|p| - 1] in p;
    TrimKeeps(p);
    if lead == " " {
      assert (lead + p)[1..] == p;
      assert Space((lead + p)[0]);
    } else {
      assert lead + p == p;
    }
  }

  /** Comma-free entries can be read off their join. */
  lemma {:induction false} JoinInjective(a: seq<string>, b: seq<string>)
    requires Join(a, ",") == Join(b, ",")
    requires (forall p :: p in a ==> p != "" && ',' !in p) && forall p :: p in b ==> p != "" && ',' !in p
    ensures a == b
  {
    if a != [] { SplitOfJoin(a); assert a[0] in a; }
    if b != [] { SplitOfJoin(b); assert b[0] in b; }
  }

  lemma {:induction false} SplitOfJoin(parts: seq<string>)
    requires parts != [] && forall p :: p in parts ==> p != "" && ',' !in p
    ensures Split(Join(parts, ","), ',') == parts && Join(parts, ",") != ""
  {
    assert parts[0] in parts;
    if |parts| == 1 {
      IndexNone(parts[0], ',');
    } else {
      assert forall q :: q in parts[1..] ==> q in parts;
      SplitOfJoin(parts[1..]);
      var rest := Join(parts[1..], ",");
      assert Join(parts, ",") == parts[0] + [','] + rest;
      SplitFirst(parts[0], ',', rest);
    }
  }

  lemma {:induction false} KeptFields(parts: seq<string>)
    requires forall p :: p in parts ==> ',' !in p
    ensures forall p :: p in Kept(parts) ==> p != "" && ',' !in p
  {
    if parts != [] {
      assert forall q :: q in parts[1..] ==> q in parts;
      KeptFields(parts[1..]);
      TrimPart(parts[0]);
      assert parts[0] in parts;
    }
  }

  lemma TrimPart(s: string)
    ensures forall c :: c in Trim(s) ==> c in s
  {
    LeftPart(s);
    RightDone(TrimLeft(s));
  }

  lemma LeftPart(s: string)
    ensures forall c :: c in TrimLeft(s) ==> c in s
  {
  }

  // ==== sort ====

  predicate AtMost(a: string, b: string) {
    if a == "" then true else if b == "" then false else if a[0] != b[0] then a[0] < b[0] else AtMost(a[1..], b[1..])
  }

  function Insert(x: string, xs: seq<string>): seq<string> {
    if xs == [] || AtMost(x, xs[0]) then [x] + xs else [xs[0]] + Insert(x, xs[1..])
  }

  function Sort(xs: seq<string>): seq<string> { if xs == [] then [] else Insert(xs[0], Sort(xs[1..])) }

  predicate Ordered(xs: seq<string>) { forall i :: 0 <= i < |xs| - 1 ==> AtMost(xs[i], xs[i + 1]) }

  lemma AtMostTotal(a: string, b: string)
    ensures AtMost(a, b) || AtMost(b, a)
  {
  }

  lemma {:induction false} InsertOrdered(x: string, xs: seq<string>)
    requires Ordered(xs)
    ensures Ordered(Insert(x, xs)) && multiset(Insert(x, xs)) == multiset(xs) + multiset{x}
    ensures Insert(x, xs)[0] == x || (xs != [] && Insert(x, xs)[0] == xs[0])
  {
    if xs != [] && !AtMost(x, xs[0]) {
      AtMostTotal(x, xs[0]);
      assert xs == [xs[0]] + xs[1..];
      InsertOrdered(x, xs[1..]);
    }
  }

  lemma {:induction false} FirstAndRest(xs: seq<string>)
    requires xs != []
    ensures multiset(xs) == multiset(xs[1..]) + multiset{xs[0]}
  {
    assert xs == [xs[0]] + xs[1..];
  }

  lemma {:induction false} SortSorts(xs: seq<string>)
    ensures Ordered(Sort(xs)) && multiset(Sort(xs)) == multiset(xs)
  {
    if xs != [] {
      SortSorts(xs[1..]);
      InsertOrdered(xs[0], Sort(xs[1..]));
      FirstAndRest(xs);
    }
  }

  lemma {:induction false} SortKeeps(xs: seq<string>)
    requires Ordered(xs)
    ensures Sort(xs) == xs
  {
    if xs != [] {
      SortKeeps(xs[1..]);
    }
  }

  lemma SortMembers(xs: seq<string>, x: string)
    ensures x in Sort(xs) <==> x in xs
  {
    SortSorts(xs);
    assert x in Sort(xs) <==> x in multiset(Sort(xs));
  }
}
