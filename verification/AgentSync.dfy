/** Config sync reaches its fixpoint in one step: the lemmas about AgentConfig's line rewriting. */
module AgentSync {
  import opened Wrappers
  import opened Seqs
  import opened ConfigText
  import opened AgentConfig

  // ==== kinds of lines ====

  predicate IsKey(raw: string) { StartsWith(Trim(raw), "PrivateKey") }

  /** A line is of one kind at most. */
  lemma Kinds(raw: string)
    ensures IsAllowed(raw) ==> !IsHead(raw) && !IsEndpoint(raw) && !IsTable(raw) && !IsManaged(raw) && !IsKey(raw)
    ensures IsEndpoint(raw) ==> !IsHead(raw) && !IsTable(raw) && !IsManaged(raw) && !IsKey(raw)
    ensures IsManaged(raw) ==> !IsHead(raw) && !IsTable(raw) && !IsKey(raw)
    ensures IsKey(raw) ==> !IsHead(raw) && !IsTable(raw)
    ensures IsTable(raw) ==> !IsHead(raw)
    ensures IsPeer(raw) || IsInterface(raw) ==> IsHead(raw)
    ensures IsPeer(raw) ==> !IsInterface(raw)
  {
    FirstTwo(raw);
  }

  lemma Prefix2(t: string, p: string)
    ensures StartsWith(t, p) && |p| >= 1 ==> |t| >= |p| && t[0] == p[0]
    ensures StartsWith(t, p) && |p| >= 2 ==> t[1] == p[1]
  {
  }

  lemma FirstTwo(raw: string)
    ensures var t := Trim(raw);
      && (IsHead(raw) ==> |t| >= 1 && t[0] == '[')
      && (IsAllowed(raw) ==> |t| >= 2 && t[0] == 'A' && t[1] == 'l')
      && (IsEndpoint(raw) ==> |t| >= 2 && t[0] == 'E')
      && (IsTable(raw) ==> |t| >= 2 && t[0] == 'T')
      && (IsManaged(raw) ==> |t| >= 2 && t[0] == 'P' && t[1] == 'o')
      && (IsKey(raw) ==> |t| >= 2 && t[0] == 'P' && t[1] == 'r')
  {
    var t := Trim(raw);
    Prefix2(t, "[");
    Prefix2(t, "AllowedIPs");
    Prefix2(t, "Endpoint");
    Prefix2(t, "Table");
    Prefix2(t, "PostUp");
    Prefix2(t, "PostDown");
    Prefix2(t, "PrivateKey");
  }

  predicate IsAddress(raw: string) { var t := Trim(raw); Lower(t[..if |t| < 7 then |t| else 7]) == "address" }

  lemma AddressStart(raw: string)
    ensures IsAddress(raw) ==> !IsAllowed(raw) && !IsEndpoint(raw) && !IsTable(raw) && !IsManaged(raw) && !IsKey(raw)
  {
    FirstTwo(raw);
    if IsAddress(raw) {
      var t := Trim(raw);
      AddressChars(t[..if |t| < 7 then |t| else 7]);
    }
  }

  lemma AddressChars(h: string)
    requires |Lower(h)| == 7 && Lower(h)[0] == 'a' && Lower(h)[1] == 'd'
    ensures |h| == 7 && (h[0] == 'a' || h[0] == 'A') && (h[1] == 'd' || h[1] == 'D')
  {
    LowerLength(h);
    LowerTwo(h);
    LowerChar(h[0], 'a', 'A');
    LowerChar(h[1], 'd', 'D');
  }

  lemma LowerChar(c: char, l: char, u: char)
    requires (if 'A' <= c <= 'Z' then (c as int + 32) as char else c) == l
    requires u as int + 32 == l as int
    ensures c == l || c == u
  {
  }

  lemma LowerTwo(h: string)
    requires |h| >= 2
    ensures var l := Lower(h);
      && |l| >= 2
      && l[0] == (if 'A' <= h[0] <= 'Z' then (h[0] as int + 32) as char else h[0])
      && l[1] == (if 'A' <= h[1] <= 'Z' then (h[1] as int + 32) as char else h[1])
  {
    var rest := Lower(h[1..]);
    LowerLength(h[1..]);
    assert rest[0] == if 'A' <= h[1] <= 'Z' then (h[1] as int + 32) as char else h[1];
  }

  lemma LowerLength(s: string)
    ensures |Lower(s)| == |s|
  {
  }

  /** A line that no rewriting and no parser looks at. */
  predicate Inert(raw: string) { !IsHead(raw) && !IsAllowed(raw) && !IsEndpoint(raw) && !IsAddress(raw) }

  lemma TrimPrefix(p: string, x: string)
    requires p != "" && !Space(p[0]) && !Space(p[|p| - 1])
    ensures p <= Trim(p + x)
  {
    assert TrimLeft(p + x) == p + x;
    RightPrefix(p, x);
  }

  lemma {:induction false} RightPrefix(p: string, x: string)
    requires p != "" && !Space(p[|p| - 1])
    ensures p <= TrimRight(p + x)
  {
    if x != "" && Space(x[|x| - 1]) {
      assert (p + x)[..|p + x| - 1] == p + x[..|x| - 1];
      RightPrefix(p, x[..|x| - 1]);
    } else if x == "" {
      assert p + x == p;
    }
  }

  lemma {:induction false} ManagedLine(p: string, x: string)
    requires "PostUp" <= p || "PostDown" <= p
    ensures IsManaged(p + x) && Inert(p + x)
  {
    var line := p + x;
    if "PostUp" <= p { StartKept("PostUp", line); } else { StartKept("PostDown", line); }
    Kinds(line);
    AddressStart(line);
  }

  lemma {:induction false} StartKept(p: string, line: string)
    requires p <= line && p != "" && !Space(p[0]) && !Space(p[|p| - 1])
    ensures p <= Trim(line)
  {
    assert line == p + line[|p|..];
    TrimPrefix(p, line[|p|..]);
  }

  lemma {:induction false} TableLine()
    ensures IsTable(TABLE_OFF) && Inert(TABLE_OFF) && !IsManaged(TABLE_OFF) && !IsKey(TABLE_OFF) && !IsPeer(TABLE_OFF)
  {
    TrimKeeps(TABLE_OFF);
    assert TABLE_OFF[..5] == "Table";
    Kinds(TABLE_OFF);
    AddressStart(TABLE_OFF);
    FirstTwo(TABLE_OFF);
  }

  lemma {:induction false} KeyLine()
    ensures IsKey(HIDDEN_KEY) && Inert(HIDDEN_KEY) && !IsManaged(HIDDEN_KEY) && !IsOpenKey(HIDDEN_KEY)
  {
    TrimKeeps(HIDDEN_KEY);
    assert HIDDEN_KEY[13..] == "(hidden)" && HIDDEN_KEY[13] == '(';
    assert HIDDEN_KEY[..10] == "PrivateKey";
    Kinds(HIDDEN_KEY);
    AddressStart(HIDDEN_KEY);
    FirstTwo(HIDDEN_KEY);
  }

  lemma {:induction false} FixedLines()
    ensures IsTable(TABLE_OFF) && Inert(TABLE_OFF) && !IsManaged(TABLE_OFF) && !IsKey(TABLE_OFF)
    ensures IsKey(HIDDEN_KEY) && Inert(HIDDEN_KEY) && !IsManaged(HIDDEN_KEY) && !IsOpenKey(HIDDEN_KEY)
  {
    TableLine();
    KeyLine();
  }

  lemma WrittenLines(w: World, subnet: string, remote: seq<string>, peers: seq<string>)
    ensures IsManaged(UpLine(w, subnet, remote, peers)) && Inert(UpLine(w, subnet, remote, peers))
    ensures IsManaged(DownLine(w, subnet, remote, peers)) && Inert(DownLine(w, subnet, remote, peers))
  {
    assert "PostUp" <= "PostUp = " && "PostDown" <= "PostDown = ";
    ManagedLine("PostUp = ", ShowAll(Commands(true, subnet, remote, peers, w.localNets), true, subnet, w.iface));
    ManagedLine("PostDown = ", ShowAll(Commands(false, subnet, remote, peers, w.localNets), false, subnet, w.iface));
  }

  // ==== stripping ====

  /** What a line becomes keeps the section, and is left alone the next time. */
  lemma StripLineKeeps(raw: string, inI: bool)
    ensures var f := InInterface(inI, raw); var out := StripLine(raw, f);
      if out == [] then f == inI && !IsTable(raw) && !IsPeer(raw)
      else |out| == 1 && InInterface(inI, out[0]) == f && StripLine(out[0], f) == out && IsTable(out[0]) == IsTable(raw)
           && IsPeer(out[0]) == IsPeer(raw)
  {
    Kinds(raw);
    Kinds(HIDDEN_KEY);
    FixedLines();
  }

  lemma {:induction false} StripIdem(ls: Config, inI: bool)
    ensures var out := Stripped(ls, inI);
      && Stripped(out, inI) == out
      && SectionAfter(out, inI) == SectionAfter(ls, inI)
      && HasTable(out, inI) == HasTable(ls, inI)
  {
    if ls != [] {
      var f := InInterface(inI, ls[0]);
      StripLineKeeps(ls[0], inI);
      StripIdem(ls[1..], f);
      var head, rest := StripLine(ls[0], f), Stripped(ls[1..], f);
      if head == [] {
        assert Stripped(ls, inI) == rest;
      } else {
        assert (head + rest)[0] == head[0] && (head + rest)[1..] == rest;
        assert head == [head[0]];
      }
    }
  }

  lemma StripCons(x: string, rest: Config, inI: bool)
    ensures var f := InInterface(inI, x);
      && Stripped([x] + rest, inI) == StripLine(x, f) + Stripped(rest, f)
      && SectionAfter([x] + rest, inI) == SectionAfter(rest, f)
      && HasTable([x] + rest, inI) == ((f && IsTable(x)) || HasTable(rest, f))
  {
    assert ([x] + rest)[1..] == rest;
  }

  lemma {:induction false} StripConcat(a: Config, b: Config, inI: bool)
    ensures Stripped(a + b, inI) == Stripped(a, inI) + Stripped(b, SectionAfter(a, inI))
  {
    if a == [] {
      assert a + b == b;
    } else {
      var x, rest, f := a[0], a[1..], InInterface(inI, a[0]);
      StripConcat(rest, b, f);
      ConcatTail(a, b);
      Associate(StripLine(x, f), Stripped(rest, f), Stripped(b, SectionAfter(rest, f)));
    }
  }

  lemma {:induction false} SectionConcat(a: Config, b: Config, inI: bool)
    ensures SectionAfter(a + b, inI) == SectionAfter(b, SectionAfter(a, inI))
    ensures HasTable(a + b, inI) == (HasTable(a, inI) || HasTable(b, SectionAfter(a, inI)))
  {
    if a == [] {
      assert a + b == b;
    } else {
      assert (a + b)[0] == a[0] && (a + b)[1..] == a[1..] + b;
      SectionConcat(a[1..], b, InInterface(inI, a[0]));
    }
  }

  lemma {:induction false} StripShort(ls: Config, inI: bool)
    ensures |Stripped(ls, inI)| <= |ls|
  {
    if ls != [] { StripShort(ls[1..], InInterface(inI, ls[0])); }
  }

  /** A stripped config stays as it is piece by piece. */
  lemma StrippedPieces(a: Config, b: Config, inI: bool)
    requires Stripped(a + b, inI) == a + b
    ensures Stripped(a, inI) == a && Stripped(b, SectionAfter(a, inI)) == b
  {
    StripConcat(a, b, inI);
    StripShort(a, inI);
    StripShort(b, SectionAfter(a, inI));
    assert (a + b)[..|a|] == a && (a + b)[|a|..] == b;
  }

  // ==== scanning ====

  lemma {:induction false} ParseConcat(a: Config, b: Config, s: Scan)
    ensures Parse(a + b, s) == Parse(a, s) + Parse(b, ScanAfter(a, s))
    ensures ScanAfter(a + b, s) == ScanAfter(b, ScanAfter(a, s))
    ensures HasAllowed(a + b, s) == (HasAllowed(a, s) || HasAllowed(b, ScanAfter(a, s)))
  {
    if a == [] {
      assert a + b == b;
    } else {
      assert (a + b)[0] == a[0] && (a + b)[1..] == a[1..] + b;
      ParseConcat(a[1..], b, Next(s, a[0]));
    }
  }

  predicate AllInert(ls: Config) { forall i :: 0 <= i < |ls| ==> Inert(ls[i]) }

  lemma {:induction false} InertScan(ls: Config, s: Scan)
    requires AllInert(ls)
    ensures Parse(ls, s) == [] && ScanAfter(ls, s) == s && !HasAllowed(ls, s)
  {
    if ls != [] {
      Kinds(ls[0]);
      InertScan(ls[1..], s);
    }
  }

  /** Lines that nobody looks at may be put anywhere. */
  lemma {:induction false} ParseInsert(a: Config, ins: Config, b: Config, s: Scan)
    requires AllInert(ins)
    ensures Parse(a + ins + b, s) == Parse(a + b, s) && HasAllowed(a + ins + b, s) == HasAllowed(a + b, s)
  {
    ParseConcat(a + ins, b, s);
    ParseConcat(a, ins, s);
    ParseConcat(a, b, s);
    InertScan(ins, ScanAfter(a, s));
    assert Parse(a + ins, s) == Parse(a, s) by { assert Parse(a, s) + [] == Parse(a, s); }
  }

  lemma {:induction false} ParseStrip(ls: Config, inI: bool, s: Scan)
    ensures Parse(Stripped(ls, inI), s) == Parse(ls, s) && HasAllowed(Stripped(ls, inI), s) == HasAllowed(ls, s)
  {
    if ls != [] {
      var f := InInterface(inI, ls[0]);
      var head, rest := StripLine(ls[0], f), Stripped(ls[1..], f);
      ParseConcat(head, rest, s);
      ParseStrip(ls[1..], f, Next(s, ls[0]));
      Kinds(ls[0]);
      FixedLines();
      if head == [HIDDEN_KEY] || head == [] {
        InertScan(head, s);
      } else {
        assert head == [ls[0]] && head[1..] == [];
      }
    }
  }

  // ==== the tunnel subnet ====

  lemma DeriveCons(x: string, rest: Config, w: World)
    ensures Derive([x] + rest, w) == if w.subnetOf(Trim(x)).Some? then w.subnetOf(Trim(x)).value else Derive(rest, w)
  {
    assert ([x] + rest)[1..] == rest;
  }

  lemma {:induction false} DeriveConcat(a: Config, b: Config, w: World)
    requires forall i :: 0 <= i < |a| ==> w.subnetOf(Trim(a[i])).None?
    ensures Derive(a + b, w) == Derive(b, w)
  {
    if a == [] {
      assert a + b == b;
    } else {
      assert a + b == [a[0]] + (a[1..] + b);
      DeriveCons(a[0], a[1..] + b, w);
      DeriveConcat(a[1..], b, w);
    }
  }

  lemma {:induction false} DeriveInsert(a: Config, ins: Config, b: Config, w: World)
    requires Contract(w) && AllInert(ins)
    ensures Derive(a + ins + b, w) == Derive(a + b, w)
  {
    if a == [] {
      NoFront(ins, b);
      forall i | 0 <= i < |ins| ensures w.subnetOf(Trim(ins[i])).None? { NoSubnet(ins[i], w); }
      DeriveConcat(ins, b, w);
    } else {
      Peel(a, ins, b);
      DeriveInsert(a[1..], ins, b, w);
      DeriveSame(a[0], a[1..] + ins + b, a[1..] + b, w);
    }
  }

  lemma {:induction false} DeriveSame(x: string, r: Config, t: Config, w: World)
    requires Derive(r, w) == Derive(t, w)
    ensures Derive([x] + r, w) == Derive([x] + t, w)
  {
    DeriveCons(x, r, w);
    DeriveCons(x, t, w);
  }

  lemma {:induction false} NoFront(ins: Config, b: Config)
    ensures [] + ins + b == ins + b && [] + b == b
  {
  }

  lemma {:induction false} Peel(a: Config, ins: Config, b: Config)
    requires a != []
    ensures a + ins + b == [a[0]] + (a[1..] + ins + b) && a + b == [a[0]] + (a[1..] + b)
  {
  }

  lemma {:induction false} DeriveStrip(ls: Config, inI: bool, w: World)
    requires Contract(w)
    ensures Derive(Stripped(ls, inI), w) == Derive(ls, w)
  {
    if ls != [] {
      var f := InInterface(inI, ls[0]);
      DeriveStrip(ls[1..], f, w);
      DeriveStep(ls[0], f, Stripped(ls[1..], f), ls[1..], w);
      DropOneMore(ls, 0);
      assert ls[0..] == ls;
    }
  }

  lemma {:induction false} DeriveStep(x: string, f: bool, rest: Config, tail: Config, w: World)
    requires Contract(w) && Derive(rest, w) == Derive(tail, w)
    ensures Derive(StripLine(x, f) + rest, w) == Derive([x] + tail, w)
  {
    DeriveCons(x, tail, w);
    DeriveCons(x, rest, w);
    DeriveLine(x, f, rest, w);
  }

  lemma {:induction false} DeriveLine(x: string, f: bool, rest: Config, w: World)
    requires Contract(w)
    ensures StripLine(x, f) != [x] ==> Derive(StripLine(x, f) + rest, w) == Derive(rest, w) && w.subnetOf(Trim(x)).None?
  {
    if StripLine(x, f) != [x] {
      StrippedSubnet(x, f, w);
      DeriveConcat(StripLine(x, f), rest, w);
    }
  }

  /** Neither a line that goes nor what comes in its place is an Address line. */
  lemma {:induction false} StrippedSubnet(x: string, f: bool, w: World)
    requires Contract(w) && StripLine(x, f) != [x]
    ensures w.subnetOf(Trim(x)).None?
    ensures forall i :: 0 <= i < |StripLine(x, f)| ==> w.subnetOf(Trim(StripLine(x, f)[i])).None?
  {
    StripCases(x, f);
    AddressStart(x);
    KeyNoSubnet(w);
    NoSubnet(x, w);
    SubnetOfCases(StripLine(x, f), w);
  }

  lemma {:induction false} KeyNoSubnet(w: World)
    requires Contract(w)
    ensures w.subnetOf(Trim(HIDDEN_KEY)).None?
  {
    KeyLine();
    NoSubnet(HIDDEN_KEY, w);
  }

  lemma {:induction false} SubnetOfCases(out: Config, w: World)
    requires w.subnetOf(Trim(HIDDEN_KEY)).None? && (out == [] || out == [HIDDEN_KEY])
    ensures forall i :: 0 <= i < |out| ==> w.subnetOf(Trim(out[i])).None?
  {
  }

  lemma {:induction false} StripCases(x: string, f: bool)
    ensures StripLine(x, f) == [x] || (StripLine(x, f) == [] && IsManaged(x)) || (StripLine(x, f) == [HIDDEN_KEY] && IsKey(x))
  {
  }

  lemma NoSubnet(x: string, w: World)
    requires Contract(w) && !IsAddress(x)
    ensures w.subnetOf(Trim(x)).None?
  {
  }

  // ==== rewriting AllowedIPs ====

  lemma AllowedLineIs(nets: seq<string>)
    requires nets != [] && forall n :: n in nets ==> Clean(n)
    ensures IsAllowed(AllowedLine(nets)) && !IsHead(AllowedLine(nets)) && Fields(Value(Trim(AllowedLine(nets)))) == nets
  {
    var j := Join(nets, ", ");
    var line := "AllowedIPs = " + j;
    JoinEnds(nets);
    assert line[|line| - 1] == j[|j| - 1];
    TrimKeeps(line);
    assert line == "AllowedIPs " + ['='] + (" " + j);
    IndexAt("AllowedIPs ", '=', " " + j);
    assert Value(line) == " " + j;
    FieldsOfJoin(nets);
    assert (" " + j)[1..] == j;
    assert TrimLeft(" " + j) == TrimLeft(j);
    assert line[..10] == "AllowedIPs";
    Kinds(line);
  }

  predicate HubLine(x: string, s: Scan) { !IsHead(x) && Hub(s) && IsAllowed(x) }

  lemma ParseCons(x: string, rest: Config, s: Scan)
    ensures Parse([x] + rest, s) == (if HubLine(x, s) then Fields(Value(Trim(x))) else []) + Parse(rest, Next(s, x))
    ensures HasAllowed([x] + rest, s) == (HubLine(x, s) || HasAllowed(rest, Next(s, x)))
  {
    assert ([x] + rest)[1..] == rest;
  }

  /** The new list is read back from the rewritten config, if there was a line to rewrite. */
  lemma {:induction false} ParseRewritten(ls: Config, nets: seq<string>, s: Scan, replaced: bool)
    requires nets != [] && forall n :: n in nets ==> Clean(n)
    ensures Parse(RewriteAllowed(ls, nets, s, replaced), s) == if !replaced && HasAllowed(ls, s) then nets else []
  {
    if ls != [] {
      if HubLine(ls[0], s) {
        AllowedLineIs(nets);
        var line := AllowedLine(nets);
        Kinds(line);
        Kinds(ls[0]);
        ParseRewritten(ls[1..], nets, s, true);
        ParseCons(line, RewriteAllowed(ls[1..], nets, s, true), s);
        assert [] + RewriteAllowed(ls[1..], nets, s, true) == RewriteAllowed(ls[1..], nets, s, true);
        assert nets + [] == nets;
      } else {
        ParseRewritten(ls[1..], nets, Next(s, ls[0]), replaced);
        ParseCons(ls[0], RewriteAllowed(ls[1..], nets, Next(s, ls[0]), replaced), s);
      }
    }
  }

  lemma {:induction false} NothingToRewrite(ls: Config, nets: seq<string>, s: Scan)
    requires !HasAllowed(ls, s)
    ensures RewriteAllowed(ls, nets, s, false) == ls && Parse(ls, s) == []
  {
    if ls != [] { NothingToRewrite(ls[1..], nets, Next(s, ls[0])); }
  }

  // ==== the Endpoint line ====

  lemma {:induction false} LeftSuffix(s: string)
    ensures |TrimLeft(s)| <= |s| && TrimLeft(s) == s[|s| - |TrimLeft(s)|..]
  {
    if s != "" && Space(s[0]) {
      LeftSuffix(s[1..]);
    }
  }

  lemma {:induction false} LastColon(a: string, b: string)
    requires ':' !in b
    ensures LastIndexOf(a + [':'] + b, ':') == |a|
    decreases |b|
  {
    if b != "" {
      assert (a + [':'] + b)[..|a + [':'] + b| - 1] == a + [':'] + b[..|b| - 1];
      LastColon(a, b[..|b| - 1]);
    }
  }

  lemma DigitsClean(p: string)
    requires Digits(p)
    ensures ':' !in p && '#' !in p && !Space(p[0]) && !Space(p[|p| - 1])
  {
    assert p[0] in p && p[|p| - 1] in p;
  }

  predicate Comment(c: string) { c == "" || (c[0] == '#' && !Space(c[|c| - 1])) }

  /** Trimming on the left keeps the last character of what is not blank. */
  lemma {:induction false} LeftLast(s: string)
    ensures TrimLeft(s) != "" ==> s != "" && TrimLeft(s)[|TrimLeft(s)| - 1] == s[|s| - 1]
  {
    LeftSuffix(s);
  }

  lemma {:induction false} EndpointValue(t: string) returns (value: string)
    requires StartsWith(t, "Endpoint") && ParseEndpoint(t).Some?
    ensures value != "" ==> value[|value| - 1] == t[|t| - 1]
    ensures var e := ParseEndpoint(t).value; Digits(e.port) && e.comment == value[IndexOf(value, '#')..]
  {
    var afterName := TrimLeft(t[8..]);
    value := TrimLeft(afterName[1..]);
    LeftLast(t[8..]);
    LeftLast(afterName[1..]);
  }

  lemma {:induction false} ParsedShape(t: string)
    requires StartsWith(t, "Endpoint") && ParseEndpoint(t).Some? && !Space(t[|t| - 1])
    ensures var e := ParseEndpoint(t).value; Digits(e.port) && Comment(e.comment)
  {
    var value := EndpointValue(t);
    var hash := IndexOf(value, '#');
    if hash < |value| {
      assert value[hash..][|value[hash..]| - 1] == value[|value| - 1];
    }
  }

  lemma ShownTail(hub: string, port: string, comment: string)
    requires Clean(hub) && Digits(port) && Comment(comment)
    ensures var tail := if comment == "" then "" else " " + comment; var value := hub + ":" + port + tail;
      var hash := IndexOf(value, '#');
      && !Space(value[0]) && !Space(value[|value| - 1])
      && value[..hash] == hub + [':'] + (if comment == "" then port else port + " ") && value[hash..] == comment
  {
    DigitsClean(port);
    assert hub[0] in hub;
    if comment == "" {
      var value := hub + ":" + port + "";
      assert '#' !in value;
      IndexNone(value, '#');
      assert value == hub + [':'] + port;
    } else {
      var front := hub + [':'] + (port + " ");
      assert '#' !in front;
      var value := hub + ":" + port + (" " + comment);
      assert value == front + ['#'] + comment[1..];
      IndexAt(front, '#', comment[1..]);
      assert value[|value| - 1] == comment[|comment| - 1];
      assert ['#'] + comment[1..] == comment;
    }
  }

  /** A written Endpoint line is read back. */
  lemma {:induction false} ParseShown(hub: string, port: string, comment: string)
    requires Clean(hub) && Digits(port) && Comment(comment)
    ensures var t := "Endpoint = " + hub + ":" + port + if comment == "" then "" else " " + comment;
      Trim(t) == t && StartsWith(t, "Endpoint") && ParseEndpoint(t) == Some(Endpoint(hub, port, comment))
  {
    var tail := if comment == "" then "" else " " + comment;
    var value := hub + ":" + port + tail;
    ShownTail(hub, port, comment);
    ShownConcat(hub, port, tail);
    ShownText(value);
    EndpointParts(hub, port, comment, value);
  }

  lemma {:induction false} ShownConcat(hub: string, port: string, tail: string)
    ensures "Endpoint = " + hub + ":" + port + tail == "Endpoint = " + (hub + ":" + port + tail)
  {
    Associate("Endpoint = ", hub + ":" + port, tail);
    Associate("Endpoint = ", hub + ":", port);
    Associate("Endpoint = ", hub, ":");
  }

  lemma {:induction false} ShownText(value: string)
    requires value != "" && !Space(value[0]) && !Space(value[|value| - 1])
    ensures var t := "Endpoint = " + value;
      Trim(t) == t && StartsWith(t, "Endpoint")
      && TrimLeft(t[8..]) != "" && TrimLeft(t[8..])[0] == '=' && TrimLeft(TrimLeft(t[8..])[1..]) == value
  {
    var t := "Endpoint = " + value;
    assert t == "Endpoint" + (" = " + value);
    TrimKeeps(t);
    OneSpace("= " + value);
    assert t[8..] == " " + ("= " + value);
    OneSpace(value);
    assert ("= " + value)[1..] == " " + value;
  }

  lemma OneSpace(s: string)
    requires s != "" && !Space(s[0])
    ensures TrimLeft(" " + s) == s
  {
    assert (" " + s)[1..] == s;
    assert TrimLeft(s) == s;
  }

  lemma EndpointParts(hub: string, port: string, comment: string, value: string)
    requires Clean(hub) && Digits(port) && Comment(comment)
    requires value == hub + ":" + port + if comment == "" then "" else " " + comment
    ensures var hash := IndexOf(value, '#'); var colon := LastIndexOf(value[..hash], ':');
      colon == |hub| && TrimRight(value[..colon]) == hub && Trim(value[colon + 1..hash]) == port && value[hash..] == comment
  {
    ShownTail(hub, port, comment);
    DigitsClean(port);
    var hash := IndexOf(value, '#');
    var rest := if comment == "" then port else port + " ";
    LastColon(hub, rest);
    assert value[..|hub|] == hub;
    assert value[|hub| + 1..hash] == value[..hash][|hub| + 1..] == rest;
    assert hub[0] in hub && hub[|hub| - 1] in hub;
    TrimKeeps(hub);
    TrimKeeps(port);
    if comment != "" {
      assert TrimLeft(rest) == rest;
      assert rest[..|rest| - 1] == port;
    }
  }

  lemma EndpointSettles(raw: string, hub: string)
    requires IsEndpoint(raw) && ParseEndpoint(Trim(raw)).Some? && Clean(hub)
    ensures var y := NewEndpointLine(raw, ParseEndpoint(Trim(raw)).value, hub);
      && IsEndpoint(y) && ParseEndpoint(Trim(y)).Some? && NewEndpointLine(y, ParseEndpoint(Trim(y)).value, hub) == y
  {
    var e := ParseEndpoint(Trim(raw)).value;
    var y := NewEndpointLine(raw, e, hub);
    if y != raw {
      Trimmed(raw);
      ParsedShape(Trim(raw));
      ParseShown(hub, e.port, e.comment);
    }
  }

  // ==== what the rewriting leaves alone ====

  /** The section in front of the first [Peer], or at the end. */
  predicate SectionAtPeer(ls: Config, inI: bool) {
    if ls == [] || IsPeer(ls[0]) then inI else SectionAtPeer(ls[1..], InInterface(inI, ls[0]))
  }

  /** Nothing but hub-managed lines in front of the first [Peer]. */
  predicate PeerFirst(ls: Config) { ls != [] && (IsPeer(ls[0]) || (IsManaged(ls[0]) && PeerFirst(ls[1..]))) }

  /** Two configs that differ in nothing a section, the interface or the subnet depends on. */
  ghost predicate Alike(a: Config, b: Config, w: World) {
    && (forall f :: SectionAfter(a, f) == SectionAfter(b, f) && HasTable(a, f) == HasTable(b, f))
    && Derive(a, w) == Derive(b, w)
  }

  lemma AlikeCons(x: string, y: string, a: Config, b: Config, w: World)
    requires Alike(a, b, w)
    requires x == y || (Plain(x) && Plain(y) && w.subnetOf(Trim(x)).None? && w.subnetOf(Trim(y)).None?)
    ensures Alike([x] + a, [y] + b, w)
  {
    forall f ensures SectionAfter([x] + a, f) == SectionAfter([y] + b, f) && HasTable([x] + a, f) == HasTable([y] + b, f) {
      StripCons(x, a, f);
      StripCons(y, b, f);
      Kinds(x);
      Kinds(y);
    }
    DeriveCons(x, a, w);
    DeriveCons(y, b, w);
  }

  predicate Plain(x: string) { !IsHead(x) && !IsTable(x) }

  lemma AlikeDrop(x: string, a: Config, b: Config, w: World)
    requires Alike(a, b, w) && Plain(x) && w.subnetOf(Trim(x)).None?
    ensures Alike([x] + a, b, w)
  {
    forall f ensures SectionAfter([x] + a, f) == SectionAfter(b, f) && HasTable([x] + a, f) == HasTable(b, f) {
      StripCons(x, a, f);
      Kinds(x);
    }
    DeriveCons(x, a, w);
  }

  lemma {:induction false} AllowedAlike(ls: Config, nets: seq<string>, s: Scan, replaced: bool, w: World)
    requires Contract(w) && nets != [] && forall n :: n in nets ==> Clean(n)
    ensures Alike(ls, RewriteAllowed(ls, nets, s, replaced), w)
  {
    if ls != [] {
      var x, rest := ls[0], ls[1..];
      assert ls == [x] + rest;
      if HubLine(x, s) {
        AllowedAlike(rest, nets, s, true, w);
        AllowedLineIs(nets);
        LinePlain(x, w);
        LinePlain(AllowedLine(nets), w);
        AlikeCons(x, AllowedLine(nets), rest, RewriteAllowed(rest, nets, s, true), w);
        AlikeDrop(x, rest, RewriteAllowed(rest, nets, s, true), w);
        assert [] + RewriteAllowed(rest, nets, s, true) == RewriteAllowed(rest, nets, s, true);
      } else {
        AllowedAlike(rest, nets, Next(s, x), replaced, w);
        AlikeCons(x, x, rest, RewriteAllowed(rest, nets, Next(s, x), replaced), w);
      }
    }
  }

  lemma LinePlain(x: string, w: World)
    requires Contract(w) && (IsAllowed(x) || IsEndpoint(x))
    ensures Plain(x) && w.subnetOf(Trim(x)).None? && !IsManaged(x) && !IsKey(x) && !IsPeer(x) && !IsInterface(x)
  {
    Kinds(x);
    AddressStart(x);
    NoSubnet(x, w);
  }

  lemma {:induction false} EndpointAlike(ls: Config, hub: string, s: Scan, replaced: bool, w: World)
    requires Contract(w) && Clean(hub)
    ensures Alike(ls, RewriteEndpoint(ls, hub, s, replaced), w)
  {
    if ls != [] {
      var x, rest := ls[0], ls[1..];
      assert ls == [x] + rest;
      if Matches(ls, s, replaced) {
        EndpointAlike(rest, hub, s, true, w);
        EndpointSettles(x, hub);
        LinePlain(x, w);
        var y := NewEndpointLine(x, ParseEndpoint(Trim(x)).value, hub);
        LinePlain(y, w);
        AlikeCons(x, y, rest, RewriteEndpoint(rest, hub, s, true), w);
      } else {
        EndpointAlike(rest, hub, Next(s, x), replaced, w);
        AlikeCons(x, x, rest, RewriteEndpoint(rest, hub, Next(s, x), replaced), w);
      }
    }
  }

  /** In front of the first [Peer] nothing is rewritten. */
  lemma {:induction false} AllowedFront(ls: Config, nets: seq<string>, s: Scan, replaced: bool, inI: bool)
    requires s.peers == 0
    ensures var out := RewriteAllowed(ls, nets, s, replaced);
      SectionAtPeer(out, inI) == SectionAtPeer(ls, inI) && PeerFirst(out) == PeerFirst(ls)
  {
    if ls != [] && !IsPeer(ls[0]) {
      AllowedFront(ls[1..], nets, Next(s, ls[0]), replaced, InInterface(inI, ls[0]));
      var rest := RewriteAllowed(ls[1..], nets, Next(s, ls[0]), replaced);
      assert ([ls[0]] + rest)[1..] == rest;
    }
  }

  lemma {:induction false} EndpointFront(ls: Config, hub: string, s: Scan, replaced: bool, inI: bool)
    requires s.peers == 0
    ensures var out := RewriteEndpoint(ls, hub, s, replaced);
      SectionAtPeer(out, inI) == SectionAtPeer(ls, inI) && PeerFirst(out) == PeerFirst(ls)
  {
    if ls != [] && !IsPeer(ls[0]) {
      EndpointFront(ls[1..], hub, Next(s, ls[0]), replaced, InInterface(inI, ls[0]));
      var rest := RewriteEndpoint(ls[1..], hub, Next(s, ls[0]), replaced);
      assert ([ls[0]] + rest)[1..] == rest;
    }
  }

  // ==== the Endpoint rewriting commutes with the rest ====

  lemma EndpointCons(x: string, rest: Config, hub: string, s: Scan, replaced: bool)
    ensures RewriteEndpoint([x] + rest, hub, s, replaced)
      == if Matches([x], s, replaced) then [NewEndpointLine(x, ParseEndpoint(Trim(x)).value, hub)] + RewriteEndpoint(rest, hub, s, true)
         else [x] + RewriteEndpoint(rest, hub, Next(s, x), replaced)
  {
    assert ([x] + rest)[1..] == rest;
  }

  lemma {:induction false} EndpointIdem(ls: Config, hub: string, s: Scan, replaced: bool)
    requires Clean(hub)
    ensures var out := RewriteEndpoint(ls, hub, s, replaced); RewriteEndpoint(out, hub, s, replaced) == out
  {
    if ls != [] {
      var x, rest := ls[0], ls[1..];
      if Matches(ls, s, replaced) {
        EndpointIdem(rest, hub, s, true);
        EndpointSettles(x, hub);
        var y := NewEndpointLine(x, ParseEndpoint(Trim(x)).value, hub);
        Kinds(y);
        EndpointCons(y, RewriteEndpoint(rest, hub, s, true), hub, s, replaced);
      } else {
        EndpointIdem(rest, hub, Next(s, x), replaced);
        EndpointCons(x, RewriteEndpoint(rest, hub, Next(s, x), replaced), hub, s, replaced);
      }
    }
  }

  lemma {:induction false} EndpointParse(ls: Config, hub: string, s: Scan, replaced: bool)
    requires Clean(hub)
    ensures Parse(RewriteEndpoint(ls, hub, s, replaced), s) == Parse(ls, s)
    ensures HasAllowed(RewriteEndpoint(ls, hub, s, replaced), s) == HasAllowed(ls, s)
  {
    if ls != [] {
      var x, rest := ls[0], ls[1..];
      assert ls == [x] + rest;
      if Matches(ls, s, replaced) {
        EndpointParse(rest, hub, s, true);
        EndpointSettles(x, hub);
        var y := NewEndpointLine(x, ParseEndpoint(Trim(x)).value, hub);
        Kinds(x);
        Kinds(y);
        ParseCons(x, rest, s);
        ParseCons(y, RewriteEndpoint(rest, hub, s, true), s);
      } else {
        EndpointParse(rest, hub, Next(s, x), replaced);
        ParseCons(x, rest, s);
        ParseCons(x, RewriteEndpoint(rest, hub, Next(s, x), replaced), s);
      }
    }
  }

  predicate Settled(ls: Config, hub: string, s: Scan, replaced: bool) { RewriteEndpoint(ls, hub, s, replaced) == ls }

  predicate LineSettled(x: string, hub: string, s: Scan, replaced: bool) {
    Matches([x], s, replaced) ==> NewEndpointLine(x, ParseEndpoint(Trim(x)).value, hub) == x
  }

  function Replaced(x: string, s: Scan, replaced: bool): bool { replaced || Matches([x], s, replaced) }

  function AfterLine(x: string, s: Scan, replaced: bool): Scan { if Matches([x], s, replaced) then s else Next(s, x) }

  /** A config is settled line by line. */
  lemma {:induction false} SettledCons(x: string, rest: Config, hub: string, s: Scan, replaced: bool)
    ensures Settled([x] + rest, hub, s, replaced)
      <==> LineSettled(x, hub, s, replaced) && Settled(rest, hub, AfterLine(x, s, replaced), Replaced(x, s, replaced))
  {
    EndpointCons(x, rest, hub, s, replaced);
    var out := RewriteEndpoint(rest, hub, AfterLine(x, s, replaced), Replaced(x, s, replaced));
    var y := if Matches([x], s, replaced) then NewEndpointLine(x, ParseEndpoint(Trim(x)).value, hub) else x;
    assert ([y] + out)[0] == y && ([y] + out)[1..] == out;
    assert ([x] + rest)[0] == x && ([x] + rest)[1..] == rest;
  }

  /** A config whose Endpoint is settled stays so when inert lines come in. */
  lemma {:induction false} EndpointInsert(a: Config, ins: Config, b: Config, hub: string, s: Scan, replaced: bool)
    requires AllInert(ins) && Settled(a + b, hub, s, replaced)
    ensures Settled(a + ins + b, hub, s, replaced)
  {
    if a != [] {
      var x, rest := a[0], a[1..];
      Peel(a, ins, b);
      SettledCons(x, rest + b, hub, s, replaced);
      SettledCons(x, rest + ins + b, hub, s, replaced);
      EndpointInsert(rest, ins, b, hub, AfterLine(x, s, replaced), Replaced(x, s, replaced));
    } else {
      assert a + b == b && a + ins + b == ins + b;
      InertSettled(ins, b, hub, s, replaced);
    }
  }

  lemma {:induction false} InertSettled(ins: Config, b: Config, hub: string, s: Scan, replaced: bool)
    requires AllInert(ins) && Settled(b, hub, s, replaced)
    ensures Settled(ins + b, hub, s, replaced)
  {
    if ins != [] {
      var x, rest := ins[0], ins[1..];
      assert ins + b == [x] + (rest + b);
      Kinds(x);
      SettledCons(x, rest + b, hub, s, replaced);
      InertSettled(rest, b, hub, s, replaced);
    } else {
      assert ins + b == b;
    }
  }

  /** ... and when hub-managed lines and open keys go. */
  lemma {:induction false} EndpointStrip(ls: Config, hub: string, s: Scan, replaced: bool, inI: bool)
    requires Settled(ls, hub, s, replaced)
    ensures Settled(Stripped(ls, inI), hub, s, replaced)
  {
    if ls != [] {
      var x, rest := ls[0], ls[1..];
      var f := InInterface(inI, x);
      assert ls == [x] + rest;
      SettledCons(x, rest, hub, s, replaced);
      EndpointStrip(rest, hub, AfterLine(x, s, replaced), Replaced(x, s, replaced), f);
      StripSettled(x, f, Stripped(rest, f), hub, s, replaced);
    }
  }

  lemma {:induction false} StripSettled(x: string, f: bool, tail: Config, hub: string, s: Scan, replaced: bool)
    requires LineSettled(x, hub, s, replaced) && Settled(tail, hub, AfterLine(x, s, replaced), Replaced(x, s, replaced))
    ensures Settled(StripLine(x, f) + tail, hub, s, replaced)
  {
    Kinds(x);
    Kinds(HIDDEN_KEY);
    FixedLines();
    if f && IsOpenKey(x) {
      SettledCons(HIDDEN_KEY, tail, hub, s, replaced);
    } else if IsManaged(x) {
      assert [] + tail == tail;
    } else {
      SettledCons(x, tail, hub, s, replaced);
    }
  }

  // ==== normalizing twice ====

  /** The hub's `Table = off` ends up in the [Interface] section: there is one already, or the
      section in front of the place of insertion is [Interface]. */
  predicate Anchored(ls: Config) {
    HasTable(ls, false) || if PeerFirst(ls) then SectionAfter(ls, false) else SectionAtPeer(ls, false)
  }

  lemma {:induction false} FrontStrip(ls: Config, inI: bool)
    ensures SectionAtPeer(Stripped(ls, inI), inI) == SectionAtPeer(ls, inI)
    ensures (Stripped(ls, inI) != [] && IsPeer(Stripped(ls, inI)[0])) == PeerFirst(ls)
  {
    if ls != [] {
      var f := InInterface(inI, ls[0]);
      StripLineKeeps(ls[0], inI);
      Kinds(ls[0]);
      FrontStrip(ls[1..], f);
      var head, rest := StripLine(ls[0], f), Stripped(ls[1..], f);
      if head != [] {
        assert head == [head[0]];
        assert (head + rest)[0] == head[0] && (head + rest)[1..] == rest;
      } else {
        assert head + rest == rest;
      }
    }
  }

  lemma {:induction false} SectionPrefix(ls: Config, inI: bool)
    ensures SectionAfter(ls[..FirstPeer(ls)], inI) == SectionAtPeer(ls, inI)
  {
    if ls != [] && !IsPeer(ls[0]) {
      SectionPrefix(ls[1..], InInterface(inI, ls[0]));
      assert ls[..FirstPeer(ls)][1..] == ls[1..][..FirstPeer(ls[1..])];
    }
  }

  lemma AnchoredAt(ls: Config)
    ensures var out := Stripped(ls, false);
      Anchored(ls) == (HasTable(out, false) || SectionAfter(out[..InsertAt(out)], false))
  {
    var out := Stripped(ls, false);
    StripIdem(ls, false);
    FrontStrip(ls, false);
    SectionPrefix(out, false);
    if FirstPeer(out) == 0 {
      assert out[..InsertAt(out)] == out;
      assert out == [] ==> SectionAfter(out, false) == SectionAtPeer(out, false);
    }
  }

  lemma {:induction false} NoPeerFirst(a: Config, b: Config)
    requires forall i :: 0 <= i < |a| ==> !IsPeer(a[i])
    ensures FirstPeer(a + b) == |a| + FirstPeer(b)
  {
    if a == [] {
      assert a + b == b;
    } else {
      assert (a + b)[0] == a[0] && (a + b)[1..] == a[1..] + b;
      NoPeerFirst(a[1..], b);
    }
  }

  /** The place of insertion moves along with a line that was inserted there. */
  lemma {:induction false} InsertAtAgain(out: Config, tbl: Config)
    requires tbl == [] || tbl == [TABLE_OFF]
    ensures var at := InsertAt(out); InsertAt(out[..at] + tbl + out[at..]) == at + |tbl|
  {
    if FirstPeer(out) == 0 && out != [] {
      PeerStaysFirst(out, tbl);
    } else {
      var at := InsertAt(out);
      var a, b := out[..at], out[at..];
      TableLine();
      NoPeerFirst(a + tbl, b);
    }
  }

  lemma PeerStaysFirst(out: Config, tbl: Config)
    requires FirstPeer(out) == 0 && out != []
    ensures InsertAt(out[..|out|] + tbl + out[|out|..]) == |out| + |tbl|
  {
    var again := out[..|out|] + tbl + out[|out|..];
    assert again[0] == out[0];
    assert FirstPeer(again) == 0;
  }

  lemma StripInserted(ls: Config, w: World, remote: seq<string>)
    requires Normalized(ls, w, remote).Ok?
    ensures var c := Normalized(ls, w, remote).value; var out := Stripped(ls, false); var at := InsertAt(out);
      var tbl := if HasTable(ls, false) then [] else [TABLE_OFF];
      Stripped(c, false) == out[..at] + tbl + out[at..] && HasTable(c, false) == Anchored(ls)
  {
    var out := Stripped(ls, false);
    var at := InsertAt(out);
    var a, b := out[..at], out[at..];
    var subnet, peers := Derive(ls, w), RouteNets(Parse(ls, START));
    var tbl := if HasTable(ls, false) then [] else [TABLE_OFF];
    var ins := Managed(w, HasTable(ls, false), subnet, remote, peers);
    assert out == a + b;
    StripIdem(ls, false);
    AnchoredAt(ls);
    StrippedPieces(a, b, false);
    SectionConcat(a, b, false);
    InsertedStrip(w, HasTable(ls, false), subnet, remote, peers, SectionAfter(a, false));
    StripThree(a, ins, b, tbl, false);
  }

  lemma {:induction false} StripThree(a: Config, ins: Config, b: Config, tbl: Config, f: bool)
    requires var g := SectionAfter(a, f);
      Stripped(a, f) == a && Stripped(ins, g) == tbl && SectionAfter(ins, g) == g && Stripped(b, g) == b
    ensures var g := SectionAfter(a, f);
      Stripped(a + ins + b, f) == a + tbl + b
      && HasTable(a + ins + b, f) == (HasTable(a, f) || HasTable(ins, g) || HasTable(b, g))
  {
    StripConcat(a, ins, f);
    SectionConcat(a, ins, f);
    StripConcat(a + ins, b, f);
    SectionConcat(a + ins, b, f);
  }

  lemma {:induction false} InsertedStrip(w: World, table: bool, subnet: string, remote: seq<string>, peers: seq<string>, f: bool)
    ensures var ins := Managed(w, table, subnet, remote, peers);
      && Stripped(ins, f) == (if table then [] else [TABLE_OFF])
      && SectionAfter(ins, f) == f && HasTable(ins, f) == (f && !table) && AllInert(ins)
  {
    var up, down := UpLine(w, subnet, remote, peers), DownLine(w, subnet, remote, peers);
    WrittenLines(w, subnet, remote, peers);
    LinesStrip(up, down, f);
    assert [] + [up, down] == [up, down];
    StripTable([up, down], f);
  }

  lemma {:induction false} LinesStrip(up: string, down: string, f: bool)
    requires IsManaged(up) && Inert(up) && IsManaged(down) && Inert(down)
    ensures var ls := [up, down]; Stripped(ls, f) == [] && SectionAfter(ls, f) == f && !HasTable(ls, f) && AllInert(ls)
  {
    StripManaged(down, [], f);
    StripManaged(up, [down], f);
    assert [down] + [] == [down] && [up] + [down] == [up, down];
  }

  lemma {:induction false} StripManaged(x: string, rest: Config, f: bool)
    requires IsManaged(x) && Inert(x)
    ensures Stripped([x] + rest, f) == Stripped(rest, f) && SectionAfter([x] + rest, f) == SectionAfter(rest, f)
    ensures HasTable([x] + rest, f) == HasTable(rest, f) && (AllInert(rest) ==> AllInert([x] + rest))
  {
    Kinds(x);
    StripCons(x, rest, f);
  }

  lemma {:induction false} StripTable(rest: Config, f: bool)
    ensures Stripped([TABLE_OFF] + rest, f) == [TABLE_OFF] + Stripped(rest, f)
    ensures SectionAfter([TABLE_OFF] + rest, f) == SectionAfter(rest, f)
    ensures HasTable([TABLE_OFF] + rest, f) == (f || HasTable(rest, f)) && (AllInert(rest) ==> AllInert([TABLE_OFF] + rest))
  {
    TableLine();
    Kinds(TABLE_OFF);
    StripCons(TABLE_OFF, rest, f);
  }

  lemma LinesInert(w: World, table: bool, subnet: string, remote: seq<string>, peers: seq<string>)
    ensures AllInert((if table then [] else [TABLE_OFF]) + [UpLine(w, subnet, remote, peers), DownLine(w, subnet, remote, peers)])
  {
    WrittenLines(w, subnet, remote, peers);
    FixedLines();
    InertLines(if table then [] else [TABLE_OFF], [UpLine(w, subnet, remote, peers), DownLine(w, subnet, remote, peers)]);
  }

  /** Nothing that the hub-managed lines depend on changes. */
  lemma NormalizedKeeps(ls: Config, w: World, remote: seq<string>)
    requires Contract(w) && Normalized(ls, w, remote).Ok?
    ensures var c := Normalized(ls, w, remote).value;
      Parse(c, START) == Parse(ls, START) && HasAllowed(c, START) == HasAllowed(ls, START) && Derive(c, w) == Derive(ls, w)
  {
    var out := Stripped(ls, false);
    var a, b := out[..InsertAt(out)], out[InsertAt(out)..];
    var tbl := if HasTable(ls, false) then [] else [TABLE_OFF];
    var subnet, peers := Derive(ls, w), RouteNets(Parse(ls, START));
    var lines := [UpLine(w, subnet, remote, peers), DownLine(w, subnet, remote, peers)];
    LinesInert(w, HasTable(ls, false), subnet, remote, peers);
    Halves(out, InsertAt(out));
    InsertedKeeps(ls, w, a, tbl + lines, b);
    assert Normalized(ls, w, remote).value == a + (tbl + lines) + b;
  }

  lemma Halves(out: Config, at: nat)
    requires at <= |out|
    ensures out[..at] + out[at..] == out
  {
  }

  lemma InertLines(tbl: Config, lines: Config)
    requires (forall x :: x in tbl ==> Inert(x)) && |lines| == 2 && Inert(lines[0]) && Inert(lines[1])
    ensures AllInert(tbl + lines)
  {
    forall i | 0 <= i < |tbl + lines| ensures Inert((tbl + lines)[i]) {
      if i < |tbl| { assert tbl[i] in tbl; }
    }
  }

  lemma InsertedKeeps(ls: Config, w: World, a: Config, ins: Config, b: Config)
    requires Contract(w) && AllInert(ins) && a + b == Stripped(ls, false)
    ensures Parse(a + ins + b, START) == Parse(ls, START) && HasAllowed(a + ins + b, START) == HasAllowed(ls, START)
    ensures Derive(a + ins + b, w) == Derive(ls, w)
  {
    ParseInsert(a, ins, b, START);
    ParseStrip(ls, false, START);
    DeriveInsert(a, ins, b, w);
    DeriveStrip(ls, false, w);
  }

  /** Normalizing is stable exactly for anchored configs; otherwise every pass adds a line. */
  lemma NormalizedTwice(ls: Config, w: World, remote: seq<string>)
    requires Contract(w) && Normalized(ls, w, remote).Ok?
    ensures var c := Normalized(ls, w, remote).value; var again := Normalized(c, w, remote);
      again.Ok? && |again.value| == |c| + (if Anchored(ls) then 0 else 1) && (Anchored(ls) ==> again.value == c)
  {
    var c := Normalized(ls, w, remote).value;
    var out := Stripped(ls, false);
    var at := InsertAt(out);
    var tbl := if HasTable(ls, false) then [] else [TABLE_OFF];
    StripInserted(ls, w, remote);
    NormalizedKeeps(ls, w, remote);
    InsertAtAgain(out, tbl);
    var subnet, peers := Derive(ls, w), RouteNets(Parse(ls, START));
    var lines := [UpLine(w, subnet, remote, peers), DownLine(w, subnet, remote, peers)];
    TwiceInserted(out[..at], tbl, lines, out[at..]);
    assert c == out[..at] + (tbl + lines) + out[at..];
    var again := out[..at] + tbl + ((if Anchored(ls) then [] else [TABLE_OFF]) + lines) + out[at..];
    assert Normalized(c, w, remote) == Ok(again);
  }

  /** What was not anchored is not anchored afterwards: the inserted Table = off is in no [Interface]. */
  lemma {:induction false} StaysLoose(ls: Config, w: World, remote: seq<string>)
    requires Normalized(ls, w, remote).Ok? && !Anchored(ls)
    ensures !Anchored(Normalized(ls, w, remote).value)
  {
    var c := Normalized(ls, w, remote).value;
    var out := Stripped(ls, false);
    var at := InsertAt(out);
    StripInserted(ls, w, remote);
    AnchoredAt(ls);
    AnchoredAt(c);
    InsertAtAgain(out, [TABLE_OFF]);
    var again := out[..at] + [TABLE_OFF] + out[at..];
    assert Stripped(c, false) == again && again[..at + 1] == out[..at] + [TABLE_OFF];
    StripIdem(c, false);
    SectionConcat(out[..at], [TABLE_OFF], false);
    StripTable([], SectionAfter(out[..at], false));
    assert [TABLE_OFF] + [] == [TABLE_OFF];
  }

  lemma TwiceInserted(a: Config, tbl: Config, lines: Config, b: Config)
    ensures var out := a + tbl + b; out[..|a| + |tbl|] == a + tbl && out[|a| + |tbl|..] == b
    ensures a + tbl + ([] + lines) + b == a + (tbl + lines) + b
    ensures |a + tbl + ([TABLE_OFF] + lines) + b| == |a + (tbl + lines) + b| + 1
  {
  }

  // ==== what one sync leaves ====

  lemma {:induction false} UniqueMembers(xs: seq<string>, x: string)
    ensures x in Unique(xs) <==> x in xs
  {
    if xs != [] {
      UniqueMembers(xs[..|xs| - 1], x);
      assert xs == xs[..|xs| - 1] + [xs[|xs| - 1]];
      UniqueMembers(xs[..|xs| - 1], xs[|xs| - 1]);
    }
  }

  lemma WantedMembers(subnet: string, nets: seq<string>, n: string)
    ensures n in HubAllowedIPs(subnet, nets) <==> n == subnet || n in nets
  {
    SortMembers(Unique([subnet] + nets), n);
    UniqueMembers([subnet] + nets, n);
  }

  lemma {:induction false} DeriveClean(ls: Config, w: World)
    requires Contract(w)
    ensures Clean(Derive(ls, w))
  {
    if ls != [] { DeriveClean(ls[1..], w); }
  }

  /** The list that is written is sorted and has clean words only. */
  lemma WantedClean(ls: Config, w: World)
    requires Contract(w) && AllCidrs(w, Sort(w.nets))
    ensures var wanted := HubAllowedIPs(Derive(ls, w), w.nets);
      wanted != [] && (forall n :: n in wanted ==> Clean(n) && n != "" && ',' !in n) && Sort(wanted) == wanted
  {
    var subnet := Derive(ls, w);
    var wanted := HubAllowedIPs(subnet, w.nets);
    forall n | n in wanted ensures Clean(n) && n != "" && ',' !in n {
      WantedMembers(subnet, w.nets, n);
      DeriveClean(ls, w);
      SortMembers(w.nets, n);
    }
    WantedMembers(subnet, w.nets, subnet);
    SortSorts(Unique([subnet] + w.nets));
    SortKeeps(wanted);
  }

  lemma {:induction false} ParseFields(ls: Config, s: Scan)
    ensures forall n :: n in Parse(ls, s) ==> n != "" && ',' !in n
  {
    if ls != [] {
      ParseFields(ls[1..], Next(s, ls[0]));
      KeptFields(Split(Trim(Value(Trim(ls[0]))), ','));
    }
  }

  /** Whether the list of the config is the wanted one, as the code compares: sorted and joined. */
  predicate UpToDate(ls: Config, wanted: seq<string>) { Join(wanted, ",") == Join(Sort(Parse(ls, START)), ",") }

  lemma UpToDateMeans(ls: Config, wanted: seq<string>)
    requires forall n :: n in wanted ==> n != "" && ',' !in n
    ensures UpToDate(ls, wanted) <==> Sort(Parse(ls, START)) == wanted
  {
    if UpToDate(ls, wanted) {
      ParseFields(ls, START);
      forall n | n in Sort(Parse(ls, START)) ensures n != "" && ',' !in n { SortMembers(Parse(ls, START), n); }
      JoinInjective(wanted, Sort(Parse(ls, START)));
    }
  }

  /** What the AllowedIPs step leaves: the wanted list wherever the hub peer has such a line. */
  lemma AllowedStepResult(ls: Config, w: World)
    requires Contract(w) && AllCidrs(w, Sort(w.nets))
    ensures var wanted := HubAllowedIPs(Derive(ls, w), w.nets); var a := AllowedRewritten(ls, w);
      && (if HasAllowed(ls, START) then Sort(Parse(a, START)) == wanted else a == ls && Parse(a, START) == [])
      && Alike(ls, a, w) && Anchored(a) == Anchored(ls)
  {
    var wanted := HubAllowedIPs(Derive(ls, w), w.nets);
    WantedClean(ls, w);
    UpToDateMeans(ls, wanted);
    AllowedAlike(ls, wanted, START, false, w);
    AllowedFront(ls, wanted, START, false, false);
    ParseRewritten(ls, wanted, START, false);
    if !HasAllowed(ls, START) { NothingToRewrite(ls, wanted, START); }
  }

  lemma EndpointStepResult(ls: Config, w: World)
    requires Contract(w)
    ensures var r := EndpointRewritten(ls, w);
      && EndpointRewritten(r, w) == r && Alike(ls, r, w) && Anchored(r) == Anchored(ls)
      && Parse(r, START) == Parse(ls, START) && HasAllowed(r, START) == HasAllowed(ls, START)
  {
    if w.hubHost.Some? {
      EndpointIdem(ls, w.hubHost.value, START, false);
      EndpointAlike(ls, w.hubHost.value, START, false, w);
      EndpointFront(ls, w.hubHost.value, START, false, false);
      EndpointParse(ls, w.hubHost.value, START, false);
    }
  }

  lemma NormalizedEndpoint(ls: Config, w: World, remote: seq<string>)
    requires Normalized(ls, w, remote).Ok? && EndpointRewritten(ls, w) == ls
    ensures var c := Normalized(ls, w, remote).value; EndpointRewritten(c, w) == c
  {
    if w.hubHost.Some? {
      var out := Stripped(ls, false);
      var a, b := out[..InsertAt(out)], out[InsertAt(out)..];
      var tbl := if HasTable(ls, false) then [] else [TABLE_OFF];
      var subnet, peers := Derive(ls, w), RouteNets(Parse(ls, START));
      var lines := [UpLine(w, subnet, remote, peers), DownLine(w, subnet, remote, peers)];
      LinesInert(w, HasTable(ls, false), subnet, remote, peers);
      Halves(out, InsertAt(out));
      EndpointStrip(ls, w.hubHost.value, START, false, false);
      EndpointInsert(a, tbl + lines, b, w.hubHost.value, START, false);
      assert Normalized(ls, w, remote).value == a + (tbl + lines) + b;
    }
  }

  /** The facts about the config after a sync that the theorems share. */
  lemma SyncedFacts(ls: Config, w: World)
    requires Contract(w) && Synced(ls, w).Ok?
    ensures var c := Synced(ls, w).value; var wanted := HubAllowedIPs(Derive(ls, w), w.nets);
      && AllCidrs(w, Sort(w.nets))
      && Derive(c, w) == Derive(ls, w) && HasAllowed(c, START) == HasAllowed(ls, START)
      && Parse(c, START) == Parse(AllowedRewritten(ls, w), START)
      && (if HasAllowed(ls, START) then Sort(Parse(c, START)) == wanted else Parse(c, START) == [])
      && EndpointRewritten(c, w) == c
  {
    var a := AllowedRewritten(ls, w);
    var r := EndpointRewritten(a, w);
    AllowedStepResult(ls, w);
    EndpointStepResult(a, w);
    NormalizedKeeps(r, w, Sort(w.nets));
    NormalizedEndpoint(r, w, Sort(w.nets));
    AllowedKeepsLine(ls, w);
  }

  lemma AllowedKeepsLine(ls: Config, w: World)
    requires Contract(w) && AllCidrs(w, Sort(w.nets))
    ensures HasAllowed(AllowedRewritten(ls, w), START) == HasAllowed(ls, START)
  {
    var wanted := HubAllowedIPs(Derive(ls, w), w.nets);
    WantedClean(ls, w);
    ParseRewritten(ls, wanted, START, false);
    var a := AllowedRewritten(ls, w);
    if HasAllowed(ls, START) {
      if !HasAllowed(a, START) {
        NothingToRewrite(a, wanted, START);
      }
    } else {
      NothingToRewrite(ls, wanted, START);
    }
  }

  /** A second sync has only the normalization left to do. */
  lemma {:induction false} SyncedIsNormal(ls: Config, w: World)
    requires Contract(w) && Synced(ls, w).Ok?
    ensures var c := Synced(ls, w).value; Synced(c, w) == Normalized(c, w, Sort(w.nets))
  {
    var c := Synced(ls, w).value;
    SyncedFacts(ls, w);
    var wanted := HubAllowedIPs(Derive(ls, w), w.nets);
    WantedClean(ls, w);
    UpToDateMeans(c, wanted);
    if !HasAllowed(c, START) { NothingToRewrite(c, wanted, START); }
    assert AllowedRewritten(c, w) == c;
  }

  /** The fixpoint: a second sync with the same metadata gives the same config, exactly when the
      config is anchored. */
  lemma {:induction false} SyncFixpoint(ls: Config, w: World)
    requires Contract(w) && Synced(ls, w).Ok?
    ensures Synced(Synced(ls, w).value, w) == Synced(ls, w) <==> Anchored(ls)
  {
    var a := AllowedRewritten(ls, w);
    var r := EndpointRewritten(a, w);
    SyncedIsNormal(ls, w);
    SyncedFacts(ls, w);
    AllowedStepResult(ls, w);
    EndpointStepResult(a, w);
    NormalizedTwice(r, w, Sort(w.nets));
  }

  /** In terms of the row: the second sync of an anchored config reports no change. */
  lemma {:induction false} SecondSyncIsQuiet(row: Row, w: Option<World>, hashOf: Config -> string)
    requires w.Some? ==> Contract(w.value) && Anchored(row.config)
    ensures var (again, r) := SyncSpec(SyncSpec(row, w, hashOf).0, w, hashOf);
      again == SyncSpec(row, w, hashOf).0 && (r == Ok(false) || (r.Err? && SyncSpec(row, w, hashOf) == (row, r)))
  {
    if w.Some? && row.config != EMPTY {
      var next := Synced(row.config, w.value);
      if next.Ok? {
        SyncFixpoint(row.config, w.value);
        QuietRow(next.value, w.value, hashOf);
      }
    }
  }

  lemma {:induction false} QuietRow(c: Config, w: World, hashOf: Config -> string)
    requires Synced(c, w) == Ok(c)
    ensures SyncSpec(Row(c, hashOf(c)), Some(w), hashOf) == (Row(c, hashOf(c)), Ok(false))
  {
  }

  lemma ReachOf(p: seq<string>, subnet: string, nets: seq<string>)
    requires Sort(p) == HubAllowedIPs(subnet, nets)
    ensures forall n :: n in p <==> n == subnet || n in nets
  {
    forall n ensures n in p <==> n == subnet || n in nets {
      SortMembers(p, n);
      WantedMembers(subnet, nets, n);
    }
  }

  /** The hub peer may reach exactly the tunnel subnet and the computed nets. */
  ghost predicate ReachIs(ls: Config, subnet: string, nets: seq<string>) {
    forall n :: n in Parse(ls, START) <==> n == subnet || n in nets
  }

  /** The hub is the single source of truth: so it is after a sync, exactly when the hub peer has an
      AllowedIPs line at all. */
  lemma SyncedReach(ls: Config, w: World)
    requires Contract(w) && Synced(ls, w).Ok?
    ensures ReachIs(Synced(ls, w).value, Derive(ls, w), w.nets) <==> HasAllowed(ls, START)
  {
    SyncedFacts(ls, w);
    ReachFrom(Synced(ls, w).value, Derive(ls, w), w.nets, HasAllowed(ls, START));
  }

  lemma ReachFrom(c: Config, subnet: string, nets: seq<string>, has: bool)
    requires if has then Sort(Parse(c, START)) == HubAllowedIPs(subnet, nets) else Parse(c, START) == []
    ensures ReachIs(c, subnet, nets) <==> has
  {
    if has {
      ReachOf(Parse(c, START), subnet, nets);
    } else {
      assert subnet !in Parse(c, START);
    }
  }

  // ==== configs that show where the conditions fail ====

  /** No other site, the default tunnel subnet and no configured hub host. */
  function PlainWorld(): World {
    World(t => None, s => s == DEFAULT_SUBNET, [], [], "wg0", true, None)
  }

  lemma {:induction false} PlainDerive(ls: Config)
    ensures Derive(ls, PlainWorld()) == DEFAULT_SUBNET
  {
    if ls != [] { PlainDerive(ls[1..]); }
  }

  lemma {:induction false} PlainContract()
    ensures Contract(PlainWorld()) && AllCidrs(PlainWorld(), Sort(PlainWorld().nets)) && Sort(PlainWorld().nets) == []
  {
    assert Clean(DEFAULT_SUBNET);
  }

  lemma {:induction false} PlainNormal(ls: Config)
    requires Parse(ls, START) == []
    ensures Normalized(ls, PlainWorld(), []).Ok?
  {
    PlainDerive(ls);
    assert RouteNets([]) == [] && CidrsOk(PlainWorld(), DEFAULT_SUBNET, [], []);
  }

  /** A config whose hub peer has no AllowedIPs line syncs. */
  lemma {:induction false} PlainSynced(ls: Config)
    requires !HasAllowed(ls, START)
    ensures Contract(PlainWorld()) && Synced(ls, PlainWorld()).Ok?
  {
    PlainContract();
    AllowedStepResult(ls, PlainWorld());
    PlainNormal(ls);
  }

  const PEER: string := "[Peer]"
  const INTERFACE: string := "[Interface]"

  lemma {:induction false} Headings()
    ensures IsPeer(PEER) && IsHead(PEER) && !IsInterface(PEER) && !IsTable(PEER) && !IsManaged(PEER)
    ensures IsInterface(INTERFACE) && IsHead(INTERFACE) && !IsPeer(INTERFACE) && !IsTable(INTERFACE)
  {
    TrimKeeps(PEER);
    TrimKeeps(INTERFACE);
  }

  lemma {:induction false} OnlyHeads(ls: Config, s: Scan)
    requires forall i :: 0 <= i < |ls| ==> IsHead(ls[i])
    ensures !HasAllowed(ls, s)
  {
    if ls != [] { OnlyHeads(ls[1..], Next(s, ls[0])); }
  }

  /** An [Interface] between two [Peer] sections: every sync with the same metadata adds a line. */
  lemma {:induction false} PeerFirstGrows()
    ensures var ls, w := [PEER, INTERFACE, PEER], PlainWorld();
      && Contract(w) && Synced(ls, w).Ok? && !Anchored(ls)
      && var c := Synced(ls, w).value;
      && Synced(c, w).Ok? && |Synced(c, w).value| == |c| + 1
  {
    var ls, w := [PEER, INTERFACE, PEER], PlainWorld();
    Headings();
    OnlyHeads(ls, START);
    PlainSynced(ls);
    PeerFirstLoose(ls);
    SyncedGrows(ls, w);
  }

  lemma {:induction false} PeerFirstLoose(ls: Config)
    requires ls == [PEER, INTERFACE, PEER]
    ensures !Anchored(ls)
  {
    Headings();
    assert ls[1..] == [INTERFACE, PEER] && ls[1..][1..] == [PEER] && ls[1..][1..][1..] == [];
    assert !HasTable(ls[1..][1..], true) && !HasTable(ls[1..], false) && !HasTable(ls, false);
    assert SectionAfter(ls[1..][1..], true) == false && SectionAfter(ls[1..], false) == false;
  }

  /** A config that is not anchored is one line longer after every further sync. */
  lemma {:induction false} SyncedGrows(ls: Config, w: World)
    requires Contract(w) && Synced(ls, w).Ok? && !Anchored(ls)
    ensures var c := Synced(ls, w).value;
      Synced(c, w).Ok? && |Synced(c, w).value| == |c| + 1 && !Anchored(c)
  {
    var a := AllowedRewritten(ls, w);
    var r := EndpointRewritten(a, w);
    SyncedIsNormal(ls, w);
    AllowedStepResult(ls, w);
    EndpointStepResult(a, w);
    NormalizedTwice(r, w, Sort(w.nets));
    StaysLoose(r, w, Sort(w.nets));
  }

  /** A hub peer without AllowedIPs line: the synced config does not even reach the tunnel subnet. */
  lemma {:induction false} NoAllowedNoReach()
    ensures var ls, w := [INTERFACE, PEER], PlainWorld();
      && Contract(w) && Synced(ls, w).Ok? && Anchored(ls)
      && !ReachIs(Synced(ls, w).value, Derive(ls, w), w.nets)
  {
    var ls, w := [INTERFACE, PEER], PlainWorld();
    Headings();
    OnlyHeads(ls, START);
    PlainSynced(ls);
    SyncedReach(ls, w);
    InterfaceFirst(ls);
  }

  lemma {:induction false} InterfaceFirst(ls: Config)
    requires ls == [INTERFACE, PEER]
    ensures Anchored(ls)
  {
    Headings();
    assert ls[1..] == [PEER];
    assert SectionAtPeer(ls[1..], true) && SectionAtPeer(ls, false);
    assert !IsManaged(INTERFACE) ==> !PeerFirst(ls);
    Kinds(INTERFACE);
  }

  // ==== no stale net survives ====

  predicate NoneManaged(ls: Config) { forall x :: x in ls ==> !IsManaged(x) }

  lemma {:induction false} StrippedUnmanaged(ls: Config, inI: bool)
    ensures NoneManaged(Stripped(ls, inI))
  {
    if ls != [] {
      var f := InInterface(inI, ls[0]);
      StrippedUnmanaged(ls[1..], f);
      StripLineUnmanaged(ls[0], f);
    }
  }

  lemma {:induction false} StripLineUnmanaged(x: string, f: bool)
    ensures NoneManaged(StripLine(x, f))
  {
    KeyLine();
  }

  /** The only PostUp and PostDown lines after a normalization are the two generated ones. */
  lemma ManagedAre(ls: Config, w: World, remote: seq<string>, x: string)
    requires Normalized(ls, w, remote).Ok? && x in Normalized(ls, w, remote).value && IsManaged(x)
    ensures var peers := RouteNets(Parse(ls, START));
      x == UpLine(w, Derive(ls, w), remote, peers) || x == DownLine(w, Derive(ls, w), remote, peers)
  {
    var out := Stripped(ls, false);
    var a, b := out[..InsertAt(out)], out[InsertAt(out)..];
    var tbl := if HasTable(ls, false) then [] else [TABLE_OFF];
    var subnet, peers := Derive(ls, w), RouteNets(Parse(ls, START));
    var lines := [UpLine(w, subnet, remote, peers), DownLine(w, subnet, remote, peers)];
    assert Normalized(ls, w, remote).value == a + (tbl + lines) + b;
    StrippedUnmanaged(ls, false);
    Halves(out, InsertAt(out));
    ManagedIsNew(a, tbl, lines, b, x);
  }

  lemma ManagedIsNew(a: Config, tbl: Config, lines: Config, b: Config, x: string)
    requires NoneManaged(a + b) && (tbl == [] || tbl == [TABLE_OFF]) && x in a + (tbl + lines) + b && IsManaged(x)
    ensures x in lines
  {
    FixedLines();
    assert (x in a || x in b) ==> x in a + b;
  }

  /** The networks a list of commands routes, masquerades or exempts. */
  function Named(cmds: seq<Cmd>): set<string> {
    set i | 0 <= i < |cmds| && (cmds[i].KeepSource? || cmds[i].Masquerade? || cmds[i].Route?) :: cmds[i].net
  }

  function SetOf(xs: seq<string>): set<string> { set x | x in xs }

  lemma {:induction false} RouteNetsOf(nets: seq<string>, n: string)
    ensures n in RouteNets(nets) <==> n in nets && !HostRoute(n)
  {
    if nets != [] { RouteNetsOf(nets[1..], n); }
  }

  lemma NamedConcat(a: seq<Cmd>, b: seq<Cmd>)
    ensures Named(a + b) == Named(a) + Named(b)
  {
    var ab := a + b;
    forall n ensures n in Named(a) ==> n in Named(ab) {
      if i :| 0 <= i < |a| && (a[i].KeepSource? || a[i].Masquerade? || a[i].Route?) && a[i].net == n { assert ab[i] == a[i]; }
    }
    forall n ensures n in Named(b) ==> n in Named(ab) {
      if i :| 0 <= i < |b| && (b[i].KeepSource? || b[i].Masquerade? || b[i].Route?) && b[i].net == n { assert ab[|a| + i] == b[i]; }
    }
  }

  lemma NamedEach(nets: seq<string>, f: string -> Cmd)
    requires forall n :: (f(n).KeepSource? || f(n).Masquerade? || f(n).Route?) && f(n).net == n
    ensures Named(Each(nets, f)) == SetOf(nets)
  {
    var cmds := Each(nets, f);
    forall n ensures n in nets ==> n in Named(cmds) {
      if i :| 0 <= i < |nets| && nets[i] == n { assert cmds[i].net == n; }
    }
  }

  lemma CommandNets(up: bool, subnet: string, remote: seq<string>, peers: seq<string>, local: seq<string>)
    ensures Named(Commands(up, subnet, remote, peers, local)) == {subnet} + SetOf(remote) + SetOf(peers) + SetOf(local)
  {
    var c0 := if up then [Forwarding, AcceptIn, AcceptOut] else [AcceptIn, AcceptOut];
    var c1, c2, c3, c4 := Each(local, n => KeepSource(n)), [Masquerade(subnet)], Each(remote, n => Masquerade(n)), Each(peers, n => Route(n));
    NamedEach(local, n => KeepSource(n));
    NamedEach(remote, n => Masquerade(n));
    NamedEach(peers, n => Route(n));
    assert Named(c2) == {subnet} by { assert c2[0].net == subnet; }
    assert Named(c0) == {};
    NamedConcat(c0, c1);
    NamedConcat(c0 + c1, c2);
    NamedConcat(c0 + c1 + c2, c3);
    NamedConcat(c0 + c1 + c2 + c3, c4);
  }

  /** After a sync the only PostUp and PostDown lines are the ones generated from the tunnel subnet,
      the computed nets, the hub peer's AllowedIPs and the exempted own nets. */
  lemma SyncedManaged(ls: Config, w: World, x: string)
    requires Contract(w) && Synced(ls, w).Ok? && x in Synced(ls, w).value && IsManaged(x)
    ensures var peers := RouteNets(Parse(Synced(ls, w).value, START)); var subnet := Derive(ls, w);
      x == UpLine(w, subnet, Sort(w.nets), peers) || x == DownLine(w, subnet, Sort(w.nets), peers)
  {
    var a := AllowedRewritten(ls, w);
    var r := EndpointRewritten(a, w);
    AllowedStepResult(ls, w);
    EndpointStepResult(a, w);
    NormalizedKeeps(r, w, Sort(w.nets));
    ManagedAre(r, w, Sort(w.nets), x);
  }

  /** A removed network survives in no route or NAT command: these lines name exactly the tunnel
      subnet, the computed nets and the exempted own nets. */
  lemma SyncedCommands(ls: Config, w: World, up: bool)
    requires Contract(w) && Synced(ls, w).Ok?
    ensures var peers := RouteNets(Parse(Synced(ls, w).value, START)); var subnet := Derive(ls, w);
      Named(Commands(up, subnet, Sort(w.nets), peers, w.localNets)) == {subnet} + SetOf(w.nets) + SetOf(w.localNets)
  {
    SyncedFacts(ls, w);
    CommandsReach(up, Derive(ls, w), w.nets, Parse(Synced(ls, w).value, START), w.localNets, HasAllowed(ls, START));
  }

  lemma CommandsReach(up: bool, subnet: string, nets: seq<string>, p: seq<string>, local: seq<string>, has: bool)
    requires if has then Sort(p) == HubAllowedIPs(subnet, nets) else p == []
    ensures Named(Commands(up, subnet, Sort(nets), RouteNets(p), local)) == {subnet} + SetOf(nets) + SetOf(local)
  {
    SortedSet(nets);
    RoutedReach(p, subnet, nets, has);
    CommandNets(up, subnet, Sort(nets), RouteNets(p), local);
    Absorb(subnet, SetOf(nets), SetOf(RouteNets(p)), SetOf(local));
  }

  lemma Absorb(x: string, a: set<string>, b: set<string>, c: set<string>)
    requires b <= {x} + a
    ensures {x} + a + b + c == {x} + a + c
  {
  }

  lemma SortedSet(nets: seq<string>)
    ensures SetOf(Sort(nets)) == SetOf(nets)
  {
    forall n ensures n in SetOf(Sort(nets)) <==> n in SetOf(nets) { SortMembers(nets, n); }
  }

  lemma RoutedReach(p: seq<string>, subnet: string, nets: seq<string>, has: bool)
    requires if has then Sort(p) == HubAllowedIPs(subnet, nets) else p == []
    ensures SetOf(RouteNets(p)) <= {subnet} + SetOf(nets)
  {
    forall n | n in RouteNets(p) ensures n == subnet || n in nets {
      RouteNetsOf(p, n);
      if has { ReachOf(p, subnet, nets); }
    }
  }

  // ==== later sections ====

  lemma {:induction false} PastIsLeft(b: Config, s: Scan, nets: seq<string>, hub: string, replaced: bool)
    requires Past(s)
    ensures RewriteAllowed(b, nets, s, replaced) == b && RewriteEndpoint(b, hub, s, replaced) == b
  {
    if b != [] { PastIsLeft(b[1..], Next(s, b[0]), nets, hub, replaced); }
  }

  lemma {:induction false} AllowedBefore(a: Config, b: Config, nets: seq<string>, s: Scan, replaced: bool)
    requires Past(ScanAfter(a, s))
    ensures RewriteAllowed(a + b, nets, s, replaced) == RewriteAllowed(a, nets, s, replaced) + b
  {
    if a == [] {
      assert a + b == b;
      PastIsLeft(b, s, nets, "", replaced);
    } else {
      assert (a + b)[0] == a[0] && (a + b)[1..] == a[1..] + b;
      if HubLine(a[0], s) {
        Kinds(a[0]);
        AllowedBefore(a[1..], b, nets, s, true);
      } else {
        AllowedBefore(a[1..], b, nets, Next(s, a[0]), replaced);
      }
    }
  }

  lemma {:induction false} EndpointBefore(a: Config, b: Config, hub: string, s: Scan, replaced: bool)
    requires Past(ScanAfter(a, s))
    ensures RewriteEndpoint(a + b, hub, s, replaced) == RewriteEndpoint(a, hub, s, replaced) + b
  {
    if a == [] {
      assert a + b == b;
      PastIsLeft(b, s, [], hub, replaced);
    } else {
      assert (a + b)[0] == a[0] && (a + b)[1..] == a[1..] + b;
      if Matches(a, s, replaced) {
        Kinds(a[0]);
        EndpointBefore(a[1..], b, hub, s, true);
      } else {
        EndpointBefore(a[1..], b, hub, Next(s, a[0]), replaced);
      }
    }
  }

  lemma {:induction false} AllowedScan(ls: Config, nets: seq<string>, s: Scan, replaced: bool)
    ensures ScanAfter(RewriteAllowed(ls, nets, s, replaced), s) == ScanAfter(ls, s)
  {
    if ls != [] {
      var x, rest := ls[0], ls[1..];
      if HubLine(x, s) {
        AllowedScan(rest, nets, s, true);
        assert AllowedLine(nets) == "AllowedIPs" + (" = " + Join(nets, ", "));
        TrimPrefix("AllowedIPs", " = " + Join(nets, ", "));
        Kinds(AllowedLine(nets));
        Kinds(x);
        assert ([AllowedLine(nets)] + RewriteAllowed(rest, nets, s, true))[1..] == RewriteAllowed(rest, nets, s, true);
        assert [] + RewriteAllowed(rest, nets, s, true) == RewriteAllowed(rest, nets, s, true);
      } else {
        AllowedScan(rest, nets, Next(s, x), replaced);
        assert ([x] + RewriteAllowed(rest, nets, Next(s, x), replaced))[1..] == RewriteAllowed(rest, nets, Next(s, x), replaced);
      }
    }
  }

  /** A [Peer] in the scan is a [Peer] line. */
  lemma {:induction false} PeerSeen(ls: Config, s: Scan)
    ensures ScanAfter(ls, s).peers > s.peers ==> FirstPeer(ls) < |ls|
  {
    if ls != [] && !IsPeer(ls[0]) { PeerSeen(ls[1..], Next(s, ls[0])); }
  }

  /** Everything behind the hub peer's section. */
  predicate Behind(ls: Config, a: Config, b: Config) { ls == a + b && Past(ScanAfter(a, START)) }

  lemma AllowedBehind(ls: Config, a: Config, b: Config, w: World) returns (a1: Config)
    requires Contract(w) && AllCidrs(w, Sort(w.nets)) && Behind(ls, a, b)
    ensures Behind(AllowedRewritten(ls, w), a1, b) && Alike(a, a1, w)
  {
    var wanted := HubAllowedIPs(Derive(ls, w), w.nets);
    WantedClean(ls, w);
    if UpToDate(ls, wanted) {
      a1 := a;
    } else {
      a1 := RewriteAllowed(a, wanted, START, false);
      AllowedBefore(a, b, wanted, START, false);
      AllowedScan(a, wanted, START, false);
      AllowedAlike(a, wanted, START, false, w);
    }
  }

  lemma EndpointBehind(ls: Config, a: Config, b: Config, w: World) returns (a1: Config)
    requires Contract(w) && Behind(ls, a, b)
    ensures Behind(EndpointRewritten(ls, w), a1, b) && Alike(a, a1, w)
  {
    a1 := a;
    if w.hubHost.Some? {
      a1 := RewriteEndpoint(a, w.hubHost.value, START, false);
      EndpointBefore(a, b, w.hubHost.value, START, false);
      EndpointScan(a, w.hubHost.value, START, false);
      EndpointAlike(a, w.hubHost.value, START, false, w);
    }
  }

  lemma {:induction false} EndpointScan(ls: Config, hub: string, s: Scan, replaced: bool)
    requires Clean(hub)
    ensures ScanAfter(RewriteEndpoint(ls, hub, s, replaced), s) == ScanAfter(ls, s)
  {
    if ls != [] {
      var x, rest := ls[0], ls[1..];
      if Matches(ls, s, replaced) {
        EndpointSettles(x, hub);
        var y := NewEndpointLine(x, ParseEndpoint(Trim(x)).value, hub);
        EndpointScan(rest, hub, s, true);
        Kinds(x);
        Kinds(y);
        assert ([y] + RewriteEndpoint(rest, hub, s, true))[1..] == RewriteEndpoint(rest, hub, s, true);
      } else {
        EndpointScan(rest, hub, Next(s, x), replaced);
        assert ([x] + RewriteEndpoint(rest, hub, Next(s, x), replaced))[1..] == RewriteEndpoint(rest, hub, Next(s, x), replaced);
      }
    }
  }

  /** Later peers are untouched: what follows the hub peer's section ends the synced config as it
      was, but for its PostUp and PostDown lines and open keys of a later [Interface]; only a config
      that starts with a [Peer] has the generated lines behind it. */
  lemma {:induction false} LaterSectionsKept(ls: Config, a: Config, b: Config, w: World)
    requires Contract(w) && Synced(ls, w).Ok? && Behind(ls, a, b)
    ensures var c := Synced(ls, w).value;
      EndsIn(c, Stripped(b, SectionAfter(a, false))
                + if PeerFirst(ls) then Managed(w, HasTable(ls, false), Derive(ls, w), Sort(w.nets), RouteNets(Parse(c, START))) else [])
  {
    var r := EndpointRewritten(AllowedRewritten(ls, w), w);
    SyncedCidrs(ls, w);
    var a2 := RewrittenBehind(ls, a, b, w);
    RewrittenFacts(ls, w);
    NormalizedKeeps(r, w, Sort(w.nets));
    NormalizedEnd(r, a2, b, w, Sort(w.nets));
  }

  lemma {:induction false} RewrittenBehind(ls: Config, a: Config, b: Config, w: World) returns (a2: Config)
    requires Contract(w) && AllCidrs(w, Sort(w.nets)) && Behind(ls, a, b)
    ensures Behind(EndpointRewritten(AllowedRewritten(ls, w), w), a2, b) && SectionAfter(a2, false) == SectionAfter(a, false)
  {
    var a1 := AllowedBehind(ls, a, b, w);
    a2 := EndpointBehind(AllowedRewritten(ls, w), a1, b, w);
    SectionsAlike(a, a1, a2, w);
  }

  lemma {:induction false} NormalizedEnd(ls: Config, a: Config, b: Config, w: World, remote: seq<string>)
    requires Normalized(ls, w, remote).Ok? && Behind(ls, a, b)
    ensures EndsIn(Normalized(ls, w, remote).value,
                   Stripped(b, SectionAfter(a, false))
                   + if PeerFirst(ls) then Managed(w, HasTable(ls, false), Derive(ls, w), remote, RouteNets(Parse(ls, START))) else [])
  {
    if PeerFirst(ls) {
      NormalizedBefore(ls, a, b, w, remote);
    } else {
      NormalizedBehind(ls, a, b, w, remote);
      assert Stripped(b, SectionAfter(a, false)) + [] == Stripped(b, SectionAfter(a, false));
    }
  }

  /** The two rewritings change nothing the generated lines depend on. */
  lemma {:induction false} RewrittenFacts(ls: Config, w: World)
    requires Contract(w) && AllCidrs(w, Sort(w.nets))
    ensures var r := EndpointRewritten(AllowedRewritten(ls, w), w);
      HasTable(r, false) == HasTable(ls, false) && Derive(r, w) == Derive(ls, w) && PeerFirst(r) == PeerFirst(ls)
  {
    FrontKept(ls, w);
    AllowedStepResult(ls, w);
    EndpointStepResult(AllowedRewritten(ls, w), w);
  }

  lemma SyncedCidrs(ls: Config, w: World)
    requires Synced(ls, w).Ok?
    ensures AllCidrs(w, Sort(w.nets))
  {
  }

  lemma SectionsAlike(a: Config, b: Config, c: Config, w: World)
    requires Alike(a, b, w) && Alike(b, c, w)
    ensures SectionAfter(a, false) == SectionAfter(c, false)
  {
    assert SectionAfter(a, false) == SectionAfter(b, false);
  }

  predicate EndsIn(c: Config, part: Config) { |part| <= |c| && c[|c| - |part|..] == part }

  lemma NormalizedBehind(ls: Config, a: Config, b: Config, w: World, remote: seq<string>)
    requires Normalized(ls, w, remote).Ok? && Behind(ls, a, b) && !PeerFirst(ls)
    ensures EndsIn(Normalized(ls, w, remote).value, Stripped(b, SectionAfter(a, false)))
  {
    var x, y := Stripped(a, false), Stripped(b, SectionAfter(a, false));
    StripConcat(a, b, false);
    FrontStrip(ls, false);
    PeerInside(a, b);
    PeerNotFirst(x + y);
    NormalizedTail(ls, w, remote, x, y);
  }

  lemma {:induction false} NormalizedBefore(ls: Config, a: Config, b: Config, w: World, remote: seq<string>)
    requires Normalized(ls, w, remote).Ok? && Behind(ls, a, b) && PeerFirst(ls)
    ensures EndsIn(Normalized(ls, w, remote).value,
                   Stripped(b, SectionAfter(a, false))
                   + Managed(w, HasTable(ls, false), Derive(ls, w), remote, RouteNets(Parse(ls, START))))
  {
    var x, y := Stripped(a, false), Stripped(b, SectionAfter(a, false));
    var ins := Managed(w, HasTable(ls, false), Derive(ls, w), remote, RouteNets(Parse(ls, START)));
    StripConcat(a, b, false);
    FrontStrip(ls, false);
    AtTheEnd(x + y);
    TakeAll(x + y);
    assert (x + y)[|x + y|..] == [];
    assert Normalized(ls, w, remote).value == (x + y) + ins + [];
    EndsJoined((x + y) + ins + [], x, y, ins);
  }

  lemma {:induction false} AtTheEnd(ls: Config)
    requires ls != [] && IsPeer(ls[0])
    ensures InsertAt(ls) == |ls|
  {
  }

  lemma {:induction false} EndsJoined(c: Config, x: Config, y: Config, ins: Config)
    requires c == x + y + ins + []
    ensures EndsIn(c, y + ins)
  {
    assert c == x + (y + ins);
  }

  lemma PeerNotFirst(ls: Config)
    requires !(ls != [] && IsPeer(ls[0])) && ls != []
    ensures FirstPeer(ls) > 0
  {
  }

  lemma FrontKept(ls: Config, w: World)
    requires Contract(w) && AllCidrs(w, Sort(w.nets))
    ensures PeerFirst(EndpointRewritten(AllowedRewritten(ls, w), w)) == PeerFirst(ls)
  {
    var a := AllowedRewritten(ls, w);
    AllowedFront(ls, HubAllowedIPs(Derive(ls, w), w.nets), START, false, false);
    if w.hubHost.Some? { EndpointFront(a, w.hubHost.value, START, false, false); }
  }

  lemma {:induction false} ScanStrip(ls: Config, inI: bool, s: Scan)
    ensures ScanAfter(Stripped(ls, inI), s) == ScanAfter(ls, s)
  {
    if ls != [] {
      var f := InInterface(inI, ls[0]);
      var head, rest := StripLine(ls[0], f), Stripped(ls[1..], f);
      ParseConcat(head, rest, s);
      ScanStrip(ls[1..], f, Next(s, ls[0]));
      Kinds(ls[0]);
      FixedLines();
      if head == [HIDDEN_KEY] || head == [] {
        InertScan(head, s);
      } else {
        assert head == [ls[0]] && head[1..] == [];
      }
    }
  }

  /** The first [Peer] of the stripped config is in the stripped front part. */
  lemma PeerInside(a: Config, b: Config)
    requires Past(ScanAfter(a, START))
    ensures FirstPeer(Stripped(a, false) + Stripped(b, SectionAfter(a, false))) <= |Stripped(a, false)|
    ensures Stripped(a, false) != []
  {
    var x, y := Stripped(a, false), Stripped(b, SectionAfter(a, false));
    ScanStrip(a, false, START);
    PeerSeen(x, START);
    assert (x + y)[FirstPeer(x)] == x[FirstPeer(x)];
  }

  lemma NormalizedTail(ls: Config, w: World, remote: seq<string>, x: Config, y: Config)
    requires Normalized(ls, w, remote).Ok? && Stripped(ls, false) == x + y
    requires 0 < FirstPeer(x + y) <= |x|
    ensures EndsIn(Normalized(ls, w, remote).value, y)
  {
    var out := x + y;
    var at := InsertAt(out);
    var tbl := if HasTable(ls, false) then [] else [TABLE_OFF];
    var subnet, peers := Derive(ls, w), RouteNets(Parse(ls, START));
    var ins := tbl + [UpLine(w, subnet, remote, peers), DownLine(w, subnet, remote, peers)];
    assert Normalized(ls, w, remote).value == out[..at] + ins + out[at..];
    TailOf(Normalized(ls, w, remote).value, out[..at] + ins, x, y, at);
  }

  lemma TailOf(c: Config, front: Config, x: Config, y: Config, at: nat)
    requires at <= |x| && c == front + (x + y)[at..]
    ensures EndsIn(c, y)
  {
    assert (x + y)[at..] == x[at..] + y;
    assert front + (x[at..] + y) == (front + x[at..]) + y;
  }

  /** A later part without [Interface] loses nothing but PostUp and PostDown lines. */
  lemma {:induction false} LaterPeersOnly(b: Config)
    requires forall x :: x in b ==> !IsInterface(x)
    ensures Stripped(b, false) == Unmanaged(b)
  {
    if b != [] { LaterPeersOnly(b[1..]); }
  }

  function Unmanaged(b: Config): Config {
    if b == [] then [] else (if IsManaged(b[0]) then [] else [b[0]]) + Unmanaged(b[1..])
  }
}
