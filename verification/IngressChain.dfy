/** What the compiled chain does with a packet, and that it does what the rules say
    (backend/internal/agent-ingress-rules.js, buildIngressRestore and ruleCovers). */
module IngressChain {
  import opened Wrappers
  import opened Seqs
  import opened Ipv4Nets
  import opened IngressRules

  /** `established` = conntrack state RELATED or ESTABLISHED; `dport` means something for tcp and udp only. */
  datatype Packet = Packet(iface: string, src: Addr, dst: Addr, proto: Proto, dport: nat, established: bool)

  datatype Verdict = Accepted | Dropped | Passed

  predicate DstOk(d: Option<Cidr>, p: Packet) { d.None? || InNet(d.value, p.dst) }

  predicate PortOk(o: Option<Port>, p: Packet) {
    o.None? || (o.value.Port? && !p.proto.OtherProto? && PortMatches(o.value, p.dport, p.proto))
  }

  predicate LineMatches(l: Line, p: Packet) {
    match l
    case Established(_) => p.established
    case Allow(src, dst, iface, port, _, _) => InNet(src, p.src) && DstOk(dst, p) && iface == p.iface && PortOk(port, p)
    case DropOn(iface) => iface == p.iface
  }

  /** iptables walks the chain and takes the first line that matches. */
  function FirstMatch(lines: seq<Line>, p: Packet): Option<Line> {
    if lines == [] then None
    else
      var f := FirstMatch(lines[..|lines| - 1], p);
      if f.Some? then f
      else if LineMatches(lines[|lines| - 1], p) then Some(lines[|lines| - 1])
      else None
  }

  function VerdictOfLine(l: Option<Line>): Verdict {
    if l.None? then Passed
    else match l.value
      case Established(t) => if t.ACCEPT? then Accepted else Passed
      case Allow(_, _, _, _, _, t) => if t.ACCEPT? then Accepted else Passed
      case DropOn(_) => Dropped
  }

  function Eval(lines: seq<Line>, p: Packet): Verdict { VerdictOfLine(FirstMatch(lines, p)) }

  // ---- what the rules say about a packet ----

  function FlowOf(p: Packet, src: Addr): Flow {
    Flow(Host(src), Host(p.dst), if p.proto.OtherProto? then None else Some(p.dport), p.proto)
  }

  /** A direct alias of the packet's interface has this source address, and the rule covers the
      packet with the hub address substituted. */
  predicate CoveredByAlias(a: Agent, r: Rule, p: Packet) {
    exists i :: 0 <= i < |a.directAliases| &&
      var al := a.directAliases[i];
      al.iface in a.directIfaces && al.iface == p.iface && al.direct == p.src && RuleCovers(r, FlowOf(p, al.hub))
  }

  predicate Admits(a: Agent, r: Rule, p: Packet) {
    (p.iface in Ifaces(a) && RuleCovers(r, FlowOf(p, p.src))) || CoveredByAlias(a, r, p)
  }

  // ---- first match over concatenations ----

  lemma {:induction false} FirstMatchConcat(x: seq<Line>, y: seq<Line>, p: Packet)
    ensures FirstMatch(x + y, p) == if FirstMatch(x, p).Some? then FirstMatch(x, p) else FirstMatch(y, p)
  {
    if y == [] {
      assert x + y == x;
    } else {
      FirstMatchConcat(x, y[..|y| - 1], p);
      assert (x + y)[..|x + y| - 1] == x + y[..|y| - 1];
    }
  }

  lemma {:induction false} FirstMatchIn(lines: seq<Line>, p: Packet)
    ensures FirstMatch(lines, p).Some? ==> FirstMatch(lines, p).value in lines && LineMatches(FirstMatch(lines, p).value, p)
    ensures FirstMatch(lines, p).Some? <==> exists i :: 0 <= i < |lines| && LineMatches(lines[i], p)
  {
    if lines != [] {
      FirstMatchIn(lines[..|lines| - 1], p);
      assert lines == lines[..|lines| - 1] + [lines[|lines| - 1]];
    }
  }

  // ---- some line of an expansion matches ----

  predicate SrcHit(a: Agent, src: Cidr, p: Packet)
    requires src.prefix <= 32
  {
    (p.iface in Ifaces(a) && InNet(src, p.src)) || AliasHit(a, a.directAliases, src, p)
  }

  predicate AliasHit(a: Agent, als: seq<Alias>, src: Cidr, p: Packet)
    requires src.prefix <= 32
  {
    exists i :: 0 <= i < |als| && OneAlias(a, als[i], src, p)
  }

  predicate OneAlias(a: Agent, al: Alias, src: Cidr, p: Packet)
    requires src.prefix <= 32
  {
    AliasApplies(a, al, src) && al.iface == p.iface && al.direct == p.src
  }

  predicate Hit(lines: seq<Line>, p: Packet) { FirstMatch(lines, p).Some? }

  lemma {:induction false} IfaceHit(a: Agent, ifs: seq<string>, src: Cidr, dst: Option<Cidr>, port: Option<Port>, id: int, p: Packet)
    ensures Hit(IfaceLines(a, ifs, src, dst, port, id), p) <==>
      p.iface in ifs && InNet(src, p.src) && DstOk(dst, p) && PortOk(port, p)
  {
    if ifs != [] {
      var n := |ifs| - 1;
      IfaceHit(a, ifs[..n], src, dst, port, id, p);
      assert ifs == ifs[..n] + [ifs[n]];
      var init := IfaceLines(a, ifs[..n], src, dst, port, id);
      FirstMatchConcat(init, [Allow(src, dst, ifs[n], port, id, TargetOf(a.mode))], p);
    }
  }

  lemma {:induction false} AliasLinesHit(a: Agent, als: seq<Alias>, src: Cidr, dst: Option<Cidr>, port: Option<Port>, id: int, p: Packet)
    requires src.prefix <= 32
    ensures Hit(AliasLines(a, als, src, dst, port, id), p) <==> AliasHit(a, als, src, p) && DstOk(dst, p) && PortOk(port, p)
  {
    if als != [] {
      var n := |als| - 1;
      AliasLinesHit(a, als[..n], src, dst, port, id, p);
      AliasHitSnoc(a, als, src, p);
      AliasLineHit(a, als[n], src, dst, port, id, p);
      FirstMatchConcat(AliasLines(a, als[..n], src, dst, port, id), AliasLine(a, als[n], src, dst, port, id), p);
    }
  }

  lemma AliasLineHit(a: Agent, al: Alias, src: Cidr, dst: Option<Cidr>, port: Option<Port>, id: int, p: Packet)
    requires src.prefix <= 32
    ensures Hit(AliasLine(a, al, src, dst, port, id), p) <==> OneAlias(a, al, src, p) && DstOk(dst, p) && PortOk(port, p)
  {
    HostNet(al.direct);
    assert InNet(Host(al.direct), p.src) <==> al.direct == p.src;
    var l := AliasLine(a, al, src, dst, port, id);
    if l != [] {
      assert l[..0] == [] && FirstMatch(l[..0], p).None?;
      assert Hit(l, p) <==> LineMatches(l[0], p);
    }
  }

  lemma AliasHitSnoc(a: Agent, als: seq<Alias>, src: Cidr, p: Packet)
    requires src.prefix <= 32 && als != []
    ensures AliasHit(a, als, src, p) <==>
      AliasHit(a, als[..|als| - 1], src, p) || OneAlias(a, als[|als| - 1], src, p)
  {
    var n := |als| - 1;
    assert forall i :: 0 <= i < n ==> als[..n][i] == als[i];
  }

  lemma ComboHit(a: Agent, src: Cidr, dst: Option<Cidr>, port: Option<Port>, id: int, p: Packet)
    requires src.prefix <= 32
    ensures Hit(ComboLines(a, src, dst, port, id), p) <==> SrcHit(a, src, p) && DstOk(dst, p) && PortOk(port, p)
  {
    IfaceHit(a, Ifaces(a), src, dst, port, id, p);
    AliasLinesHit(a, a.directAliases, src, dst, port, id, p);
    FirstMatchConcat(IfaceLines(a, Ifaces(a), src, dst, port, id), AliasLines(a, a.directAliases, src, dst, port, id), p);
  }

  predicate AnyPort(ports: seq<Option<Port>>, p: Packet) { exists i :: 0 <= i < |ports| && PortOk(ports[i], p) }

  predicate AnyDst(dests: seq<Option<Cidr>>, p: Packet) { exists i :: 0 <= i < |dests| && DstOk(dests[i], p) }

  predicate AnySrc(a: Agent, sources: seq<Cidr>, p: Packet)
    requires AllNets(sources)
  {
    exists i :: 0 <= i < |sources| && SrcHit(a, sources[i], p)
  }

  lemma {:induction false} PortsHit(a: Agent, src: Cidr, dst: Option<Cidr>, ports: seq<Option<Port>>, id: int, p: Packet)
    requires src.prefix <= 32
    ensures Hit(PortLines(a, src, dst, ports, id), p) <==> SrcHit(a, src, p) && DstOk(dst, p) && AnyPort(ports, p)
  {
    if ports != [] {
      var n := |ports| - 1;
      PortsHit(a, src, dst, ports[..n], id, p);
      ComboHit(a, src, dst, ports[n], id, p);
      FirstMatchConcat(PortLines(a, src, dst, ports[..n], id), ComboLines(a, src, dst, ports[n], id), p);
      assert ports == ports[..n] + [ports[n]];
      assert AnyPort(ports, p) <==> AnyPort(ports[..n], p) || PortOk(ports[n], p);
    }
  }

  lemma {:induction false} DestsHit(a: Agent, src: Cidr, dests: seq<Option<Cidr>>, ports: seq<Option<Port>>, id: int, p: Packet)
    requires src.prefix <= 32
    ensures Hit(DestLines(a, src, dests, ports, id), p) <==> SrcHit(a, src, p) && AnyDst(dests, p) && AnyPort(ports, p)
  {
    if dests != [] {
      var n := |dests| - 1;
      DestsHit(a, src, dests[..n], ports, id, p);
      PortsHit(a, src, dests[n], ports, id, p);
      FirstMatchConcat(DestLines(a, src, dests[..n], ports, id), PortLines(a, src, dests[n], ports, id), p);
      assert dests == dests[..n] + [dests[n]];
      assert AnyDst(dests, p) <==> AnyDst(dests[..n], p) || DstOk(dests[n], p);
    }
  }

  lemma {:induction false} SourcesHit(a: Agent, sources: seq<Cidr>, dests: seq<Option<Cidr>>, ports: seq<Option<Port>>, id: int, p: Packet)
    requires AllNets(sources)
    ensures Hit(SourceLines(a, sources, dests, ports, id), p) <==> AnySrc(a, sources, p) && AnyDst(dests, p) && AnyPort(ports, p)
  {
    if sources != [] {
      var n := |sources| - 1;
      SourcesHit(a, sources[..n], dests, ports, id, p);
      DestsHit(a, sources[n], dests, ports, id, p);
      FirstMatchConcat(SourceLines(a, sources[..n], dests, ports, id), DestLines(a, sources[n], dests, ports, id), p);
      assert sources == sources[..n] + [sources[n]];
      assert AnySrc(a, sources, p) <==> AnySrc(a, sources[..n], p) || SrcHit(a, sources[n], p);
    }
  }

  // ---- one rule: some line matches exactly when the rule admits the packet ----

  lemma TextHostAt(ts: seq<Text>, cs: seq<Cidr>, x: Addr, i: nat)
    requires CleanTexts(ts) && cs == Nets(ts) && i < |ts|
    ensures TextHolds(ts[i], Host(x)) <==> InNet(cs[i], x)
  {
    ContainsHost(cs[i], x);
  }

  predicate SomeNet(cs: seq<Cidr>, x: Addr) { exists i :: 0 <= i < |cs| && InNet(cs[i], x) }

  lemma TextHost(ts: seq<Text>, x: Addr)
    requires CleanTexts(ts)
    ensures SomeContains(ts, Host(x)) <==> SomeNet(Nets(ts), x)
  {
    var cs := Nets(ts);
    if SomeContains(ts, Host(x)) {
      var i :| 0 <= i < |ts| && TextHolds(ts[i], Host(x));
      TextHostAt(ts, cs, x, i);
    }
    if SomeNet(cs, x) {
      var i :| 0 <= i < |cs| && InNet(cs[i], x);
      TextHostAt(ts, cs, x, i);
    }
  }

  lemma DestsMean(r: Rule, p: Packet)
    requires CleanRule(r)
    ensures AnyDst(OrAny(Nets(r.destinations)), p) <==>
      r.destinations == [] || SomeContains(r.destinations, Host(p.dst))
  {
    TextHost(r.destinations, p.dst);
    var ds := OrAny(Nets(r.destinations));
    if r.destinations == [] {
      assert DstOk(ds[0], p);
    } else {
      assert forall i :: 0 <= i < |ds| ==> ds[i] == Some(Nets(r.destinations)[i]);
    }
  }

  predicate PortsAllow(r: Rule, port: Option<nat>, proto: Proto) {
    r.ports == [] || (port.Some? && exists i :: 0 <= i < |r.ports| && PortMatches(r.ports[i], port.value, proto))
  }

  lemma PortsMean(r: Rule, p: Packet, f: Flow)
    requires CleanRule(r) && f == FlowOf(p, p.src)
    ensures AnyPort(OrAny(r.ports), p) <==> PortsAllow(r, f.port, f.proto)
  {
    var ps := OrAny(r.ports);
    if r.ports == [] {
      assert PortOk(ps[0], p);
    } else {
      assert forall i :: 0 <= i < |ps| ==> ps[i] == Some(r.ports[i]);
    }
  }

  lemma SourcesMean(a: Agent, r: Rule, p: Packet)
    requires CleanRule(r)
    ensures AnySrc(a, Nets(r.sources), p) <==>
      (p.iface in Ifaces(a) && SomeContains(r.sources, Host(p.src)))
      || exists i :: 0 <= i < |a.directAliases| && SourceAlias(a, r, p, a.directAliases[i])
  {
    var cs := Nets(r.sources);
    TextHost(r.sources, p.src);
    if AnySrc(a, cs, p) {
      var i :| 0 <= i < |cs| && SrcHit(a, cs[i], p);
      if !(p.iface in Ifaces(a) && InNet(cs[i], p.src)) {
        var k :| 0 <= k < |a.directAliases| && OneAlias(a, a.directAliases[k], cs[i], p);
        ContainsHost(cs[i], a.directAliases[k].hub);
        TextHost(r.sources, a.directAliases[k].hub);
        assert SourceAlias(a, r, p, a.directAliases[k]);
      }
    }
    if k :| 0 <= k < |a.directAliases| && SourceAlias(a, r, p, a.directAliases[k]) {
      var al := a.directAliases[k];
      TextHost(r.sources, al.hub);
      var i :| 0 <= i < |cs| && InNet(cs[i], al.hub);
      ContainsHost(cs[i], al.hub);
      ContainsHost(cs[i], al.direct);
      assert OneAlias(a, al, cs[i], p) || InNet(cs[i], p.src);
      assert SrcHit(a, cs[i], p);
    }
    if p.iface in Ifaces(a) && SomeContains(r.sources, Host(p.src)) {
      var i :| 0 <= i < |cs| && InNet(cs[i], p.src);
      assert SrcHit(a, cs[i], p);
    }
  }

  predicate SourceAlias(a: Agent, r: Rule, p: Packet, al: Alias) {
    al.iface in a.directIfaces && al.iface == p.iface && al.direct == p.src && SomeContains(r.sources, Host(al.hub))
  }

  lemma RuleHit(a: Agent, r: Rule, p: Packet)
    requires CleanRule(r) && r.enabled
    ensures Hit(RuleLines(a, r), p) <==> Admits(a, r, p)
  {
    var f := FlowOf(p, p.src);
    SourcesHit(a, Nets(r.sources), OrAny(Nets(r.destinations)), OrAny(r.ports), r.id, p);
    DestsMean(r, p);
    PortsMean(r, p, f);
    SourcesMean(a, r, p);
    forall i | 0 <= i < |a.directAliases|
      ensures RuleCovers(r, FlowOf(p, a.directAliases[i].hub)) <==>
        SomeContains(r.sources, Host(a.directAliases[i].hub))
        && AnyDst(OrAny(Nets(r.destinations)), p) && AnyPort(OrAny(r.ports), p)
    {
    }
  }

  // ---- all rules ----

  predicate AllEnabled(rules: seq<Rule>) { forall i :: 0 <= i < |rules| ==> rules[i].enabled }

  predicate RuleLine(l: Line, a: Agent, id: int) { l.Allow? && l.target == TargetOf(a.mode) && l.id == id }

  lemma {:induction false} PortsShape(a: Agent, src: Cidr, dst: Option<Cidr>, ports: seq<Option<Port>>, id: int)
    requires src.prefix <= 32
    ensures forall l :: l in PortLines(a, src, dst, ports, id) ==> RuleLine(l, a, id)
  {
    if ports != [] {
      PortsShape(a, src, dst, ports[..|ports| - 1], id);
      IfaceShape(a, Ifaces(a), src, dst, ports[|ports| - 1], id);
      AliasShape(a, a.directAliases, src, dst, ports[|ports| - 1], id);
    }
  }

  lemma {:induction false} IfaceShape(a: Agent, ifs: seq<string>, src: Cidr, dst: Option<Cidr>, port: Option<Port>, id: int)
    ensures forall l :: l in IfaceLines(a, ifs, src, dst, port, id) ==> RuleLine(l, a, id)
  {
    if ifs != [] { IfaceShape(a, ifs[..|ifs| - 1], src, dst, port, id); }
  }

  lemma {:induction false} AliasShape(a: Agent, als: seq<Alias>, src: Cidr, dst: Option<Cidr>, port: Option<Port>, id: int)
    requires src.prefix <= 32
    ensures forall l :: l in AliasLines(a, als, src, dst, port, id) ==> RuleLine(l, a, id)
  {
    if als != [] { AliasShape(a, als[..|als| - 1], src, dst, port, id); }
  }

  lemma {:induction false} DestsShape(a: Agent, src: Cidr, dests: seq<Option<Cidr>>, ports: seq<Option<Port>>, id: int)
    requires src.prefix <= 32
    ensures forall l :: l in DestLines(a, src, dests, ports, id) ==> RuleLine(l, a, id)
  {
    if dests != [] {
      DestsShape(a, src, dests[..|dests| - 1], ports, id);
      PortsShape(a, src, dests[|dests| - 1], ports, id);
    }
  }

  lemma {:induction false} SourcesShape(a: Agent, sources: seq<Cidr>, dests: seq<Option<Cidr>>, ports: seq<Option<Port>>, id: int)
    requires AllNets(sources)
    ensures forall l :: l in SourceLines(a, sources, dests, ports, id) ==> RuleLine(l, a, id)
  {
    if sources != [] {
      SourcesShape(a, sources[..|sources| - 1], dests, ports, id);
      DestsShape(a, sources[|sources| - 1], dests, ports, id);
    }
  }

  predicate NoneAdmits(a: Agent, rules: seq<Rule>, p: Packet) {
    forall i :: 0 <= i < |rules| ==> !Admits(a, rules[i], p)
  }

  lemma NoneSnoc(a: Agent, rules: seq<Rule>, n: nat, p: Packet)
    requires n < |rules|
    ensures NoneAdmits(a, rules[..n + 1], p) <==> NoneAdmits(a, rules[..n], p) && !Admits(a, rules[n], p)
  {
    var s, t := rules[..n + 1], rules[..n];
    assert s[n] == rules[n];
    assert forall i :: 0 <= i < n ==> s[i] == t[i];
  }

  /** Up to rule k none admits the packet; a match belongs to rule k, which does. */
  ghost predicate HitAt(a: Agent, rules: seq<Rule>, p: Packet, f: Option<Line>, k: nat) {
    k <= |rules| && NoneAdmits(a, rules[..k], p) && (f.Some? <==> k < |rules|)
    && (f.Some? ==> Admits(a, rules[k], p) && RuleLine(f.value, a, rules[k].id))
  }

  /** The first matching rule line belongs to the first rule that admits the packet. */
  lemma {:induction false} RulesHit(a: Agent, rules: seq<Rule>, p: Packet) returns (k: nat)
    requires AllClean(rules) && AllEnabled(rules)
    ensures HitAt(a, rules, p, FirstMatch(AllRuleLines(a, rules), p), k)
  {
    if rules == [] {
      k := 0;
    } else {
      var n := |rules| - 1;
      k := RulesHit(a, rules[..n], p);
      FirstMatchConcat(AllRuleLines(a, rules[..n]), RuleLines(a, rules[n]), p);
      LastHit(a, rules[n], p);
      HitSnoc(a, rules, p, FirstMatch(AllRuleLines(a, rules[..n]), p), FirstMatch(RuleLines(a, rules[n]), p), k);
      if k == n && FirstMatch(RuleLines(a, rules[n]), p).None? { k := n + 1; }
    }
  }

  lemma {:induction false} LastHit(a: Agent, r: Rule, p: Packet)
    requires CleanRule(r) && r.enabled
    ensures var g := FirstMatch(RuleLines(a, r), p);
      (g.Some? <==> Admits(a, r, p)) && (g.Some? ==> RuleLine(g.value, a, r.id))
  {
    RuleHit(a, r, p);
    RuleShape(a, r, p);
  }

  lemma {:induction false} HitSnoc(a: Agent, rules: seq<Rule>, p: Packet, f: Option<Line>, g: Option<Line>, k: nat)
    requires rules != [] && HitAt(a, rules[..|rules| - 1], p, f, k)
    requires var r := rules[|rules| - 1]; (g.Some? <==> Admits(a, r, p)) && (g.Some? ==> RuleLine(g.value, a, r.id))
    ensures var n := |rules| - 1;
      HitAt(a, rules, p, if f.Some? then f else g, if k == n && g.None? then n + 1 else k)
  {
    var n := |rules| - 1;
    TakeTwice(rules, k, n);
    NoneSnoc(a, rules, n, p);
    TakeAll(rules);
  }

  lemma RuleShape(a: Agent, r: Rule, p: Packet)
    requires CleanRule(r)
    ensures var g := FirstMatch(RuleLines(a, r), p); g.Some? ==> RuleLine(g.value, a, r.id)
  {
    FirstMatchIn(RuleLines(a, r), p);
    SourcesShape(a, Nets(r.sources), OrAny(Nets(r.destinations)), OrAny(r.ports), r.id);
  }

  lemma {:induction false} DropsHit(ifs: seq<string>, p: Packet)
    ensures FirstMatch(DropLines(ifs), p) == if p.iface in ifs then Some(DropOn(p.iface)) else None
  {
    if ifs != [] {
      var n := |ifs| - 1;
      DropsHit(ifs[..n], p);
      assert DropLines(ifs)[..n] == DropLines(ifs[..n]);
      assert ifs == ifs[..n] + [ifs[n]];
    }
  }

  // ---- active rules are the enabled ones, by ascending id ----

  lemma {:induction false} EnabledElements(rules: seq<Rule>)
    ensures forall r :: r in EnabledRules(rules) <==> r in rules && r.enabled
  {
    if rules != [] {
      EnabledElements(rules[..|rules| - 1]);
      assert rules == rules[..|rules| - 1] + [rules[|rules| - 1]];
    }
  }

  predicate ById(list: seq<Rule>) { forall i, j :: 0 <= i < j < |list| ==> list[i].id <= list[j].id }

  lemma {:induction false} InsertOrders(r: Rule, list: seq<Rule>)
    requires ById(list)
    ensures ById(InsertById(r, list))
    ensures forall x :: x in InsertById(r, list) <==> x == r || x in list
  {
    if list == [] || r.id < list[0].id {
    } else {
      assert list == [list[0]] + list[1..];
      InsertOrders(r, list[1..]);
      var t := InsertById(r, list[1..]);
      forall i | 0 <= i < |t| ensures list[0].id <= t[i].id {
        assert t[i] == r || t[i] in list[1..];
      }
    }
  }

  lemma {:induction false} SortOrders(list: seq<Rule>)
    ensures ById(SortById(list))
    ensures forall x :: x in SortById(list) <==> x in list
  {
    if list != [] {
      SortOrders(list[..|list| - 1]);
      InsertOrders(list[|list| - 1], SortById(list[..|list| - 1]));
      assert list == list[..|list| - 1] + [list[|list| - 1]];
    }
  }

  lemma ActiveElements(rules: seq<Rule>)
    ensures ById(Active(rules)) && AllEnabled(Active(rules))
    ensures forall r :: r in Active(rules) <==> r in rules && r.enabled
  {
    EnabledElements(rules);
    SortOrders(EnabledRules(rules));
    forall i | 0 <= i < |Active(rules)| ensures Active(rules)[i].enabled {
      assert Active(rules)[i] in Active(rules);
    }
  }

  predicate SomeAdmits(a: Agent, rules: seq<Rule>, p: Packet) {
    exists r :: r in rules && Admits(a, r, p)
  }

  lemma ChainSplit(a: Agent, rules: seq<Rule>, p: Packet)
    requires Buildable(a, rules) && !p.established
    ensures FirstMatch(Chain(a, rules), p) ==
      var f := FirstMatch(AllRuleLines(a, Active(rules)), p);
      if f.Some? then f
      else if a.mode.Restricted? && p.iface in Ifaces(a) then Some(DropOn(p.iface))
      else None
  {
    var head := [Established(TargetOf(a.mode))];
    var body := AllRuleLines(a, Active(rules));
    var tail := if a.mode.Restricted? then DropLines(Ifaces(a)) else [];
    assert Chain(a, rules) == head + body + tail;
    FirstMatchConcat(head + body, tail, p);
    FirstMatchConcat(head, body, p);
    assert head[..0] == [];
    DropsHit(Ifaces(a), p);
  }

  /** Compiler correctness for new packets: in restricted mode a packet on a filtered interface is accepted
      exactly when some enabled rule covers it, directly or through a direct alias, and dropped otherwise;
      packets on other interfaces fall through; open mode accepts and drops nothing. */
  lemma ChainMeansRules(a: Agent, rules: seq<Rule>, p: Packet)
    requires Buildable(a, rules) && !p.established
    ensures Eval(Chain(a, rules), p) ==
      if a.mode.Open? || p.iface !in Ifaces(a) then Passed
      else if SomeAdmits(a, rules, p) then Accepted
      else Dropped
  {
    var act := Active(rules);
    ActiveElements(rules);
    ChainSplit(a, rules, p);
    var k := RulesHit(a, act, p);
    if k < |act| {
      assert act[k] in act;
      AdmittedIface(a, act[k], p);
    } else {
      assert act[..k] == act;
      ActiveAdmits(a, rules, p);
    }
  }

  lemma ActiveAdmits(a: Agent, rules: seq<Rule>, p: Packet)
    ensures SomeAdmits(a, rules, p) <==> !NoneAdmits(a, Active(rules), p)
  {
    ActiveElements(rules);
    if r :| r in rules && Admits(a, r, p) {
      assert r in Active(rules);
    }
    if !NoneAdmits(a, Active(rules), p) {
      var i :| 0 <= i < |Active(rules)| && Admits(a, Active(rules)[i], p);
      assert Active(rules)[i] in Active(rules);
    }
  }

  lemma AdmittedIface(a: Agent, r: Rule, p: Packet)
    requires Admits(a, r, p)
    ensures p.iface in Ifaces(a)
  {
  }

  /** Established and related packets take the first line on every interface: accepted in restricted
      mode, passed on in open mode. */
  lemma EstablishedFirst(a: Agent, rules: seq<Rule>, p: Packet)
    requires Buildable(a, rules) && p.established
    ensures Eval(Chain(a, rules), p) == if a.mode.Restricted? then Accepted else Passed
  {
    var head := [Established(TargetOf(a.mode))];
    var rest := AllRuleLines(a, Active(rules)) + (if a.mode.Restricted? then DropLines(Ifaces(a)) else []);
    assert Chain(a, rules) == head + rest;
    FirstMatchConcat(head, rest, p);
    assert head[..0] == [];
  }

  lemma LaterId(a: Agent, act: seq<Rule>, k: nat, r: Rule, p: Packet)
    requires ById(act) && k < |act| && NoneAdmits(a, act[..k], p) && r in act && Admits(a, r, p)
    ensures act[k].id <= r.id
  {
    assert forall j :: 0 <= j < k ==> act[..k][j] == act[j];
    var i :| 0 <= i < |act| && act[i] == r;
  }

  /** The line hit names the admitting rule with the least id. */
  lemma FirstLineId(a: Agent, rules: seq<Rule>, p: Packet) returns (hit: Rule)
    requires Buildable(a, rules) && !p.established && SomeAdmits(a, rules, p)
    ensures var f := FirstMatch(Chain(a, rules), p);
      f.Some? && f.value.Allow? && hit in rules && Admits(a, hit, p) && f.value.id == hit.id
    ensures forall r :: r in rules && Admits(a, r, p) ==> hit.id <= r.id
  {
    var act := Active(rules);
    ActiveElements(rules);
    ChainSplit(a, rules, p);
    ActiveAdmits(a, rules, p);
    var k := RulesHit(a, act, p);
    assert act[..|act|] == act;
    hit := act[k];
    assert hit in act;
    forall r | r in rules && Admits(a, r, p) ensures hit.id <= r.id {
      LaterId(a, act, k, r, p);
    }
  }
}
