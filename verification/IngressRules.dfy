/** Ingress filter of one agent (backend/internal/agent-ingress-rules.js): allow rules are
    compiled to the iptables chain FG_IN, and ruleCovers says what a rule lets through. */
module IngressRules {
  import opened Wrappers
  import opened Seqs
  import opened Ipv4Nets

  const MAX_RULES_PER_AGENT := 500
  const MAX_LINES_PER_RULE := 256
  const MAX_LINES_TOTAL := 4000

  datatype Proto = Tcp | Udp | OtherProto

  /** A port entry: `proto` and "lo" or "lo:hi"; BadPort is any stored entry that has not this form. */
  datatype Port = Port(proto: Proto, lo: nat, hi: nat) | BadPort

  datatype Rule = Rule(id: int, enabled: bool, sources: seq<Text>, destinations: seq<Text>, ports: seq<Port>)

  datatype Mode = Open | Restricted

  /** The partner gateway's own traffic arrives on `iface` from `direct` instead of its hub address. */
  datatype Alias = Alias(iface: string, hub: Addr, direct: Addr)

  datatype Agent = Agent(mode: Mode, iface: string, directIfaces: seq<string>, directAliases: seq<Alias>)

  // ---- interface names ----

  predicate Digits(s: string, least: nat, most: nat) {
    least <= |s| <= most && forall i :: 0 <= i < |s| ==> '0' <= s[i] <= '9'
  }

  predicate IsWgIface(s: string) { |s| >= 2 && s[..2] == "wg" && Digits(s[2..], 1, 3) }

  predicate IsDirectIface(s: string) { |s| >= 3 && s[..3] == "fgd" && Digits(s[3..], 1, 4) }

  function Ifaces(a: Agent): seq<string> { [a.iface] + a.directIfaces }

  // ---- what is emitted ----

  datatype Target = ACCEPT | RETURN

  datatype Line =
    | Established(target: Target)
    | Allow(src: Cidr, dst: Option<Cidr>, iface: string, port: Option<Port>, id: int, target: Target)
    | DropOn(iface: string)

  datatype Error = BadIface | BadDirectIface | TooManyRules | NoId | BadCidr | BadPortSpec | TooManyLines

  /** None = no filter at all. */
  datatype Built = Built(lines: seq<Line>, ruleCount: nat)

  function TargetOf(m: Mode): Target { if m.Restricted? then ACCEPT else RETURN }

  // ---- the rules that are compiled: enabled, by ascending id ----

  function EnabledRules(rules: seq<Rule>): seq<Rule> {
    if rules == [] then []
    else
      EnabledRules(rules[..|rules| - 1]) + (if rules[|rules| - 1].enabled then [rules[|rules| - 1]] else [])
  }

  function InsertById(r: Rule, list: seq<Rule>): seq<Rule> {
    if list == [] || r.id < list[0].id then [r] + list else [list[0]] + InsertById(r, list[1..])
  }

  function SortById(list: seq<Rule>): seq<Rule> {
    if list == [] then [] else InsertById(list[|list| - 1], SortById(list[..|list| - 1]))
  }

  function Active(rules: seq<Rule>): seq<Rule> { SortById(EnabledRules(rules)) }

  // ---- expansion, innermost loop first ----

  predicate AliasApplies(a: Agent, al: Alias, src: Cidr)
    requires src.prefix <= 32
  {
    al.iface in a.directIfaces && CidrContains(src, Host(al.hub)) && !CidrContains(src, Host(al.direct))
  }

  function AliasLines(a: Agent, als: seq<Alias>, src: Cidr, dst: Option<Cidr>, port: Option<Port>, id: int): seq<Line>
    requires src.prefix <= 32
  {
    if als == [] then []
    else
      var al := als[|als| - 1];
      AliasLines(a, als[..|als| - 1], src, dst, port, id) + AliasLine(a, al, src, dst, port, id)
  }

  function AliasLine(a: Agent, al: Alias, src: Cidr, dst: Option<Cidr>, port: Option<Port>, id: int): seq<Line>
    requires src.prefix <= 32
  {
    if AliasApplies(a, al, src) then [Allow(Host(al.direct), dst, al.iface, port, id, TargetOf(a.mode))] else []
  }

  function IfaceLines(a: Agent, ifs: seq<string>, src: Cidr, dst: Option<Cidr>, port: Option<Port>, id: int): seq<Line> {
    if ifs == [] then []
    else
      IfaceLines(a, ifs[..|ifs| - 1], src, dst, port, id)
      + [Allow(src, dst, ifs[|ifs| - 1], port, id, TargetOf(a.mode))]
  }

  /** All lines of one source, destination and port. */
  function ComboLines(a: Agent, src: Cidr, dst: Option<Cidr>, port: Option<Port>, id: int): seq<Line>
    requires src.prefix <= 32
  {
    IfaceLines(a, Ifaces(a), src, dst, port, id) + AliasLines(a, a.directAliases, src, dst, port, id)
  }

  function PortLines(a: Agent, src: Cidr, dst: Option<Cidr>, ports: seq<Option<Port>>, id: int): seq<Line>
    requires src.prefix <= 32
  {
    if ports == [] then []
    else PortLines(a, src, dst, ports[..|ports| - 1], id) + ComboLines(a, src, dst, ports[|ports| - 1], id)
  }

  function DestLines(a: Agent, src: Cidr, dests: seq<Option<Cidr>>, ports: seq<Option<Port>>, id: int): seq<Line>
    requires src.prefix <= 32
  {
    if dests == [] then []
    else DestLines(a, src, dests[..|dests| - 1], ports, id) + PortLines(a, src, dests[|dests| - 1], ports, id)
  }

  predicate AllNets(cs: seq<Cidr>) { forall i :: 0 <= i < |cs| ==> Canonical(cs[i]) }

  function SourceLines(a: Agent, sources: seq<Cidr>, dests: seq<Option<Cidr>>, ports: seq<Option<Port>>, id: int): seq<Line>
    requires AllNets(sources)
  {
    if sources == [] then []
    else
      SourceLines(a, sources[..|sources| - 1], dests, ports, id) + DestLines(a, sources[|sources| - 1], dests, ports, id)
  }

  // ---- one rule ----

  predicate CleanTexts(ts: seq<Text>) { forall i :: 0 <= i < |ts| ==> CanonicalCidr(ts[i]).Some? }

  predicate CleanRule(r: Rule) {
    && r.id >= 1
    && r.sources != [] && CleanTexts(r.sources) && CleanTexts(r.destinations)
    && forall i :: 0 <= i < |r.ports| ==> r.ports[i].Port? && !r.ports[i].proto.OtherProto?
  }

  function Nets(ts: seq<Text>): (cs: seq<Cidr>)
    requires CleanTexts(ts)
    ensures |cs| == |ts| && forall i :: 0 <= i < |ts| ==> cs[i] == CanonicalCidr(ts[i]).value
    ensures AllNets(cs)
  {
    if ts == [] then []
    else
      CanonicalCidrSound(ts[|ts| - 1]);
      Nets(ts[..|ts| - 1]) + [CanonicalCidr(ts[|ts| - 1]).value]
  }

  /** An explicitly empty list means "any", written as the single entry None. */
  function OrAny<T>(list: seq<T>): (r: seq<Option<T>>)
    ensures |r| == if list == [] then 1 else |list|
  {
    if list == [] then [None] else seq(|list|, i requires 0 <= i < |list| => Some(list[i]))
  }

  function RuleLines(a: Agent, r: Rule): seq<Line>
    requires CleanRule(r)
  {
    SourceLines(a, Nets(r.sources), OrAny(Nets(r.destinations)), OrAny(r.ports), r.id)
  }

  function AllRuleLines(a: Agent, rules: seq<Rule>): seq<Line>
    requires AllClean(rules)
  {
    if rules == [] then []
    else AllRuleLines(a, rules[..|rules| - 1]) + RuleLines(a, rules[|rules| - 1])
  }

  function DropLines(ifs: seq<string>): seq<Line> {
    seq(|ifs|, i requires 0 <= i < |ifs| => DropOn(ifs[i]))
  }

  // ---- the whole chain ----

  predicate NeedsNoFilter(a: Agent, rules: seq<Rule>) { a.mode.Open? && Active(rules) == [] }

  predicate IfacesOk(a: Agent) {
    IsWgIface(a.iface) && forall i :: 0 <= i < |a.directIfaces| ==> IsDirectIface(a.directIfaces[i])
  }

  predicate Buildable(a: Agent, rules: seq<Rule>) {
    var act := Active(rules);
    && IfacesOk(a)
    && |act| <= MAX_RULES_PER_AGENT
    && AllClean(act)
    && |AllRuleLines(a, act)| <= MAX_LINES_TOTAL
  }

  function Chain(a: Agent, rules: seq<Rule>): seq<Line>
    requires Buildable(a, rules)
  {
    [Established(TargetOf(a.mode))] + AllRuleLines(a, Active(rules))
    + (if a.mode.Restricted? then DropLines(Ifaces(a)) else [])
  }

  // ---- buildIngressRestore: the loops ----

  /** The line per interface; `count` lines were emitted before. */
  method EmitIfaces(a: Agent, src: Cidr, dst: Option<Cidr>, port: Option<Port>, id: int, count: nat)
    returns (r: Result<seq<Line>, Error>)
    requires count <= MAX_LINES_TOTAL
    ensures r.Ok? <==> GoodPort(port) && count + |IfaceLines(a, Ifaces(a), src, dst, port, id)| <= MAX_LINES_TOTAL
    ensures r.Ok? ==> r.value == IfaceLines(a, Ifaces(a), src, dst, port, id)
  {
    var out: seq<Line> := [];
    var ifs := Ifaces(a);
    for i := 0 to |ifs|
      invariant out == IfaceLines(a, ifs[..i], src, dst, port, id) && count + |out| <= MAX_LINES_TOTAL
      invariant i > 0 ==> GoodPort(port)
    {
      IfaceLinesGrow(a, ifs, i, src, dst, port, id);
      assert ifs[..i + 1][..i] == ifs[..i];
      if !GoodPort(port) { return Err(BadPortSpec); }
      out := out + [Allow(src, dst, ifs[i], port, id, TargetOf(a.mode))];
      if count + |out| > MAX_LINES_TOTAL { return Err(TooManyLines); }
    }
    assert ifs[..|ifs|] == ifs;
    return Ok(out);
  }

  method EmitAliases(a: Agent, src: Cidr, dst: Option<Cidr>, port: Option<Port>, id: int, count: nat)
    returns (r: Result<seq<Line>, Error>)
    requires src.prefix <= 32 && count <= MAX_LINES_TOTAL
    ensures r.Ok? <==> count + |AliasLines(a, a.directAliases, src, dst, port, id)| <= MAX_LINES_TOTAL
    ensures r.Ok? ==> r.value == AliasLines(a, a.directAliases, src, dst, port, id)
  {
    var out: seq<Line> := [];
    var als := a.directAliases;
    for i := 0 to |als|
      invariant out == AliasLines(a, als[..i], src, dst, port, id) && count + |out| <= MAX_LINES_TOTAL
    {
      AliasLinesGrow(a, als, i, src, dst, port, id);
      assert als[..i + 1][..i] == als[..i];
      if AliasApplies(a, als[i], src) {
        out := out + [Allow(Host(als[i].direct), dst, als[i].iface, port, id, TargetOf(a.mode))];
        if count + |out| > MAX_LINES_TOTAL { return Err(TooManyLines); }
      }
    }
    assert als[..|als|] == als;
    return Ok(out);
  }

  /** The two innermost loops. */
  method EmitCombo(a: Agent, src: Cidr, dst: Option<Cidr>, port: Option<Port>, id: int, count: nat)
    returns (r: Result<seq<Line>, Error>)
    requires src.prefix <= 32 && count <= MAX_LINES_TOTAL
    ensures r.Ok? <==> GoodPort(port) && count + |ComboLines(a, src, dst, port, id)| <= MAX_LINES_TOTAL
    ensures r.Ok? ==> r.value == ComboLines(a, src, dst, port, id)
  {
    var x := EmitIfaces(a, src, dst, port, id, count);
    if x.Err? { return x; }
    var y := EmitAliases(a, src, dst, port, id, count + |x.value|);
    if y.Err? { return y; }
    return Ok(x.value + y.value);
  }

  predicate GoodPort(p: Option<Port>) { p.None? || (p.value.Port? && !p.value.proto.OtherProto?) }

  predicate GoodPorts(ps: seq<Option<Port>>) { forall i :: 0 <= i < |ps| ==> GoodPort(ps[i]) }

  lemma {:induction false} IfaceLinesGrow(a: Agent, ifs: seq<string>, k: nat, src: Cidr, dst: Option<Cidr>, port: Option<Port>, id: int)
    requires k < |ifs|
    ensures |IfaceLines(a, ifs[..k + 1], src, dst, port, id)| <= |IfaceLines(a, ifs, src, dst, port, id)|
    decreases |ifs|
  {
    if k + 1 < |ifs| {
      var init := ifs[..|ifs| - 1];
      IfaceLinesGrow(a, init, k, src, dst, port, id);
      assert init[..k + 1] == ifs[..k + 1];
    } else {
      assert ifs[..k + 1] == ifs;
    }
  }

  lemma {:induction false} AliasLinesGrow(a: Agent, als: seq<Alias>, k: nat, src: Cidr, dst: Option<Cidr>, port: Option<Port>, id: int)
    requires k < |als| && src.prefix <= 32
    ensures |AliasLines(a, als[..k + 1], src, dst, port, id)| <= |AliasLines(a, als, src, dst, port, id)|
    decreases |als|
  {
    if k + 1 < |als| {
      var init := als[..|als| - 1];
      AliasLinesGrow(a, init, k, src, dst, port, id);
      assert init[..k + 1] == als[..k + 1];
    } else {
      assert als[..k + 1] == als;
    }
  }

  lemma {:induction false} PortLinesGrow(a: Agent, src: Cidr, dst: Option<Cidr>, ports: seq<Option<Port>>, k: nat, id: int)
    requires k < |ports| && src.prefix <= 32
    ensures |PortLines(a, src, dst, ports[..k + 1], id)| <= |PortLines(a, src, dst, ports, id)|
    decreases |ports|
  {
    if k + 1 < |ports| {
      var init := ports[..|ports| - 1];
      PortLinesGrow(a, src, dst, init, k, id);
      TakeTwice(ports, k + 1, |ports| - 1);
    } else {
      TakeAll(ports);
    }
  }

  lemma {:induction false} DestLinesGrow(a: Agent, src: Cidr, dests: seq<Option<Cidr>>, ports: seq<Option<Port>>, k: nat, id: int)
    requires k < |dests| && src.prefix <= 32
    ensures |DestLines(a, src, dests[..k + 1], ports, id)| <= |DestLines(a, src, dests, ports, id)|
    decreases |dests|
  {
    if k + 1 < |dests| {
      var init := dests[..|dests| - 1];
      DestLinesGrow(a, src, init, ports, k, id);
      TakeTwice(dests, k + 1, |dests| - 1);
    } else {
      TakeAll(dests);
    }
  }

  lemma {:induction false} SourceLinesGrow(a: Agent, sources: seq<Cidr>, dests: seq<Option<Cidr>>, ports: seq<Option<Port>>, k: nat, id: int)
    requires k < |sources| && AllNets(sources)
    ensures |SourceLines(a, sources[..k + 1], dests, ports, id)| <= |SourceLines(a, sources, dests, ports, id)|
    decreases |sources|
  {
    if k + 1 < |sources| {
      var init := sources[..|sources| - 1];
      SourceLinesGrow(a, init, dests, ports, k, id);
      TakeTwice(sources, k + 1, |sources| - 1);
    } else {
      TakeAll(sources);
    }
  }

  lemma {:induction false} LinesOfInit(a: Agent, rules: seq<Rule>)
    requires rules != [] && AllClean(rules)
    ensures AllClean(rules[..|rules| - 1])
    ensures |AllRuleLines(a, rules[..|rules| - 1])| <= |AllRuleLines(a, rules)|
  {
  }

  lemma {:induction false} AllRuleLinesGrow(a: Agent, part: seq<Rule>, rules: seq<Rule>)
    requires part <= rules && AllClean(rules) && AllClean(part)
    ensures |AllRuleLines(a, part)| <= |AllRuleLines(a, rules)|
    decreases |rules|
  {
    if |part| < |rules| {
      LinesOfInit(a, rules);
      AllRuleLinesGrow(a, part, rules[..|rules| - 1]);
    } else {
      assert part == rules;
    }
  }

  method EmitPorts(a: Agent, src: Cidr, dst: Option<Cidr>, ports: seq<Option<Port>>, id: int, count: nat)
    returns (r: Result<seq<Line>, Error>)
    requires src.prefix <= 32 && count <= MAX_LINES_TOTAL
    ensures r.Ok? <==> GoodPorts(ports) && count + |PortLines(a, src, dst, ports, id)| <= MAX_LINES_TOTAL
    ensures r.Ok? ==> r.value == PortLines(a, src, dst, ports, id)
  {
    var out: seq<Line> := [];
    for i := 0 to |ports|
      invariant out == PortLines(a, src, dst, ports[..i], id) && count + |out| <= MAX_LINES_TOTAL
      invariant GoodPorts(ports[..i])
    {
      PortLinesGrow(a, src, dst, ports, i, id);
      TakeOneMore(ports, i);
      var c := EmitCombo(a, src, dst, ports[i], id, count + |out|);
      if c.Err? { return c; }
      out := out + c.value;
    }
    assert ports[..|ports|] == ports;
    return Ok(out);
  }

  method EmitDests(a: Agent, src: Cidr, dests: seq<Option<Cidr>>, ports: seq<Option<Port>>, id: int, count: nat)
    returns (r: Result<seq<Line>, Error>)
    requires src.prefix <= 32 && count <= MAX_LINES_TOTAL && dests != []
    ensures r.Ok? <==> GoodPorts(ports) && count + |DestLines(a, src, dests, ports, id)| <= MAX_LINES_TOTAL
    ensures r.Ok? ==> r.value == DestLines(a, src, dests, ports, id)
  {
    var out: seq<Line> := [];
    for i := 0 to |dests|
      invariant out == DestLines(a, src, dests[..i], ports, id) && count + |out| <= MAX_LINES_TOTAL
      invariant i > 0 ==> GoodPorts(ports)
    {
      DestLinesGrow(a, src, dests, ports, i, id);
      TakeOneMore(dests, i);
      var c := EmitPorts(a, src, dests[i], ports, id, count + |out|);
      if c.Err? { return c; }
      out := out + c.value;
    }
    assert dests[..|dests|] == dests;
    return Ok(out);
  }

  method EmitSources(a: Agent, sources: seq<Cidr>, dests: seq<Option<Cidr>>, ports: seq<Option<Port>>, id: int, count: nat)
    returns (r: Result<seq<Line>, Error>)
    requires AllNets(sources) && count <= MAX_LINES_TOTAL && dests != [] && sources != []
    ensures r.Ok? <==> GoodPorts(ports) && count + |SourceLines(a, sources, dests, ports, id)| <= MAX_LINES_TOTAL
    ensures r.Ok? ==> r.value == SourceLines(a, sources, dests, ports, id)
  {
    var out: seq<Line> := [];
    for i := 0 to |sources|
      invariant out == SourceLines(a, sources[..i], dests, ports, id) && count + |out| <= MAX_LINES_TOTAL
      invariant i > 0 ==> GoodPorts(ports)
    {
      SourceLinesGrow(a, sources, dests, ports, i, id);
      TakeOneMore(sources, i);
      var c := EmitDests(a, sources[i], dests, ports, id, count + |out|);
      if c.Err? { return c; }
      out := out + c.value;
    }
    assert sources[..|sources|] == sources;
    return Ok(out);
  }

  method EmitRule(a: Agent, rule: Rule, count: nat) returns (r: Result<seq<Line>, Error>)
    requires count <= MAX_LINES_TOTAL
    ensures r.Ok? <==> CleanRule(rule) && count + |RuleLines(a, rule)| <= MAX_LINES_TOTAL
    ensures r.Ok? ==> r.value == RuleLines(a, rule)
  {
    if rule.id < 1 { return Err(NoId); }
    if rule.sources == [] || !CleanTexts(rule.sources) || !CleanTexts(rule.destinations) { return Err(BadCidr); }
    assert GoodPorts(OrAny(rule.ports)) <==> forall i :: 0 <= i < |rule.ports| ==> GoodPort(Some(rule.ports[i])) by {
      if rule.ports != [] {
        assert forall i :: 0 <= i < |rule.ports| ==> OrAny(rule.ports)[i] == Some(rule.ports[i]);
      }
    }
    r := EmitSources(a, Nets(rule.sources), OrAny(Nets(rule.destinations)), OrAny(rule.ports), rule.id, count);
  }

  predicate AllClean(rules: seq<Rule>) { forall i :: 0 <= i < |rules| ==> CleanRule(rules[i]) }

  method EmitRules(a: Agent, active: seq<Rule>) returns (r: Result<seq<Line>, Error>)
    ensures r.Ok? <==> AllClean(active) && |AllRuleLines(a, active)| <= MAX_LINES_TOTAL
    ensures r.Ok? ==> r.value == AllRuleLines(a, active)
  {
    var lines: seq<Line> := [];
    for i := 0 to |active|
      invariant AllClean(active[..i])
      invariant lines == AllRuleLines(a, active[..i]) && |lines| <= MAX_LINES_TOTAL
    {
      var c := EmitRule(a, active[i], |lines|);
      if c.Err? {
        StopAt(a, active, i);
        return c;
      }
      RulesSnoc(a, active, i);
      lines := lines + c.value;
    }
    assert active[..|active|] == active;
    return Ok(lines);
  }

  lemma RulesSnoc(a: Agent, active: seq<Rule>, i: nat)
    requires i < |active| && AllClean(active[..i]) && CleanRule(active[i])
    ensures AllClean(active[..i + 1])
    ensures AllRuleLines(a, active[..i + 1]) == AllRuleLines(a, active[..i]) + RuleLines(a, active[i])
  {
    assert active[..i + 1][..i] == active[..i];
  }

  /** A rule that is not clean or exceeds the cap with what came before it fails the whole list. */
  lemma {:induction false} StopAt(a: Agent, active: seq<Rule>, i: nat)
    requires i < |active| && AllClean(active[..i])
    requires !CleanRule(active[i]) || |AllRuleLines(a, active[..i])| + |RuleLines(a, active[i])| > MAX_LINES_TOTAL
    ensures !AllClean(active) || |AllRuleLines(a, active)| > MAX_LINES_TOTAL
  {
    if AllClean(active) {
      RulesSnoc(a, active, i);
      AllRuleLinesGrow(a, active[..i + 1], active);
    }
  }

  method CheckIfaces(a: Agent) returns (e: Option<Error>)
    ensures e.None? <==> IfacesOk(a)
  {
    if !IsWgIface(a.iface) { return Some(BadIface); }
    for i := 0 to |a.directIfaces|
      invariant forall j :: 0 <= j < i ==> IsDirectIface(a.directIfaces[j])
    {
      if !IsDirectIface(a.directIfaces[i]) { return Some(BadDirectIface); }
    }
    return None;
  }

  method BuildIngressRestore(a: Agent, rules: seq<Rule>) returns (r: Result<Option<Built>, Error>)
    ensures NeedsNoFilter(a, rules) ==> r == Ok(None)
    ensures !NeedsNoFilter(a, rules) ==> (r.Ok? <==> Buildable(a, rules))
    ensures !NeedsNoFilter(a, rules) && r.Ok? ==>
      r.value == Some(Built(Chain(a, rules), |AllRuleLines(a, Active(rules))|))
  {
    var active := Active(rules);
    if a.mode.Open? && active == [] { return Ok(None); }
    var e := CheckIfaces(a);
    if e.Some? { return Err(e.value); }
    if |active| > MAX_RULES_PER_AGENT { return Err(TooManyRules); }
    var c := EmitRules(a, active);
    if c.Err? { return Err(c.error); }
    var all := [Established(TargetOf(a.mode))] + c.value
      + (if a.mode.Restricted? then DropLines(Ifaces(a)) else []);
    return Ok(Some(Built(all, |c.value|)));
  }

  // ---- ruleCovers ----

  /** A flow of the tester or one packet, its ends already canonical; `port` None = unknown port
      or a protocol without ports. */
  datatype Flow = Flow(src: Cidr, dst: Cidr, port: Option<nat>, proto: Proto)

  /** cidrContains(t, c): false when the text is no clean IPv4 host or CIDR. */
  function TextHolds(t: Text, c: Cidr): bool {
    CanonicalCidr(t).Some? && CanonicalCidr(t).value.prefix <= 32 && CidrContains(CanonicalCidr(t).value, c)
  }

  function SomeContains(ts: seq<Text>, c: Cidr): bool {
    exists i :: 0 <= i < |ts| && TextHolds(ts[i], c)
  }

  function PortMatches(p: Port, port: nat, proto: Proto): bool {
    p.Port? && p.proto == proto && p.lo <= port <= p.hi
  }

  function RuleCovers(r: Rule, f: Flow): bool {
    && r.enabled
    && SomeContains(r.sources, f.src)
    && (r.destinations == [] || SomeContains(r.destinations, f.dst))
    && (r.ports == [] || (f.port.Some? && exists i :: 0 <= i < |r.ports| && PortMatches(r.ports[i], f.port.value, f.proto)))
  }
}
