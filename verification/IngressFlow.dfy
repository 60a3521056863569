/** The flow tester (backend/internal/agent-ingress-catalog.js, evaluateFlow) against the chain. */
module IngressFlow {
  import opened Wrappers
  import opened Ipv4Nets
  import opened IngressRules
  import opened IngressChain

  datatype Allowed = Yes | No | Unknown

  datatype Reason = SiteIsolation | NotViaAgent | SameSite | OpenMode | ByRule | NoRule

  /** `rule` and `matched` are rule ids; the first of `matched` is the one whose counter rises. */
  datatype Evaluation = Evaluation(
    allowed: Allowed,
    filtered: bool,
    reason: Reason,
    rule: Option<int>,
    matched: seq<int>,
    disabledMatch: Option<int>,
    portUnknown: bool)

  function Matching(sorted: seq<Rule>, f: Flow): seq<Rule> {
    if sorted == [] then []
    else (if RuleCovers(sorted[0], f) then [sorted[0]] else []) + Matching(sorted[1..], f)
  }

  function RuleIds(rules: seq<Rule>): seq<int> {
    seq(|rules|, i requires 0 <= i < |rules| => rules[i].id)
  }

  function FirstDisabled(sorted: seq<Rule>, f: Flow): Option<int> {
    if sorted == [] then None
    else if !sorted[0].enabled && RuleCovers(sorted[0].(enabled := true), f) then Some(sorted[0].id)
    else FirstDisabled(sorted[1..], f)
  }

  function EvaluateFlow(mode: Mode, rules: seq<Rule>, ownNets: seq<Text>, hubNets: seq<Text>, f: Flow,
                        isolationBlocks: bool): Evaluation
  {
    if isolationBlocks then Evaluation(No, true, SiteIsolation, None, [], None, false)
    else if !SomeContains(ownNets, f.dst) || SomeContains(hubNets, f.dst) then
      Evaluation(Unknown, false, NotViaAgent, None, [], None, false)
    else if SomeContains(ownNets, f.src) then Evaluation(Unknown, false, SameSite, None, [], None, false)
    else
      var sorted := SortById(rules);
      var matches := Matching(sorted, f);
      var unknown := f.port.None? && matches == [] &&
        exists i :: 0 <= i < |sorted| && sorted[i].enabled && sorted[i].ports != [] && RuleCovers(sorted[i].(ports := []), f);
      var out := Evaluation(Yes, false, OpenMode, None, RuleIds(matches), FirstDisabled(sorted, f), unknown);
      var first := if matches == [] then None else Some(matches[0].id);
      if mode.Open? then out.(rule := first)
      else if first.Some? then out.(filtered := true, reason := ByRule, rule := first)
      else out.(allowed := No, filtered := true, reason := NoRule)
  }

  // ---- what the tester reports about the rules ----

  lemma {:induction false} MatchingElements(sorted: seq<Rule>, f: Flow)
    ensures forall r :: r in Matching(sorted, f) <==> r in sorted && RuleCovers(r, f)
    ensures ById(sorted) ==> ById(Matching(sorted, f))
  {
    if sorted != [] {
      MatchingElements(sorted[1..], f);
      assert sorted == [sorted[0]] + sorted[1..];
      var rest := Matching(sorted[1..], f);
      if ById(sorted) {
        forall i | 0 <= i < |rest| ensures sorted[0].id <= rest[i].id {
          assert rest[i] in sorted[1..];
        }
      }
    }
  }

  lemma MatchesOfRules(rules: seq<Rule>, f: Flow)
    ensures var m := Matching(SortById(rules), f);
      && (forall r :: r in m <==> r in rules && RuleCovers(r, f))
      && (m != [] ==> m[0] in m && forall r :: r in m ==> m[0].id <= r.id)
  {
    SortOrders(rules);
    var m := Matching(SortById(rules), f);
    MatchingElements(SortById(rules), f);
    forall r | r in m ensures m[0].id <= r.id {
      var i :| 0 <= i < |m| && m[i] == r;
    }
  }

  /** The tester looks at the agent's filter: the flow goes into the agent's networks from outside. */
  predicate ThroughAgent(ownNets: seq<Text>, hubNets: seq<Text>, f: Flow) {
    SomeContains(ownNets, f.dst) && !SomeContains(hubNets, f.dst) && !SomeContains(ownNets, f.src)
  }

  lemma HubIfaceIsNotDirect(a: Agent)
    requires IfacesOk(a)
    ensures a.iface !in a.directIfaces
  {
    forall i | 0 <= i < |a.directIfaces| ensures a.directIfaces[i] != a.iface {
      assert a.iface[0] == a.iface[..2][0] == 'w';
      assert a.directIfaces[i][0] == a.directIfaces[i][..3][0] == 'f';
    }
  }

  /** On the hub interface no alias applies: a packet is admitted exactly by the rules that cover it. */
  lemma HubAdmits(a: Agent, r: Rule, p: Packet)
    requires IfacesOk(a) && p.iface == a.iface
    ensures Admits(a, r, p) <==> RuleCovers(r, FlowOf(p, p.src))
  {
    HubIfaceIsNotDirect(a);
    assert Ifaces(a)[0] == a.iface;
  }

  lemma MatchesAreAdmitting(a: Agent, rules: seq<Rule>, p: Packet)
    requires IfacesOk(a) && p.iface == a.iface
    ensures var m := Matching(SortById(rules), FlowOf(p, p.src));
      && (m != [] <==> SomeAdmits(a, rules, p))
      && (m != [] ==> m[0] in rules && Admits(a, m[0], p))
      && (m != [] ==> forall r :: r in rules && Admits(a, r, p) ==> m[0].id <= r.id)
  {
    var f := FlowOf(p, p.src);
    var m := Matching(SortById(rules), f);
    MatchesOfRules(rules, f);
    forall r ensures Admits(a, r, p) <==> RuleCovers(r, f) {
      HubAdmits(a, r, p);
    }
    if SomeAdmits(a, rules, p) {
      var r :| r in rules && Admits(a, r, p);
      assert r in m;
    }
  }

  lemma FilteredEvaluation(rules: seq<Rule>, ownNets: seq<Text>, hubNets: seq<Text>, f: Flow)
    requires ThroughAgent(ownNets, hubNets, f)
    ensures var e, m := EvaluateFlow(Restricted, rules, ownNets, hubNets, f, false), Matching(SortById(rules), f);
      if m == [] then e.allowed.No? else e.allowed.Yes? && e.rule == Some(m[0].id)
  {
  }

  /** For a single-host flow with a known port the tester allows exactly what the generated chain accepts
      on the hub interface, and the rule it names is the one on the first matching chain line. */
  lemma TesterIsChain(a: Agent, rules: seq<Rule>, ownNets: seq<Text>, hubNets: seq<Text>, p: Packet)
    requires a.mode.Restricted? && Buildable(a, rules)
    requires p.iface == a.iface && !p.established && !p.proto.OtherProto?
    requires ThroughAgent(ownNets, hubNets, FlowOf(p, p.src))
    ensures var e, hit := EvaluateFlow(a.mode, rules, ownNets, hubNets, FlowOf(p, p.src), false), FirstMatch(Chain(a, rules), p);
      && (e.allowed.Yes? <==> Eval(Chain(a, rules), p) == Accepted)
      && (e.allowed.No? <==> Eval(Chain(a, rules), p) == Dropped)
      && (e.allowed.Yes? ==> hit.Some? && hit.value.Allow? && e.rule == Some(hit.value.id))
  {
    FilteredEvaluation(rules, ownNets, hubNets, FlowOf(p, p.src));
    MatchesAreAdmitting(a, rules, p);
    ChainMeansRules(a, rules, p);
    assert Ifaces(a)[0] == a.iface;
    if SomeAdmits(a, rules, p) {
      var hit := FirstLineId(a, rules, p);
    }
  }

  // ---- ranges ----

  /** The packet is one of the flow: its ends lie in the two ranges, its protocol and port are the
      flow's, or anything when the port is unknown. */
  predicate PacketOf(p: Packet, f: Flow) {
    && InNet(f.src, p.src) && InNet(f.dst, p.dst)
    && (f.port.Some? ==> p.proto == f.proto && p.dport == f.port.value && !p.proto.OtherProto?)
  }

  lemma HoldsRange(ts: seq<Text>, c: Cidr, x: Addr)
    requires Canonical(c) && InNet(c, x) && SomeContains(ts, c)
    ensures SomeContains(ts, Host(x))
  {
    var i :| 0 <= i < |ts| && TextHolds(ts[i], c);
    var o := CanonicalCidr(ts[i]).value;
    CanonicalCidrSound(ts[i]);
    ContainsHost(o, x);
    ContainsHost(c, x);
    ContainsTransitive(o, c, Host(x));
    assert TextHolds(ts[i], Host(x));
  }

  lemma CoversRange(r: Rule, f: Flow, p: Packet)
    requires Canonical(f.src) && Canonical(f.dst) && RuleCovers(r, f) && PacketOf(p, f)
    ensures RuleCovers(r, FlowOf(p, p.src))
  {
    HoldsRange(r.sources, f.src, p.src);
    if r.destinations != [] { HoldsRange(r.destinations, f.dst, p.dst); }
  }

  /** For ranges `allowed: true` means that every packet of the flow is accepted; with an unknown
      port that is every protocol and port. */
  lemma RangeAllowedAccepts(a: Agent, rules: seq<Rule>, ownNets: seq<Text>, hubNets: seq<Text>, f: Flow, p: Packet)
    requires a.mode.Restricted? && Buildable(a, rules) && Canonical(f.src) && Canonical(f.dst)
    requires ThroughAgent(ownNets, hubNets, f)
    requires EvaluateFlow(a.mode, rules, ownNets, hubNets, f, false).allowed.Yes?
    requires p.iface == a.iface && !p.established && PacketOf(p, f)
    ensures Eval(Chain(a, rules), p) == Accepted
  {
    MatchesOfRules(rules, f);
    var r := Matching(SortById(rules), f)[0];
    assert r in rules && RuleCovers(r, f);
    CoversRange(r, f, p);
    HubAdmits(a, r, p);
    assert Ifaces(a)[0] == a.iface;
    ChainMeansRules(a, rules, p);
  }
}
