/** What every sequence of admin operations keeps, and what it means for the chain builder
    (backend/internal/agent-ingress.js and agent-ingress-rules.js). */
module IngressInvariant {
  import opened Wrappers
  import opened Powers
  import opened Ipv4Nets
  import opened IngressRules
  import opened IngressChain
  import opened IngressOps

  predicate SaneRule(r: Rule) {
    && StoredNets(r.sources) && r.sources != []
    && StoredNets(r.destinations) && StoredPorts(r.ports)
    && RuleLineCount(r) <= MAX_LINES_PER_RULE
  }

  predicate AllSane(rules: seq<Rule>) { forall i :: 0 <= i < |rules| ==> SaneRule(rules[i]) }

  /** Ids ascend, as rows are read in id order, and stay below the next one. */
  predicate IdsOk(rules: seq<Rule>, nextId: int) {
    && (forall i :: 0 <= i < |rules| ==> 1 <= rules[i].id < nextId)
    && (forall i, j :: 0 <= i < j < |rules| ==> rules[i].id < rules[j].id)
  }

  /** Restricted implies an enabled rule; at most 500 rules; enabled lines times interfaces within 4000. */
  predicate Inv(s: State, ifaces: nat) {
    && NotEmptyRestricted(s.mode, s.rules)
    && |s.rules| <= MAX_RULES_PER_AGENT
    && WithinLines(s.rules, ifaces)
    && s.nextId >= 1 && AllSane(s.rules) && IdsOk(s.rules, s.nextId)
  }

  // ---- how the list operations change the totals ----

  lemma {:induction false} TotalMono(a: seq<Rule>, b: seq<Rule>)
    requires |a| == |b|
    requires forall i :: 0 <= i < |a| ==> (a[i].enabled ==> b[i].enabled && RuleLineCount(a[i]) == RuleLineCount(b[i]))
    ensures TotalLines(a) <= TotalLines(b)
  {
    if a != [] {
      var n := |a| - 1;
      assert forall i :: 0 <= i < n ==> a[..n][i] == a[i] && b[..n][i] == b[i];
      TotalMono(a[..n], b[..n]);
    }
  }

  lemma {:induction false} WithoutElements(rules: seq<Rule>, id: int)
    ensures forall r :: r in Without(rules, id) <==> r in rules && r.id != id
    ensures |Without(rules, id)| <= |rules|
  {
    if rules != [] {
      WithoutElements(rules[..|rules| - 1], id);
      assert rules == rules[..|rules| - 1] + [rules[|rules| - 1]];
    }
  }

  lemma {:induction false} WithoutTotal(rules: seq<Rule>, id: int)
    ensures TotalLines(Without(rules, id)) <= TotalLines(rules)
  {
    if rules != [] {
      var n := |rules| - 1;
      WithoutTotal(rules[..n], id);
      var w := Without(rules[..n], id);
      assert (w + [rules[n]])[..|w|] == w;
      assert w + [] == w;
    }
  }

  lemma {:induction false} WithoutIds(rules: seq<Rule>, id: int, nextId: int)
    requires IdsOk(rules, nextId)
    ensures IdsOk(Without(rules, id), nextId)
  {
    if rules != [] {
      var n := |rules| - 1;
      WithoutIds(rules[..n], id, nextId);
      WithoutElements(rules[..n], id);
      BelowLast(rules, Without(rules[..n], id), nextId);
      LargerLast(Without(rules[..n], id), rules[n], nextId);
      assert Without(rules[..n], id) + [] == Without(rules[..n], id);
    }
  }

  lemma {:induction false} BelowLast(rules: seq<Rule>, w: seq<Rule>, nextId: int)
    requires rules != [] && IdsOk(rules, nextId) && forall r :: r in w ==> r in rules[..|rules| - 1]
    ensures forall i :: 0 <= i < |w| ==> w[i].id < rules[|rules| - 1].id
  {
    forall i | 0 <= i < |w| ensures w[i].id < rules[|rules| - 1].id {
      assert w[i] in w;
    }
  }

  lemma {:induction false} LargerLast(w: seq<Rule>, last: Rule, nextId: int)
    requires IdsOk(w, nextId) && 1 <= last.id < nextId && forall i :: 0 <= i < |w| ==> w[i].id < last.id
    ensures IdsOk(w + [last], nextId)
  {
  }

  lemma SubsetSane(w: seq<Rule>, rules: seq<Rule>)
    requires AllSane(rules) && forall r :: r in w ==> r in rules
    ensures AllSane(w)
  {
    forall i | 0 <= i < |w| ensures SaneRule(w[i]) {
      assert w[i] in rules;
      var k :| 0 <= k < |rules| && rules[k] == w[i];
    }
  }

  lemma {:induction false} MergeAtShape(rules: seq<Rule>, id: int, p: Patch)
    ensures |MergeAt(rules, id, p)| == |rules|
    ensures forall i :: 0 <= i < |rules| ==>
      MergeAt(rules, id, p)[i] == if rules[i].id == id then Merged(rules[i], p) else rules[i]
  {
    if rules != [] { MergeAtShape(rules[..|rules| - 1], id, p); }
  }

  lemma {:induction false} FindFirst(rules: seq<Rule>, id: int)
    ensures var f := Find(rules, id);
      if f.Some? then f.value in rules && f.value.id == id else forall i :: 0 <= i < |rules| ==> rules[i].id != id
  {
    if rules != [] { FindFirst(rules[..|rules| - 1], id); }
  }

  lemma SameId(rules: seq<Rule>, nextId: int, id: int)
    requires IdsOk(rules, nextId) && Find(rules, id).Some?
    ensures forall i :: 0 <= i < |rules| && rules[i].id == id ==> rules[i] == Find(rules, id).value
  {
    FindFirst(rules, id);
    var k :| 0 <= k < |rules| && rules[k] == Find(rules, id).value;
    assert forall i :: 0 <= i < |rules| && i != k ==> rules[i].id != rules[k].id;
  }

  // ---- each operation keeps the invariant ----

  lemma MulMonoRight(x: nat, y: nat, n: nat)
    requires x <= y
    ensures x * n <= y * n
  {
  }

  lemma {:induction false} UpdateInv(s: State, id: int, p: Patch, n: nat)
    requires Inv(s, n) && SanePatch(p)
    ensures Inv(Step(s, Update(id, p), n), n)
  {
    var rules := MergeAt(s.rules, id, p);
    MergeAtShape(s.rules, id, p);
    if Step(s, Update(id, p), n) != s {
      if !CanGrow(p) { MergedWithin(s, id, p, n); }
      MergedSane(s, id, p, n);
      MergedIds(s, id, p);
    }
  }

  /** An update that cannot grow adds no line. */
  lemma {:induction false} MergedWithin(s: State, id: int, p: Patch, n: nat)
    requires Inv(s, n) && SanePatch(p) && Find(s.rules, id).Some? && !CanGrow(p)
    ensures WithinLines(MergeAt(s.rules, id, p), n)
  {
    var rules := MergeAt(s.rules, id, p);
    MergeAtShape(s.rules, id, p);
    TotalMono(rules, s.rules);
    MulMonoRight(TotalLines(rules), TotalLines(s.rules), n);
  }

  lemma {:induction false} MergedIds(s: State, id: int, p: Patch)
    requires IdsOk(s.rules, s.nextId)
    ensures IdsOk(MergeAt(s.rules, id, p), s.nextId)
  {
    MergeAtShape(s.rules, id, p);
  }

  lemma {:induction false} MergedSane(s: State, id: int, p: Patch, n: nat)
    requires Inv(s, n) && SanePatch(p) && Find(s.rules, id).Some? && Step(s, Update(id, p), n) != s
    ensures AllSane(MergeAt(s.rules, id, p))
  {
    MergeAtShape(s.rules, id, p);
    SameId(s.rules, s.nextId, id);
    var rules := MergeAt(s.rules, id, p);
    forall i | 0 <= i < |rules| ensures SaneRule(rules[i]) {
      assert SaneRule(s.rules[i]);
    }
  }

  lemma {:induction false} DeleteInv(s: State, id: int, n: nat)
    requires Inv(s, n)
    ensures Inv(Step(s, Delete(id), n), n)
  {
    var w := Without(s.rules, id);
    if Step(s, Delete(id), n) != s {
      WithoutElements(s.rules, id);
      WithoutWithin(s.rules, id, n);
      WithoutIds(s.rules, id, s.nextId);
      SubsetSane(w, s.rules);
    }
  }

  lemma {:induction false} WithoutWithin(rules: seq<Rule>, id: int, n: nat)
    requires WithinLines(rules, n)
    ensures WithinLines(Without(rules, id), n)
  {
    WithoutTotal(rules, id);
    MulMonoRight(TotalLines(Without(rules, id)), TotalLines(rules), n);
  }

  lemma {:induction false} DisableInv(s: State, ids: seq<int>, n: nat)
    requires Inv(s, n)
    ensures Inv(Step(s, DisableBulk(ids), n), n)
  {
    var t := Step(s, DisableBulk(ids), n);
    if t != s {
      assert t == s.(rules := SetEnabled(s.rules, ids, false)) && NotEmptyRestricted(t.mode, t.rules);
      DisabledRules(s, ids, n);
    }
  }

  lemma {:induction false} DisabledRules(s: State, ids: seq<int>, n: nat)
    requires Inv(s, n)
    ensures var rules := SetEnabled(s.rules, ids, false);
      |rules| <= MAX_RULES_PER_AGENT && WithinLines(rules, n) && AllSane(rules) && IdsOk(rules, s.nextId)
  {
    SetEnabledLength(s.rules, ids, false);
    DisabledWithin(s.rules, ids, n);
    EnableSane(s.rules, ids, false);
    DisabledIds(s.rules, ids, s.nextId);
  }

  lemma {:induction false} DisabledIds(rules: seq<Rule>, ids: seq<int>, nextId: int)
    requires IdsOk(rules, nextId)
    ensures IdsOk(SetEnabled(rules, ids, false), nextId)
  {
    SetEnabledLength(rules, ids, false);
  }

  lemma {:induction false} DisabledWithin(rules: seq<Rule>, ids: seq<int>, n: nat)
    requires WithinLines(rules, n)
    ensures WithinLines(SetEnabled(rules, ids, false), n)
  {
    SetEnabledLength(rules, ids, false);
    TotalMono(SetEnabled(rules, ids, false), rules);
    MulMonoRight(TotalLines(SetEnabled(rules, ids, false)), TotalLines(rules), n);
  }

  lemma CreateInv(s: State, p: Patch, n: nat)
    requires Inv(s, n) && SanePatch(p) && FullPatch(p)
    ensures Inv(Step(s, Create(p), n), n)
  {
    ConcatIds(s.rules, [NewRule(p, s.nextId)], s.nextId);
    StaysNonEmpty(s.mode, s.rules, s.rules, [NewRule(p, s.nextId)]);
  }

  lemma DraftsSane(ps: seq<Patch>, picked: seq<nat>, nextId: int)
    requires SaneOp(CreateBulk(ps)) && forall i :: 0 <= i < |picked| ==> picked[i] < |ps|
    ensures AllSane(Inserted(Drafts(ps), picked, nextId))
  {
    var added := Inserted(Drafts(ps), picked, nextId);
    forall i | 0 <= i < |added| ensures SaneRule(added[i]) {
      var p := ps[picked[i]];
      assert added[i] == NewRule(p, nextId + i);
    }
  }

  lemma EnableSane(rules: seq<Rule>, ids: seq<int>, on: bool)
    requires AllSane(rules)
    ensures AllSane(SetEnabled(rules, ids, on))
  {
    SetEnabledLength(rules, ids, on);
    var after := SetEnabled(rules, ids, on);
    forall i | 0 <= i < |after| ensures SaneRule(after[i]) {
      assert SaneRule(rules[i]);
    }
  }

  lemma ConcatIds(a: seq<Rule>, b: seq<Rule>, nextId: int)
    requires IdsOk(a, nextId) && nextId >= 1
    requires forall i :: 0 <= i < |b| ==> b[i].id == nextId + i
    ensures IdsOk(a + b, nextId + |b|)
  {
  }

  lemma {:induction false} BulkRules(s: State, ps: seq<Patch>, n: nat, picked: seq<nat>, reIds: seq<int>)
    requires Inv(s, n) && SaneOp(CreateBulk(ps)) && forall i :: 0 <= i < |picked| ==> picked[i] < |Drafts(ps)|
    ensures var rules := SetEnabled(s.rules, reIds, true) + Inserted(Drafts(ps), picked, s.nextId);
      NotEmptyRestricted(s.mode, rules) && AllSane(rules) && IdsOk(rules, s.nextId + |picked|)
  {
    var after, added := SetEnabled(s.rules, reIds, true), Inserted(Drafts(ps), picked, s.nextId);
    SetEnabledLength(s.rules, reIds, true);
    EnableSane(s.rules, reIds, true);
    DraftsSane(ps, picked, s.nextId);
    SaneConcat(after, added);
    ConcatIds(after, added, s.nextId);
    StaysNonEmpty(s.mode, s.rules, after, added);
  }

  lemma {:induction false} SaneConcat(a: seq<Rule>, b: seq<Rule>)
    requires AllSane(a) && AllSane(b)
    ensures AllSane(a + b)
  {
  }

  lemma {:induction false} CreateBulkInv(s: State, ps: seq<Patch>, n: nat)
    requires Inv(s, n) && SaneOp(CreateBulk(ps))
    ensures Inv(Step(s, CreateBulk(ps), n), n)
  {
    var picked := ToCreate(s.rules, Keys(Drafts(ps)), |ps|);
    var reIds := ToReenable(s.rules, Keys(Drafts(ps)), |ps|);
    BulkCandidateIs(s, ps, picked, reIds);
    BulkRules(s, ps, n, picked, reIds);
  }

  lemma StaysNonEmpty(mode: Mode, rules: seq<Rule>, after: seq<Rule>, added: seq<Rule>)
    requires NotEmptyRestricted(mode, rules) && |after| == |rules|
    requires forall i :: 0 <= i < |rules| && rules[i].enabled ==> after[i].enabled
    ensures NotEmptyRestricted(mode, after + added)
  {
    if SomeEnabled(rules) {
      var i :| 0 <= i < |rules| && rules[i].enabled;
      assert (after + added)[i].enabled;
    }
  }

  lemma StepInv(s: State, op: Op, n: nat)
    requires Inv(s, n) && SaneOp(op)
    ensures Inv(Step(s, op, n), n)
  {
    match op {
      case Create(p) => CreateInv(s, p, n);
      case Update(id, p) => UpdateInv(s, id, p, n);
      case Delete(id) => DeleteInv(s, id, n);
      case SetMode(m) =>
      case CreateBulk(ps) => CreateBulkInv(s, ps, n);
      case DisableBulk(ids) => DisableInv(s, ids, n);
    }
  }

  function Run(ops: seq<Op>, n: nat): State
    requires forall i :: 0 <= i < |ops| ==> SaneOp(ops[i])
  {
    if ops == [] then EMPTY else Step(Run(ops[..|ops| - 1], n), ops[|ops| - 1], n)
  }

  /** Every sequence of sanitized operations keeps the invariant. */
  lemma {:induction false} RunInv(ops: seq<Op>, n: nat)
    requires forall i :: 0 <= i < |ops| ==> SaneOp(ops[i])
    ensures Inv(Run(ops, n), n)
  {
    if ops != [] {
      RunInv(ops[..|ops| - 1], n);
      StepInv(Run(ops[..|ops| - 1], n), ops[|ops| - 1], n);
    }
  }

  // ---- how many lines the builder emits ----

  function AliasCount(a: Agent, als: seq<Alias>, src: Cidr): nat
    requires src.prefix <= 32
  {
    if als == [] then 0
    else AliasCount(a, als[..|als| - 1], src) + (if AliasApplies(a, als[|als| - 1], src) then 1 else 0)
  }

  /** Alias lines of one rule: per source the applying aliases, times destinations and ports. */
  function AliasSum(a: Agent, sources: seq<Cidr>, combos: nat): nat
    requires AllNets(sources)
  {
    if sources == [] then 0
    else AliasSum(a, sources[..|sources| - 1], combos) + AliasCount(a, a.directAliases, sources[|sources| - 1]) * combos
  }

  function OrOne(n: nat): nat { if n == 0 then 1 else n }

  function AliasOf(a: Agent, r: Rule): nat
    requires CleanRule(r)
  {
    AliasSum(a, Nets(r.sources), OrOne(|r.destinations|) * OrOne(|r.ports|))
  }

  function AliasTotal(a: Agent, rules: seq<Rule>): nat
    requires AllClean(rules)
  {
    if rules == [] then 0 else AliasTotal(a, rules[..|rules| - 1]) + AliasOf(a, rules[|rules| - 1])
  }

  lemma {:induction false} IfaceLinesCount(a: Agent, ifs: seq<string>, src: Cidr, dst: Option<Cidr>, port: Option<Port>, id: int)
    ensures |IfaceLines(a, ifs, src, dst, port, id)| == |ifs|
  {
    if ifs != [] { IfaceLinesCount(a, ifs[..|ifs| - 1], src, dst, port, id); }
  }

  lemma {:induction false} AliasLinesCount(a: Agent, als: seq<Alias>, src: Cidr, dst: Option<Cidr>, port: Option<Port>, id: int)
    requires src.prefix <= 32
    ensures |AliasLines(a, als, src, dst, port, id)| == AliasCount(a, als, src)
  {
    if als != [] { AliasLinesCount(a, als[..|als| - 1], src, dst, port, id); }
  }

  function PerCombo(a: Agent, src: Cidr): nat
    requires src.prefix <= 32
  {
    |Ifaces(a)| + AliasCount(a, a.directAliases, src)
  }

  lemma {:induction false} PortLinesCount(a: Agent, src: Cidr, dst: Option<Cidr>, ports: seq<Option<Port>>, id: int)
    requires src.prefix <= 32
    ensures |PortLines(a, src, dst, ports, id)| == |ports| * PerCombo(a, src)
  {
    if ports != [] {
      var n := |ports| - 1;
      PortLinesCount(a, src, dst, ports[..n], id);
      IfaceLinesCount(a, Ifaces(a), src, dst, ports[n], id);
      AliasLinesCount(a, a.directAliases, src, dst, ports[n], id);
      MulStep(n, PerCombo(a, src));
    }
  }

  lemma MulStep(n: nat, c: nat)
    ensures (n + 1) * c == n * c + c
  {
  }

  lemma {:induction false} DestLinesCount(a: Agent, src: Cidr, dests: seq<Option<Cidr>>, ports: seq<Option<Port>>, id: int)
    requires src.prefix <= 32
    ensures |DestLines(a, src, dests, ports, id)| == |dests| * (|ports| * PerCombo(a, src))
  {
    if dests != [] {
      var n := |dests| - 1;
      DestLinesCount(a, src, dests[..n], ports, id);
      PortLinesCount(a, src, dests[n], ports, id);
      MulStep(n, |ports| * PerCombo(a, src));
    }
  }

  lemma {:induction false} SourceLinesLast(a: Agent, sources: seq<Cidr>, dests: seq<Option<Cidr>>, ports: seq<Option<Port>>, id: int)
    requires AllNets(sources) && sources != []
    ensures var n := |sources| - 1;
      |SourceLines(a, sources, dests, ports, id)|
      == |SourceLines(a, sources[..n], dests, ports, id)| + |DestLines(a, sources[n], dests, ports, id)|
  {
  }

  lemma {:induction false} SourceLinesCount(a: Agent, sources: seq<Cidr>, dests: seq<Option<Cidr>>, ports: seq<Option<Port>>, id: int)
    requires AllNets(sources)
    ensures |SourceLines(a, sources, dests, ports, id)|
      == |sources| * (|dests| * |ports|) * |Ifaces(a)| + AliasSum(a, sources, |dests| * |ports|)
  {
    if sources != [] {
      var n := |sources| - 1;
      SourceLinesCount(a, sources[..n], dests, ports, id);
      DestLinesCount(a, sources[n], dests, ports, id);
      SourceLinesLast(a, sources, dests, ports, id);
      SplitProduct(n, |dests|, |ports|, |Ifaces(a)|, AliasCount(a, a.directAliases, sources[n]));
    }
  }

  lemma SplitProduct(n: nat, d: nat, p: nat, i: nat, al: nat)
    ensures d * (p * (i + al)) == (d * p) * i + al * (d * p)
    ensures (n + 1) * (d * p) * i == n * (d * p) * i + (d * p) * i
  {
    var c := d * p;
    MulAssoc(d, p, i + al);
    assert c * (i + al) == c * i + c * al;
    assert (n + 1) * c == n * c + c;
    assert (n * c + c) * i == n * c * i + c * i;
  }

  lemma RuleLinesCount(a: Agent, r: Rule)
    requires CleanRule(r)
    ensures |RuleLines(a, r)| == RuleLineCount(r) * |Ifaces(a)| + AliasOf(a, r)
  {
    var d, p := OrOne(|r.destinations|), OrOne(|r.ports|);
    SourceLinesCount(a, Nets(r.sources), OrAny(Nets(r.destinations)), OrAny(r.ports), r.id);
    MulAssoc(|r.sources|, d, p);
  }

  lemma AllRuleLinesSnoc(a: Agent, rules: seq<Rule>, n: nat)
    requires AllClean(rules) && |rules| == n + 1
    ensures AllClean(rules[..n]) && CleanRule(rules[n])
    ensures |AllRuleLines(a, rules)| == |AllRuleLines(a, rules[..n])| + |RuleLines(a, rules[n])|
    ensures AliasTotal(a, rules) == AliasTotal(a, rules[..n]) + AliasOf(a, rules[n])
  {
  }

  lemma {:induction false} AllRuleLinesCount(a: Agent, rules: seq<Rule>)
    requires AllClean(rules) && AllEnabled(rules)
    ensures |AllRuleLines(a, rules)| == TotalLines(rules) * |Ifaces(a)| + AliasTotal(a, rules)
  {
    if rules != [] {
      var n := |rules| - 1;
      AllRuleLinesSnoc(a, rules, n);
      AllRuleLinesCount(a, rules[..n]);
      RuleLinesCount(a, rules[n]);
      TotalSnoc(rules, n);
      AddProduct(TotalLines(rules), TotalLines(rules[..n]), RuleLineCount(rules[n]), |Ifaces(a)|);
    }
  }

  lemma TotalSnoc(rules: seq<Rule>, n: nat)
    requires |rules| == n + 1 && rules[n].enabled
    ensures TotalLines(rules) == TotalLines(rules[..n]) + RuleLineCount(rules[n])
  {
  }

  lemma AddProduct(t: nat, x: nat, y: nat, n: nat)
    requires t == x + y
    ensures t * n == x * n + y * n
  {
  }

  // ---- filtering and sorting keep the total ----

  lemma {:induction false} EnabledTotal(rules: seq<Rule>)
    ensures TotalLines(EnabledRules(rules)) == TotalLines(rules) && |EnabledRules(rules)| <= |rules|
  {
    if rules != [] {
      var n := |rules| - 1;
      EnabledTotal(rules[..n]);
      var e := EnabledRules(rules[..n]);
      assert (e + [rules[n]])[..|e|] == e;
      if !rules[n].enabled { assert EnabledRules(rules) == e; }
    }
  }

  function Weight(r: Rule): nat { if r.enabled then RuleLineCount(r) else 0 }

  lemma {:induction false} TotalCons(r: Rule, list: seq<Rule>)
    ensures TotalLines([r] + list) == Weight(r) + TotalLines(list)
  {
    if list == [] {
      assert [r] + list == [r];
      assert [r][..0] == [];
    } else {
      var n := |list| - 1;
      TotalCons(r, list[..n]);
      assert ([r] + list)[..n + 1] == [r] + list[..n];
    }
  }

  lemma {:induction false} InsertTotal(r: Rule, list: seq<Rule>)
    ensures TotalLines(InsertById(r, list)) == Weight(r) + TotalLines(list)
    ensures |InsertById(r, list)| == |list| + 1
  {
    TotalCons(r, list);
    if list != [] && !(r.id < list[0].id) {
      InsertTotal(r, list[1..]);
      TotalCons(list[0], InsertById(r, list[1..]));
      TotalCons(list[0], list[1..]);
      assert list == [list[0]] + list[1..];
    }
  }

  lemma {:induction false} SortTotal(list: seq<Rule>)
    ensures TotalLines(SortById(list)) == TotalLines(list) && |SortById(list)| == |list|
  {
    if list != [] {
      SortTotal(list[..|list| - 1]);
      InsertTotal(list[|list| - 1], SortById(list[..|list| - 1]));
    }
  }

  lemma ActiveTotal(rules: seq<Rule>)
    ensures TotalLines(Active(rules)) == TotalLines(rules) && |Active(rules)| <= |rules|
  {
    EnabledTotal(rules);
    SortTotal(EnabledRules(rules));
  }

  // ---- the builder on reachable rulesets ----

  lemma ActiveClean(s: State, n: nat)
    requires Inv(s, n)
    ensures AllClean(Active(s.rules)) && AllEnabled(Active(s.rules))
  {
    ActiveElements(s.rules);
    forall i | 0 <= i < |Active(s.rules)| ensures CleanRule(Active(s.rules)[i]) {
      assert Active(s.rules)[i] in Active(s.rules);
    }
  }

  /** The counted lines plus the lines of direct aliases are exactly what is emitted, and the builder
      accepts a reachable ruleset if and only if that sum is within the cap. */
  lemma BuildsIffAliasesFit(s: State, a: Agent, n: nat)
    requires Inv(s, n) && IfacesOk(a) && |Ifaces(a)| == n
    ensures AllClean(Active(s.rules))
    ensures |AllRuleLines(a, Active(s.rules))| == TotalLines(s.rules) * n + AliasTotal(a, Active(s.rules))
    ensures Buildable(a, s.rules) <==> TotalLines(s.rules) * n + AliasTotal(a, Active(s.rules)) <= MAX_LINES_TOTAL
  {
    ActiveClean(s, n);
    ActiveTotal(s.rules);
    AllRuleLinesCount(a, Active(s.rules));
  }

  lemma {:induction false} NoAliasSum(a: Agent, sources: seq<Cidr>, combos: nat)
    requires AllNets(sources) && a.directAliases == []
    ensures AliasSum(a, sources, combos) == 0
  {
    if sources != [] { NoAliasSum(a, sources[..|sources| - 1], combos); }
  }

  lemma {:induction false} NoAliasTotal(a: Agent, rules: seq<Rule>)
    requires AllClean(rules) && a.directAliases == []
    ensures AliasTotal(a, rules) == 0
  {
    if rules != [] {
      NoAliasTotal(a, rules[..|rules| - 1]);
      var r := rules[|rules| - 1];
      NoAliasSum(a, Nets(r.sources), OrOne(|r.destinations|) * OrOne(|r.ports|));
    }
  }

  /** Without direct aliases the builder never fails after any sequence of operations, and it emits
      exactly the counted number of rule lines. */
  lemma ReachableBuilds(ops: seq<Op>, a: Agent, n: nat)
    requires forall i :: 0 <= i < |ops| ==> SaneOp(ops[i])
    requires IfacesOk(a) && |Ifaces(a)| == n && a.directAliases == []
    ensures Buildable(a, Run(ops, n).rules)
    ensures |AllRuleLines(a, Active(Run(ops, n).rules))| == TotalLines(Run(ops, n).rules) * n <= MAX_LINES_TOTAL
  {
    RunInv(ops, n);
    BuildsIffAliasesFit(Run(ops, n), a, n);
    NoAliasTotal(a, Active(Run(ops, n).rules));
  }

  // ---- the gap: alias lines are not counted on save ----

  function GapNet(i: nat): Text
    requires i < 50
  {
    Dotted(10, 3, 10, i, Prefix(32))
  }

  /** A rule from the whole tunnel network to 50 hosts and 5 ports: 250 lines per interface. */
  function GapRule(id: int): Rule {
    Rule(id, true, [Dotted(10, 10, 0, 0, Prefix(16))], seq(50, i requires 0 <= i < 50 => GapNet(i)),
         seq(5, i requires 0 <= i < 5 => Port(Tcp, 80 + i, 80 + i)))
  }

  function GapRules(k: nat): seq<Rule> {
    if k == 0 then [] else GapRules(k - 1) + [GapRule(k)]
  }

  /** One direct link fgd1 whose partner has hub address 10.10.0.1 and link address 172.16.0.2. */
  predicate GapAgent(a: Agent) {
    && a.mode.Restricted? && a.iface == "wg0" && a.directIfaces == ["fgd1"]
    && a.directAliases == [Alias("fgd1", 0x0A0A_0001, 0xAC10_0002)]
  }

  lemma {:induction false} GapTotals(k: nat)
    ensures |GapRules(k)| == k && TotalLines(GapRules(k)) == 250 * k
    ensures forall i :: 0 <= i < k ==> GapRules(k)[i] == GapRule(i + 1)
  {
    if k > 0 {
      GapTotals(k - 1);
      assert GapRules(k)[..k - 1] == GapRules(k - 1);
    }
  }

  lemma GapRuleSane(id: int)
    requires id >= 1
    ensures SaneRule(GapRule(id)) && CleanRule(GapRule(id)) && RuleLineCount(GapRule(id)) == 250
  {
    var r := GapRule(id);
    forall i | 0 <= i < 50 ensures CanonicalCidr(r.destinations[i]).Some? {
      assert r.destinations[i] == GapNet(i);
    }
    forall i, j | 0 <= i < j < 50 ensures r.destinations[i] != r.destinations[j] {
      assert r.destinations[i] == GapNet(i) && r.destinations[j] == GapNet(j);
    }
  }

  lemma {:induction false} Pow2Of16()
    ensures Pow2(16) == 65536
  {
    assert Pow2(4) == 16;
    Pow2Add(4, 4);
    Pow2Add(8, 8);
  }

  lemma {:induction false} GapNetwork(src: Cidr)
    requires CanonicalCidr(Dotted(10, 10, 0, 0, Prefix(16))) == Some(src)
    ensures Canonical(src) && src == Cidr(0x0A0A_0000, 16) && Pow2(16) == 65536
  {
    Pow2Of16();
    var net := Cidr(0x0A0A_0000, 16);
    assert Canonical(net);
    CanonicalRoundTrip(net);
  }

  /** The tunnel network holds the partner's hub address and not its link address. */
  lemma {:induction false} GapSource(src: Cidr)
    requires CanonicalCidr(Dotted(10, 10, 0, 0, Prefix(16))) == Some(src)
    ensures CidrContains(src, Host(0x0A0A_0001)) && !CidrContains(src, Host(0xAC10_0002))
  {
    GapNetwork(src);
    ContainsHost(src, 0x0A0A_0001);
    ContainsHost(src, 0xAC10_0002);
  }

  lemma GapOneAlias(a: Agent, src: Cidr, combos: nat)
    requires GapAgent(a) && Canonical(src)
    requires CidrContains(src, Host(0x0A0A_0001)) && !CidrContains(src, Host(0xAC10_0002))
    ensures AliasCount(a, a.directAliases, src) == 1 && AliasSum(a, [src], combos) == combos
  {
    var als := a.directAliases;
    assert als[..0] == [] && AliasApplies(a, als[0], src);
    assert AliasCount(a, als, src) == AliasCount(a, als[..0], src) + 1;
    assert [src][..0] == [];
  }

  lemma GapAliasOf(a: Agent, r: Rule)
    requires GapAgent(a) && CleanRule(r) && r.sources == [Dotted(10, 10, 0, 0, Prefix(16))]
    ensures AliasOf(a, r) == OrOne(|r.destinations|) * OrOne(|r.ports|)
  {
    var cs := Nets(r.sources);
    assert |cs| == 1 && Canonical(cs[0]);
    assert CanonicalCidr(r.sources[0]) == Some(cs[0]);
    GapSource(cs[0]);
    GapOneAlias(a, cs[0], OrOne(|r.destinations|) * OrOne(|r.ports|));
    assert cs == [cs[0]];
  }

  lemma GapRuleAliases(a: Agent, id: int, r: Rule)
    requires GapAgent(a) && r == GapRule(id) && CleanRule(r)
    ensures AliasOf(a, r) == 250
  {
    GapAliasOf(a, r);
    assert |r.destinations| == 50 && |r.ports| == 5;
  }

  lemma {:induction false} GapClean(k: nat)
    ensures AllClean(GapRules(k))
  {
    GapTotals(k);
    forall i | 0 <= i < k ensures CleanRule(GapRules(k)[i]) { GapRuleSane(i + 1); }
  }

  lemma {:induction false} GapAliases(a: Agent, k: nat)
    requires GapAgent(a)
    ensures AllClean(GapRules(k)) && AliasTotal(a, GapRules(k)) == 250 * k
  {
    GapClean(k);
    if k > 0 {
      GapAliases(a, k - 1);
      GapPrefix(k);
      AllRuleLinesSnoc(a, GapRules(k), k - 1);
      GapRuleAliases(a, k, GapRules(k)[k - 1]);
    }
  }

  lemma GapPrefix(k: nat)
    requires k > 0
    ensures |GapRules(k)| == k && GapRules(k)[..k - 1] == GapRules(k - 1) && GapRules(k)[k - 1] == GapRule(k)
  {
    GapTotals(k - 1);
  }

  lemma {:induction false} GapActive(k: nat)
    ensures Active(GapRules(k)) == GapRules(k)
  {
    if k > 0 {
      GapActive(k - 1);
      GapPrefix(k);
      assert EnabledRules(GapRules(k)) == EnabledRules(GapRules(k - 1)) + [GapRule(k)];
      var e := EnabledRules(GapRules(k - 1));
      assert (e + [GapRule(k)])[..|e|] == e;
      GapTotals(k - 1);
      InsertLast(GapRule(k), GapRules(k - 1));
    }
  }

  lemma {:induction false} InsertLast(r: Rule, list: seq<Rule>)
    requires forall i :: 0 <= i < |list| ==> list[i].id < r.id
    ensures InsertById(r, list) == list + [r]
  {
    if list != [] {
      InsertLast(r, list[1..]);
      assert list == [list[0]] + list[1..];
    }
  }

  function GapPatch(): Patch {
    Patch(Some(GapRule(1).sources), Some(GapRule(1).destinations), Some(GapRule(1).ports), Some(true))
  }

  /** k creations of the same targets, then the switch to restricted. */
  function GapCreates(k: nat): seq<Op> { seq(k, i requires 0 <= i < k => Op.Create(GapPatch())) }

  function GapOps(): seq<Op> { GapCreates(8) + [Op.SetMode(Restricted)] }

  lemma {:induction false} GapPatchSane()
    ensures SanePatch(GapPatch()) && FullPatch(GapPatch())
    ensures forall id :: NewRule(GapPatch(), id) == GapRule(id)
  {
    GapRuleSane(1);
  }

  lemma {:induction false} GapCreate(k: nat)
    requires 1 <= k <= 8 && SaneOp(Op.Create(GapPatch())) && NewRule(GapPatch(), k) == GapRule(k)
    ensures Step(State(Open, GapRules(k - 1), k), Op.Create(GapPatch()), 2) == State(Open, GapRules(k), k + 1)
  {
    GapTotals(k - 1);
    GapTotals(k);
    assert TotalLines(GapRules(k)) * 2 == 500 * k;
  }

  lemma {:induction false} GapCreated(k: nat)
    requires k <= 8
    ensures (forall i :: 0 <= i < k ==> SaneOp(GapCreates(k)[i])) && Run(GapCreates(k), 2) == State(Open, GapRules(k), k + 1)
  {
    GapPatchSane();
    if k > 0 {
      GapCreated(k - 1);
      GapCreate(k);
      assert GapCreates(k)[..k - 1] == GapCreates(k - 1);
    }
  }

  lemma {:induction false} GapReached()
    ensures (forall i :: 0 <= i < |GapOps()| ==> SaneOp(GapOps()[i])) && Run(GapOps(), 2) == State(Restricted, GapRules(8), 9)
  {
    GapCreated(8);
    GapTotals(8);
    assert GapOps()[..8] == GapCreates(8) && GapRules(8)[0].enabled;
    assert TotalLines(GapRules(8)) * 2 == 4000;
  }

  /** Eight creations and a switch to restricted, all accepted on two interfaces, reach a ruleset that the
      builder refuses once the direct link has an alias: 4000 counted lines, 6000 emitted. */
  lemma {:induction false} AliasesCanBreakTheBuild(a: Agent)
    requires GapAgent(a)
    ensures forall i :: 0 <= i < |GapOps()| ==> SaneOp(GapOps()[i])
    ensures Run(GapOps(), 2) == State(Restricted, GapRules(8), 9)
    ensures IfacesOk(a) && |Ifaces(a)| == 2
    ensures !Buildable(a, Run(GapOps(), 2).rules)
  {
    GapReached();
    RunInv(GapOps(), 2);
    GapFits(a, 8, 2);
  }

  lemma {:induction false} GapIfaces(a: Agent)
    requires GapAgent(a)
    ensures IfacesOk(a) && |Ifaces(a)| == 2
  {
  }

  lemma {:induction false} GapFits(a: Agent, k: nat, n: nat)
    requires GapAgent(a) && k == 8 && n == 2 && Inv(State(Restricted, GapRules(k), k + 1), n)
    ensures IfacesOk(a) && |Ifaces(a)| == n
    ensures !Buildable(a, GapRules(k))
  {
    GapIfaces(a);
    BuildsIffAliasesFit(State(Restricted, GapRules(k), k + 1), a, n);
    GapTotals(k);
    GapActive(k);
    GapAliases(a, k);
  }

  // ---- what a bulk creation delivers ----

  predicate HasKey(rules: seq<Rule>, k: Key) { exists i :: 0 <= i < |rules| && RuleKey(rules[i]) == k }

  predicate Serves(rules: seq<Rule>, k: Key) { exists i :: 0 <= i < |rules| && rules[i].enabled && RuleKey(rules[i]) == k }

  /** The first entry with these targets. */
  function FirstIndex(keys: seq<Key>, k: Key): nat
    requires k in keys
    ensures FirstIndex(keys, k) < |keys| && keys[FirstIndex(keys, k)] == k && k !in keys[..FirstIndex(keys, k)]
  {
    if keys[0] == k then 0 else
      assert keys == [keys[0]] + keys[1..];
      var i := FirstIndex(keys[1..], k);
      assert keys[..i + 1] == [keys[0]] + keys[1..][..i];
      i + 1
  }

  predicate HasKeyAndId(rules: seq<Rule>, k: Key, on: bool, id: int) {
    exists i :: 0 <= i < |rules| && rules[i].enabled == on && RuleKey(rules[i]) == k && rules[i].id == id
  }

  predicate HasKeyOn(rules: seq<Rule>, k: Key, on: bool) {
    exists i :: 0 <= i < |rules| && rules[i].enabled == on && RuleKey(rules[i]) == k
  }

  lemma {:induction false} HasKeySnoc(rules: seq<Rule>, r: Rule, k: Key, on: bool)
    ensures HasKeyOn(rules + [r], k, on) == (HasKeyOn(rules, k, on) || (r.enabled == on && RuleKey(r) == k))
    ensures forall id :: HasKeyAndId(rules, k, on, id) ==> HasKeyAndId(rules + [r], k, on, id)
    ensures r.enabled == on && RuleKey(r) == k ==> HasKeyAndId(rules + [r], k, on, r.id)
  {
    var more := rules + [r];
    assert more[|rules|] == r && forall i :: 0 <= i < |rules| ==> more[i] == rules[i];
  }

  lemma {:induction false} FirstWithFinds(rules: seq<Rule>, k: Key, on: bool)
    ensures FirstWith(rules, k, on).Some? <==> HasKeyOn(rules, k, on)
    ensures FirstWith(rules, k, on).Some? ==> HasKeyAndId(rules, k, on, FirstWith(rules, k, on).value)
  {
    if rules != [] {
      var n := |rules| - 1;
      FirstWithFinds(rules[..n], k, on);
      HasKeySnoc(rules[..n], rules[n], k, on);
      assert rules[..n] + [rules[n]] == rules;
    }
  }

  lemma {:induction false} CreateContains(existing: seq<Rule>, keys: seq<Key>, n: nat, j: nat)
    requires n <= |keys| && j < |keys|
    ensures j in ToCreate(existing, keys, n) <==>
      j < n && !Duplicate(existing, keys, j) && FirstWith(existing, keys[j], false).None?
  {
    if n > 0 { CreateContains(existing, keys, n - 1, j); }
  }

  lemma {:induction false} ReenableContains(existing: seq<Rule>, keys: seq<Key>, n: nat, j: nat)
    requires j < n <= |keys| && !Duplicate(existing, keys, j) && FirstWith(existing, keys[j], false).Some?
    ensures FirstWith(existing, keys[j], false).value in ToReenable(existing, keys, n)
  {
    if j < n - 1 { ReenableContains(existing, keys, n - 1, j); }
  }

  /** Switching rules on changes no targets. */
  lemma KeysKept(rules: seq<Rule>, re: seq<int>, after: seq<Rule>)
    requires after == SetEnabled(rules, re, true)
    ensures SameKeys(rules, after) && OnlySwitchedOn(rules, re, after)
  {
    SetEnabledLength(rules, re, true);
    forall i | 0 <= i < |rules| ensures RuleKey(after[i]) == RuleKey(rules[i]) {
      assert after[i].sources == rules[i].sources && after[i].destinations == rules[i].destinations;
    }
  }

  predicate SameKeys(rules: seq<Rule>, after: seq<Rule>) {
    |after| == |rules| && forall i :: 0 <= i < |rules| ==> RuleKey(after[i]) == RuleKey(rules[i])
  }

  predicate OnlySwitchedOn(rules: seq<Rule>, re: seq<int>, after: seq<Rule>) {
    |after| == |rules| && forall i :: 0 <= i < |rules| ==> after[i].enabled == (rules[i].enabled || rules[i].id in re)
  }

  lemma ServesConcat(a: seq<Rule>, b: seq<Rule>, k: Key)
    ensures Serves(a + b, k) <==> Serves(a, k) || Serves(b, k)
  {
    var c := a + b;
    if Serves(a, k) {
      var i :| 0 <= i < |a| && a[i].enabled && RuleKey(a[i]) == k;
      assert c[i] == a[i];
    }
    if Serves(b, k) {
      var i :| 0 <= i < |b| && b[i].enabled && RuleKey(b[i]) == k;
      assert c[|a| + i] == b[i];
    }
  }

  lemma NoneServes(rules: seq<Rule>, after: seq<Rule>, k: Key)
    requires SameKeys(rules, after) && !HasKey(rules, k)
    ensures !Serves(after, k)
  {
  }

  lemma InsertedServes(s: State, drafts: seq<Rule>, keys: seq<Key>, i0: nat, picked: seq<nat>, added: seq<Rule>)
    requires keys == Keys(drafts) && i0 < |keys| && keys[i0] !in keys[..i0]
    requires FirstWith(s.rules, keys[i0], true).None? && FirstWith(s.rules, keys[i0], false).None?
    requires picked == ToCreate(s.rules, keys, |drafts|) && forall i :: 0 <= i < |picked| ==> picked[i] < |drafts|
    requires added == Inserted(drafts, picked, s.nextId)
    ensures Serves(added, keys[i0]) <==> drafts[i0].enabled
  {
    var k := keys[i0];
    CreateContains(s.rules, keys, |drafts|, i0);
    var q :| 0 <= q < |picked| && picked[q] == i0;
    assert RuleKey(added[q]) == k && added[q].enabled == drafts[i0].enabled;
    if Serves(added, k) {
      var i :| 0 <= i < |added| && added[i].enabled && RuleKey(added[i]) == k;
      var x := picked[i];
      assert x in picked && keys[x] == RuleKey(drafts[x]) == k;
      CreateContains(s.rules, keys, |drafts|, x);
      FirstOnly(keys, k, x, i0);
    }
  }

  lemma FirstOnly(keys: seq<Key>, k: Key, x: nat, y: nat)
    requires x < |keys| && y < |keys| && keys[x] == k && keys[y] == k && k !in keys[..x] && k !in keys[..y]
    ensures x == y
  {
    assert forall i :: 0 <= i < x ==> keys[..x][i] == keys[i];
    assert forall i :: 0 <= i < y ==> keys[..y][i] == keys[i];
  }

  lemma ExistingServes(rules: seq<Rule>, keys: seq<Key>, i0: nat, after: seq<Rule>, re: seq<int>)
    requires i0 < |keys| && keys[i0] !in keys[..i0] && HasKey(rules, keys[i0])
    requires re == ToReenable(rules, keys, |keys|) && SameKeys(rules, after) && OnlySwitchedOn(rules, re, after)
    ensures Serves(after, keys[i0])
  {
    var k := keys[i0];
    FirstWithFinds(rules, k, true);
    FirstWithFinds(rules, k, false);
    if FirstWith(rules, k, true).Some? {
      var i :| 0 <= i < |rules| && rules[i].enabled && RuleKey(rules[i]) == k;
      assert after[i].enabled && RuleKey(after[i]) == k;
    } else {
      var h :| 0 <= h < |rules| && RuleKey(rules[h]) == k;
      assert !rules[h].enabled;
      ReenableContains(rules, keys, |keys|, i0);
      var i :| 0 <= i < |rules| && RuleKey(rules[i]) == k && rules[i].id == FirstWith(rules, k, false).value;
      assert after[i].enabled && RuleKey(after[i]) == k;
    }
  }

  lemma {:induction false} BulkServesKey(s: State, ps: seq<Patch>, keys: seq<Key>, i0: nat, picked: seq<nat>, re: seq<int>)
    requires (forall i :: 0 <= i < |ps| ==> FullPatch(ps[i])) && keys == Keys(Drafts(ps))
    requires i0 < |keys| && keys[i0] !in keys[..i0]
    requires picked == ToCreate(s.rules, keys, |ps|) && forall i :: 0 <= i < |picked| ==> picked[i] < |Drafts(ps)|
    requires re == ToReenable(s.rules, keys, |ps|)
    ensures Serves(SetEnabled(s.rules, re, true) + Inserted(Drafts(ps), picked, s.nextId), keys[i0])
      <==> HasKey(s.rules, keys[i0]) || Drafts(ps)[i0].enabled
  {
    var k := keys[i0];
    var after, added := SetEnabled(s.rules, re, true), Inserted(Drafts(ps), picked, s.nextId);
    ServesConcat(after, added, k);
    KeysKept(s.rules, re, after);
    if HasKey(s.rules, k) {
      ExistingServes(s.rules, keys, i0, after, re);
    } else {
      FirstWithFinds(s.rules, k, true);
      FirstWithFinds(s.rules, k, false);
      NoneServes(s.rules, after, k);
      InsertedServes(s, Drafts(ps), keys, i0, picked, added);
    }
  }

  /** After an accepted bulk creation an enabled rule has the targets of entry j if and only if an existing
      rule had them or the first entry with these targets is itself enabled: a later enabled twin of a
      disabled entry is skipped as a duplicate. */
  lemma {:induction false} BulkServes(s: State, ps: seq<Patch>, n: nat, j: nat)
    requires SaneOp(CreateBulk(ps)) && j < |ps| && Admitted(s, CreateBulk(ps), n)
    ensures var keys := Keys(Drafts(ps));
      Serves(Step(s, CreateBulk(ps), n).rules, keys[j]) <==>
        HasKey(s.rules, keys[j]) || ps[FirstIndex(keys, keys[j])].enabled.value
  {
    var keys := Keys(Drafts(ps));
    var i0 := FirstIndex(keys, keys[j]);
    var re, picked := ToReenable(s.rules, keys, |ps|), ToCreate(s.rules, keys, |ps|);
    BulkCandidateIs(s, ps, picked, re);
    BulkServesKey(s, ps, keys, i0, picked, re);
    assert Step(s, CreateBulk(ps), n).rules == SetEnabled(s.rules, re, true) + Inserted(Drafts(ps), picked, s.nextId);
    assert Drafts(ps)[i0].enabled == ps[i0].enabled.value;
  }

  function TwinPatch(on: bool): Patch { Patch(Some([GapNet(1)]), Some([]), Some([]), Some(on)) }

  function Twins(): seq<Patch> { [TwinPatch(false), TwinPatch(true)] }

  lemma {:induction false} TwinKeys()
    ensures SaneOp(CreateBulk(Twins()))
    ensures |Keys(Drafts(Twins()))| == 2 && Keys(Drafts(Twins()))[0] == Keys(Drafts(Twins()))[1]
    ensures Keys(Drafts(Twins()))[1] == RuleKey(NewRule(TwinPatch(true), 0)) && !Drafts(Twins())[0].enabled
  {
    assert Twins()[0] == TwinPatch(false) && Twins()[1] == TwinPatch(true);
    assert Drafts(Twins())[0] == NewRule(Twins()[0], 0) && Drafts(Twins())[1] == NewRule(Twins()[1], 0);
  }

  /** Of two entries with the same targets the first is created. */
  lemma {:induction false} TwinPicked(keys: seq<Key>)
    requires |keys| == 2 && keys[0] == keys[1]
    ensures ToCreate([], keys, 2) == [0] && ToReenable([], keys, 2) == []
  {
    assert keys[..1] == [keys[0]];
    assert !Duplicate([], keys, 0) && Duplicate([], keys, 1);
    assert ToCreate([], keys, 0) == [] && ToCreate([], keys, 1) == [0];
    assert ToReenable([], keys, 0) == [] && ToReenable([], keys, 1) == [];
  }

  lemma {:induction false} TwinAdmitted()
    requires SaneOp(CreateBulk(Twins()))
    ensures Admitted(EMPTY, CreateBulk(Twins()), 1)
  {
    TwinKeys();
    TwinPicked(Keys(Drafts(Twins())));
    BulkCandidateIs(EMPTY, Twins(), [0], []);
    var rules := BulkCandidate(EMPTY, Twins()).rules;
    assert rules == [Drafts(Twins())[0].(id := 1)];
    assert rules[..0] == [] && TotalLines(rules) == 0;
  }

  /** A disabled entry followed by its enabled twin is accepted, and no enabled rule has their targets. */
  lemma {:induction false} TwinIsSkipped()
    ensures SaneOp(CreateBulk(Twins())) && Admitted(EMPTY, CreateBulk(Twins()), 1)
    ensures Twins()[1].enabled == Some(true)
    ensures !Serves(Step(EMPTY, CreateBulk(Twins()), 1).rules, RuleKey(NewRule(Twins()[1], 0)))
  {
    TwinKeys();
    TwinAdmitted();
    var keys := Keys(Drafts(Twins()));
    assert FirstIndex(keys, keys[1]) == 0;
    BulkServes(EMPTY, Twins(), 1, 1);
  }
}
