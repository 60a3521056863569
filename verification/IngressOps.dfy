/** The admin operations on one agent's ruleset (backend/internal/agent-ingress.js, with the
    sanitizers of agent-ingress-rules.js and bulkDedupe of agent-ingress-catalog.js). Each runs
    under the agent's row lock, so it is one step on the mode and the rule list. */
module IngressOps {
  import opened Wrappers
  import opened Ipv4Nets
  import opened IngressRules
  import opened Seqs

  const MAX_LIST := 64
  const MAX_BULK_RULES := 100
  const MAX_BULK_DISABLE := 500

  // ==== request payloads and their sanitizers ====

  /** A field of the request body. */
  datatype Field<+T> = Undefined | Null | NotArray | List(items: seq<T>)

  datatype Name = NoName | BlankName | Named

  datatype PortText = NotAPort | PortText(lo: nat, hi: nat)
  datatype RawPort = RawPort(proto: Proto, port: PortText)

  datatype RuleData = RuleData(name: Name, sources: Field<Text>, destinations: Field<Text>, ports: Field<RawPort>,
                               enabled: Option<bool>)

  /** A sanitized patch; None = the field is not touched. */
  datatype Patch = Patch(sources: Option<seq<Text>>, destinations: Option<seq<Text>>, ports: Option<seq<Port>>,
                         enabled: Option<bool>)

  predicate Distinct<T(==)>(s: seq<T>) { forall i, j :: 0 <= i < j < |s| ==> s[i] != s[j] }

  /** Printed canonical networks without repetition. */
  predicate StoredNets(ts: seq<Text>) { CleanTexts(ts) && Distinct(ts) && |ts| <= MAX_LIST }

  predicate GoodPortText(p: RawPort) {
    !p.proto.OtherProto? && p.port.PortText? && 1 <= p.port.lo <= p.port.hi <= 65535
  }

  predicate StoredPorts(ps: seq<Port>) {
    && Distinct(ps) && |ps| <= MAX_LIST
    && forall i :: 0 <= i < |ps| ==> ps[i].Port? && !ps[i].proto.OtherProto? && 1 <= ps[i].lo <= ps[i].hi <= 65535
  }

  predicate AcceptableNets(f: Field<Text>, allowEmpty: bool) {
    && !f.NotArray?
    && (f.List? ==> |f.items| <= MAX_LIST && CleanTexts(f.items))
    && (allowEmpty || (f.List? && f.items != []))
  }

  predicate AcceptablePorts(f: Field<RawPort>) {
    !f.NotArray? && (f.List? ==> |f.items| <= MAX_LIST && GoodPorts(f.items))
  }

  predicate Prints(t: Text, x: Text) { CanonicalCidr(x) == CanonicalCidr(t) }

  predicate PrintedIn(t: Text, out: seq<Text>) { exists j :: 0 <= j < |out| && Prints(t, out[j]) }

  predicate PrintsSome(x: Text, ts: seq<Text>) { exists i :: 0 <= i < |ts| && Prints(ts[i], x) }

  /** The two lists name the same networks. */
  predicate SameNets(ts: seq<Text>, out: seq<Text>) {
    && (forall i :: 0 <= i < |ts| ==> PrintedIn(ts[i], out))
    && (forall j :: 0 <= j < |out| ==> PrintsSome(out[j], ts))
  }

  lemma SameNetsPush(ts: seq<Text>, t: Text, out: seq<Text>, x: Text)
    requires SameNets(ts, out) && Prints(t, x)
    ensures x in out ==> SameNets(ts + [t], out)
    ensures SameNets(ts + [t], out + [x])
  {
    var longer, more := ts + [t], out + [x];
    forall i | 0 <= i < |longer| ensures PrintedIn(longer[i], more) && (x in out ==> PrintedIn(longer[i], out)) {
      if i < |ts| {
        var j :| 0 <= j < |out| && Prints(ts[i], out[j]);
        assert more[j] == out[j];
      } else {
        assert more[|out|] == x;
      }
    }
    forall j | 0 <= j < |more| ensures PrintsSome(more[j], longer) {
      if j < |out| {
        var i :| 0 <= i < |ts| && Prints(ts[i], out[j]);
        assert longer[i] == ts[i];
      } else {
        assert longer[|ts|] == t;
      }
    }
    assert forall j :: 0 <= j < |out| ==> more[j] == out[j];
  }

  predicate CanonList(ts: seq<Text>, out: seq<Text>) {
    CleanTexts(out) && Distinct(out) && |out| <= |ts| && SameNets(ts, out)
  }

  /** A list with the printed canonical form of one more text, unless it is there already. */
  function Pushed(before: seq<Text>, t: Text): seq<Text>
    requires CanonicalCidr(t).Some?
  {
    var x := ToText(CanonicalCidr(t).value);
    if x in before then before else before + [x]
  }

  /** The networks of a list, canonical, in order, each once. */
  function CleanList(ts: seq<Text>): seq<Text>
    requires CleanTexts(ts)
  {
    if ts == [] then [] else Pushed(CleanList(ts[..|ts| - 1]), ts[|ts| - 1])
  }

  lemma PushedIsCanon(ts: seq<Text>, t: Text, before: seq<Text>)
    requires CanonList(ts, before) && CanonicalCidr(t).Some?
    ensures CanonList(ts + [t], Pushed(before, t))
  {
    CanonicalCidrSound(t);
    CanonicalRoundTrip(CanonicalCidr(t).value);
    SameNetsPush(ts, t, before, ToText(CanonicalCidr(t).value));
  }

  lemma {:induction false} CleanListIsCanon(ts: seq<Text>)
    requires CleanTexts(ts)
    ensures CanonList(ts, CleanList(ts))
  {
    if ts != [] {
      CleanListIsCanon(ts[..|ts| - 1]);
      CleanListStep(ts, CleanList(ts[..|ts| - 1]));
    }
  }

  lemma {:induction false} CleanListStep(ts: seq<Text>, before: seq<Text>)
    requires ts != [] && CleanTexts(ts) && CanonList(ts[..|ts| - 1], before)
    ensures CanonList(ts, Pushed(before, ts[|ts| - 1]))
  {
    PushedIsCanon(ts[..|ts| - 1], ts[|ts| - 1], before);
    TakeOneMore(ts, |ts| - 1);
    TakeAll(ts);
  }

  lemma CleanSnoc(ts: seq<Text>, t: Text)
    ensures CleanTexts(ts + [t]) <==> CleanTexts(ts) && CanonicalCidr(t).Some?
  {
    var longer := ts + [t];
    assert longer[|ts|] == t;
    assert forall i :: 0 <= i < |ts| ==> longer[i] == ts[i];
  }

  /** Canonical, printed, each network once; None at the first text that is no IPv4 host or CIDR. */
  method CanonTexts(value: seq<Text>) returns (r: Option<seq<Text>>)
    ensures r == if CleanTexts(value) then Some(CleanList(value)) else None
  {
    var out: seq<Text> := [];
    for i := 0 to |value|
      invariant CleanTexts(value[..i]) && out == CleanList(value[..i])
    {
      var c := CanonicalCidr(value[i]);
      if c.None? {
        NotClean(value, i);
        return None;
      }
      CleanSnoc(value[..i], value[i]);
      TakeOneMore(value, i);
      var x := ToText(c.value);
      if x !in out { out := out + [x]; }
    }
    TakeAll(value);
    return Some(out);
  }

  lemma NotClean(ts: seq<Text>, i: nat)
    requires i < |ts| && CanonicalCidr(ts[i]).None?
    ensures !CleanTexts(ts)
  {
  }

  function ItemsOf<T>(f: Field<T>): seq<T> { if f.List? then f.items else [] }

  function SanitizedCidrs(f: Field<Text>, allowEmpty: bool): Option<seq<Text>> {
    if AcceptableNets(f, allowEmpty) then Some(CleanList(ItemsOf(f))) else None
  }

  method SanitizeCidrList(f: Field<Text>, allowEmpty: bool) returns (r: Option<seq<Text>>)
    ensures r == SanitizedCidrs(f, allowEmpty)
    ensures r.Some? ==> StoredNets(r.value) && (allowEmpty || r.value != [])
    ensures r.Some? <==> AcceptableNets(f, allowEmpty)
    ensures r.Some? ==> SameNets(ItemsOf(f), r.value)
  {
    if f.NotArray? { return None; }
    var value := ItemsOf(f);
    if |value| > MAX_LIST { return None; }
    var out := CanonTexts(value);
    if out.None? { return None; }
    CleanListIsCanon(value);
    EmptyTogether(value, out.value);
    if !allowEmpty && out.value == [] { return None; }
    return out;
  }

  lemma EmptyTogether(ts: seq<Text>, out: seq<Text>)
    requires SameNets(ts, out)
    ensures ts == [] <==> out == []
  {
    assert |ts| > 0 ==> PrintedIn(ts[0], out);
    assert |out| > 0 ==> PrintsSome(out[0], ts);
  }

  function PortOf(p: RawPort): Port
    requires GoodPortText(p)
  {
    Port(p.proto, p.port.lo, p.port.hi)
  }

  predicate GoodPorts(ps: seq<RawPort>) { forall i :: 0 <= i < |ps| ==> GoodPortText(ps[i]) }

  /** The ports of a list, in order, each once. */
  function PortList(ps: seq<RawPort>): seq<Port>
    requires GoodPorts(ps)
  {
    if ps == [] then []
    else
      var before, p := PortList(ps[..|ps| - 1]), PortOf(ps[|ps| - 1]);
      if p in before then before else before + [p]
  }

  predicate Asked(p: Port, ps: seq<RawPort>)
    requires GoodPorts(ps)
  {
    exists i :: 0 <= i < |ps| && PortOf(ps[i]) == p
  }

  lemma {:induction false} PortListIs(ps: seq<RawPort>)
    requires GoodPorts(ps)
    ensures |PortList(ps)| <= |ps| && Distinct(PortList(ps))
    ensures forall p :: p in PortList(ps) <==> Asked(p, ps)
  {
    if ps != [] {
      var n := |ps| - 1;
      PortListIs(ps[..n]);
      forall p ensures p in PortList(ps) <==> Asked(p, ps) {
        AskedSnoc(p, ps);
      }
    }
  }

  lemma {:induction false} AskedSnoc(p: Port, ps: seq<RawPort>)
    requires ps != [] && GoodPorts(ps)
    ensures Asked(p, ps) <==> Asked(p, ps[..|ps| - 1]) || PortOf(ps[|ps| - 1]) == p
  {
    var n := |ps| - 1;
    if Asked(p, ps[..n]) {
      var i :| 0 <= i < n && PortOf(ps[..n][i]) == p;
      assert PortOf(ps[i]) == p;
    }
    if Asked(p, ps) {
      var i :| 0 <= i < |ps| && PortOf(ps[i]) == p;
      assert i < n ==> PortOf(ps[..n][i]) == p;
    }
  }

  lemma PortListStored(ps: seq<RawPort>)
    requires GoodPorts(ps) && |ps| <= MAX_LIST
    ensures StoredPorts(PortList(ps))
  {
    PortListIs(ps);
    var out := PortList(ps);
    forall i | 0 <= i < |out|
      ensures out[i].Port? && !out[i].proto.OtherProto? && 1 <= out[i].lo <= out[i].hi <= 65535
    {
      assert out[i] in out;
      var j :| 0 <= j < |ps| && PortOf(ps[j]) == out[i];
    }
  }

  function SanitizedPorts(f: Field<RawPort>): Option<seq<Port>> {
    if AcceptablePorts(f) then Some(PortList(ItemsOf(f))) else None
  }

  method SanitizePorts(f: Field<RawPort>) returns (r: Option<seq<Port>>)
    ensures r == SanitizedPorts(f)
    ensures r.Some? ==> StoredPorts(r.value)
    ensures r.Some? <==> AcceptablePorts(f)
    ensures r.Some? ==> GoodPorts(ItemsOf(f)) && forall p :: p in r.value <==> Asked(p, ItemsOf(f))
  {
    if f.NotArray? { return None; }
    var value := ItemsOf(f);
    if |value| > MAX_LIST { return None; }
    var out: seq<Port> := [];
    for i := 0 to |value|
      invariant GoodPorts(value[..i]) && out == PortList(value[..i])
    {
      if !GoodPortText(value[i]) { return None; }
      TakeOneMore(value, i);
      var p := PortOf(value[i]);
      if p !in out { out := out + [p]; }
    }
    TakeAll(value);
    PortListIs(value);
    PortListStored(value);
    return Some(out);
  }

  /** Number of iptables lines one rule expands to per interface. */
  function LineCount(sources: nat, destinations: nat, ports: nat): nat {
    sources * (if destinations == 0 then 1 else destinations) * (if ports == 0 then 1 else ports)
  }

  function RuleLineCount(r: Rule): nat { LineCount(|r.sources|, |r.destinations|, |r.ports|) }

  predicate SanePatch(p: Patch) {
    && (p.sources.Some? ==> StoredNets(p.sources.value) && p.sources.value != [])
    && (p.destinations.Some? ==> StoredNets(p.destinations.value))
    && (p.ports.Some? ==> StoredPorts(p.ports.value))
  }

  predicate FullPatch(p: Patch) {
    && p.sources.Some? && p.destinations.Some? && p.ports.Some? && p.enabled.Some?
    && LineCount(|p.sources.value|, |p.destinations.value|, |p.ports.value|) <= MAX_LINES_PER_RULE
  }

  /** A partial patch touches exactly the fields of the request. */
  predicate Touches(d: RuleData, p: Patch) {
    && (p.sources.Some? <==> !d.sources.Undefined?)
    && (p.destinations.Some? <==> !d.destinations.Undefined?)
    && (p.ports.Some? <==> !d.ports.Undefined?)
  }

  /** Whether a field is looked at: always in a full payload, in a partial one if it is there. */
  predicate Given<T>(f: Field<T>, partial: bool) { !partial || !f.Undefined? }

  predicate AcceptableFields(d: RuleData, partial: bool) {
    && (d.name.Named? || (partial && d.name.NoName?))
    && (Given(d.sources, partial) ==> AcceptableNets(d.sources, false))
    && (Given(d.destinations, partial) ==> AcceptableNets(d.destinations, true))
    && (Given(d.ports, partial) ==> AcceptablePorts(d.ports))
  }

  /** The patch of acceptable fields. */
  function PatchOf(d: RuleData, partial: bool): Patch
    requires AcceptableFields(d, partial)
  {
    Patch(if Given(d.sources, partial) then Some(CleanList(ItemsOf(d.sources))) else None,
          if Given(d.destinations, partial) then Some(CleanList(ItemsOf(d.destinations))) else None,
          if Given(d.ports, partial) then Some(PortList(ItemsOf(d.ports))) else None,
          if d.enabled.None? && !partial then Some(true) else d.enabled)
  }

  /** A full payload also has to stay within the lines of one rule. */
  predicate Acceptable(d: RuleData, partial: bool) {
    && AcceptableFields(d, partial)
    && (!partial ==>
      var p := PatchOf(d, false);
      LineCount(|p.sources.value|, |p.destinations.value|, |p.ports.value|) <= MAX_LINES_PER_RULE)
  }

  lemma NetsAreStored(f: Field<Text>, allowEmpty: bool)
    requires AcceptableNets(f, allowEmpty)
    ensures StoredNets(CleanList(ItemsOf(f))) && SameNets(ItemsOf(f), CleanList(ItemsOf(f)))
    ensures allowEmpty || CleanList(ItemsOf(f)) != []
  {
    CleanListIsCanon(ItemsOf(f));
    EmptyTogether(ItemsOf(f), CleanList(ItemsOf(f)));
  }

  lemma PatchIsSane(d: RuleData, partial: bool)
    requires AcceptableFields(d, partial)
    ensures SanePatch(PatchOf(d, partial)) && (partial ==> Touches(d, PatchOf(d, partial)))
  {
    if Given(d.sources, partial) { NetsAreStored(d.sources, false); }
    if Given(d.destinations, partial) { NetsAreStored(d.destinations, true); }
    if Given(d.ports, partial) { PortListStored(ItemsOf(d.ports)); }
  }

  /** What sanitizeIngressRule makes of a payload; None = it is refused. */
  function Sanitized(d: RuleData, partial: bool): (r: Option<Patch>)
    ensures r.Some? ==> SanePatch(r.value) && (if partial then Touches(d, r.value) else FullPatch(r.value))
  {
    if Acceptable(d, partial) then
      PatchIsSane(d, partial);
      Some(PatchOf(d, partial))
    else None
  }

  /** An accepted patch holds the request: the same networks, the same ports, the given switch. */
  lemma SanitizedIsTheRequest(d: RuleData, partial: bool)
    ensures Sanitized(d, partial).Some? <==> Acceptable(d, partial)
    ensures Sanitized(d, partial).Some? ==>
      var p := Sanitized(d, partial).value;
      && (p.sources.Some? <==> Given(d.sources, partial))
      && (p.sources.Some? ==> SameNets(ItemsOf(d.sources), p.sources.value))
      && (p.destinations.Some? <==> Given(d.destinations, partial))
      && (p.destinations.Some? ==> SameNets(ItemsOf(d.destinations), p.destinations.value))
      && (p.ports.Some? <==> Given(d.ports, partial))
      && (p.ports.Some? ==> GoodPorts(ItemsOf(d.ports))
                            && forall x :: x in p.ports.value <==> Asked(x, ItemsOf(d.ports)))
      && p.enabled == if d.enabled.None? && !partial then Some(true) else d.enabled
  {
    if Acceptable(d, partial) {
      if Given(d.sources, partial) { NetsAreStored(d.sources, false); }
      if Given(d.destinations, partial) { NetsAreStored(d.destinations, true); }
      if Given(d.ports, partial) { PortListIs(ItemsOf(d.ports)); }
    }
  }

  method SanitizeIngressRule(d: RuleData, partial: bool) returns (r: Option<Patch>)
    ensures r == Sanitized(d, partial)
  {
    var p := Patch(None, None, None, None);
    if (!partial || !d.name.NoName?) && !d.name.Named? { return None; }
    if !partial || !d.sources.Undefined? {
      var s := SanitizeCidrList(d.sources, false);
      if s.None? { return None; }
      p := p.(sources := s);
    }
    if !partial || !d.destinations.Undefined? {
      var s := SanitizeCidrList(d.destinations, true);
      if s.None? { return None; }
      p := p.(destinations := s);
    }
    if !partial || !d.ports.Undefined? {
      var s := SanitizePorts(d.ports);
      if s.None? { return None; }
      p := p.(ports := s);
    }
    p := p.(enabled := if d.enabled.None? && !partial then Some(true) else d.enabled);
    assert p == PatchOf(d, partial);
    if !partial && LineCount(|p.sources.value|, |p.destinations.value|, |p.ports.value|) > MAX_LINES_PER_RULE {
      return None;
    }
    return Some(p);
  }

  // ==== the ruleset and its operations ====

  datatype State = State(mode: Mode, rules: seq<Rule>, nextId: int)

  function TotalLines(rules: seq<Rule>): nat {
    if rules == [] then 0
    else TotalLines(rules[..|rules| - 1]) + (if rules[|rules| - 1].enabled then RuleLineCount(rules[|rules| - 1]) else 0)
  }

  predicate WithinLines(rules: seq<Rule>, ifaces: nat) { TotalLines(rules) * ifaces <= MAX_LINES_TOTAL }

  predicate SomeEnabled(rules: seq<Rule>) { exists i :: 0 <= i < |rules| && rules[i].enabled }

  predicate NotEmptyRestricted(mode: Mode, rules: seq<Rule>) { mode.Restricted? ==> SomeEnabled(rules) }

  function NewRule(p: Patch, id: int): Rule
    requires FullPatch(p)
  {
    Rule(id, p.enabled.value, p.sources.value, p.destinations.value, p.ports.value)
  }

  function Merged(r: Rule, p: Patch): Rule {
    Rule(r.id,
         if p.enabled.Some? then p.enabled.value else r.enabled,
         if p.sources.Some? then p.sources.value else r.sources,
         if p.destinations.Some? then p.destinations.value else r.destinations,
         if p.ports.Some? then p.ports.value else r.ports)
  }

  predicate CanGrow(p: Patch) {
    p.sources.Some? || p.destinations.Some? || p.ports.Some? || p.enabled == Some(true)
  }

  function MergeAt(rules: seq<Rule>, id: int, p: Patch): seq<Rule> {
    if rules == [] then []
    else
      var r := rules[|rules| - 1];
      MergeAt(rules[..|rules| - 1], id, p) + [if r.id == id then Merged(r, p) else r]
  }

  function SetEnabled(rules: seq<Rule>, ids: seq<int>, on: bool): seq<Rule> {
    if rules == [] then []
    else
      var r := rules[|rules| - 1];
      SetEnabled(rules[..|rules| - 1], ids, on) + [if r.id in ids then r.(enabled := on) else r]
  }

  function Without(rules: seq<Rule>, id: int): seq<Rule> {
    if rules == [] then []
    else Without(rules[..|rules| - 1], id) + (if rules[|rules| - 1].id == id then [] else [rules[|rules| - 1]])
  }

  function Find(rules: seq<Rule>, id: int): Option<Rule> {
    if rules == [] then None
    else
      var f := Find(rules[..|rules| - 1], id);
      if f.Some? then f else if rules[|rules| - 1].id == id then Some(rules[|rules| - 1]) else None
  }

  // ---- bulkDedupe ----

  /** What makes two rules the same for the bulk operations: their targets as sets. */
  datatype Key = Key(sources: multiset<Option<Cidr>>, destinations: multiset<Option<Cidr>>, ports: multiset<Port>)

  function Canons(ts: seq<Text>): multiset<Option<Cidr>> {
    multiset(seq(|ts|, i requires 0 <= i < |ts| => CanonicalCidr(ts[i])))
  }

  function RuleKey(r: Rule): Key { Key(Canons(r.sources), Canons(r.destinations), multiset(r.ports)) }

  function Keys(rules: seq<Rule>): seq<Key> { seq(|rules|, i requires 0 <= i < |rules| => RuleKey(rules[i])) }

  /** The first existing rule, enabled or not as asked, with these targets. */
  function FirstWith(rules: seq<Rule>, k: Key, on: bool): Option<int> {
    if rules == [] then None
    else
      var f, r := FirstWith(rules[..|rules| - 1], k, on), rules[|rules| - 1];
      if f.Some? then f else if r.enabled == on && RuleKey(r) == k then Some(r.id) else None
  }

  predicate Duplicate(existing: seq<Rule>, keys: seq<Key>, j: nat)
    requires j < |keys|
  {
    FirstWith(existing, keys[j], true).Some? || keys[j] in keys[..j]
  }

  /** Indices of the entries to insert among the first n. */
  function ToCreate(existing: seq<Rule>, keys: seq<Key>, n: nat): seq<nat>
    requires n <= |keys|
  {
    if n == 0 then []
    else
      ToCreate(existing, keys, n - 1)
      + (if !Duplicate(existing, keys, n - 1) && FirstWith(existing, keys[n - 1], false).None? then [n - 1] else [])
  }

  /** Ids of the existing rules to switch back on. */
  function ToReenable(existing: seq<Rule>, keys: seq<Key>, n: nat): seq<int>
    requires n <= |keys|
  {
    if n == 0 then []
    else
      var f := FirstWith(existing, keys[n - 1], false);
      ToReenable(existing, keys, n - 1) + (if !Duplicate(existing, keys, n - 1) && f.Some? then [f.value] else [])
  }

  function Skipped(existing: seq<Rule>, keys: seq<Key>, n: nat): seq<nat>
    requires n <= |keys|
  {
    if n == 0 then []
    else Skipped(existing, keys, n - 1) + (if Duplicate(existing, keys, n - 1) then [n - 1] else [])
  }

  ghost predicate ByKeyIs(m: map<Key, int>, rules: seq<Rule>, on: bool) {
    forall k :: (k in m <==> FirstWith(rules, k, on).Some?) && (k in m ==> FirstWith(rules, k, on) == Some(m[k]))
  }

  method ByKey(existing: seq<Rule>) returns (enabled: map<Key, int>, disabled: map<Key, int>)
    ensures ByKeyIs(enabled, existing, true) && ByKeyIs(disabled, existing, false)
  {
    enabled, disabled := map[], map[];
    for i := 0 to |existing|
      invariant ByKeyIs(enabled, existing[..i], true) && ByKeyIs(disabled, existing[..i], false)
    {
      var r := existing[i];
      var k := RuleKey(r);
      assert existing[..i + 1][..i] == existing[..i];
      if r.enabled {
        if k !in enabled { enabled := enabled[k := r.id]; }
      } else {
        if k !in disabled { disabled := disabled[k := r.id]; }
      }
    }
    assert existing[..|existing|] == existing;
  }

  method BulkDedupe(existing: seq<Rule>, clean: seq<Rule>) returns (create: seq<nat>, reenable: seq<int>, skipped: seq<nat>)
    ensures create == ToCreate(existing, Keys(clean), |clean|)
    ensures reenable == ToReenable(existing, Keys(clean), |clean|)
    ensures skipped == Skipped(existing, Keys(clean), |clean|)
  {
    var enabledByKey, disabledByKey := ByKey(existing);
    ghost var keys := Keys(clean);
    var seen := enabledByKey.Keys;
    create, reenable, skipped := [], [], [];
    for i := 0 to |clean|
      invariant forall k :: k in seen <==> k in enabledByKey || k in keys[..i]
      invariant create == ToCreate(existing, keys, i)
      invariant reenable == ToReenable(existing, keys, i)
      invariant skipped == Skipped(existing, keys, i)
    {
      var k := RuleKey(clean[i]);
      assert keys[i] == k && keys[..i + 1] == keys[..i] + [k];
      assert k in seen <==> Duplicate(existing, keys, i);
      if k in seen {
        skipped := skipped + [i];
      } else {
        seen := seen + {k};
        if k in disabledByKey {
          reenable := reenable + [disabledByKey[k]];
        } else {
          create := create + [i];
        }
      }
    }
  }

  // ---- one operation ----

  /** An operation after its payload was sanitized. */
  datatype Op =
    | Create(patch: Patch)
    | Update(id: int, change: Patch)
    | Delete(gone: int)
    | SetMode(to: Mode)
    | CreateBulk(patches: seq<Patch>)
    | DisableBulk(ids: seq<int>)

  predicate SaneOp(op: Op) {
    match op
    case Create(p) => SanePatch(p) && FullPatch(p)
    case Update(_, p) => SanePatch(p)
    case CreateBulk(ps) => |ps| <= MAX_BULK_RULES && forall i :: 0 <= i < |ps| ==> SanePatch(ps[i]) && FullPatch(ps[i])
    case _ => true
  }

  /** The rules a bulk payload asks for; the id is only known once a rule is inserted. */
  function Drafts(ps: seq<Patch>): seq<Rule>
    requires forall i :: 0 <= i < |ps| ==> FullPatch(ps[i])
  {
    seq(|ps|, i requires 0 <= i < |ps| => NewRule(ps[i], 0))
  }

  function Inserted(drafts: seq<Rule>, picked: seq<nat>, nextId: int): seq<Rule>
    requires forall i :: 0 <= i < |picked| ==> picked[i] < |drafts|
  {
    seq(|picked|, i requires 0 <= i < |picked| => drafts[picked[i]].(id := nextId + i))
  }

  lemma {:induction false} CreateInRange(existing: seq<Rule>, keys: seq<Key>, n: nat)
    requires n <= |keys|
    ensures forall i :: 0 <= i < |ToCreate(existing, keys, n)| ==> ToCreate(existing, keys, n)[i] < n
  {
    if n > 0 { CreateInRange(existing, keys, n - 1); }
  }

  /** What a bulk creation wants to store. */
  function BulkCandidate(s: State, ps: seq<Patch>): State
    requires forall i :: 0 <= i < |ps| ==> FullPatch(ps[i])
  {
    var drafts := Drafts(ps);
    var picked := ToCreate(s.rules, Keys(drafts), |drafts|);
    CreateInRange(s.rules, Keys(drafts), |drafts|);
    State(s.mode,
          SetEnabled(s.rules, ToReenable(s.rules, Keys(drafts), |drafts|), true) + Inserted(drafts, picked, s.nextId),
          s.nextId + |picked|)
  }

  lemma {:induction false} BulkCandidateIs(s: State, ps: seq<Patch>, picked: seq<nat>, reIds: seq<int>)
    requires forall i :: 0 <= i < |ps| ==> FullPatch(ps[i])
    requires picked == ToCreate(s.rules, Keys(Drafts(ps)), |ps|) && reIds == ToReenable(s.rules, Keys(Drafts(ps)), |ps|)
    ensures forall i :: 0 <= i < |picked| ==> picked[i] < |Drafts(ps)|
    ensures BulkCandidate(s, ps)
      == State(s.mode, SetEnabled(s.rules, reIds, true) + Inserted(Drafts(ps), picked, s.nextId), s.nextId + |picked|)
    ensures |BulkCandidate(s, ps).rules| == |s.rules| + |picked|
  {
    CreateInRange(s.rules, Keys(Drafts(ps)), |ps|);
    SetEnabledLength(s.rules, reIds, true);
  }

  /** The checks of an operation, made under the row lock. */
  predicate Admitted(s: State, op: Op, ifaces: nat)
    requires SaneOp(op)
  {
    match op
    case Create(p) => |s.rules| < MAX_RULES_PER_AGENT && WithinLines(s.rules + [NewRule(p, s.nextId)], ifaces)
    case Update(id, p) =>
      var found, rules := Find(s.rules, id), MergeAt(s.rules, id, p);
      && found.Some?
      && (CanGrow(p) ==> RuleLineCount(Merged(found.value, p)) <= MAX_LINES_PER_RULE && WithinLines(rules, ifaces))
      && NotEmptyRestricted(s.mode, rules)
    case Delete(id) => Find(s.rules, id).Some? && NotEmptyRestricted(s.mode, Without(s.rules, id))
    case SetMode(m) => NotEmptyRestricted(m, s.rules) && WithinLines(s.rules, ifaces)
    case CreateBulk(ps) =>
      var t := BulkCandidate(s, ps);
      |t.rules| <= MAX_RULES_PER_AGENT && WithinLines(t.rules, ifaces)
    case DisableBulk(ids) =>
      && 1 <= |ids| <= MAX_BULK_DISABLE
      && (forall i :: 0 <= i < |ids| ==> Find(s.rules, ids[i]).Some?)
      && NotEmptyRestricted(s.mode, SetEnabled(s.rules, ids, false))
  }

  /** The state after one operation; a rejected operation leaves it as it is. */
  function Step(s: State, op: Op, ifaces: nat): State
    requires SaneOp(op)
  {
    if !Admitted(s, op, ifaces) then s
    else
      match op
      case Create(p) => State(s.mode, s.rules + [NewRule(p, s.nextId)], s.nextId + 1)
      case Update(id, p) => s.(rules := MergeAt(s.rules, id, p))
      case Delete(id) => s.(rules := Without(s.rules, id))
      case SetMode(m) => s.(mode := m)
      case CreateBulk(ps) => BulkCandidate(s, ps)
      case DisableBulk(ids) => s.(rules := SetEnabled(s.rules, ids, false))
  }

  // ---- requests as operations ----

  function CreateOp(d: RuleData): (r: Option<Op>)
    ensures r.Some? ==> SaneOp(r.value)
  {
    var p := Sanitized(d, false);
    if p.Some? then Some(Op.Create(p.value)) else None
  }

  function UpdateOp(id: int, d: RuleData): (r: Option<Op>)
    ensures r.Some? ==> SaneOp(r.value)
  {
    var p := Sanitized(d, true);
    if p.Some? then Some(Op.Update(id, p.value)) else None
  }

  predicate AcceptableList(list: seq<RuleData>) {
    1 <= |list| <= MAX_BULK_RULES && forall i :: 0 <= i < |list| ==> Sanitized(list[i], false).Some?
  }

  /** A bulk payload with one refused entry is refused. */
  function BulkOp(list: seq<RuleData>): (r: Option<Op>)
    ensures r.Some? ==> SaneOp(r.value)
  {
    if !AcceptableList(list) then None
    else Some(Op.CreateBulk(seq(|list|, i requires 0 <= i < |list| => Sanitized(list[i], false).value)))
  }

  /** A request leads from s to t and reports ok: refused payloads and operations change nothing. */
  predicate Performed(s: State, op: Option<Op>, ifaces: nat, t: State, ok: bool)
    requires op.Some? ==> SaneOp(op.value)
  {
    && t == (if op.Some? then Step(s, op.value, ifaces) else s)
    && ok == (op.Some? && Admitted(s, op.value, ifaces))
  }

  /** The existing rules, some switched back on, and the fresh ones behind them. */
  method BulkRuleset(s: State, ps: seq<Patch>) returns (t: State)
    requires forall i :: 0 <= i < |ps| ==> FullPatch(ps[i])
    ensures t == BulkCandidate(s, ps)
  {
    var drafts := Drafts(ps);
    var create, reIds, _ := BulkDedupe(s.rules, drafts);
    BulkCandidateIs(s, ps, create, reIds);
    t := State(s.mode, SetEnabled(s.rules, reIds, true) + Inserted(drafts, create, s.nextId), s.nextId + |create|);
  }

  /** Every entry sanitized as a full payload, or nothing. */
  method SanitizeBulkList(list: seq<RuleData>) returns (r: Option<seq<Patch>>)
    ensures r.Some? <==> AcceptableList(list)
    ensures r.Some? ==> BulkOp(list) == Some(Op.CreateBulk(r.value))
  {
    if |list| < 1 || |list| > MAX_BULK_RULES { return None; }
    var clean: seq<Patch> := [];
    for i := 0 to |list|
      invariant |clean| == i && forall j :: 0 <= j < i ==> Sanitized(list[j], false) == Some(clean[j])
    {
      var c := SanitizeIngressRule(list[i], false);
      if c.None? { return None; }
      clean := clean + [c.value];
    }
    assert AcceptableList(list);
    assert clean == seq(|list|, i requires 0 <= i < |list| => Sanitized(list[i], false).value);
    return Some(clean);
  }

  // ---- the service: payloads in, state changed in place ----

  class AgentIngress {
    const ifaces: nat
    var mode: Mode
    var rules: seq<Rule>
    var nextId: int

    ghost function Now(): State
      reads this
    {
      State(mode, rules, nextId)
    }

    constructor (n: nat)
      ensures ifaces == n && Now() == EMPTY
    {
      ifaces, mode, rules, nextId := n, Open, [], 1;
    }

    method Create(d: RuleData) returns (ok: bool)
      modifies this
      ensures Performed(old(Now()), CreateOp(d), ifaces, Now(), ok)
    {
      var clean := SanitizeIngressRule(d, false);
      if clean.None? { return false; }
      if |rules| >= MAX_RULES_PER_AGENT { return false; }
      var rule := NewRule(clean.value, nextId);
      if !WithinLines(rules + [rule], ifaces) { return false; }
      rules, nextId := rules + [rule], nextId + 1;
      return true;
    }

    method Update(id: int, d: RuleData) returns (ok: bool)
      modifies this
      ensures Performed(old(Now()), UpdateOp(id, d), ifaces, Now(), ok)
    {
      var clean := SanitizeIngressRule(d, true);
      if clean.None? { return false; }
      var existing := Find(rules, id);
      if existing.None? { return false; }
      var merged := Merged(existing.value, clean.value);
      var after := MergeAt(rules, id, clean.value);
      if CanGrow(clean.value) {
        if RuleLineCount(merged) > MAX_LINES_PER_RULE || !WithinLines(after, ifaces) { return false; }
      }
      if !NotEmptyRestricted(mode, after) { return false; }
      rules := after;
      return true;
    }

    method Delete(id: int) returns (ok: bool)
      modifies this
      ensures Performed(old(Now()), Some(Op.Delete(id)), ifaces, Now(), ok)
    {
      var row := Find(rules, id);
      if row.None? { return false; }
      if !NotEmptyRestricted(mode, Without(rules, id)) { return false; }
      rules := Without(rules, id);
      return true;
    }

    method SetMode(m: Mode) returns (ok: bool)
      modifies this
      ensures Performed(old(Now()), Some(Op.SetMode(m)), ifaces, Now(), ok)
    {
      if !NotEmptyRestricted(m, rules) || !WithinLines(rules, ifaces) { return false; }
      mode := m;
      return true;
    }

    method CreateBulk(list: seq<RuleData>) returns (ok: bool)
      modifies this
      ensures Performed(old(Now()), BulkOp(list), ifaces, Now(), ok)
    {
      var clean := SanitizeBulkList(list);
      if clean.None? { return false; }
      var t := BulkRuleset(State(mode, rules, nextId), clean.value);
      if |t.rules| > MAX_RULES_PER_AGENT || !WithinLines(t.rules, ifaces) { return false; }
      rules, nextId := t.rules, t.nextId;
      return true;
    }

    method DisableBulk(ids: seq<int>) returns (ok: bool)
      modifies this
      ensures Performed(old(Now()), Some(Op.DisableBulk(ids)), ifaces, Now(), ok)
    {
      if |ids| < 1 || |ids| > MAX_BULK_DISABLE { return false; }
      if exists i :: 0 <= i < |ids| && Find(rules, ids[i]).None? { return false; }
      var after := SetEnabled(rules, ids, false);
      if !NotEmptyRestricted(mode, after) { return false; }
      rules := after;
      return true;
    }
  }

  const EMPTY := State(Open, [], 1)

  lemma {:induction false} SetEnabledLength(rules: seq<Rule>, ids: seq<int>, on: bool)
    ensures |SetEnabled(rules, ids, on)| == |rules|
    ensures forall i :: 0 <= i < |rules| ==>
      SetEnabled(rules, ids, on)[i] == if rules[i].id in ids then rules[i].(enabled := on) else rules[i]
  {
    if rules != [] { SetEnabledLength(rules[..|rules| - 1], ids, on); }
  }
}
