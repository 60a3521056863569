/** Site-to-site isolation, pure part (backend/internal/site-isolation-rules.js):
    networks of a site, plan, nft table and the verdict of the tester. */
module SiteRules {
  import opened Wrappers
  import opened Seqs
  import opened Powers
  import opened Ipv4Nets

  datatype LinkType = SiteToSite | HubLink | Client | Untyped

  /** `live` = there is a live record of the link now or a cached one. */
  datatype Link = Link(id: string, ltype: LinkType, imported: seq<Text>, tunnel: seq<Text>, live: bool)

  datatype Pair = Pair(a: string, b: string)

  predicate IsSiteLink(l: Link) { l.ltype.SiteToSite? || l.ltype.HubLink? }

  // ---- siteNetworks ----

  datatype Reason = Ipv6Unsupported | Invalid | DefaultRoute
  datatype Skip = Skip(value: Text, reason: Reason)

  function ImportedSkip(t: Text): Option<Reason> {
    if t.Colons? then Some(Ipv6Unsupported)
    else if CanonicalCidr(t).None? then Some(Invalid)
    else if CanonicalCidr(t).value.prefix == 0 then Some(DefaultRoute)
    else None
  }

  function TunnelHost(t: Text): Option<Cidr> {
    var c := CanonicalCidr(t);
    if c.Some? && c.value.prefix == 32 then c else None
  }

  function ImportedNets(ts: seq<Text>): seq<Cidr> {
    if ts == [] then []
    else
      var t := ts[|ts| - 1];
      ImportedNets(ts[..|ts| - 1]) + (if ImportedSkip(t).None? then [CanonicalCidr(t).value] else [])
  }

  function TunnelNets(ts: seq<Text>): seq<Cidr> {
    if ts == [] then []
    else
      var t := ts[|ts| - 1];
      TunnelNets(ts[..|ts| - 1]) + (if TunnelHost(t).Some? then [TunnelHost(t).value] else [])
  }

  /** The accepted networks of a link, in input order and with repetitions. */
  function Accepted(l: Link): seq<Cidr> { ImportedNets(l.imported) + TunnelNets(l.tunnel) }

  function ImportedSkips(ts: seq<Text>): seq<Skip> {
    if ts == [] then []
    else
      var t := ts[|ts| - 1];
      ImportedSkips(ts[..|ts| - 1]) + (if ImportedSkip(t).Some? then [Skip(t, ImportedSkip(t).value)] else [])
  }

  function TunnelSkips(ts: seq<Text>): seq<Skip> {
    if ts == [] then []
    else
      var t := ts[|ts| - 1];
      TunnelSkips(ts[..|ts| - 1]) + (if TunnelHost(t).None? && !t.Empty? then [Skip(t, Invalid)] else [])
  }

  function Uniq(s: seq<Cidr>): seq<Cidr> {
    if s == [] then []
    else
      var u, x := Uniq(s[..|s| - 1]), s[|s| - 1];
      if x in u then u else u + [x]
  }

  predicate AllCanonical(s: seq<Cidr>) {
    forall i :: 0 <= i < |s| ==> Canonical(s[i])
  }

  /** Inside no other network of the list. */
  predicate IsOutermost(n: Cidr, all: seq<Cidr>)
    requires AllCanonical(all)
  {
    forall i :: 0 <= i < |all| ==> all[i] == n || !CidrContains(all[i], n)
  }

  function Outermost(s: seq<Cidr>, all: seq<Cidr>): seq<Cidr>
    requires AllCanonical(all)
  {
    if s == [] then []
    else Outermost(s[..|s| - 1], all) + (if IsOutermost(s[|s| - 1], all) then [s[|s| - 1]] else [])
  }

  predicate Before(x: Cidr, y: Cidr) {
    x.addr < y.addr || (x.addr == y.addr && x.prefix < y.prefix)
  }

  function InsertNet(c: Cidr, list: seq<Cidr>): seq<Cidr> {
    if list == [] || Before(c, list[0]) then [c] + list
    else [list[0]] + InsertNet(c, list[1..])
  }

  function SortNets(list: seq<Cidr>): seq<Cidr> {
    if list == [] then [] else InsertNet(list[|list| - 1], SortNets(list[..|list| - 1]))
  }

  /** The networks of a site for its nft set. */
  function Nets(raw: seq<Cidr>): seq<Cidr>
    requires AllCanonical(raw)
  {
    UniqElements(raw);
    var u := Uniq(raw);
    SortNets(Outermost(u, u))
  }

  method SiteNetworks(l: Link) returns (nets: seq<Cidr>, skipped: seq<Skip>)
    ensures AllCanonical(Accepted(l)) && nets == Nets(Accepted(l))
    ensures skipped == ImportedSkips(l.imported) + TunnelSkips(l.tunnel)
  {
    skipped := [];
    var raw: seq<Cidr> := [];
    for i := 0 to |l.imported|
      invariant raw == ImportedNets(l.imported[..i]) && skipped == ImportedSkips(l.imported[..i])
    {
      var v := l.imported[i];
      assert l.imported[..i + 1][..i] == l.imported[..i];
      var c := CanonicalCidr(v);
      if v.Colons? {
        skipped := skipped + [Skip(v, Ipv6Unsupported)];
      } else if c.None? {
        skipped := skipped + [Skip(v, Invalid)];
      } else if c.value.prefix == 0 {
        skipped := skipped + [Skip(v, DefaultRoute)];
      } else {
        raw := raw + [c.value];
      }
    }
    assert l.imported[..|l.imported|] == l.imported;
    var imported, skips := raw, skipped;
    for i := 0 to |l.tunnel|
      invariant raw == imported + TunnelNets(l.tunnel[..i]) && skipped == skips + TunnelSkips(l.tunnel[..i])
    {
      var v := l.tunnel[i];
      assert l.tunnel[..i + 1][..i] == l.tunnel[..i];
      var c := CanonicalCidr(v);
      if c.Some? && c.value.prefix == 32 {
        raw := raw + [c.value];
      } else if !v.Empty? {
        skipped := skipped + [Skip(v, Invalid)];
      }
    }
    assert l.tunnel[..|l.tunnel|] == l.tunnel;
    AcceptedCanonical(l);
    nets := Nets(raw);
  }

  lemma {:induction false} ImportedCanonical(ts: seq<Text>)
    ensures AllCanonical(ImportedNets(ts))
    ensures forall c :: c in ImportedNets(ts) ==> c.prefix > 0
  {
    if ts != [] {
      ImportedCanonical(ts[..|ts| - 1]);
      CanonicalCidrSound(ts[|ts| - 1]);
    }
  }

  lemma {:induction false} TunnelCanonical(ts: seq<Text>)
    ensures AllCanonical(TunnelNets(ts))
    ensures forall c :: c in TunnelNets(ts) ==> c.prefix > 0
  {
    if ts != [] {
      TunnelCanonical(ts[..|ts| - 1]);
      CanonicalCidrSound(ts[|ts| - 1]);
    }
  }

  /** Only canonical networks are accepted, and never a default route. */
  lemma AcceptedCanonical(l: Link)
    ensures AllCanonical(Accepted(l))
    ensures forall c :: c in Accepted(l) ==> c.prefix > 0
  {
    ImportedCanonical(l.imported);
    TunnelCanonical(l.tunnel);
  }

  // ---- elements of the intermediate lists ----

  predicate NoDuplicates(s: seq<Cidr>) {
    forall i, j :: 0 <= i < j < |s| ==> s[i] != s[j]
  }

  lemma {:induction false} UniqElements(s: seq<Cidr>)
    ensures forall c :: c in Uniq(s) <==> c in s
    ensures NoDuplicates(Uniq(s))
    ensures AllCanonical(s) ==> AllCanonical(Uniq(s))
  {
    if s != [] {
      UniqElements(s[..|s| - 1]);
      assert s == s[..|s| - 1] + [s[|s| - 1]];
      if AllCanonical(s) {
        forall i | 0 <= i < |Uniq(s)| ensures Canonical(Uniq(s)[i]) {
          assert Uniq(s)[i] in s;
        }
      }
    }
  }

  lemma {:induction false} OutermostElements(s: seq<Cidr>, all: seq<Cidr>)
    requires AllCanonical(all)
    ensures forall c :: c in Outermost(s, all) <==> c in s && IsOutermost(c, all)
    ensures NoDuplicates(s) ==> NoDuplicates(Outermost(s, all))
  {
    if s != [] {
      OutermostElements(s[..|s| - 1], all);
      assert s == s[..|s| - 1] + [s[|s| - 1]];
    }
  }

  predicate Ordered(s: seq<Cidr>) {
    forall i, j :: 0 <= i < j < |s| ==> Before(s[i], s[j])
  }

  lemma {:induction false} InsertNetOrdered(c: Cidr, list: seq<Cidr>)
    requires Ordered(list) && c !in list
    ensures Ordered(InsertNet(c, list))
    ensures forall x :: x in InsertNet(c, list) <==> x == c || x in list
  {
    if list == [] || Before(c, list[0]) {
    } else {
      assert list == [list[0]] + list[1..];
      InsertNetOrdered(c, list[1..]);
      var r := InsertNet(c, list[1..]);
      forall i | 0 <= i < |r| ensures Before(list[0], r[i]) {
        assert r[i] == c || r[i] in list[1..];
      }
    }
  }

  lemma {:induction false} SortNetsOrdered(list: seq<Cidr>)
    requires NoDuplicates(list)
    ensures Ordered(SortNets(list))
    ensures forall x :: x in SortNets(list) <==> x in list
  {
    if list != [] {
      var n := |list| - 1;
      SortNetsOrdered(list[..n]);
      assert list == list[..n] + [list[n]];
      InsertNetOrdered(list[n], SortNets(list[..n]));
    }
  }

  /** The result: exactly the accepted networks that lie in no other accepted one, in address order. */
  lemma NetsElements(raw: seq<Cidr>)
    requires AllCanonical(raw)
    ensures Ordered(Nets(raw)) && AllCanonical(Nets(raw))
    ensures forall c :: c in Nets(raw) <==> c in raw && IsOutermost(c, raw)
  {
    UniqElements(raw);
    var u := Uniq(raw);
    OutermostElements(u, u);
    SortNetsOrdered(Outermost(u, u));
    forall c ensures c in Nets(raw) <==> c in raw && IsOutermost(c, raw) {
      SameOutermost(c, u, raw);
    }
    forall i | 0 <= i < |Nets(raw)| ensures Canonical(Nets(raw)[i]) {
      assert Nets(raw)[i] in raw;
    }
  }

  lemma SameOutermost(c: Cidr, s: seq<Cidr>, t: seq<Cidr>)
    requires AllCanonical(s) && AllCanonical(t) && forall x :: x in s <==> x in t
    ensures IsOutermost(c, s) <==> IsOutermost(c, t)
  {
    if IsOutermost(c, s) {
      forall i | 0 <= i < |t| ensures t[i] == c || !CidrContains(t[i], c) { assert t[i] in s; }
    }
    if IsOutermost(c, t) {
      forall i | 0 <= i < |s| ensures s[i] == c || !CidrContains(s[i], c) { assert s[i] in t; }
    }
  }

  /** Every network lies in an outermost one. */
  lemma {:induction false} HasOutermost(c: Cidr, all: seq<Cidr>) returns (o: Cidr)
    requires AllCanonical(all) && c in all
    ensures o in all && IsOutermost(o, all) && CidrContains(o, c)
    decreases c.prefix
  {
    ContainsIsInclusion(c, c);
    if IsOutermost(c, all) {
      o := c;
    } else {
      var i :| 0 <= i < |all| && all[i] != c && CidrContains(all[i], c);
      var bigger := all[i];
      if bigger.prefix == c.prefix {
        MaskOfAligned(c.addr, bigger.addr, c.prefix);
        MaskOfAligned(bigger.addr, c.addr, c.prefix);
        assert false;
      }
      o := HasOutermost(bigger, all);
      ContainsTransitive(o, bigger, c);
    }
  }

  ghost predicate InSet(nets: seq<Cidr>, x: int) {
    exists i :: 0 <= i < |nets| && InNet(nets[i], x)
  }

  /** The set of a site: pairwise disjoint networks with the same union as the accepted ones. */
  lemma NetsDisjointSameUnion(raw: seq<Cidr>)
    requires AllCanonical(raw)
    ensures AllCanonical(Nets(raw))
    ensures forall i, j, x: int :: 0 <= i < j < |Nets(raw)| && InNet(Nets(raw)[i], x) ==> !InNet(Nets(raw)[j], x)
    ensures forall x :: InSet(Nets(raw), x) <==> InSet(raw, x)
  {
    var nets := Nets(raw);
    NetsElements(raw);
    forall i, j, x: int | 0 <= i < j < |nets| && InNet(nets[i], x) ensures !InNet(nets[j], x) {
      NestedOrDisjoint(nets[i], nets[j]);
      assert nets[i] in nets && nets[j] in nets;
      assert IsOutermost(nets[i], raw) && IsOutermost(nets[j], raw);
    }
    forall x ensures InSet(nets, x) <==> InSet(raw, x) {
      if InSet(nets, x) {
        var i :| 0 <= i < |nets| && InNet(nets[i], x);
        assert nets[i] in raw;
      }
      if InSet(raw, x) {
        var i :| 0 <= i < |raw| && InNet(raw[i], x);
        var o := HasOutermost(raw[i], raw);
        ContainsIsInclusion(o, raw[i]);
        assert o in nets && InNet(o, x);
      }
    }
  }

  lemma {:induction false} OrderedUnique(a: seq<Cidr>, b: seq<Cidr>)
    requires Ordered(a) && Ordered(b) && forall x :: x in a <==> x in b
    ensures a == b
  {
    assert a != [] ==> a[0] in b;
    assert b != [] ==> b[0] in a;
    if a != [] && b != [] {
      assert a == [a[0]] + a[1..] && b == [b[0]] + b[1..];
      assert a[0] in b && b[0] in a;
      assert a[0] == b[0];
      assert a[0] !in a[1..] && b[0] !in b[1..];
      forall x ensures x in a[1..] <==> x in b[1..] {
        assert x in a <==> x == a[0] || x in a[1..];
        assert x in b <==> x == b[0] || x in b[1..];
      }
      OrderedUnique(a[1..], b[1..]);
    }
  }

  /** The result depends on the set of accepted networks only, not on their order or repetition. */
  lemma NetsOrderFree(raw: seq<Cidr>, other: seq<Cidr>)
    requires AllCanonical(raw) && AllCanonical(other) && forall c :: c in raw <==> c in other
    ensures Nets(raw) == Nets(other)
  {
    NetsElements(raw);
    NetsElements(other);
    forall c ensures c in Nets(raw) <==> c in Nets(other) {
      SameOutermost(c, raw, other);
    }
    OrderedUnique(Nets(raw), Nets(other));
  }

  // ---- planSiteIsolation ----

  function ById(links: seq<Link>): (m: map<string, Link>)
    ensures forall id :: id in m ==> m[id] in links && m[id].id == id
    ensures forall l :: l in links ==> l.id in m
  {
    if links == [] then map[]
    else ById(links[..|links| - 1])[links[|links| - 1].id := links[|links| - 1]]
  }

  function NetsOf(l: Link): seq<Cidr> {
    AcceptedCanonical(l);
    Nets(Accepted(l))
  }

  predicate Enforceable(p: Pair, m: map<string, Link>) {
    && p.a in m && p.b in m
    && IsSiteLink(m[p.a]) && IsSiteLink(m[p.b])
    && NetsOf(m[p.a]) != [] && NetsOf(m[p.b]) != []
  }

  function EnforceablePairs(pairs: seq<Pair>, m: map<string, Link>): (r: seq<Pair>)
    ensures forall p :: p in r <==> p in pairs && Enforceable(p, m)
  {
    if pairs == [] then []
    else
      var p := pairs[|pairs| - 1];
      EnforceablePairs(pairs[..|pairs| - 1], m) + (if Enforceable(p, m) then [p] else [])
  }

  datatype Plan = Plan(sites: map<string, seq<Cidr>>, pairs: seq<Pair>)

  function Used(pairs: seq<Pair>): set<string> {
    (set p | p in pairs :: p.a) + (set p | p in pairs :: p.b)
  }

  function PlanOf(pairs: seq<Pair>, links: seq<Link>): Plan {
    var m := ById(links);
    var eff := EnforceablePairs(pairs, m);
    Plan(map id | id in Used(eff) && id in m :: NetsOf(m[id]), eff)
  }

  ghost predicate SitesOf(sites: map<string, seq<Cidr>>, m: map<string, Link>) {
    forall id :: id in sites ==> id in m && sites[id] == NetsOf(m[id])
  }

  /** The site of a link, computed once. */
  method SiteFor(sites: map<string, seq<Cidr>>, m: map<string, Link>, id: string)
    returns (r: map<string, seq<Cidr>>)
    requires SitesOf(sites, m) && id in m
    ensures SitesOf(r, m) && r.Keys == sites.Keys + {id}
  {
    r := sites;
    if id !in sites {
      var nets, _ := SiteNetworks(m[id]);
      r := sites[id := nets];
    }
  }

  method PlanSiteIsolation(pairs: seq<Pair>, links: seq<Link>) returns (plan: Plan)
    ensures plan == PlanOf(pairs, links)
  {
    var m := ById(links);
    var sites: map<string, seq<Cidr>> := map[];
    var effective: seq<Pair> := [];
    for i := 0 to |pairs|
      invariant PlanSoFar(sites, effective, pairs[..i], m)
    {
      EnforceableMore(pairs, i, m);
      sites, effective := PlanPair(pairs[i], m, sites, effective);
    }
    assert pairs[..|pairs|] == pairs;
    PlanDone(sites, effective, pairs, links);
    plan := Plan(map id | id in sites && id in Used(effective) :: sites[id], effective);
  }

  ghost predicate PlanSoFar(sites: map<string, seq<Cidr>>, effective: seq<Pair>, pairs: seq<Pair>, m: map<string, Link>) {
    effective == EnforceablePairs(pairs, m) && SitesOf(sites, m) && Used(effective) <= sites.Keys
  }

  lemma {:induction false} EnforceableMore(pairs: seq<Pair>, i: nat, m: map<string, Link>)
    requires i < |pairs|
    ensures EnforceablePairs(pairs[..i + 1], m) == EnforceablePairs(pairs[..i], m) + if Enforceable(pairs[i], m) then [pairs[i]] else []
  {
    TakeOneMore(pairs, i);
  }

  lemma {:induction false} PlanDone(sites: map<string, seq<Cidr>>, effective: seq<Pair>, pairs: seq<Pair>, links: seq<Link>)
    requires PlanSoFar(sites, effective, pairs, ById(links))
    ensures Plan(map id | id in sites && id in Used(effective) :: sites[id], effective) == PlanOf(pairs, links)
  {
    SitesPlanned(sites, Used(effective), ById(links));
  }

  lemma {:induction false} SitesPlanned(sites: map<string, seq<Cidr>>, used: set<string>, m: map<string, Link>)
    requires SitesOf(sites, m) && used <= sites.Keys
    ensures (map id | id in sites && id in used :: sites[id]) == map id | id in used && id in m :: NetsOf(m[id])
  {
  }

  /** One pair: its sites are looked up, and it is planned when it can be enforced. */
  method PlanPair(p: Pair, m: map<string, Link>, known: map<string, seq<Cidr>>, before: seq<Pair>)
    returns (sites: map<string, seq<Cidr>>, effective: seq<Pair>)
    requires SitesOf(known, m) && Used(before) <= known.Keys
    ensures SitesOf(sites, m) && Used(effective) <= sites.Keys
    ensures effective == before + if Enforceable(p, m) then [p] else []
  {
    sites, effective := known, before;
    if p.a !in m || p.b !in m { return; }
    if !IsSiteLink(m[p.a]) || !IsSiteLink(m[p.b]) { return; }
    sites := SiteFor(sites, m, p.a);
    sites := SiteFor(sites, m, p.b);
    if sites[p.a] == [] || sites[p.b] == [] { return; }
    UsedAdd(effective, p);
    effective := effective + [p];
  }

  lemma UsedAdd(pairs: seq<Pair>, p: Pair)
    ensures Used(pairs + [p]) == Used(pairs) + {p.a, p.b}
  {
    assert p in pairs + [p];
    forall id | id in Used(pairs) ensures id in Used(pairs + [p]) {
      var q :| q in pairs && (id == q.a || id == q.b);
      assert q in pairs + [p];
    }
  }

  // ---- the nft table ----

  datatype DropRule = DropRule(src: string, dst: string)

  /** One interval set per site and the rules of the forward chain (policy accept). */
  datatype Table = Table(sets: map<string, seq<Cidr>>, rules: seq<DropRule>)

  predicate PlanOk(plan: Plan) {
    && (forall p :: p in plan.pairs ==> p.a in plan.sites && p.b in plan.sites)
    && (forall id :: id in plan.sites ==> AllCanonical(plan.sites[id]))
  }

  lemma PlanIsOk(pairs: seq<Pair>, links: seq<Link>)
    ensures PlanOk(PlanOf(pairs, links))
  {
    var m, plan := ById(links), PlanOf(pairs, links);
    forall id | id in plan.sites ensures AllCanonical(plan.sites[id]) {
      AcceptedCanonical(m[id]);
      NetsElements(Accepted(m[id]));
    }
  }

  /** Set names are truncated hashes of the link ids; two sites must not share one. */
  ghost predicate NamesApart(setName: string -> string, ids: set<string>) {
    forall x, y :: x in ids && y in ids && setName(x) == setName(y) ==> x == y
  }

  function RulesOf(pairs: seq<Pair>, setName: string -> string): seq<DropRule> {
    if pairs == [] then []
    else
      var p := pairs[|pairs| - 1];
      RulesOf(pairs[..|pairs| - 1], setName) + PairRules(p, setName)
  }

  function PairRules(p: Pair, setName: string -> string): seq<DropRule> {
    [DropRule(setName(p.a), setName(p.b)), DropRule(setName(p.b), setName(p.a))]
  }

  ghost predicate TableOf(t: Table, plan: Plan, setName: string -> string) {
    && (forall id :: id in plan.sites ==> setName(id) in t.sets && t.sets[setName(id)] == plan.sites[id])
    && t.rules == RulesOf(plan.pairs, setName)
  }

  method BuildSiteIsolationNft(plan: Plan, setName: string -> string) returns (t: Table)
    requires PlanOk(plan) && NamesApart(setName, plan.sites.Keys)
    ensures TableOf(t, plan, setName)
    ensures t.sets.Keys == set id | id in plan.sites :: setName(id)
  {
    var sets := BuildSets(plan, setName);
    var rules := BuildRules(plan.pairs, setName);
    t := Table(sets, rules);
  }

  method BuildSets(plan: Plan, setName: string -> string) returns (sets: map<string, seq<Cidr>>)
    requires NamesApart(setName, plan.sites.Keys)
    ensures sets.Keys == set id | id in plan.sites :: setName(id)
    ensures forall id :: id in plan.sites ==> setName(id) in sets && sets[setName(id)] == plan.sites[id]
  {
    sets := map[];
    var todo := plan.sites.Keys;
    while todo != {}
      invariant todo <= plan.sites.Keys
      invariant sets.Keys == set id | id in plan.sites && id !in todo :: setName(id)
      invariant forall id :: id in plan.sites && id !in todo ==> setName(id) in sets && sets[setName(id)] == plan.sites[id]
      decreases |todo|
    {
      var id :| id in todo;
      sets := sets[setName(id) := plan.sites[id]];
      todo := todo - {id};
    }
  }

  lemma {:induction false} RulesMore(pairs: seq<Pair>, i: nat, rules: seq<DropRule>, setName: string -> string)
    requires i < |pairs| && rules == RulesOf(pairs[..i], setName)
    ensures var p := pairs[i];
      RulesOf(pairs[..i + 1], setName) == rules + [DropRule(setName(p.a), setName(p.b))] + [DropRule(setName(p.b), setName(p.a))]
  {
    var p := pairs[i];
    TakeOneMore(pairs, i);
    Associate(rules, [DropRule(setName(p.a), setName(p.b))], [DropRule(setName(p.b), setName(p.a))]);
    assert PairRules(p, setName) == [DropRule(setName(p.a), setName(p.b))] + [DropRule(setName(p.b), setName(p.a))];
  }

  method BuildRules(pairs: seq<Pair>, setName: string -> string) returns (rules: seq<DropRule>)
    ensures rules == RulesOf(pairs, setName)
  {
    rules := [];
    for i := 0 to |pairs|
      invariant rules == RulesOf(pairs[..i], setName)
    {
      var p := pairs[i];
      RulesMore(pairs, i, rules, setName);
      rules := rules + [DropRule(setName(p.a), setName(p.b))];
      rules := rules + [DropRule(setName(p.b), setName(p.a))];
    }
    assert pairs[..|pairs|] == pairs;
  }

  ghost predicate Matches(t: Table, r: DropRule, src: int, dst: int) {
    r.src in t.sets && r.dst in t.sets && InSet(t.sets[r.src], src) && InSet(t.sets[r.dst], dst)
  }

  /** What the kernel does with a packet: some rule of the chain drops it. */
  ghost predicate Drops(t: Table, src: int, dst: int) {
    exists i :: 0 <= i < |t.rules| && Matches(t, t.rules[i], src, dst)
  }

  ghost predicate PlanDrops(plan: Plan, src: int, dst: int)
    requires PlanOk(plan)
  {
    exists p :: p in plan.pairs && Between(plan, p, src, dst)
  }

  /** The two addresses lie in the two sites of the pair, in either direction. */
  ghost predicate Between(plan: Plan, p: Pair, src: int, dst: int)
    requires PlanOk(plan) && p in plan.pairs
  {
    || (InSet(plan.sites[p.a], src) && InSet(plan.sites[p.b], dst))
    || (InSet(plan.sites[p.b], src) && InSet(plan.sites[p.a], dst))
  }

  lemma {:induction false} RuleOfPair(pairs: seq<Pair>, setName: string -> string)
    ensures forall r :: r in RulesOf(pairs, setName) <==> exists p :: p in pairs && r in PairRules(p, setName)
  {
    if pairs != [] {
      var n := |pairs| - 1;
      RuleOfPair(pairs[..n], setName);
      assert pairs == pairs[..n] + [pairs[n]];
      var last := pairs[n];
      assert last in pairs;
    }
  }

  /** The compiled table drops exactly the packets between the two sites of an enforced pair. */
  lemma TableMeansPlan(t: Table, plan: Plan, setName: string -> string, src: int, dst: int)
    requires PlanOk(plan) && TableOf(t, plan, setName)
    ensures Drops(t, src, dst) <==> PlanDrops(plan, src, dst)
  {
    RuleOfPair(plan.pairs, setName);
    if Drops(t, src, dst) {
      var i :| 0 <= i < |t.rules| && Matches(t, t.rules[i], src, dst);
      assert t.rules[i] in RulesOf(plan.pairs, setName);
    }
    if PlanDrops(plan, src, dst) {
      var p :| p in plan.pairs && Between(plan, p, src, dst);
      var r := if InSet(plan.sites[p.a], src) && InSet(plan.sites[p.b], dst)
        then DropRule(setName(p.a), setName(p.b)) else DropRule(setName(p.b), setName(p.a));
      assert r in t.rules;
      var i :| 0 <= i < |t.rules| && t.rules[i] == r;
      assert Matches(t, t.rules[i], src, dst);
    }
  }

  /** Dropping is symmetric in the two sites. */
  lemma DropsSymmetric(t: Table, plan: Plan, setName: string -> string, src: int, dst: int)
    requires PlanOk(plan) && TableOf(t, plan, setName)
    ensures Drops(t, src, dst) <==> Drops(t, dst, src)
  {
    TableMeansPlan(t, plan, setName, src, dst);
    TableMeansPlan(t, plan, setName, dst, src);
  }

  // ---- siteIsolationVerdict ----

  datatype Verdict = Verdict(blocked: bool, partial: bool, pair: Option<Ref>)
  datatype Ref = Ref(pair: Pair, aToB: bool)

  const OPEN := Verdict(false, false, None)

  predicate InSite(nets: seq<Cidr>, c: Cidr)
    requires AllCanonical(nets)
  {
    exists i :: 0 <= i < |nets| && CidrContains(nets[i], c)
  }

  predicate Touches(nets: seq<Cidr>, c: Cidr)
    requires AllCanonical(nets) && c.prefix <= 32
  {
    exists i :: 0 <= i < |nets| && CidrOverlaps(nets[i], c)
  }

  /** Which pair blocks: the first that holds both ranges, direction a-to-b first. */
  function FindBlocked(plan: Plan, s: Cidr, d: Cidr, i: nat): Option<Ref>
    requires PlanOk(plan) && i <= |plan.pairs|
    decreases |plan.pairs| - i
  {
    if i == |plan.pairs| then None
    else
      var p := plan.pairs[i];
      if InSite(plan.sites[p.a], s) && InSite(plan.sites[p.b], d) then Some(Ref(p, true))
      else if InSite(plan.sites[p.b], s) && InSite(plan.sites[p.a], d) then Some(Ref(p, false))
      else FindBlocked(plan, s, d, i + 1)
  }

  function FindTouched(plan: Plan, s: Cidr, d: Cidr, i: nat): Option<Ref>
    requires PlanOk(plan) && i <= |plan.pairs| && s.prefix <= 32 && d.prefix <= 32
    decreases |plan.pairs| - i
  {
    if i == |plan.pairs| then None
    else
      var p := plan.pairs[i];
      if Touches(plan.sites[p.a], s) && Touches(plan.sites[p.b], d) then Some(Ref(p, true))
      else if Touches(plan.sites[p.b], s) && Touches(plan.sites[p.a], d) then Some(Ref(p, false))
      else FindTouched(plan, s, d, i + 1)
  }

  function VerdictOf(plan: Plan, s: Cidr, d: Cidr): Verdict
    requires PlanOk(plan) && s.prefix <= 32 && d.prefix <= 32
  {
    var b, t := FindBlocked(plan, s, d, 0), FindTouched(plan, s, d, 0);
    if b.Some? then Verdict(true, false, b)
    else if t.Some? then Verdict(false, true, t)
    else OPEN
  }

  method SiteIsolationVerdict(pairs: seq<Pair>, links: seq<Link>, src: Text, dst: Text) returns (v: Verdict)
    ensures PlanOk(PlanOf(pairs, links))
    ensures CanonicalCidr(src).None? || CanonicalCidr(dst).None? ==> v == OPEN
    ensures CanonicalCidr(src).Some? && CanonicalCidr(dst).Some? ==>
      v == VerdictOf(PlanOf(pairs, links), CanonicalCidr(src).value, CanonicalCidr(dst).value)
  {
    PlanIsOk(pairs, links);
    var sc, dc := CanonicalCidr(src), CanonicalCidr(dst);
    if sc.None? || dc.None? { return OPEN; }
    var s, d := sc.value, dc.value;
    var plan := PlanSiteIsolation(pairs, links);
    var partial: Option<Ref> := None;
    for i := 0 to |plan.pairs|
      invariant FindBlocked(plan, s, d, i) == FindBlocked(plan, s, d, 0)
      invariant partial.None? ==> FindTouched(plan, s, d, i) == FindTouched(plan, s, d, 0)
      invariant partial.Some? ==> FindTouched(plan, s, d, 0) == partial
    {
      var p := plan.pairs[i];
      var A, B := plan.sites[p.a], plan.sites[p.b];
      if InSite(A, s) && InSite(B, d) { return Verdict(true, false, Some(Ref(p, true))); }
      if InSite(B, s) && InSite(A, d) { return Verdict(true, false, Some(Ref(p, false))); }
      if partial.None? && Touches(A, s) && Touches(B, d) { partial := Some(Ref(p, true)); }
      if partial.None? && Touches(B, s) && Touches(A, d) { partial := Some(Ref(p, false)); }
    }
    return if partial.Some? then Verdict(false, true, partial) else OPEN;
  }

  predicate BlocksPair(plan: Plan, r: Ref, s: Cidr, d: Cidr)
    requires PlanOk(plan)
  {
    r.pair in plan.pairs &&
    var x, y := if r.aToB then r.pair.a else r.pair.b, if r.aToB then r.pair.b else r.pair.a;
    InSite(plan.sites[x], s) && InSite(plan.sites[y], d)
  }

  predicate TouchesPair(plan: Plan, r: Ref, s: Cidr, d: Cidr)
    requires PlanOk(plan) && s.prefix <= 32 && d.prefix <= 32
  {
    r.pair in plan.pairs &&
    var x, y := if r.aToB then r.pair.a else r.pair.b, if r.aToB then r.pair.b else r.pair.a;
    Touches(plan.sites[x], s) && Touches(plan.sites[y], d)
  }

  lemma {:induction false} FindBlockedFinds(plan: Plan, s: Cidr, d: Cidr, i: nat)
    requires PlanOk(plan) && i <= |plan.pairs|
    ensures var f := FindBlocked(plan, s, d, i);
      if f.Some? then BlocksPair(plan, f.value, s, d)
      else forall k, dir :: i <= k < |plan.pairs| ==> !BlocksPair(plan, Ref(plan.pairs[k], dir), s, d)
    decreases |plan.pairs| - i
  {
    if i < |plan.pairs| {
      assert plan.pairs[i] in plan.pairs;
      FindBlockedFinds(plan, s, d, i + 1);
    }
  }

  lemma {:induction false} FindTouchedFinds(plan: Plan, s: Cidr, d: Cidr, i: nat)
    requires PlanOk(plan) && i <= |plan.pairs| && s.prefix <= 32 && d.prefix <= 32
    ensures var f := FindTouched(plan, s, d, i);
      if f.Some? then TouchesPair(plan, f.value, s, d)
      else forall k, dir :: i <= k < |plan.pairs| ==> !TouchesPair(plan, Ref(plan.pairs[k], dir), s, d)
    decreases |plan.pairs| - i
  {
    if i < |plan.pairs| {
      assert plan.pairs[i] in plan.pairs;
      FindTouchedFinds(plan, s, d, i + 1);
    }
  }

  lemma InSiteCovers(nets: seq<Cidr>, c: Cidr)
    requires AllCanonical(nets) && Canonical(c)
    ensures InSite(nets, c) ==> forall x :: InNet(c, x) ==> InSet(nets, x)
    ensures Touches(nets, c) <==> exists x: int :: InNet(c, x) && InSet(nets, x)
    ensures c.prefix == 32 ==> (InSite(nets, c) <==> InSet(nets, c.addr))
  {
    if InSite(nets, c) {
      var i :| 0 <= i < |nets| && CidrContains(nets[i], c);
      ContainsIsInclusion(nets[i], c);
    }
    if Touches(nets, c) {
      var i :| 0 <= i < |nets| && CidrOverlaps(nets[i], c);
      NestedOrDisjoint(nets[i], c);
      var x: int :| InNet(nets[i], x) && InNet(c, x);
      assert InSet(nets, x);
    }
    if x: int :| InNet(c, x) && InSet(nets, x) {
      var i :| 0 <= i < |nets| && InNet(nets[i], x);
      NestedOrDisjoint(nets[i], c);
    }
    if c.prefix == 32 && InSet(nets, c.addr) {
      var i :| 0 <= i < |nets| && InNet(nets[i], c.addr);
      ContainsHost(nets[i], c.addr);
    }
    if c.prefix == 32 { assert InNet(c, c.addr); }
  }

  /** blocked: every packet between the two ranges is dropped. */
  lemma BlockedDropsAll(plan: Plan, s: Cidr, d: Cidr, x: int, y: int)
    requires PlanOk(plan) && Canonical(s) && Canonical(d) && InNet(s, x) && InNet(d, y)
    requires VerdictOf(plan, s, d).blocked
    ensures PlanDrops(plan, x, y)
  {
    FindBlockedFinds(plan, s, d, 0);
    var p := VerdictOf(plan, s, d).pair.value.pair;
    InSiteCovers(plan.sites[p.a], s);
    InSiteCovers(plan.sites[p.b], s);
    InSiteCovers(plan.sites[p.a], d);
    InSiteCovers(plan.sites[p.b], d);
  }

  /** Something is dropped between the ranges exactly when the verdict is blocked or partial. */
  lemma TouchedDropsSome(plan: Plan, s: Cidr, d: Cidr)
    requires PlanOk(plan) && Canonical(s) && Canonical(d)
    ensures var v := VerdictOf(plan, s, d);
      (v.blocked || v.partial) <==> exists x: int, y: int :: InNet(s, x) && InNet(d, y) && PlanDrops(plan, x, y)
  {
    var v := VerdictOf(plan, s, d);
    FindBlockedFinds(plan, s, d, 0);
    FindTouchedFinds(plan, s, d, 0);
    if v.blocked {
      assert InNet(s, s.addr) && InNet(d, d.addr);
      BlockedDropsAll(plan, s, d, s.addr, d.addr);
    } else if v.partial {
      TouchedWitness(plan, v.pair.value, s, d);
    }
    if x: int, y: int :| InNet(s, x) && InNet(d, y) && PlanDrops(plan, x, y) {
      var p :| p in plan.pairs && Between(plan, p, x, y);
      InSiteCovers(plan.sites[p.a], s);
      InSiteCovers(plan.sites[p.b], s);
      InSiteCovers(plan.sites[p.a], d);
      InSiteCovers(plan.sites[p.b], d);
      var k :| 0 <= k < |plan.pairs| && plan.pairs[k] == p;
      assert TouchesPair(plan, Ref(plan.pairs[k], true), s, d) || TouchesPair(plan, Ref(plan.pairs[k], false), s, d);
    }
  }

  lemma TouchedWitness(plan: Plan, r: Ref, s: Cidr, d: Cidr)
    requires PlanOk(plan) && Canonical(s) && Canonical(d) && TouchesPair(plan, r, s, d)
    ensures exists x: int, y: int :: InNet(s, x) && InNet(d, y) && PlanDrops(plan, x, y)
  {
    var p := r.pair;
    var u, w := if r.aToB then p.a else p.b, if r.aToB then p.b else p.a;
    InSiteCovers(plan.sites[u], s);
    InSiteCovers(plan.sites[w], d);
    var x: int :| InNet(s, x) && InSet(plan.sites[u], x);
    var y: int :| InNet(d, y) && InSet(plan.sites[w], y);
    assert PlanDrops(plan, x, y);
  }

  /** For single hosts the verdict is exact: blocked if and only if the packet is dropped. */
  lemma HostVerdictExact(plan: Plan, x: Addr, y: Addr)
    requires PlanOk(plan)
    ensures VerdictOf(plan, Host(x), Host(y)).blocked <==> PlanDrops(plan, x, y)
    ensures !VerdictOf(plan, Host(x), Host(y)).partial
  {
    var s, d := Host(x), Host(y);
    assert Pow2(0) == 1;
    FindBlockedFinds(plan, s, d, 0);
    TouchedDropsSome(plan, s, d);
    if VerdictOf(plan, s, d).blocked { BlockedDropsAll(plan, s, d, x, y); }
    if PlanDrops(plan, x, y) {
      var p :| p in plan.pairs && Between(plan, p, x, y);
      InSiteCovers(plan.sites[p.a], s);
      InSiteCovers(plan.sites[p.b], s);
      InSiteCovers(plan.sites[p.a], d);
      InSiteCovers(plan.sites[p.b], d);
      var k :| 0 <= k < |plan.pairs| && plan.pairs[k] == p;
      assert BlocksPair(plan, Ref(plan.pairs[k], true), s, d) || BlocksPair(plan, Ref(plan.pairs[k], false), s, d);
    }
  }

  /** The verdict of the tester agrees with the compiled table. */
  lemma VerdictAgreesWithTable(t: Table, plan: Plan, setName: string -> string, s: Cidr, d: Cidr)
    requires PlanOk(plan) && TableOf(t, plan, setName) && Canonical(s) && Canonical(d)
    ensures var v := VerdictOf(plan, s, d);
      && (v.blocked ==> forall x: int, y: int :: InNet(s, x) && InNet(d, y) ==> Drops(t, x, y))
      && (v.partial ==> !v.blocked && exists x: int, y: int :: InNet(s, x) && InNet(d, y) && Drops(t, x, y))
      && (!v.blocked && !v.partial ==> forall x: int, y: int :: InNet(s, x) && InNet(d, y) ==> !Drops(t, x, y))
      && (s.prefix == 32 && d.prefix == 32 ==> (v.blocked <==> Drops(t, s.addr, d.addr)))
  {
    var v := VerdictOf(plan, s, d);
    TouchedDropsSome(plan, s, d);
    forall x: int, y: int ensures Drops(t, x, y) <==> PlanDrops(plan, x, y) {
      TableMeansPlan(t, plan, setName, x, y);
    }
    if v.blocked {
      forall x: int, y: int | InNet(s, x) && InNet(d, y) ensures Drops(t, x, y) {
        BlockedDropsAll(plan, s, d, x, y);
      }
    }
    if v.partial {
      var x: int, y: int :| InNet(s, x) && InNet(d, y) && PlanDrops(plan, x, y);
      assert Drops(t, x, y);
    }
    if s.prefix == 32 && d.prefix == 32 {
      HostVerdictExact(plan, s.addr, d.addr);
    }
  }
}
