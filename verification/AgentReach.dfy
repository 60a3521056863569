/** Which other-site networks an agent may reach (backend/internal/agent.js), and what a removal
    from the mesh's metadata does to its config. */
module AgentReach {
  import opened Wrappers
  import opened ConfigText
  import opened AgentConfig
  import opened AgentSync

  datatype Link = Link(name: string, client: bool, nets: seq<string>)

  /** The agent's access lists; None when unset. */
  datatype Acl = Acl(networks: Option<seq<string>>, sites: Option<set<string>>)

  datatype Reach = Reach(nets: seq<string>, overlaps: seq<string>, supernets: seq<string>, orphans: seq<string>)

  function Filter<T(==,!new)>(xs: seq<T>, p: T -> bool): (r: seq<T>)
    ensures forall x :: x in r <==> x in xs && p(x)
  {
    if xs == [] then [] else (if p(xs[0]) then [xs[0]] else []) + Filter(xs[1..], p)
  }

  function NameCount(links: seq<Link>, name: string): nat {
    if links == [] then 0 else NameCount(links[..|links| - 1], name) + (if links[|links| - 1].name == name then 1 else 0)
  }

  /** The index by name: links without a name and links that share one are left out. */
  function LinksByName(links: seq<Link>): seq<Link> {
    Filter(links, (l: Link) => l.name != "" && NameCount(links, l.name) == 1)
  }

  /** Networks of site-to-site links only; a piece of the default route never counts. */
  function SiteNets(links: seq<Link>, acceptable: string -> bool): seq<string> {
    if links == [] then []
    else
      var rest := SiteNets(links[..|links| - 1], acceptable);
      if links[|links| - 1].client then rest else rest + Filter(links[|links| - 1].nets, acceptable)
  }

  predicate AnyOf(own: seq<string>, p: string -> bool) { exists o :: o in own && p(o) }

  predicate InsideOwn(n: string, own: seq<string>, guard: bool, contains: (string, string) -> bool) {
    guard && AnyOf(own, o => contains(o, n))
  }

  predicate CoversOwn(n: string, own: seq<string>, guard: bool, contains: (string, string) -> bool) {
    guard && !InsideOwn(n, own, guard, contains) && AnyOf(own, o => contains(n, o))
  }

  /** A whitelisted site link (never a client link) of the index lists the net. */
  predicate Lists(l: Link, n: string, sites: set<string>) { !l.client && l.name in sites && n in l.nets }

  predicate OnWhitelist(n: string, sites: set<string>, byName: seq<Link>) {
    exists l :: l in byName && Lists(l, n, sites)
  }

  function Divided(nets: seq<string>, orphans: seq<string>, own: seq<string>, guard: bool, contains: (string, string) -> bool): Reach {
    Reach(Filter(nets, n => !InsideOwn(n, own, guard, contains)), Filter(nets, n => InsideOwn(n, own, guard, contains)),
          Filter(nets, n => CoversOwn(n, own, guard, contains)), orphans)
  }

  /** Deny by default: allowed_networks, else allowed_sites, else full mesh. */
  function OtherSiteNets(acl: Acl, all: seq<string>, own: seq<string>, links: seq<Link>, guard: bool, contains: (string, string) -> bool)
    : Reach
  {
    if acl.networks.Some? then
      Divided(Filter(acl.networks.value, n => n !in own && n in all), Filter(acl.networks.value, n => n !in own && n !in all),
              own, guard, contains)
    else
      Divided(Filter(all, n => n !in own && (acl.sites.None? || OnWhitelist(n, acl.sites.value, LinksByName(links)))), [], own, guard, contains)
  }

  /** Link i has a name that no other link has. */
  predicate OnlyNamed(links: seq<Link>, i: nat)
    requires i < |links|
  {
    links[i].name != "" && forall j :: 0 <= j < |links| && j != i ==> links[j].name != links[i].name
  }

  /** The only link of its name is whitelisted, no client link, and lists the net. */
  predicate Whitelisted(n: string, sites: set<string>, links: seq<Link>) {
    exists i :: 0 <= i < |links| && Lists(links[i], n, sites) && OnlyNamed(links, i)
  }

  lemma {:induction false} NameCountZero(links: seq<Link>, name: string)
    ensures NameCount(links, name) == 0 <==> forall j :: 0 <= j < |links| ==> links[j].name != name
  {
    if links != [] {
      var k := |links| - 1;
      NameCountZero(links[..k], name);
      assert forall j :: 0 <= j < k ==> links[..k][j] == links[j];
    }
  }

  lemma {:induction false} NameCountOne(links: seq<Link>, i: nat)
    requires i < |links|
    ensures NameCount(links, links[i].name) == 1
      <==> forall j :: 0 <= j < |links| && j != i ==> links[j].name != links[i].name
  {
    var k, name := |links| - 1, links[i].name;
    assert forall j :: 0 <= j < k ==> links[..k][j] == links[j];
    NameCountZero(links[..k], name);
    if i < k {
      NameCountOne(links[..k], i);
      assert links[..k][i].name == name;
    }
  }

  lemma {:induction false} WhitelistIs(n: string, sites: set<string>, links: seq<Link>)
    ensures OnWhitelist(n, sites, LinksByName(links)) <==> Whitelisted(n, sites, links)
  {
    if OnWhitelist(n, sites, LinksByName(links)) {
      var l :| l in LinksByName(links) && Lists(l, n, sites);
      var i :| 0 <= i < |links| && links[i] == l;
      NameCountOne(links, i);
    }
    if Whitelisted(n, sites, links) {
      var i :| 0 <= i < |links| && Lists(links[i], n, sites) && OnlyNamed(links, i);
      NameCountOne(links, i);
      assert links[i] in LinksByName(links);
    }
  }

  predicate Permitted(n: string, acl: Acl, links: seq<Link>) {
    if acl.networks.Some? then n in acl.networks.value
    else acl.sites.None? || Whitelisted(n, acl.sites.value, links)
  }

  /** Reached is exactly what some site exports now, the agent's lists permit, and is neither its own
      nor inside its own LAN; everything else permitted is reported as overlap or orphan. */
  lemma {:induction false} ReachIsExactly(acl: Acl, all: seq<string>, own: seq<string>, links: seq<Link>, guard: bool, contains: (string, string) -> bool, n: string)
    ensures var r := OtherSiteNets(acl, all, own, links, guard, contains);
      && (n in r.nets <==> n in all && n !in own && Permitted(n, acl, links) && !InsideOwn(n, own, guard, contains))
      && (n in r.overlaps <==> n in all && n !in own && Permitted(n, acl, links) && InsideOwn(n, own, guard, contains))
      && (n in r.supernets ==> n in r.nets)
      && (n in r.orphans <==> acl.networks.Some? && n in acl.networks.value && n !in own && n !in all)
  {
    if acl.sites.Some? { WhitelistIs(n, acl.sites.value, links); }
  }

  lemma {:induction false} SiteNetsAre(links: seq<Link>, acceptable: string -> bool, n: string)
    ensures n in SiteNets(links, acceptable)
      <==> acceptable(n) && exists i :: 0 <= i < |links| && !links[i].client && n in links[i].nets
  {
    if links != [] {
      var k := |links| - 1;
      SiteNetsAre(links[..k], acceptable, n);
      assert forall i :: 0 <= i < k ==> links[..k][i] == links[i];
      if i :| 0 <= i < |links| && !links[i].client && n in links[i].nets {
        assert i < k ==> links[..k][i] == links[i];
      }
    }
  }

  /** A network no site link exports is in nobody's reach, whatever the access lists say. */
  lemma {:induction false} RemovedIsUnreachable(acl: Acl, own: seq<string>, links: seq<Link>, guard: bool,
                                                contains: (string, string) -> bool, acceptable: string -> bool, n: string)
    requires forall i :: 0 <= i < |links| && n in links[i].nets ==> links[i].client
    ensures n !in OtherSiteNets(acl, SiteNets(links, acceptable), own, links, guard, contains).nets
  {
    SiteNetsAre(links, acceptable, n);
    ReachIsExactly(acl, SiteNets(links, acceptable), own, links, guard, contains, n);
  }

  /** Removing a network from every site link takes it out of the agent's config at the next sync,
      whatever its access lists and the config so far say: from AllowedIPs, routes and NAT. */
  lemma {:induction false} RemovalPropagates(ls: Config, w: World, acl: Acl, own: seq<string>, links: seq<Link>, guard: bool,
                                             contains: (string, string) -> bool, acceptable: string -> bool, n: string, up: bool)
    requires Contract(w) && Synced(ls, w).Ok?
    requires w.nets == OtherSiteNets(acl, SiteNets(links, acceptable), own, links, guard, contains).nets
    requires forall i :: 0 <= i < |links| && n in links[i].nets ==> links[i].client
    requires n != Derive(ls, w) && n !in w.localNets
    ensures n !in Parse(Synced(ls, w).value, START)
    ensures n !in Named(Commands(up, Derive(ls, w), Sort(w.nets), RouteNets(Parse(Synced(ls, w).value, START)), w.localNets))
  {
    RemovedIsUnreachable(acl, own, links, guard, contains, acceptable, n);
    NotReached(ls, w, n, up);
  }

  lemma {:induction false} NotReached(ls: Config, w: World, n: string, up: bool)
    requires Contract(w) && Synced(ls, w).Ok?
    requires n !in w.nets && n != Derive(ls, w) && n !in w.localNets
    ensures n !in Parse(Synced(ls, w).value, START)
    ensures n !in Named(Commands(up, Derive(ls, w), Sort(w.nets), RouteNets(Parse(Synced(ls, w).value, START)), w.localNets))
  {
    SyncedFacts(ls, w);
    Unreached(Synced(ls, w).value, Derive(ls, w), w.nets, n);
    SyncedCommands(ls, w, up);
    Unnamed(Derive(ls, w), w.nets, w.localNets, n);
  }

  lemma {:induction false} Unreached(c: Config, subnet: string, nets: seq<string>, n: string)
    requires Parse(c, START) == [] || Sort(Parse(c, START)) == HubAllowedIPs(subnet, nets)
    requires n != subnet && n !in nets
    ensures n !in Parse(c, START)
  {
    if Parse(c, START) != [] { ReachOf(Parse(c, START), subnet, nets); }
  }

  lemma {:induction false} Unnamed(subnet: string, nets: seq<string>, local: seq<string>, n: string)
    requires n != subnet && n !in nets && n !in local
    ensures n !in {subnet} + SetOf(nets) + SetOf(local)
  {
  }
}
