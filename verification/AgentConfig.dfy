/** Rewriting an agent's wg-quick config from the hub's metadata (backend/internal/agent.js): the
    hub peer's AllowedIPs and Endpoint, and the hub-managed PostUp/PostDown lines. A config is the
    list of its lines. */
module AgentConfig {
  import opened Wrappers
  import opened Seqs
  import opened ConfigText

  /** What the CIDR and interface checks throw. */
  datatype Refusal = BadValue

  type Config = seq<string>

  /** What one sync reads besides the config: the reach computed for the agent and its own LAN nets
      (only with the preserve flag), its interface, the configured hub host, and two functions that
      are taken as they come: the tunnel subnet an Address line stands for, and the CIDR check. */
  datatype World = World(
    subnetOf: string -> Option<string>,
    isCidr: string -> bool,
    nets: seq<string>,
    localNets: seq<string>,
    iface: string,
    ifaceOk: bool,
    hubHost: Option<string>)

  function Lower(s: string): string {
    if s == "" then ""
    else [if 'A' <= s[0] <= 'Z' then (s[0] as int + 32) as char else s[0]] + Lower(s[1..])
  }

  /** Only an Address line has a subnet; subnets, CIDRs and the hub host are clean words. */
  ghost predicate Contract(w: World) {
    && (forall t: string :: w.subnetOf(t).Some? ==> Lower(t[..if |t| < 7 then |t| else 7]) == "address" && Clean(w.subnetOf(t).value))
    && (forall s :: w.isCidr(s) ==> Clean(s))
    && (w.hubHost.Some? ==> Clean(w.hubHost.value))
  }

  // ==== lines ====

  predicate IsPeer(raw: string) { Trim(raw) == "[Peer]" }
  predicate IsInterface(raw: string) { Trim(raw) == "[Interface]" }
  predicate IsHead(raw: string) { StartsWith(Trim(raw), "[") }
  predicate IsAllowed(raw: string) { StartsWith(Trim(raw), "AllowedIPs") }
  predicate IsEndpoint(raw: string) { StartsWith(Trim(raw), "Endpoint") }
  predicate IsTable(raw: string) { StartsWith(Trim(raw), "Table") }
  predicate IsManaged(raw: string) { StartsWith(Trim(raw), "PostUp") || StartsWith(Trim(raw), "PostDown") }

  predicate IsOpenKey(raw: string) { StartsWith(Trim(raw), "PrivateKey") && !Hidden(Trim(raw)) }

  predicate Hidden(t: string) { exists i {:trigger t[i]} :: 0 <= i < |t| && "(hidden)" <= t[i..] }

  /** Which [Peer] section a line is in; the hub peer is the first one. */
  datatype Scan = Scan(peers: nat, inPeer: bool)

  const START := Scan(0, false)

  predicate Hub(s: Scan) { s.inPeer && s.peers == 1 }

  /** Behind the hub peer's section. */
  predicate Past(s: Scan) { s.peers >= 1 && !Hub(s) }

  function Next(s: Scan, raw: string): Scan {
    if IsPeer(raw) then Scan(s.peers + 1, true) else if IsHead(raw) then s.(inPeer := false) else s
  }

  lemma {:induction false} NextOf(s: Scan, raw: string)
    ensures Next(s, raw)
      == if Trim(raw) == "[Peer]" then Scan(s.peers + 1, true) else if StartsWith(Trim(raw), "[") then Scan(s.peers, false) else s
    ensures Trim(raw) == "[Peer]" ==> IsHead(raw)
  {
  }

  function ScanAfter(ls: Config, s: Scan): Scan { if ls == [] then s else ScanAfter(ls[1..], Next(s, ls[0])) }

  // ==== the hub peer's AllowedIPs ====

  /** Everything behind the first '=', or the whole line if there is none. */
  function Value(t: string): string {
    if IndexOf(t, '=') < |t| then t[IndexOf(t, '=') + 1..] else t
  }

  function Parse(ls: Config, s: Scan): seq<string> {
    if ls == [] then []
    else
      (if !IsHead(ls[0]) && Hub(s) && IsAllowed(ls[0]) then Fields(Value(Trim(ls[0]))) else [])
      + Parse(ls[1..], Next(s, ls[0]))
  }

  method ParseHubPeerAllowedIPs(ls: Config) returns (nets: seq<string>)
    ensures nets == Parse(ls, START)
  {
    var peerIdx, inPeer := 0, false;
    nets := [];
    for i := 0 to |ls|
      invariant peerIdx >= 0 && nets + Parse(ls[i..], Scan(peerIdx, inPeer)) == Parse(ls, START)
    {
      ParseStep(ls, i, Scan(peerIdx, inPeer), nets);
      NextOf(Scan(peerIdx, inPeer), ls[i]);
      var t := Trim(ls[i]);
      if t == "[Peer]" {
        peerIdx, inPeer := peerIdx + 1, true;
      } else if StartsWith(t, "[") {
        inPeer := false;
      } else if inPeer && peerIdx == 1 && StartsWith(t, "AllowedIPs") {
        nets := nets + Fields(Value(t));
      }
    }
  }

  lemma {:induction false} ParseStep(ls: Config, i: nat, s: Scan, nets: seq<string>)
    requires i < |ls|
    ensures nets + Parse(ls[i..], s)
      == (if !IsHead(ls[i]) && Hub(s) && IsAllowed(ls[i]) then nets + Fields(Value(Trim(ls[i]))) else nets)
         + Parse(ls[i + 1..], Next(s, ls[i]))
  {
    DropOneMore(ls, i);
    var rest := Parse(ls[i + 1..], Next(s, ls[i]));
    Associate(nets, Fields(Value(Trim(ls[i]))), rest);
    assert [] + rest == rest;
  }

  function AllowedLine(nets: seq<string>): string { "AllowedIPs = " + Join(nets, ", ") }

  /** The first AllowedIPs line of the hub peer becomes the new list, the further ones go. */
  function RewriteAllowed(ls: Config, nets: seq<string>, s: Scan, replaced: bool): Config {
    if ls == [] then []
    else if !IsHead(ls[0]) && Hub(s) && IsAllowed(ls[0]) then
      (if replaced then [] else [AllowedLine(nets)]) + RewriteAllowed(ls[1..], nets, s, true)
    else [ls[0]] + RewriteAllowed(ls[1..], nets, Next(s, ls[0]), replaced)
  }

  method RewriteHubPeerAllowedIPs(ls: Config, nets: seq<string>) returns (out: Config)
    ensures out == RewriteAllowed(ls, nets, START, false)
  {
    var peerIdx, inPeer, replaced := 0, false, false;
    out := [];
    for i := 0 to |ls|
      invariant peerIdx >= 0
      invariant out + RewriteAllowed(ls[i..], nets, Scan(peerIdx, inPeer), replaced) == RewriteAllowed(ls, nets, START, false)
    {
      AllowedStep(ls, i, nets, Scan(peerIdx, inPeer), replaced, out);
      NextOf(Scan(peerIdx, inPeer), ls[i]);
      var t := Trim(ls[i]);
      if t == "[Peer]" {
        peerIdx, inPeer := peerIdx + 1, true;
        out := out + [ls[i]];
      } else if StartsWith(t, "[") {
        inPeer := false;
        out := out + [ls[i]];
      } else if inPeer && peerIdx == 1 && StartsWith(t, "AllowedIPs") {
        if !replaced {
          replaced := true;
          out := out + [AllowedLine(nets)];
        }
      } else {
        out := out + [ls[i]];
      }
    }
  }

  lemma {:induction false} AllowedStep(ls: Config, i: nat, nets: seq<string>, s: Scan, replaced: bool, out: Config)
    requires i < |ls|
    ensures out + RewriteAllowed(ls[i..], nets, s, replaced)
      == if !IsHead(ls[i]) && Hub(s) && IsAllowed(ls[i])
         then (if replaced then out else out + [AllowedLine(nets)]) + RewriteAllowed(ls[i + 1..], nets, s, true)
         else out + [ls[i]] + RewriteAllowed(ls[i + 1..], nets, Next(s, ls[i]), replaced)
  {
    DropOneMore(ls, i);
    if !IsHead(ls[i]) && Hub(s) && IsAllowed(ls[i]) {
      var rest := RewriteAllowed(ls[i + 1..], nets, s, true);
      Associate(out, [AllowedLine(nets)], rest);
      assert [] + rest == rest;
    } else {
      Associate(out, [ls[i]], RewriteAllowed(ls[i + 1..], nets, Next(s, ls[i]), replaced));
    }
  }

  predicate HasAllowed(ls: Config, s: Scan) {
    ls != [] && ((!IsHead(ls[0]) && Hub(s) && IsAllowed(ls[0])) || HasAllowed(ls[1..], Next(s, ls[0])))
  }

  // ==== the hub peer's Endpoint ====

  datatype Endpoint = Endpoint(host: string, port: string, comment: string)

  predicate Digits(s: string) { s != "" && forall c :: c in s ==> '0' <= c <= '9' }

  /** `Endpoint = <host> : <port> [# comment]`: the port is all that follows the last colon in
      front of the comment. */
  function ParseEndpoint(t: string): Option<Endpoint>
    requires StartsWith(t, "Endpoint")
  {
    var afterName := TrimLeft(t[8..]);
    if afterName == "" || afterName[0] != '=' then None
    else
      var value := TrimLeft(afterName[1..]);
      var hash := IndexOf(value, '#');
      var colon := LastIndexOf(value[..hash], ':');
      if colon < 0 || !Digits(Trim(value[colon + 1..hash])) then None
      else Some(Endpoint(TrimRight(value[..colon]), Trim(value[colon + 1..hash]), value[hash..]))
  }

  predicate Octet(s: string) { |s| <= 3 && Digits(s) }

  predicate IsIp(h: string) {
    var parts := Split(h, '.');
    (|parts| == 4 && forall p :: p in parts ==> Octet(p)) || StartsWith(h, "[")
  }

  /** A pinned address is not downgraded to a name; the same host keeps the line as it is. */
  function NewEndpointLine(raw: string, e: Endpoint, hub: string): string {
    if IsIp(e.host) && !IsIp(hub) then raw
    else if Lower(e.host) == Lower(hub) then raw
    else "Endpoint = " + hub + ":" + e.port + if e.comment == "" then "" else " " + e.comment
  }

  predicate Matches(ls: Config, s: Scan, replaced: bool)
    requires ls != []
  {
    !IsHead(ls[0]) && Hub(s) && !replaced && IsEndpoint(ls[0]) && ParseEndpoint(Trim(ls[0])).Some?
  }

  function RewriteEndpoint(ls: Config, hub: string, s: Scan, replaced: bool): Config {
    if ls == [] then []
    else if Matches(ls, s, replaced) then
      [NewEndpointLine(ls[0], ParseEndpoint(Trim(ls[0])).value, hub)] + RewriteEndpoint(ls[1..], hub, s, true)
    else [ls[0]] + RewriteEndpoint(ls[1..], hub, Next(s, ls[0]), replaced)
  }

  method RewriteHubPeerEndpoint(ls: Config, hub: Option<string>) returns (out: Config)
    ensures out == if hub.None? then ls else RewriteEndpoint(ls, hub.value, START, false)
  {
    if hub.None? { return ls; }
    var peerIdx, inPeer, replaced := 0, false, false;
    out := [];
    for i := 0 to |ls|
      invariant peerIdx >= 0
      invariant out + RewriteEndpoint(ls[i..], hub.value, Scan(peerIdx, inPeer), replaced) == RewriteEndpoint(ls, hub.value, START, false)
    {
      EndpointStep(ls, i, hub.value, Scan(peerIdx, inPeer), replaced, out);
      var line := ls[i];
      if IsPeer(line) {
        peerIdx, inPeer := peerIdx + 1, true;
      } else if IsHead(line) {
        inPeer := false;
      } else if inPeer && peerIdx == 1 && !replaced && IsEndpoint(line) {
        var m := ParseEndpoint(Trim(line));
        if m.Some? {
          replaced := true;
          line := NewEndpointLine(line, m.value, hub.value);
        }
      }
      out := out + [line];
    }
  }

  lemma {:induction false} EndpointStep(ls: Config, i: nat, hub: string, s: Scan, replaced: bool, out: Config)
    requires i < |ls|
    ensures out + RewriteEndpoint(ls[i..], hub, s, replaced)
      == if Matches(ls[i..], s, replaced)
         then out + [NewEndpointLine(ls[i], ParseEndpoint(Trim(ls[i])).value, hub)] + RewriteEndpoint(ls[i + 1..], hub, s, true)
         else out + [ls[i]] + RewriteEndpoint(ls[i + 1..], hub, Next(s, ls[i]), replaced)
  {
    DropOneMore(ls, i);
    if Matches(ls[i..], s, replaced) {
      Associate(out, [NewEndpointLine(ls[i], ParseEndpoint(Trim(ls[i])).value, hub)], RewriteEndpoint(ls[i + 1..], hub, s, true));
    } else {
      Associate(out, [ls[i]], RewriteEndpoint(ls[i + 1..], hub, Next(s, ls[i]), replaced));
    }
  }

  // ==== the hub-managed lines ====

  /** One shell command of PostUp (or, undone, of PostDown). */
  datatype Cmd = Forwarding | AcceptIn | AcceptOut | KeepSource(net: string) | Masquerade(net: string) | Route(net: string)

  function Show(c: Cmd, up: bool, subnet: string, iface: string): string {
    var flag := if up then "-A" else "-D";
    match c
    case Forwarding => "sysctl -w net.ipv4.ip_forward=1"
    case AcceptIn => "iptables " + flag + " FORWARD -i " + iface + " -j ACCEPT"
    case AcceptOut => "iptables " + flag + " FORWARD -o " + iface + " -j ACCEPT"
    case KeepSource(net) => "iptables -t nat " + flag + " POSTROUTING -s " + subnet + " -d " + net + " -j RETURN"
    case Masquerade(net) => "iptables -t nat " + flag + " POSTROUTING ! -o " + iface + " -s " + net + " -j MASQUERADE"
    case Route(net) => "ip route " + (if up then "add " else "del ") + net + " dev " + iface + " 2>/dev/null || true"
  }

  function ShowAll(cmds: seq<Cmd>, up: bool, subnet: string, iface: string): string {
    if cmds == [] then ""
    else if |cmds| == 1 then Show(cmds[0], up, subnet, iface)
    else ShowAll(cmds[..|cmds| - 1], up, subnet, iface) + "; " + Show(cmds[|cmds| - 1], up, subnet, iface)
  }

  function Each(nets: seq<string>, f: string -> Cmd): (cmds: seq<Cmd>)
    ensures |cmds| == |nets| && forall i :: 0 <= i < |nets| ==> cmds[i] == f(nets[i])
  {
    seq(|nets|, i requires 0 <= i < |nets| => f(nets[i]))
  }

  /** Client traffic into the own LAN is exempted before the masquerading. */
  function Commands(up: bool, subnet: string, remote: seq<string>, peers: seq<string>, local: seq<string>): seq<Cmd> {
    (if up then [Forwarding, AcceptIn, AcceptOut] else [AcceptIn, AcceptOut])
    + Each(local, n => KeepSource(n)) + [Masquerade(subnet)] + Each(remote, n => Masquerade(n)) + Each(peers, n => Route(n))
  }

  predicate AllCidrs(w: World, nets: seq<string>) { forall n :: n in nets ==> w.isCidr(n) }

  /** buildHubPostUp and buildHubPostDown: the interface and every net is checked first. */
  method BuildHubRules(w: World, up: bool, subnet: string, remote: seq<string>, peers: seq<string>) returns (r: Result<string, Refusal>)
    ensures r.Ok? <==> w.ifaceOk && w.isCidr(subnet) && AllCidrs(w, w.localNets) && AllCidrs(w, remote) && AllCidrs(w, peers)
    ensures r.Ok? ==> r.value == ShowAll(Commands(up, subnet, remote, peers, w.localNets), up, subnet, w.iface)
  {
    if !w.ifaceOk || !w.isCidr(subnet) { return Err(BadValue); }
    ghost var c0 := if up then [Forwarding, AcceptIn, AcceptOut] else [AcceptIn, AcceptOut];
    var rules := ShowAll(if up then [Forwarding, AcceptIn, AcceptOut] else [AcceptIn, AcceptOut], up, subnet, w.iface);
    r := AppendEach(w, up, subnet, w.localNets, n => KeepSource(n), rules, c0);
    if r.Err? { return; }
    ghost var c1 := c0 + Each(w.localNets, n => KeepSource(n));
    AddCommand(c1, Masquerade(subnet), up, subnet, w.iface);
    rules := r.value + "; " + Show(Masquerade(subnet), up, subnet, w.iface);
    r := AppendEach(w, up, subnet, remote, n => Masquerade(n), rules, c1 + [Masquerade(subnet)]);
    if r.Err? { return; }
    r := AppendEach(w, up, subnet, peers, n => Route(n), r.value, c1 + [Masquerade(subnet)] + Each(remote, n => Masquerade(n)));
  }

  /** One of the loops: a command per net, each net checked first. */
  method AppendEach(w: World, up: bool, subnet: string, nets: seq<string>, f: string -> Cmd, start: string, ghost cmds: seq<Cmd>)
    returns (r: Result<string, Refusal>)
    requires cmds != [] && start == ShowAll(cmds, up, subnet, w.iface)
    ensures r.Ok? <==> AllCidrs(w, nets)
    ensures r.Ok? ==> r.value == ShowAll(cmds + Each(nets, f), up, subnet, w.iface)
  {
    var rules := start;
    assert cmds + Each(nets[..0], f) == cmds;
    for i := 0 to |nets|
      invariant AllCidrs(w, nets[..i]) && rules == ShowAll(cmds + Each(nets[..i], f), up, subnet, w.iface)
    {
      if !w.isCidr(nets[i]) {
        assert nets[i] in nets;
        return Err(BadValue);
      }
      NextCommand(w, up, subnet, nets, i, f, cmds);
      rules := rules + "; " + Show(f(nets[i]), up, subnet, w.iface);
    }
    assert nets[..|nets|] == nets;
    r := Ok(rules);
  }

  lemma NextCommand(w: World, up: bool, subnet: string, nets: seq<string>, i: nat, f: string -> Cmd, cmds: seq<Cmd>)
    requires i < |nets| && cmds != [] && AllCidrs(w, nets[..i])
    ensures ShowAll(cmds + Each(nets[..i + 1], f), up, subnet, w.iface)
      == ShowAll(cmds + Each(nets[..i], f), up, subnet, w.iface) + "; " + Show(f(nets[i]), up, subnet, w.iface)
    ensures w.isCidr(nets[i]) ==> AllCidrs(w, nets[..i + 1])
  {
    assert nets[..i + 1] == nets[..i] + [nets[i]];
    AddCommand(cmds + Each(nets[..i], f), f(nets[i]), up, subnet, w.iface);
    assert cmds + Each(nets[..i], f) + [f(nets[i])] == cmds + Each(nets[..i + 1], f);
  }

  lemma AddCommand(cmds: seq<Cmd>, c: Cmd, up: bool, subnet: string, iface: string)
    requires cmds != []
    ensures ShowAll(cmds + [c], up, subnet, iface) == ShowAll(cmds, up, subnet, iface) + "; " + Show(c, up, subnet, iface)
  {
    assert (cmds + [c])[..|cmds|] == cmds;
  }

  // ==== normalizeAgentConfig ====

  predicate InInterface(was: bool, raw: string) { IsInterface(raw) || (!IsHead(raw) && was) }

  function SectionAfter(ls: Config, inI: bool): bool {
    if ls == [] then inI else SectionAfter(ls[1..], InInterface(inI, ls[0]))
  }

  predicate HasTable(ls: Config, inI: bool) {
    ls != [] && ((InInterface(inI, ls[0]) && IsTable(ls[0])) || HasTable(ls[1..], InInterface(inI, ls[0])))
  }

  const HIDDEN_KEY: string := "PrivateKey = (hidden)"

  function StripLine(raw: string, inI: bool): Config {
    if inI && IsOpenKey(raw) then [HIDDEN_KEY] else if IsManaged(raw) then [] else [raw]
  }

  function Stripped(ls: Config, inI: bool): Config {
    if ls == [] then [] else StripLine(ls[0], InInterface(inI, ls[0])) + Stripped(ls[1..], InInterface(inI, ls[0]))
  }

  function FirstPeer(ls: Config): (i: nat)
    ensures i <= |ls| && (i < |ls| ==> IsPeer(ls[i])) && forall j :: 0 <= j < i ==> !IsPeer(ls[j])
  {
    if ls == [] || IsPeer(ls[0]) then 0 else 1 + FirstPeer(ls[1..])
  }

  /** Before the first [Peer], or at the end when that is the very first line or missing. */
  function InsertAt(ls: Config): (i: nat)
    ensures i <= |ls|
  {
    if 0 < FirstPeer(ls) then FirstPeer(ls) else |ls|
  }

  const DEFAULT_SUBNET: string := "10.10.0.0/24"

  /** The subnet of the first Address line. */
  function Derive(ls: Config, w: World): string {
    if ls == [] then DEFAULT_SUBNET
    else if w.subnetOf(Trim(ls[0])).Some? then w.subnetOf(Trim(ls[0])).value
    else Derive(ls[1..], w)
  }

  predicate HostRoute(c: string) { EndsWith(c, "/32") || EndsWith(c, "/128") }

  function RouteNets(nets: seq<string>): seq<string> {
    if nets == [] then [] else (if HostRoute(nets[0]) then [] else [nets[0]]) + RouteNets(nets[1..])
  }

  const TABLE_OFF: string := "Table = off"

  function UpLine(w: World, subnet: string, remote: seq<string>, peers: seq<string>): string {
    "PostUp = " + ShowAll(Commands(true, subnet, remote, peers, w.localNets), true, subnet, w.iface)
  }

  function DownLine(w: World, subnet: string, remote: seq<string>, peers: seq<string>): string {
    "PostDown = " + ShowAll(Commands(false, subnet, remote, peers, w.localNets), false, subnet, w.iface)
  }

  predicate CidrsOk(w: World, subnet: string, remote: seq<string>, peers: seq<string>) {
    w.ifaceOk && w.isCidr(subnet) && AllCidrs(w, w.localNets) && AllCidrs(w, remote) && AllCidrs(w, peers)
  }

  function Managed(w: World, table: bool, subnet: string, remote: seq<string>, peers: seq<string>): Config {
    (if table then [] else [TABLE_OFF]) + [UpLine(w, subnet, remote, peers), DownLine(w, subnet, remote, peers)]
  }

  function Normalized(ls: Config, w: World, remote: seq<string>): Result<Config, Refusal> {
    var out := Stripped(ls, false);
    var at := InsertAt(out);
    var subnet := Derive(ls, w);
    var peers := RouteNets(Parse(ls, START));
    if !CidrsOk(w, subnet, remote, peers) then Err(BadValue)
    else Ok(out[..at] + Managed(w, HasTable(ls, false), subnet, remote, peers) + out[at..])
  }

  lemma StripStep(ls: Config, i: nat, inI: bool, out: Config, hasTable: bool)
    requires i < |ls|
    ensures var f := InInterface(inI, ls[i]);
      && out + Stripped(ls[i..], inI) == out + StripLine(ls[i], f) + Stripped(ls[i + 1..], f)
      && (hasTable || HasTable(ls[i..], inI)) == ((hasTable || (f && IsTable(ls[i]))) || HasTable(ls[i + 1..], f))
  {
    assert ls[i..][0] == ls[i] && ls[i..][1..] == ls[i + 1..];
  }

  method StripConfig(ls: Config) returns (out: Config, hasTable: bool)
    ensures out == Stripped(ls, false) && hasTable == HasTable(ls, false)
  {
    var inInterface := false;
    out, hasTable := [], false;
    for i := 0 to |ls|
      invariant out + Stripped(ls[i..], inInterface) == Stripped(ls, false)
      invariant (hasTable || HasTable(ls[i..], inInterface)) == HasTable(ls, false)
    {
      StripStep(ls, i, inInterface, out, hasTable);
      var raw := ls[i];
      ghost var before := out;
      if IsInterface(raw) {
        inInterface := true;
      } else if IsHead(raw) {
        inInterface := false;
      }
      if inInterface && IsTable(raw) { hasTable := true; }
      if inInterface && IsOpenKey(raw) {
        out := out + [HIDDEN_KEY];
      } else if !IsManaged(raw) {
        out := out + [raw];
      }
      assert out == before + StripLine(raw, inInterface);
    }
  }

  method NormalizeAgentConfig(ls: Config, w: World, remote: seq<string>) returns (r: Result<Config, Refusal>)
    ensures r == Normalized(ls, w, remote)
  {
    var out, hasTable := StripConfig(ls);
    var subnet := Derive(ls, w);
    var insertAt := InsertAt(out);
    var allowed := ParseHubPeerAllowedIPs(ls);
    var peerNets := RouteNets(allowed);
    var up := BuildHubRules(w, true, subnet, remote, peerNets);
    if up.Err? { return Err(BadValue); }
    var down := BuildHubRules(w, false, subnet, remote, peerNets);
    if down.Err? { return Err(BadValue); }
    var toInsert := (if hasTable then [] else [TABLE_OFF]) + ["PostUp = " + up.value, "PostDown = " + down.value];
    r := Ok(out[..insertAt] + toInsert + out[insertAt..]);
  }

  // ==== one sync ====

  function Unique(xs: seq<string>): seq<string> {
    if xs == [] then []
    else
      var rest := Unique(xs[..|xs| - 1]);
      if xs[|xs| - 1] in rest then rest else rest + [xs[|xs| - 1]]
  }

  /** _computeHubPeerAllowedIPs: exactly the tunnel subnet and the reach. */
  function HubAllowedIPs(subnet: string, nets: seq<string>): seq<string> { Sort(Unique([subnet] + nets)) }

  function AllowedRewritten(ls: Config, w: World): Config {
    var wanted := HubAllowedIPs(Derive(ls, w), w.nets);
    if Join(wanted, ",") != Join(Sort(Parse(ls, START)), ",") then RewriteAllowed(ls, wanted, START, false) else ls
  }

  function EndpointRewritten(ls: Config, w: World): Config {
    if w.hubHost.None? then ls else RewriteEndpoint(ls, w.hubHost.value, START, false)
  }

  function Synced(ls: Config, w: World): Result<Config, Refusal> {
    Normalized(EndpointRewritten(AllowedRewritten(ls, w), w), w, Sort(w.nets))
  }

  const EMPTY: Config := [""]

  datatype Row = Row(config: Config, hash: string)

  /** The row after a sync, and whether it reports a change; Err when a CIDR check throws. */
  function SyncSpec(row: Row, w: Option<World>, hashOf: Config -> string): (Row, Result<bool, Refusal>) {
    if w.None? || row.config == EMPTY then (row, Ok(false))
    else
      match Synced(row.config, w.value)
      case Err(e) => (row, Err(e))
      case Ok(c) => if hashOf(c) == row.hash then (row, Ok(false)) else (Row(c, hashOf(c)), Ok(true))
  }

  class Agent {
    var config: Config
    var hash: string

    constructor (row: Row)
      ensures config == row.config && hash == row.hash
    {
      config, hash := row.config, row.hash;
    }

    /** No world: the link is ambiguous or gone. */
    method SyncOne(w: Option<World>, hashOf: Config -> string) returns (r: Result<bool, Refusal>)
      modifies this
      ensures (Row(config, hash), r) == SyncSpec(Row(old(config), old(hash)), w, hashOf)
    {
      if w.None? || config == EMPTY { return Ok(false); }
      var current := ParseHubPeerAllowedIPs(config);
      var wanted := HubAllowedIPs(Derive(config, w.value), w.value.nets);
      var rewritten := config;
      if Join(wanted, ",") != Join(Sort(current), ",") {
        rewritten := RewriteHubPeerAllowedIPs(config, wanted);
      }
      rewritten := RewriteHubPeerEndpoint(rewritten, w.value.hubHost);
      var c := NormalizeAgentConfig(rewritten, w.value, Sort(w.value.nets));
      if c.Err? { return Err(BadValue); }
      if hashOf(c.value) == hash { return Ok(false); }
      config, hash := c.value, hashOf(c.value);
      r := Ok(true);
    }
  }
}
