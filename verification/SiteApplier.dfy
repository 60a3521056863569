/** Site-to-site isolation, applying (backend/internal/site-isolation.js): the link loader
    with its live cache and the fail-safe applier that replaces the nft table. */
module SiteApplier {
  import opened Wrappers
  import opened Seqs
  import opened Ipv4Nets
  import opened SiteRules

  // ==== createLinkLoader ====

  /** Metadata entry of a link; the store is authoritative for what it names. */
  datatype Meta = Meta(ltype: LinkType, imported: seq<Text>)

  /** Live record of a link. */
  datatype Live = Live(id: string, ltype: LinkType, imported: seq<Text>, tunnel: seq<Text>)

  /** The last live-derived view of a link. */
  datatype View = View(ltype: LinkType, imported: seq<Text>, tunnel: seq<Text>)

  const NO_VIEW := View(Untyped, [], [])

  function LiveMap(status: seq<Live>): (m: map<string, Live>)
    ensures forall id :: id in m ==> m[id].id == id
  {
    if status == [] then map[] else LiveMap(status[..|status| - 1])[status[|status| - 1].id := status[|status| - 1]]
  }

  function ViewOf(l: Live): View { View(l.ltype, l.imported, l.tunnel) }

  function CacheAfter(cache: map<string, View>, live: map<string, Live>): map<string, View> {
    cache + map id | id in live :: ViewOf(live[id])
  }

  /** The link a metadata entry yields from the view of its id. */
  function Merge(id: string, m: Meta, v: View, known: bool): Link {
    Link(id, if m.ltype.Untyped? then v.ltype else m.ltype, if m.imported != [] then m.imported else v.imported,
         v.tunnel, known)
  }

  /** The link of an id given the cache after its own live record, if any, went in. */
  function LinkFrom(id: string, m: Option<Meta>, cache: map<string, View>): Link {
    var v := if id in cache then cache[id] else NO_VIEW;
    if m.Some? then Merge(id, m.value, v, id in cache) else Link(id, v.ltype, v.imported, v.tunnel, true)
  }

  function LoadedLink(id: string, metadata: map<string, Meta>, live: map<string, Live>, cache: map<string, View>): Link {
    LinkFrom(id, if id in metadata then Some(metadata[id]) else None, CacheAfter(cache, live))
  }

  function Loaded(metadata: map<string, Meta>, live: map<string, Live>, cache: map<string, View>): map<string, Link> {
    map id | id in metadata.Keys + live.Keys :: LoadedLink(id, metadata, live, cache)
  }

  class LinkLoader {
    var liveCache: map<string, View>

    constructor ()
      ensures liveCache == map[]
    {
      liveCache := map[];
    }

    method LiveOf(id: string, l: Option<Live>) returns (v: View)
      modifies this
      ensures v == if l.Some? then ViewOf(l.value) else if id in old(liveCache) then old(liveCache)[id] else NO_VIEW
      ensures liveCache == if l.Some? then old(liveCache)[id := v] else old(liveCache)
    {
      if l.Some? {
        v := ViewOf(l.value);
        liveCache := liveCache[id := v];
      } else {
        v := if id in liveCache then liveCache[id] else NO_VIEW;
      }
    }

    /** One metadata entry with its live record, or None for a live record without metadata. */
    method LoadOne(id: string, m: Option<Meta>, l: Option<Live>, links: seq<Link>, ghost g: Load) returns (out: seq<Link>)
      requires LinksAre(links, g) && CacheIs(liveCache, g)
      requires m == if id in g.metadata then Some(g.metadata[id]) else None
      requires l == if id in g.live then Some(g.live[id]) else None
      requires m.Some? || l.Some?
      modifies this
      ensures LinksAre(out, g.(ids := g.ids + {id})) && CacheIs(liveCache, g.(ids := g.ids + {id}))
    {
      ghost var before := liveCache;
      var v := LiveOf(id, l);
      var link := if m.Some? then Merge(id, m.value, v, l.Some? || id in liveCache)
        else Link(id, l.value.ltype, l.value.imported, v.tunnel, true);
      CacheStep(before, liveCache, g, id);
      LinksStep(links, link, liveCache, g, id);
      out := links + [link];
    }

    method LoadAll(todo: seq<string>, links: seq<Link>, metadata: map<string, Meta>, live: map<string, Live>, ghost g: Load)
      returns (out: seq<Link>, ghost h: Load)
      requires g.metadata == metadata && g.live == live
      requires forall i :: 0 <= i < |todo| ==> todo[i] in metadata || todo[i] in live
      requires LinksAre(links, g) && CacheIs(liveCache, g)
      modifies this
      ensures h == g.(ids := h.ids) && LinksAre(out, h) && CacheIs(liveCache, h)
      ensures forall id :: id in h.ids <==> id in g.ids || id in todo
    {
      out, h := links, g;
      for i := 0 to |todo|
        invariant h == g.(ids := h.ids) && LinksAre(out, h) && CacheIs(liveCache, h)
        invariant forall id :: id in h.ids <==> id in g.ids || id in todo[..i]
      {
        var id := todo[i];
        assert todo[..i + 1] == todo[..i] + [id];
        out := LoadOne(id, if id in metadata then Some(metadata[id]) else None, if id in live then Some(live[id]) else None,
                       out, h);
        h := h.(ids := h.ids + {id});
      }
      assert todo[..|todo|] == todo;
    }

    /** The metadata entries, with their live records. */
    method LoadMetadata(metadata: map<string, Meta>, live: map<string, Live>, ghost g: Load) returns (out: seq<Link>)
      requires g == Load(metadata, live, liveCache, {})
      modifies this
      ensures LinksAre(out, g.(ids := metadata.Keys)) && CacheIs(liveCache, g.(ids := metadata.Keys))
    {
      var ids := Listed(metadata.Keys);
      ghost var h;
      out, h := LoadAll(ids, [], metadata, live, g);
      assert h.ids == metadata.Keys;
    }

    /** The live records without metadata. */
    method LoadOthers(metadata: map<string, Meta>, live: map<string, Live>, links: seq<Link>, ghost g: Load) returns (out: seq<Link>)
      requires g.metadata == metadata && g.live == live && g.ids == metadata.Keys
      requires LinksAre(links, g) && CacheIs(liveCache, g)
      modifies this
      ensures LinksAre(out, AllOf(g)) && CacheIs(liveCache, AllOf(g))
    {
      var ids := Listed(live.Keys - metadata.Keys);
      ghost var h;
      out, h := LoadAll(ids, links, metadata, live, g);
      assert h.ids == metadata.Keys + live.Keys;
    }

    /** First the metadata entries, then the live records without one. `status` is None when the live
        status throws or is not available. */
    method LoadLinks(metadata: map<string, Meta>, status: Option<seq<Live>>) returns (out: seq<Link>)
      modifies this
      ensures var live := LiveMap(if status.Some? then status.value else []);
        ById(out) == Loaded(metadata, live, old(liveCache)) && liveCache == CacheAfter(old(liveCache), live)
    {
      var live := LiveMap(if status.Some? then status.value else []);
      ghost var g := Load(metadata, live, liveCache, {});
      out := LoadMetadata(metadata, live, g);
      out := LoadOthers(metadata, live, out, g.(ids := metadata.Keys));
      LoadedAll(out, g);
      CachedAll(liveCache, g);
    }
  }

  /** The entries of an object, in some order. */
  method Listed(ids: set<string>) returns (s: seq<string>)
    ensures forall id :: id in s <==> id in ids
    ensures forall i :: 0 <= i < |s| ==> s[i] in ids
  {
    var todo := ids;
    s := [];
    while todo != {}
      invariant todo <= ids && forall id :: id in s <==> id in ids && id !in todo
    {
      var id :| id in todo;
      s := s + [id];
      todo := todo - {id};
    }
  }

  /** What one call of the loader starts from, and the ids it has gone through. */
  datatype Load = Load(metadata: map<string, Meta>, live: map<string, Live>, cache: map<string, View>, ids: set<string>)

  /** `c` is the cache with the live records of the ids stored. */
  ghost predicate CacheIs(c: map<string, View>, g: Load) {
    && (forall id :: id in c <==> id in g.cache || (id in g.live && id in g.ids))
    && (forall id :: id in c ==> c[id] == if id in g.live && id in g.ids then ViewOf(g.live[id]) else g.cache[id])
  }

  ghost predicate LinksAre(out: seq<Link>, g: Load) {
    && (forall id :: id in ById(out) <==> id in g.ids)
    && (forall id :: id in g.ids ==> ById(out)[id] == LoadedLink(id, g.metadata, g.live, g.cache))
  }

  lemma CacheStep(before: map<string, View>, after: map<string, View>, g: Load, id: string)
    requires CacheIs(before, g)
    requires after == if id in g.live then before[id := ViewOf(g.live[id])] else before
    ensures CacheIs(after, g.(ids := g.ids + {id}))
  {
  }

  lemma {:induction false} LinksStep(out: seq<Link>, link: Link, now: map<string, View>, g: Load, id: string)
    requires LinksAre(out, g) && CacheIs(now, g.(ids := g.ids + {id}))
    requires link == LinkFrom(id, if id in g.metadata then Some(g.metadata[id]) else None, now)
    ensures LinksAre(out + [link], g.(ids := g.ids + {id}))
  {
    LinkIsLoaded(link, now, g, id);
    ByIdPush(out, link);
  }

  lemma {:induction false} LinkIsLoaded(link: Link, now: map<string, View>, g: Load, id: string)
    requires CacheIs(now, g.(ids := g.ids + {id}))
    requires link == LinkFrom(id, if id in g.metadata then Some(g.metadata[id]) else None, now)
    ensures link == LoadedLink(id, g.metadata, g.live, g.cache) && link.id == id
  {
  }

  /** Every entry gone through. */
  function AllOf(g: Load): Load { g.(ids := g.metadata.Keys + g.live.Keys) }

  lemma {:induction false} LoadedAt(out: seq<Link>, g: Load, id: string)
    requires LinksAre(out, AllOf(g))
    ensures id in ById(out) <==> id in Loaded(g.metadata, g.live, g.cache)
    ensures id in ById(out) ==> ById(out)[id] == Loaded(g.metadata, g.live, g.cache)[id]
  {
  }

  lemma {:induction false} LoadedAll(out: seq<Link>, g: Load)
    requires LinksAre(out, AllOf(g))
    ensures ById(out) == Loaded(g.metadata, g.live, g.cache)
  {
    var m, n := ById(out), Loaded(g.metadata, g.live, g.cache);
    forall id ensures (id in m <==> id in n) && (id in m ==> m[id] == n[id]) { LoadedAt(out, g, id); }
  }

  lemma {:induction false} CachedAll(c: map<string, View>, g: Load)
    requires CacheIs(c, AllOf(g))
    ensures c == CacheAfter(g.cache, g.live)
  {
  }

  lemma ByIdPush(links: seq<Link>, l: Link)
    ensures ById(links + [l]) == ById(links)[l.id := l]
  {
    assert (links + [l])[..|links|] == links;
  }

  // ---- the cache over the calls of one loader ----

  /** The cache after calls that got these live records. */
  function CacheOf(past: seq<map<string, Live>>): map<string, View> {
    if past == [] then map[] else CacheAfter(CacheOf(past[..|past| - 1]), past[|past| - 1])
  }

  /** Some call got a live record of the link. */
  predicate LiveOnce(past: seq<map<string, Live>>, id: string) { exists i :: 0 <= i < |past| && id in past[i] }

  /** The last live record of the link. */
  function LastLive(past: seq<map<string, Live>>, id: string): Option<Live> {
    if past == [] then None
    else if id in past[|past| - 1] then Some(past[|past| - 1][id])
    else LastLive(past[..|past| - 1], id)
  }

  lemma {:induction false} LiveOnceSnoc(past: seq<map<string, Live>>, id: string)
    requires past != []
    ensures LiveOnce(past, id) <==> LiveOnce(past[..|past| - 1], id) || id in past[|past| - 1]
  {
    var n := |past| - 1;
    if LiveOnce(past[..n], id) {
      var i :| 0 <= i < n && id in past[..n][i];
      assert id in past[i];
    }
    if LiveOnce(past, id) {
      var i :| 0 <= i < |past| && id in past[i];
      assert i < n ==> id in past[..n][i];
    }
  }

  /** The cache holds exactly the links that were live in some call, as they were last live. */
  lemma {:induction false} CacheIsHistory(past: seq<map<string, Live>>, id: string)
    ensures id in CacheOf(past) <==> LiveOnce(past, id)
    ensures LastLive(past, id).Some? <==> LiveOnce(past, id)
    ensures LiveOnce(past, id) ==> CacheOf(past)[id] == ViewOf(LastLive(past, id).value)
  {
    if past != [] {
      CacheIsHistory(past[..|past| - 1], id);
      LiveOnceSnoc(past, id);
    }
  }

  /** No call of an outage gets a live record. */
  predicate Quiet(outage: seq<map<string, Live>>) { forall i :: 0 <= i < |outage| ==> outage[i] == map[] }

  lemma {:induction false} QuietKeepsCache(past: seq<map<string, Live>>, outage: seq<map<string, Live>>)
    requires Quiet(outage)
    ensures CacheOf(past + outage) == CacheOf(past)
  {
    if outage == [] {
      assert past + outage == past;
    } else {
      ConcatInit(past, outage);
      QuietKeepsCache(past, outage[..|outage| - 1]);
      assert CacheAfter(CacheOf(past), map[]) == CacheOf(past);
    }
  }

  /** What a call reads after the calls `past`, got `live` itself. */
  function LoadedNow(metadata: map<string, Meta>, past: seq<map<string, Live>>, live: map<string, Live>): map<string, Link> {
    Loaded(metadata, live, CacheOf(past))
  }

  /** An outage, however long, hides nothing that was ever live: each metadata link that was live before
      is read exactly as in the last call before the outage. */
  lemma {:induction false} OutageKeepsView(metadata: map<string, Meta>, past: seq<map<string, Live>>, live: map<string, Live>,
                                           outage: seq<map<string, Live>>, id: string)
    requires id in metadata && LiveOnce(past + [live], id) && Quiet(outage)
    ensures var after := LoadedNow(metadata, past + [live] + outage, map[]);
      after[id] == LoadedNow(metadata, past, live)[id] && after[id].live
  {
    QuietKeepsCache(past + [live], outage);
    ConcatInit(past, [live]);
    assert past + [live][..0] == past;
    CacheIsHistory(past + [live], id);
  }

  /** So an outage takes no pair out of the plan whose two links are in the metadata and were live in any
      call before. */
  lemma {:induction false} OutageKeepsPair(p: Pair, metadata: map<string, Meta>, past: seq<map<string, Live>>, live: map<string, Live>,
                                           outage: seq<map<string, Live>>, before: seq<Link>, after: seq<Link>)
    requires p.a in metadata && LiveOnce(past + [live], p.a) && p.b in metadata && LiveOnce(past + [live], p.b)
    requires ById(before) == LoadedNow(metadata, past, live)
    requires Quiet(outage) && ById(after) == LoadedNow(metadata, past + [live] + outage, map[])
    ensures Enforceable(p, ById(before)) <==> Enforceable(p, ById(after))
    ensures !Blind(p, ById(after))
  {
    OutageKeepsView(metadata, past, live, outage, p.a);
    OutageKeepsView(metadata, past, live, outage, p.b);
  }

  /** A link is read without a live view exactly when no call of the loader so far got a live record of it. */
  lemma {:induction false} BlindIffNeverLive(metadata: map<string, Meta>, past: seq<map<string, Live>>, live: map<string, Live>, id: string)
    requires id in metadata || id in live
    ensures LoadedNow(metadata, past, live)[id].live <==> LiveOnce(past + [live], id)
  {
    LiveOnceSnoc(past + [live], id);
    ConcatInit(past, [live]);
    assert past + [live][..0] == past;
    CacheIsHistory(past, id);
  }

  // ==== createSiteIsolationApplier ====

  /** For so many applies in a row a missing link is planned as it was last applied. */
  const HOLD_APPLIES := 1

  datatype Input = Unreadable | Readable(pairs: seq<Pair>, links: seq<Link>)

  /** One apply: its options, what was read, and how nft answers the listing and the script. */
  datatype Event = Event(force: bool, input: Input, listed: bool, accepted: bool)

  datatype ErrorCode = InputError | LinksUnresolved | NftError

  /** `kernel` is the table the kernel runs, written as the plan of the script it accepted. */
  datatype State = State(
    hash: Option<int>,
    error: Option<ErrorCode>,
    applied: seq<Pair>,
    lastLinks: map<string, Link>,
    streak: map<string, nat>,
    kernel: Option<Plan>)

  function Ids(pairs: seq<Pair>): seq<string> {
    if pairs == [] then []
    else
      var init, p := Ids(pairs[..|pairs| - 1]), pairs[|pairs| - 1];
      var x := if p.a in init then init else init + [p.a];
      if p.b in x then x else x + [p.b]
  }

  function Present(links: seq<Link>): set<string> { set l | l in links :: l.id }

  function StreakAfter(streak: map<string, nat>, pairs: seq<Pair>, links: seq<Link>): map<string, nat> {
    map id | id in Used(pairs) && id !in Present(links) :: (if id in streak then streak[id] else 0) + 1
  }

  /** Links held over for the missing ids among the first ones of `ids`. */
  function Held(ids: seq<string>, last: map<string, Link>, streak: map<string, nat>): seq<Link> {
    if ids == [] then []
    else
      var id := ids[|ids| - 1];
      Held(ids[..|ids| - 1], last, streak)
      + (if id in streak && id in last && streak[id] <= HOLD_APPLIES then [last[id]] else [])
  }

  function LinksSeen(s: State, pairs: seq<Pair>, links: seq<Link>): seq<Link> {
    links + Held(Ids(pairs), s.lastLinks, StreakAfter(s.streak, pairs, links))
  }

  predicate SiteOf(m: map<string, Link>, id: string) { id in m && IsSiteLink(m[id]) }

  predicate Unresolved(p: Pair, m: map<string, Link>) { !SiteOf(m, p.a) || !SiteOf(m, p.b) }

  predicate Blind(p: Pair, m: map<string, Link>) {
    !Enforceable(p, m) && ((p.a in m && !m[p.a].live) || (p.b in m && !m[p.b].live))
  }

  /** The fail-closed guard in front of nft. */
  predicate KeepOld(pairs: seq<Pair>, links: seq<Link>) {
    var m := ById(links);
    pairs != [] &&
    ((forall i :: 0 <= i < |links| ==> !IsSiteLink(links[i]))
     || (forall i :: 0 <= i < |pairs| ==> Unresolved(pairs[i], m))
     || exists i :: 0 <= i < |pairs| && Blind(pairs[i], m))
  }

  function LinksOfPlan(plan: Plan, seen: seq<Link>): map<string, Link> {
    map id | id in plan.sites && id in ById(seen) :: ById(seen)[id]
  }

  /** From the links as the plan sees them to the kernel. */
  function Enforced(t: State, e: Event, pairs: seq<Pair>, seen: seq<Link>, hashOf: Plan -> int): State {
    var plan := PlanOf(pairs, seen);
    if KeepOld(pairs, seen) then t.(error := Some(LinksUnresolved))
    else if !e.force && t.hash == Some(hashOf(plan)) && t.error.None? && e.listed then t
    else if !e.accepted then t.(error := Some(NftError))
    else
      t.(hash := Some(hashOf(plan)), error := None, applied := plan.pairs,
         lastLinks := LinksOfPlan(plan, seen), kernel := Some(plan))
  }

  function Step(s: State, e: Event, hashOf: Plan -> int): State {
    if e.input.Unreadable? then s.(error := Some(InputError))
    else
      Enforced(s.(streak := StreakAfter(s.streak, e.input.pairs, e.input.links)), e, e.input.pairs,
               LinksSeen(s, e.input.pairs, e.input.links), hashOf)
  }

  class Applier {
    const hashOf: Plan -> int
    var hash: Option<int>
    var error: Option<ErrorCode>
    var appliedPairs: seq<Pair>
    var lastLinks: map<string, Link>
    var missingStreak: map<string, nat>
    var kernel: Option<Plan>

    ghost function Now(): State
      reads this
    {
      State(hash, error, appliedPairs, lastLinks, missingStreak, kernel)
    }

    constructor (h: Plan -> int, table: Option<Plan>)
      ensures Now() == Fresh(table) && hashOf == h
    {
      hashOf, kernel := h, table;
      hash, error, appliedPairs, lastLinks, missingStreak := None, None, [], map[], map[];
    }

    /** One link of the pairs: present, or missing for one apply more and then held or not. */
    method HoldOne(id: string, present: set<string>) returns (kept: seq<Link>)
      modifies this`missingStreak
      ensures missingStreak == if id in present then old(missingStreak) - {id}
                               else old(missingStreak)[id := (if id in old(missingStreak) then old(missingStreak)[id] else 0) + 1]
      ensures kept == if id !in present && id in lastLinks && missingStreak[id] <= HOLD_APPLIES then [lastLinks[id]] else []
    {
      kept := [];
      if id in present {
        missingStreak := missingStreak - {id};
      } else {
        var n := (if id in missingStreak then missingStreak[id] else 0) + 1;
        missingStreak := missingStreak[id := n];
        if id in lastLinks && n <= HOLD_APPLIES {
          kept := [lastLinks[id]];
        }
      }
    }

    /** Links as the plan should see them. */
    method WithHeldLinks(pairs: seq<Pair>, links: seq<Link>) returns (seen: seq<Link>)
      modifies this`missingStreak
      ensures missingStreak == StreakAfter(old(missingStreak), pairs, links)
      ensures seen == links + Held(Ids(pairs), lastLinks, missingStreak)
    {
      var present := Present(links);
      var ids := Ids(pairs);
      ghost var before, full := missingStreak, StreakAfter(missingStreak, pairs, links);
      var held: seq<Link> := [];
      for i := 0 to |ids|
        invariant HeldSoFar(before, full, ids[..i], held)
      {
        FullAt(before, pairs, links, i);
        held := HoldNext(ids[i], present, held, before, full, ids[..i]);
      }
      assert ids[..|ids|] == ids;
      HoldEnd(missingStreak, before, pairs, links);
      missingStreak := map id | id in missingStreak && id in ids :: missingStreak[id];
      return links + held;
    }

    ghost predicate HeldSoFar(before: map<string, nat>, full: map<string, nat>, done: seq<string>, held: seq<Link>)
      reads this`missingStreak, this`lastLinks
    {
      held == Held(done, lastLinks, full) && HalfWay(missingStreak, before, full, done)
    }

    method HoldNext(id: string, present: set<string>, held: seq<Link>,
                    ghost before: map<string, nat>, ghost full: map<string, nat>, ghost done: seq<string>)
      returns (more: seq<Link>)
      requires id !in done && (id in full <==> id !in present)
      requires id in full ==> full[id] == (if id in before then before[id] else 0) + 1
      requires HeldSoFar(before, full, done, held)
      modifies this`missingStreak
      ensures HeldSoFar(before, full, done + [id], more)
    {
      ghost var now := missingStreak;
      var kept := HoldOne(id, present);
      HoldStep(now, missingStreak, before, full, done, id);
      HeldPush(done, id, lastLinks, full);
      more := held + kept;
    }

    method Enforce(e: Event, pairs: seq<Pair>, seen: seq<Link>) returns (ok: bool)
      modifies this
      ensures Now() == Enforced(old(Now()), e, pairs, seen, hashOf)
      ensures ok <==> error.None?
    {
      var plan := PlanSiteIsolation(pairs, seen);
      if KeepOld(pairs, seen) {
        error := Some(LinksUnresolved);
        return false;
      }
      var h := hashOf(plan);
      if !e.force && hash == Some(h) && error.None? && e.listed {
        return true;
      }
      if !e.accepted {
        error := Some(NftError);
        return false;
      }
      kernel := Some(plan);
      hash, error, appliedPairs := Some(h), None, plan.pairs;
      lastLinks := LinksOfPlan(plan, seen);
      return true;
    }

    method ApplyOnce(e: Event) returns (ok: bool)
      modifies this
      ensures Now() == Step(old(Now()), e, hashOf)
      ensures ok <==> error.None?
    {
      if e.input.Unreadable? {
        error := Some(InputError);
        return false;
      }
      var seen := WithHeldLinks(e.input.pairs, e.input.links);
      ok := Enforce(e, e.input.pairs, seen);
    }
  }

  /** The counters of the first ids are the new ones, the others the old ones. */
  ghost predicate HalfWay(now: map<string, nat>, before: map<string, nat>, full: map<string, nat>, done: seq<string>) {
    forall id :: if id in done then (id in now <==> id in full) && (id in full ==> now[id] == full[id])
                 else (id in now <==> id in before) && (id in before ==> now[id] == before[id])
  }

  lemma {:induction false} FullAt(before: map<string, nat>, pairs: seq<Pair>, links: seq<Link>, i: nat)
    requires i < |Ids(pairs)|
    ensures var id := Ids(pairs)[i]; var full := StreakAfter(before, pairs, links);
      && id !in Ids(pairs)[..i] && Ids(pairs)[..i + 1] == Ids(pairs)[..i] + [id]
      && (id in full <==> id !in Present(links))
      && (id in full ==> full[id] == (if id in before then before[id] else 0) + 1)
  {
    IdsUsed(pairs);
    assert Ids(pairs)[i] in Ids(pairs);
    TakeOneMore(Ids(pairs), i);
  }

  lemma {:induction false} HoldStep(now: map<string, nat>, next: map<string, nat>, before: map<string, nat>, full: map<string, nat>,
                                    done: seq<string>, id: string)
    requires HalfWay(now, before, full, done) && id !in done
    requires next == if id in full then now[id := full[id]] else now - {id}
    ensures HalfWay(next, before, full, done + [id])
  {
    assert forall x :: x in done + [id] <==> x in done || x == id;
  }

  lemma {:induction false} HeldPush(done: seq<string>, id: string, last: map<string, Link>, full: map<string, nat>)
    ensures Held(done + [id], last, full)
      == Held(done, last, full) + if id in full && id in last && full[id] <= HOLD_APPLIES then [last[id]] else []
  {
    assert (done + [id])[..|done|] == done;
  }

  lemma {:induction false} HoldEnd(now: map<string, nat>, before: map<string, nat>, pairs: seq<Pair>, links: seq<Link>)
    requires HalfWay(now, before, StreakAfter(before, pairs, links), Ids(pairs))
    ensures (map id | id in now && id in Ids(pairs) :: now[id]) == StreakAfter(before, pairs, links)
  {
    IdsUsed(pairs);
    var full := StreakAfter(before, pairs, links);
    assert forall id :: id in full ==> id in Ids(pairs);
  }

  function Fresh(table: Option<Plan>): State {
    State(None, None, [], map[], map[], table)
  }

  lemma {:induction false} IdsUsed(pairs: seq<Pair>)
    ensures forall id :: id in Ids(pairs) <==> id in Used(pairs)
    ensures forall i, j :: 0 <= i < j < |Ids(pairs)| ==> Ids(pairs)[i] != Ids(pairs)[j]
  {
    if pairs != [] {
      var n := |pairs| - 1;
      IdsUsed(pairs[..n]);
      IdsOfPair(Ids(pairs[..n]), pairs[n]);
      UsedAdd(pairs[..n], pairs[n]);
      TakeOneMore(pairs, n);
      TakeAll(pairs);
    }
  }

  lemma {:induction false} IdsOfPair(init: seq<string>, p: Pair)
    requires forall i, j :: 0 <= i < j < |init| ==> init[i] != init[j]
    ensures var x := if p.a in init then init else init + [p.a]; var y := if p.b in x then x else x + [p.b];
      && (forall i, j :: 0 <= i < j < |y| ==> y[i] != y[j])
      && (forall id :: id in y <==> id in init || id == p.a || id == p.b)
  {
  }

  // ---- invariant of every run ----

  predicate Remembered(last: map<string, Link>, id: string) {
    id in last && last[id].id == id && IsSiteLink(last[id]) && NetsOf(last[id]) != []
  }

  /** applied_pairs names the pairs of the last accepted script, and the links of each are remembered. */
  predicate Inv(s: State, table: Option<Plan>) {
    && (if s.hash.None? then s.applied == [] && s.kernel == table && s.lastLinks == map[]
        else s.kernel.Some? && s.kernel.value.pairs == s.applied)
    && (forall id :: id in s.lastLinks ==> s.lastLinks[id].id == id)
    && (forall p :: p in s.applied ==> Remembered(s.lastLinks, p.a) && Remembered(s.lastLinks, p.b))
  }

  /** What is remembered of the last accepted script changes together or not at all. */
  lemma {:induction false} StepCases(s: State, e: Event, h: Plan -> int)
    ensures var t := Step(s, e, h);
      || (t.applied == s.applied && t.lastLinks == s.lastLinks && t.kernel == s.kernel && t.hash == s.hash)
      || (e.input.Readable? && t.hash.Some?
          && var seen := LinksSeen(s, e.input.pairs, e.input.links); var plan := PlanOf(e.input.pairs, seen);
          t.applied == plan.pairs && t.kernel == Some(plan) && t.lastLinks == LinksOfPlan(plan, seen))
  {
  }

  lemma {:induction false} StepInv(s: State, e: Event, h: Plan -> int, table: Option<Plan>)
    requires Inv(s, table)
    ensures Inv(Step(s, e, h), table)
  {
    StepCases(s, e, h);
    if e.input.Readable? {
      AppliedRemembered(e.input.pairs, LinksSeen(s, e.input.pairs, e.input.links));
    }
  }

  /** Every pair of a plan has its two links among those to be remembered. */
  lemma {:induction false} AppliedRemembered(pairs: seq<Pair>, seen: seq<Link>)
    ensures var plan := PlanOf(pairs, seen); var last := LinksOfPlan(plan, seen);
      && (forall id :: id in last ==> last[id].id == id)
      && (forall p :: p in plan.pairs ==> Remembered(last, p.a) && Remembered(last, p.b))
  {
    var plan := PlanOf(pairs, seen);
    ByIdNames(seen);
    forall p | p in plan.pairs
      ensures Remembered(LinksOfPlan(plan, seen), p.a) && Remembered(LinksOfPlan(plan, seen), p.b)
    {
      PlannedRemembered(pairs, seen, p);
    }
  }

  lemma {:induction false} PlannedRemembered(pairs: seq<Pair>, seen: seq<Link>, p: Pair)
    requires p in PlanOf(pairs, seen).pairs && forall id :: id in ById(seen) ==> ById(seen)[id].id == id
    ensures var last := LinksOfPlan(PlanOf(pairs, seen), seen); Remembered(last, p.a) && Remembered(last, p.b)
  {
    assert Enforceable(p, ById(seen));
  }

  lemma {:induction false} ByIdNames(links: seq<Link>)
    ensures forall id :: id in ById(links) ==> ById(links)[id].id == id
  {
    if links != [] { ByIdNames(links[..|links| - 1]); }
  }

  function Run(s: State, es: seq<Event>, h: Plan -> int): State {
    if es == [] then s else Step(Run(s, es[..|es| - 1], h), es[|es| - 1], h)
  }

  lemma {:induction false} RunInv(table: Option<Plan>, es: seq<Event>, h: Plan -> int)
    ensures Inv(Run(Fresh(table), es, h), table)
  {
    if es != [] {
      RunInv(table, es[..|es| - 1], h);
      StepInv(Run(Fresh(table), es[..|es| - 1], h), es[|es| - 1], h, table);
    }
  }

  // ---- what the missing counters remember ----

  predicate Absent(e: Event, id: string) {
    e.input.Readable? && id !in Present(e.input.links)
  }

  /** The last readable input of the run exists and lacks the link. */
  predicate LastReadableLacks(es: seq<Event>, id: string) {
    if es == [] then false
    else if es[|es| - 1].input.Unreadable? then LastReadableLacks(es[..|es| - 1], id)
    else Absent(es[|es| - 1], id)
  }

  lemma {:induction false} StreakIsHistory(table: Option<Plan>, es: seq<Event>, h: Plan -> int, id: string)
    requires id in Run(Fresh(table), es, h).streak
    ensures LastReadableLacks(es, id)
  {
    if es != [] {
      var e := es[|es| - 1];
      if e.input.Unreadable? {
        StreakIsHistory(table, es[..|es| - 1], h, id);
      }
    }
  }

  // ---- why a pair may leave the table ----

  /** The link was read with a live view and is no site any more, or has no networks. */
  predicate NoSiteNow(e: Event, id: string) {
    e.input.Readable? &&
    var m := ById(e.input.links);
    id in m && m[id].live && (!IsSiteLink(m[id]) || NetsOf(m[id]) == [])
  }

  predicate Blamed(es: seq<Event>, e: Event, id: string) {
    || (Absent(e, id) && LastReadableLacks(es, id))
    || NoSiteNow(e, id)
  }

  lemma {:induction false} HeldHas(ids: seq<string>, last: map<string, Link>, streak: map<string, nat>)
    requires forall id :: id in last ==> last[id].id == id
    ensures forall l :: l in Held(ids, last, streak) ==> l.id in ids && l.id in streak && l.id in last && l == last[l.id]
    ensures forall id :: id in ids && id in streak && id in last && streak[id] <= HOLD_APPLIES ==>
      last[id] in Held(ids, last, streak)
  {
    if ids != [] {
      HeldHas(ids[..|ids| - 1], last, streak);
      assert ids == ids[..|ids| - 1] + [ids[|ids| - 1]];
    }
  }

  lemma {:induction false} ByIdConcat(a: seq<Link>, b: seq<Link>)
    ensures ById(a + b) == ById(a) + ById(b)
  {
    if b == [] {
      assert a + b == a;
    } else {
      ByIdConcat(a, b[..|b| - 1]);
      ConcatInit(a, b);
      PushAfter(ById(a), ById(b[..|b| - 1]), b[|b| - 1]);
    }
  }

  lemma {:induction false} PushAfter(m: map<string, Link>, n: map<string, Link>, l: Link)
    ensures (m + n)[l.id := l] == m + n[l.id := l]
  {
  }

  lemma {:induction false} ByIdKeys(links: seq<Link>)
    ensures ById(links).Keys == Present(links)
  {
    if links != [] {
      ByIdKeys(links[..|links| - 1]);
      assert links == links[..|links| - 1] + [links[|links| - 1]];
    }
  }

  /** How the plan sees a link: as read, or, on its first absence, as last applied. */
  lemma SeenLink(s: State, pairs: seq<Pair>, links: seq<Link>, id: string, table: Option<Plan>)
    requires Inv(s, table) && id in Used(pairs)
    ensures var seen := ById(LinksSeen(s, pairs, links));
      && (id in Present(links) ==> id in seen && seen[id] == ById(links)[id])
      && (id !in Present(links) && Remembered(s.lastLinks, id) && id !in s.streak ==>
            id in seen && seen[id] == s.lastLinks[id])
  {
    var streak := StreakAfter(s.streak, pairs, links);
    var held := Held(Ids(pairs), s.lastLinks, streak);
    IdsUsed(pairs);
    HeldHas(Ids(pairs), s.lastLinks, streak);
    ByIdKeys(links);
    ByIdKeys(held);
    ByIdConcat(links, held);
    if id in Present(links) {
      assert id !in Present(held);
    } else if Remembered(s.lastLinks, id) && id !in s.streak {
      assert s.lastLinks[id] in held;
      assert id in Present(held);
    }
  }

  /** One step: an enforced pair leaves only for one of the admitted reasons. */
  lemma StepKeepsPairs(s: State, es: seq<Event>, e: Event, h: Plan -> int, table: Option<Plan>, p: Pair)
    requires Inv(s, table) && p in s.applied && p !in Step(s, e, h).applied
    requires forall id :: id in s.streak ==> LastReadableLacks(es, id)
    ensures e.input.Readable? && (p !in e.input.pairs || Blamed(es, e, p.a) || Blamed(es, e, p.b))
  {
    var pairs, links := e.input.pairs, e.input.links;
    var seen := LinksSeen(s, pairs, links);
    var m := ById(seen);
    if p in pairs && !Blamed(es, e, p.a) && !Blamed(es, e, p.b) {
      assert p.a in Used(pairs) && p.b in Used(pairs);
      SeenLink(s, pairs, links, p.a, table);
      SeenLink(s, pairs, links, p.b, table);
      assert !Enforceable(p, m);
      ByIdKeys(links);
      assert Blind(p, m);
      BlindKeepsOld(pairs, seen, p);
    }
  }

  lemma BlindKeepsOld(pairs: seq<Pair>, seen: seq<Link>, p: Pair)
    requires p in pairs && Blind(p, ById(seen))
    ensures KeepOld(pairs, seen)
  {
    var i :| 0 <= i < |pairs| && pairs[i] == p;
    assert Blind(pairs[i], ById(seen));
  }

  /** Over every run: a pair of the last accepted script leaves the table only when the admin removed it,
      one of its links was absent from two consecutive readable inputs, or a link read with a live view
      is no site or has no networks. */
  lemma PairsLeaveOnlyForCause(table: Option<Plan>, es: seq<Event>, e: Event, h: Plan -> int, p: Pair)
    requires p in Run(Fresh(table), es, h).applied && p !in Run(Fresh(table), es + [e], h).applied
    ensures e.input.Readable? && (p !in e.input.pairs || Blamed(es, e, p.a) || Blamed(es, e, p.b))
  {
    var s := Run(Fresh(table), es, h);
    assert (es + [e])[..|es|] == es;
    RunInv(table, es, h);
    forall id | id in s.streak ensures LastReadableLacks(es, id) {
      StreakIsHistory(table, es, h, id);
    }
    StepKeepsPairs(s, es, e, h, table, p);
  }

  /** applied_pairs is what the kernel runs, from the first accepted script on. */
  lemma AppliedIsKernel(table: Option<Plan>, es: seq<Event>, h: Plan -> int)
    ensures var s := Run(Fresh(table), es, h);
      if s.hash.None? then s.applied == [] && s.kernel == table
      else s.kernel.Some? && s.kernel.value.pairs == s.applied
  {
    RunInv(table, es, h);
  }

  /** A failed apply changes neither the table nor what is remembered of it. */
  lemma FailedApplyChangesNothing(s: State, e: Event, h: Plan -> int)
    requires Step(s, e, h).error.Some?
    ensures var t := Step(s, e, h);
      t.kernel == s.kernel && t.applied == s.applied && t.hash == s.hash && t.lastLinks == s.lastLinks
  {
  }

  // ---- the boundary: links are held by the running process only ----

  lemma {:induction false} HeldNothing(ids: seq<string>, streak: map<string, nat>)
    ensures Held(ids, map[], streak) == []
  {
    if ids != [] { HeldNothing(ids[..|ids| - 1], streak); }
  }

  predicate InKernel(s: State, p: Pair) { s.kernel.Some? && p in s.kernel.value.pairs }

  lemma {:induction false} SeesLinksOnly(s: State, pairs: seq<Pair>, links: seq<Link>)
    requires s.lastLinks == map[]
    ensures LinksSeen(s, pairs, links) == links
  {
    HeldNothing(Ids(pairs), StreakAfter(s.streak, pairs, links));
    assert links + [] == links;
  }

  /** Until its first accepted script a restarted applier has nothing to hold: at every such apply a pair
      that the kernel still enforces survives if and only if nothing is applied, or the pair is listed and
      both its links are read as sites with networks now. */
  lemma {:induction false} FreshApplierKeepsIff(table: Option<Plan>, es: seq<Event>, e: Event, h: Plan -> int, p: Pair)
    requires table.Some? && p in table.value.pairs && Run(Fresh(table), es, h).hash.None?
    ensures InKernel(Run(Fresh(table), es, h), p)
    ensures InKernel(Step(Run(Fresh(table), es, h), e, h), p)
      <==> e.input.Unreadable? || KeepOld(e.input.pairs, e.input.links) || !e.accepted
           || (p in e.input.pairs && Enforceable(p, ById(e.input.links)))
  {
    RunInv(table, es, h);
    if e.input.Readable? { SeesLinksOnly(Run(Fresh(table), es, h), e.input.pairs, e.input.links); }
  }

  function Site(id: string, net: nat): Link { Link(id, SiteToSite, [Dotted(10, net, 0, 0, Prefix(24))], [], true) }

  lemma {:induction false} SiteHasNets(id: string, net: nat)
    requires net < 256
    ensures NetsOf(Site(id, net)) != []
  {
    var l := Site(id, net);
    var t := l.imported[0];
    assert l.imported[..0] == [];
    assert ImportedNets(l.imported) == [CanonicalCidr(t).value];
    assert Accepted(l)[0] == CanonicalCidr(t).value;
    AcceptedCanonical(l);
    var o := HasOutermost(Accepted(l)[0], Accepted(l));
    NetsElements(Accepted(l));
    assert o in NetsOf(l);
  }

  lemma {:induction false} TwoLinks(a: Link, b: Link)
    requires a.id != b.id
    ensures ById([a, b]) == map[a.id := a, b.id := b]
  {
    assert [a][..0] == [] && [a, b][..1] == [a];
    assert ById([a]) == map[a.id := a];
  }

  lemma {:induction false} ThreeLinks(a: Link, b: Link, c: Link)
    requires a.id != b.id && a.id != c.id && b.id != c.id
    ensures ById([a, b, c]) == map[a.id := a, b.id := b, c.id := c]
  {
    TwoLinks(a, b);
    assert [a, b, c][..2] == [a, b];
  }

  lemma {:induction false} GuardPasses(pairs: seq<Pair>, a: Link, c: Link, i: nat)
    requires IsSiteLink(a) && a.live && c.live && IsSiteLink(c) && a.id != c.id
    requires i < |pairs| && pairs[i] == Pair(a.id, c.id)
    ensures !KeepOld(pairs, [a, c])
  {
    TwoLinks(a, c);
    var m := ById([a, c]);
    assert IsSiteLink([a, c][0]);
    assert !Unresolved(pairs[i], m);
    forall j | 0 <= j < |pairs| ensures !Blind(pairs[j], m) { }
  }

  /** An enforced pair that the admin still lists is lost: its link `hq` is missing from the first input
      after a restart, and another pair keeps the guard from holding the old table. */
  lemma {:induction false} RestartLosesPair(a: Link, b: Link, c: Link, table: Option<Plan>, e: Event, h: Plan -> int, p: Pair, q: Pair)
    requires a == Site("branch", 1) && b == Site("hq", 2) && c == Site("depot", 3)
    requires p == Pair("branch", "hq") && q == Pair("branch", "depot")
    requires table == Some(PlanOf([p, q], [a, b, c])) && e == Event(false, Readable([p, q], [a, c]), true, true)
    ensures p in table.value.pairs && p in e.input.pairs && !KeepOld(e.input.pairs, e.input.links)
    ensures !InKernel(Step(Fresh(table), e, h), p)
  {
    ShortNames();
    EnforcedBefore(a, b, c, p, q);
    TwoLinks(a, c);
    GuardPasses([p, q], a, c, 1);
    FreshApplierKeepsIff(table, [], e, h, p);
  }

  lemma {:induction false} ShortNames()
    ensures "branch" != "hq" && "branch" != "depot" && "hq" != "depot"
  {
    assert "branch"[0] == 'b' && "hq"[0] == 'h' && "depot"[0] == 'd';
  }

  lemma {:induction false} EnforcedBefore(a: Link, b: Link, c: Link, p: Pair, q: Pair)
    requires a.id != b.id && a.id != c.id && b.id != c.id && p == Pair(a.id, b.id)
    requires a == Site(a.id, 1) && b == Site(b.id, 2)
    ensures p in PlanOf([p, q], [a, b, c]).pairs
  {
    ThreeLinks(a, b, c);
    SiteHasNets(a.id, 1);
    SiteHasNets(b.id, 2);
    assert p in [p, q] && Enforceable(p, ById([a, b, c]));
  }
}
