/** Renewal of a broken certbot lineage (backend/internal/certificate.js): directories are moved
    aside, certbot writes whatever it likes, the old ones are put back or discarded, and the
    process may die after any single file operation. */
module CertRenewal {
  import opened Seqs

  // ==== the files ====

  datatype Sub = Live | Archive | Renewal | CertbotRenewal

  /** A path below the letsencrypt dir, `live/npm-7`, or below its backup dir. */
  datatype Key = Key(sub: Sub, name: string)

  datatype Item = Bytes(nonEmpty: bool) | Link(file: string)

  /** A directory of plain files and of links into the archive entry of the same name; or a conf. */
  datatype Entry = Dir(files: map<string, Item>) | Conf(text: string)

  type Tree = map<Key, Entry>

  datatype Disk = Disk(here: Tree, aside: Tree)

  const FULLCHAIN: string := "fullchain.pem"

  /** What live/<name>/<file> resolves to, links followed; Nothing when nothing is there. */
  datatype Found = Nothing | File(nonEmpty: bool)

  function Resolved(t: Tree, name: string, file: string): Found {
    if Key(Live, name) !in t || t[Key(Live, name)].Conf? || file !in t[Key(Live, name)].files then Nothing
    else match t[Key(Live, name)].files[file]
      case Bytes(n) => File(n)
      case Link(f) =>
        if Key(Archive, name) in t && t[Key(Archive, name)].Dir? && f in t[Key(Archive, name)].files
           && t[Key(Archive, name)].files[f].Bytes?
        then File(t[Key(Archive, name)].files[f].nonEmpty)
        else Nothing
  }

  function Fullchain(t: Tree, name: string): Found { Resolved(t, name, FULLCHAIN) }

  predicate Usable(t: Tree, name: string) { Fullchain(t, name) == File(true) }

  /** What a removal that was cut short leaves of an entry. */
  predicate PartOf(p: Entry, e: Entry) {
    match e
    case Conf(_) => p == e
    case Dir(files) =>
      p.Dir? && p.files.Keys <= files.Keys && forall f :: f in p.files ==> p.files[f] == files[f]
  }

  predicate PartsOf(p: Tree, t: Tree) {
    p.Keys <= t.Keys && forall k :: k in p ==> PartOf(p[k], t[k])
  }

  // ==== what recovery makes of a disk ====

  /** Entries are kept in place only when they are usable. */
  predicate Keep(here: Tree, k: Key) {
    k in here && (k.sub in {Live, Archive} ==> Usable(here, k.name))
  }

  /** The entries among `ks` that are not kept go back to their place. */
  function Settle(d: Disk, ks: set<Key>): Disk {
    Disk(d.here + map k | k in ks && k in d.aside && !Keep(d.here, k) :: d.aside[k],
         map k | k in d.aside && !(k in ks && !Keep(d.here, k)) :: d.aside[k])
  }

  function Entries(t: Tree, sub: Sub): set<Key> { set k | k in t && k.sub == sub }

  function KeySet(keys: seq<Key>): set<Key> { set k | k in keys }

  function Phase(d: Disk, sub: Sub): Disk { Settle(d, Entries(d.aside, sub)) }

  /** The archive phase asks for usable live dirs, so it comes after the live phase. */
  function Phases(d: Disk): Disk { Phase(Phase(Phase(Phase(d, Live), Archive), Renewal), CertbotRenewal) }

  function Recovered(d: Disk): Disk { Disk(Phases(d).here, map[]) }

  /** The fullchain is not lost: the copy in place is usable, or the one that recovery would put
      back is, live and archive decided one after the other. */
  predicate Safe(d: Disk, name: string) {
    var l, a := Key(Live, name), Key(Archive, name);
    var here1 := if l in d.aside && !Usable(d.here, name) then d.here[l := d.aside[l]] else d.here;
    var here2 := if a in d.aside && !(a in here1 && Usable(here1, name)) then here1[a := d.aside[a]] else here1;
    Usable(here2, name)
  }

  /** Usability depends on the two entries of that name only. */
  lemma UsableDepends(t: Tree, u: Tree, name: string)
    requires Key(Live, name) in t <==> Key(Live, name) in u
    requires Key(Live, name) in t ==> t[Key(Live, name)] == u[Key(Live, name)]
    requires Key(Archive, name) in t <==> Key(Archive, name) in u
    requires Key(Archive, name) in t ==> t[Key(Archive, name)] == u[Key(Archive, name)]
    ensures Fullchain(t, name) == Fullchain(u, name)
  {
  }

  /** Losing files never makes a fullchain usable. */
  lemma LessIsNotUsable(t: Tree, k: Key, p: Entry, name: string)
    requires k in t && PartOf(p, t[k]) && !Usable(t, name)
    ensures !Usable(t[k := p], name) && !Usable(t - {k}, name)
  {
  }

  /** A usable fullchain in place is safe whatever is left of the backup. */
  lemma UsableIsSafe(d: Disk, name: string)
    requires Usable(d.here, name)
    ensures Safe(d, name)
  {
  }

  // ==== the held set: moves, certbot and restore ====

  /** Each entry of `was` is either still aside, whatever stands in its place, or at home. */
  predicate Held(d: Disk, was: Tree) {
    && (forall k :: k in was ==> if k in d.aside then d.aside[k] == was[k] else k in d.here && d.here[k] == was[k])
    && d.aside.Keys <= was.Keys
  }

  lemma HeldIsSafe(d: Disk, was: Tree, name: string)
    requires Held(d, was) && Usable(was, name)
    ensures Safe(d, name)
  {
    assert Key(Live, name) in was;
  }

  // ==== one step of a recovery ====

  /** Putting an entry back, cut short anywhere, loses nothing. */
  lemma PutBackSafe(d: Disk, k: Key, p: Entry, name: string)
    requires Safe(d, name) && k in d.aside && !Keep(d.here, k)
    requires k.sub == Archive && Key(Live, k.name) in d.aside ==> Usable(d.here, k.name)
    requires k in d.here ==> PartOf(p, d.here[k])
    ensures k in d.here ==> Safe(d.(here := d.here[k := p]), name)
    ensures Safe(d.(here := d.here - {k}), name)
    ensures Safe(Disk(d.here[k := d.aside[k]], d.aside - {k}), name)
  {
    if k.name == name && k in d.here && k.sub in {Live, Archive} {
      LessIsNotUsable(d.here, k, p, name);
    }
    PutBackOther(d, k, p, name);
    if k == Key(Live, name) { PutBackLive(d, p, name); }
    if k == Key(Archive, name) { PutBackArchive(d, p, name); }
  }

  lemma PutBackOther(d: Disk, k: Key, p: Entry, name: string)
    requires Safe(d, name) && k in d.aside
    ensures k != Key(Live, name) && k != Key(Archive, name) ==>
      && Safe(d.(here := d.here[k := p]), name)
      && Safe(d.(here := d.here - {k}), name)
      && Safe(Disk(d.here[k := d.aside[k]], d.aside - {k}), name)
  {
  }

  lemma PutBackLive(d: Disk, p: Entry, name: string)
    requires Safe(d, name) && Key(Live, name) in d.aside && !Usable(d.here, name)
    requires Key(Live, name) in d.here ==> PartOf(p, d.here[Key(Live, name)])
    ensures Key(Live, name) in d.here ==> Safe(d.(here := d.here[Key(Live, name) := p]), name)
    ensures Safe(d.(here := d.here - {Key(Live, name)}), name)
    ensures Safe(Disk(d.here[Key(Live, name) := d.aside[Key(Live, name)]], d.aside - {Key(Live, name)}), name)
  {
    var l := Key(Live, name);
    if l in d.here { LessIsNotUsable(d.here, l, p, name); }
    assert (d.here[l := p])[l := d.aside[l]] == d.here[l := d.aside[l]];
    assert (d.here - {l})[l := d.aside[l]] == d.here[l := d.aside[l]];
  }

  lemma PutBackArchive(d: Disk, p: Entry, name: string)
    requires Safe(d, name) && Key(Archive, name) in d.aside && !Keep(d.here, Key(Archive, name))
    requires Key(Live, name) in d.aside ==> Usable(d.here, name)
    requires Key(Archive, name) in d.here ==> PartOf(p, d.here[Key(Archive, name)])
    ensures Key(Archive, name) in d.here ==> Safe(d.(here := d.here[Key(Archive, name) := p]), name)
    ensures Safe(d.(here := d.here - {Key(Archive, name)}), name)
    ensures Safe(Disk(d.here[Key(Archive, name) := d.aside[Key(Archive, name)]], d.aside - {Key(Archive, name)}), name)
  {
    var a := Key(Archive, name);
    if a in d.here { LessIsNotUsable(d.here, a, p, name); }
    assert (d.here[a := p])[a := d.aside[a]] == d.here[a := d.aside[a]];
    assert (d.here - {a})[a := d.aside[a]] == d.here[a := d.aside[a]];
    if a !in d.here { assert d.here - {a} == d.here; }
  }

  /** Entries of one sub, put back one after the other, do not bear on each other. */
  lemma {:induction false} SettleKeeps(d: Disk, ks: set<Key>, k: Key)
    requires k in d.aside && k !in ks && forall j :: j in ks ==> j.sub == k.sub
    ensures var s := Settle(d, ks); k in s.aside && s.aside[k] == d.aside[k] && Keep(s.here, k) == Keep(d.here, k)
  {
    if k.sub == Live || k.sub == Archive { UsableDepends(Settle(d, ks).here, d.here, k.name); }
  }

  lemma {:induction false} SettleStep(d: Disk, ks: set<Key>, k: Key, sub: Sub)
    requires k in d.aside && k !in ks && k.sub == sub && forall j :: j in ks ==> j.sub == sub
    ensures var s := Settle(d, ks);
      && k in s.aside && Keep(s.here, k) == Keep(d.here, k)
      && Settle(d, ks + {k}) == if Keep(d.here, k) then s else Disk(s.here[k := s.aside[k]], s.aside - {k})
  {
    SettleKeeps(d, ks, k);
    if Keep(d.here, k) { SettleKept(d, ks, k); } else { SettleMoved(d, ks, k); }
  }

  lemma {:induction false} SettleKept(d: Disk, ks: set<Key>, k: Key)
    requires k in d.aside && Keep(d.here, k)
    ensures Settle(d, ks + {k}) == Settle(d, ks)
  {
    var s, t := Settle(d, ks), Settle(d, ks + {k});
    assert t.here == s.here;
    assert t.aside == s.aside;
  }

  lemma {:induction false} SettleMoved(d: Disk, ks: set<Key>, k: Key)
    requires k in d.aside && k !in ks && !Keep(d.here, k)
    ensures var s := Settle(d, ks);
      k in s.aside && Settle(d, ks + {k}) == Disk(s.here[k := s.aside[k]], s.aside - {k})
  {
    var s, t := Settle(d, ks), Settle(d, ks + {k});
    assert t.here == s.here[k := s.aside[k]];
    assert t.aside == s.aside - {k};
  }

  // ==== one file operation ====

  /** A removal gets some way, or ends; an entry moves home; an entry moves aside. */
  ghost predicate KeyOp(d: Disk, e: Disk, k: Key) {
    || (k in d.here && Trimmed(d, e, k))
    || (k in d.here && e == d.(here := d.here - {k}))
    || (k in d.aside && k !in d.here && e == Disk(d.here[k := d.aside[k]], d.aside - {k}))
    || (k in d.here && k !in d.aside && e == Disk(d.here - {k}, d.aside[k := d.here[k]]))
  }

  /** Of entry k only a part is left. */
  ghost predicate Trimmed(d: Disk, e: Disk, k: Key)
    requires k in d.here
  {
    exists p :: PartOf(p, d.here[k]) && e == d.(here := d.here[k := p])
  }

  /** The removal of the backup gets some way, or ends. */
  predicate Wiped(d: Disk, e: Disk) { e.here == d.here && PartsOf(e.aside, d.aside) }

  /** One operation of the process, or a write of certbot outside the backup. */
  ghost predicate Op(d: Disk, e: Disk, writes: set<Tree>) {
    || (exists k :: KeyOp(d, e, k))
    || Wiped(d, e)
    || (e.aside == d.aside && e.here in writes)
  }

  /** `steps` are all the states from d (not included) to e, one operation apart. */
  ghost predicate Path(d: Disk, steps: seq<Disk>, e: Disk, writes: set<Tree>) {
    && At(d, steps, |steps|) == e
    && forall i :: 0 <= i < |steps| ==> Op(At(d, steps, i), steps[i], writes)
  }

  lemma {:induction false} PathJoin(d: Disk, a: seq<Disk>, m: Disk, b: seq<Disk>, e: Disk, writes: set<Tree>)
    requires Path(d, a, m, writes) && Path(m, b, e, writes)
    ensures Path(d, a + b, e, writes)
  {
    var ab := a + b;
    AtJoin(d, a, m, b);
    forall i | 0 <= i < |ab| ensures Op(At(d, ab, i), ab[i], writes) {
      JoinedOp(d, a, m, b, e, i, writes);
    }
  }

  lemma {:induction false} JoinedOp(d: Disk, a: seq<Disk>, m: Disk, b: seq<Disk>, e: Disk, i: nat, writes: set<Tree>)
    requires Path(d, a, m, writes) && Path(m, b, e, writes) && i < |a + b|
    ensures Op(At(d, a + b, i), (a + b)[i], writes)
  {
    AtJoin(d, a, m, b);
    if i < |a| {
      assert Op(At(d, a, i), a[i], writes);
    } else {
      assert Op(At(m, b, i - |a|), b[i - |a|], writes);
    }
  }

  lemma {:induction false} PathOne(m: Disk, e: Disk, writes: set<Tree>)
    requires Op(m, e, writes)
    ensures Path(m, [e], e, writes)
  {
    assert At(m, [e], 0) == m && At(m, [e], 1) == e;
  }

  lemma {:induction false} PathPush(d: Disk, steps: seq<Disk>, m: Disk, e: Disk, writes: set<Tree>)
    requires Path(d, steps, m, writes) && Op(m, e, writes)
    ensures Path(d, steps + [e], e, writes)
  {
    PathOne(m, e, writes);
    PathJoin(d, steps, m, [e], e, writes);
  }

  lemma {:induction false} PathWithWrites(d: Disk, steps: seq<Disk>, e: Disk, writes: set<Tree>)
    requires Path(d, steps, e, {})
    ensures Path(d, steps, e, writes)
  {
    forall i | 0 <= i < |steps| ensures Op(At(d, steps, i), steps[i], writes) {
      assert Op(At(d, steps, i), steps[i], {});
    }
  }

  // ==== the states a process can die in ====

  /** On the way of putting one entry back: of what occupies its place some part is left, or nothing,
      or the entry is home. */
  ghost predicate PutBackStep(d: Disk, k: Key, s: Disk)
    requires k in d.aside
  {
    || s == Disk(d.here[k := d.aside[k]], d.aside - {k})
    || s == d.(here := d.here - {k})
    || (k in d.here && Trimmed(d, s, k))
  }

  /** In one phase of a recovery: the entries of `done` were looked at, perhaps another is on its way. */
  ghost predicate PhaseAt(d: Disk, sub: Sub, done: set<Key>, s: Disk) {
    || s == Settle(d, done)
    || exists k :: k in Entries(d.aside, sub) && k !in done && !Keep(d.here, k)
         && k in Settle(d, done).aside && PutBackStep(Settle(d, done), k, s)
  }

  ghost predicate PhaseCrash(d: Disk, sub: Sub, s: Disk) {
    exists done :: done <= Entries(d.aside, sub) && PhaseAt(d, sub, done, s)
  }

  /** A recovery from d can die in s. */
  ghost predicate RecoveryCrash(d: Disk, s: Disk) {
    var d1 := Phase(d, Live);
    var d2 := Phase(d1, Archive);
    var d3 := Phase(d2, Renewal);
    || PhaseCrash(d, Live, s)
    || PhaseCrash(d1, Archive, s)
    || PhaseCrash(d2, Renewal, s)
    || PhaseCrash(d3, CertbotRenewal, s)
    || Wiped(Phases(d), s)
  }

  /** A restore of `was` over what certbot left can die in s. */
  ghost predicate RestoreCrash(after: Tree, was: Tree, s: Disk) {
    exists ks :: ks <= was.Keys && RestoreAt(after, was, ks, s)
  }

  ghost predicate RestoreAt(after: Tree, was: Tree, ks: set<Key>, s: Disk) {
    || s == Home(after, was, ks)
    || exists k :: k in was && k !in ks && PutBackStep(Home(after, was, ks), k, s)
  }

  /** A renewal of a broken lineage that starts at d and meets this certbot can die in s: in the first
      recovery, in the moves, in certbot, or in the restore. */
  ghost predicate RenewalCrash(d: Disk, prefix: string, separate: bool, c: Certbot, s: Disk) {
    var t, was := Recovered(d).here, SetAside(d, prefix, separate);
    || RecoveryCrash(d, s)
    || ApartWithin(s, t, Moved(t, prefix, separate))
    || (s.aside == was && s.here in Writes(c))
    || (!Renewed(prefix, separate, c) && RestoreCrash(c.after, was, s))
  }

  // ==== the operations ====

  class Store {
    var disk: Disk
    /** certbot's own renewal dir is not letsencrypt's. */
    const separate: bool

    constructor (d: Disk, separate: bool)
      ensures disk == d && this.separate == separate
    {
      disk := d;
      this.separate := separate;
    }

    /** The names come in any order. */
    method ReadDir(t: Tree, sub: Sub) returns (keys: seq<Key>)
      ensures NoRepeats(keys)
      ensures KeySet(keys) == Entries(t, sub)
    {
      keys := [];
      var rest := Entries(t, sub);
      while rest != {}
        invariant NoRepeats(keys)
        invariant forall k :: k in Entries(t, sub) <==> k in keys || k in rest
        invariant forall k :: k in keys ==> k !in rest
      {
        var k :| k in rest;
        keys, rest := keys + [k], rest - {k};
      }
    }

    /** Remove what occupies the place of a saved entry, then move the entry there. */
    method PutBack(k: Key) returns (ghost steps: seq<Disk>)
      requires k in disk.aside
      modifies this
      ensures disk == Disk(old(disk).here[k := old(disk).aside[k]], old(disk).aside - {k})
      ensures Path(old(disk), steps, disk, {})
      ensures forall i :: 0 <= i < |steps| ==> PutBackStep(old(disk), k, steps[i])
    {
      steps := [];
      ghost var d := disk;
      if k in disk.here {
        var p: Entry := *;
        if PartOf(p, disk.here[k]) {
          disk := disk.(here := disk.here[k := p]);
          steps := steps + [disk];
        }
        RemoveOps(d, disk, k);
        disk := disk.(here := disk.here - {k});
        steps := steps + [disk];
      }
      MoveHomeOp(d, disk, k);
      disk := Disk(disk.here[k := disk.aside[k]], disk.aside - {k});
      steps := steps + [disk];
    }

    method RecoverEntry(k: Key, sub: Sub, ghost d0: Disk, ghost done: set<Key>) returns (ghost steps: seq<Disk>)
      requires k in Entries(d0.aside, sub) && k !in done && done <= Entries(d0.aside, sub)
      requires disk == Settle(d0, done)
      modifies this
      ensures disk == Settle(d0, done + {k})
      ensures Path(old(disk), steps, disk, {}) && AllPhase(d0, sub, steps)
    {
      steps := [];
      SettleStep(d0, done, k, sub);
      if !Keep(disk.here, k) {
        ghost var d := disk;
        steps := PutBack(k);
        OnTheWay(d0, sub, done, k, steps);
      }
    }

    method RecoverPhase(sub: Sub) returns (ghost steps: seq<Disk>)
      modifies this
      ensures disk == Phase(old(disk), sub)
      ensures Path(old(disk), steps, disk, {}) && AllPhase(old(disk), sub, steps)
    {
      steps := [];
      ghost var d := disk;
      var keys := ReadDir(disk.aside, sub);
      SettleNone(d);
      for i := 0 to |keys|
        invariant disk == Settle(d, KeySet(keys[..i]))
        invariant Path(d, steps, disk, {}) && AllPhase(d, sub, steps)
      {
        NextKey(keys, i, Entries(d.aside, sub));
        ghost var m := disk;
        ghost var more := RecoverEntry(keys[i], sub, d, KeySet(keys[..i]));
        PathJoin(d, steps, m, more, disk, {});
        steps := steps + more;
      }
      TakeAll(keys);
    }

    /** Only entries that are usable stay; the backup goes once every entry was looked at. */
    method RecoverStaleRenewalBackup() returns (ghost steps: seq<Disk>)
      modifies this
      ensures disk == Recovered(old(disk))
      ensures Path(old(disk), steps, disk, {}) && AllRecovery(old(disk), steps)
    {
      ghost var d := disk;
      ghost var s1 := RecoverPhase(Live);
      ghost var d1 := disk;
      ghost var s2 := RecoverPhase(Archive);
      ghost var d2 := disk;
      ghost var s3 := RecoverPhase(Renewal);
      ghost var d3 := disk;
      ghost var s4 := RecoverPhase(CertbotRenewal);
      ghost var d4 := disk;
      ghost var s5 := Wipe();
      PathJoin(d, s1, d1, s2, d2, {});
      PathJoin(d, s1 + s2, d2, s3, d3, {});
      PathJoin(d, s1 + s2 + s3, d3, s4, d4, {});
      PathJoin(d, s1 + s2 + s3 + s4, d4, s5, disk, {});
      PhasesRecover(d, s1, s2, s3, s4, s5);
      steps := s1 + s2 + s3 + s4 + s5;
    }

    /** rmSync of the backup dir. */
    method Wipe() returns (ghost steps: seq<Disk>)
      modifies this
      ensures disk == old(disk).(aside := map[])
      ensures Path(old(disk), steps, disk, {}) && AllWiped(old(disk), steps)
    {
      ghost var d := disk;
      steps := [];
      var p: Tree := *;
      if PartsOf(p, disk.aside) {
        disk := disk.(aside := p);
        steps := [disk];
      }
      disk := disk.(aside := map[]);
      steps := steps + [disk];
    }

    method MoveEntry(k: Key, ghost t: Tree, ghost moved: set<Key>, ghost entries: seq<Key>)
      requires disk == Apart(t, moved + KeySet(entries)) && k in t && k !in moved && k !in entries
      modifies this
      ensures disk == Apart(t, moved + KeySet(entries + [k])) && Op(old(disk), disk, {})
    {
      assert moved + KeySet(entries + [k]) == moved + KeySet(entries) + {k};
      ApartStep(t, moved + KeySet(entries), k);
      ghost var d := disk;
      disk := Disk(disk.here - {k}, disk.aside[k := disk.here[k]]);
      assert KeyOp(d, disk, k);
    }

    method MoveAside(prefix: string, sub: Sub, ghost t: Tree, ghost moved: set<Key>)
      returns (entries: seq<Key>, ghost steps: seq<Disk>)
      requires disk == Apart(t, moved) && forall k :: k in moved ==> k.sub != sub
      modifies this
      ensures disk == Apart(t, moved + Matching(t, prefix, sub))
      ensures KeySet(entries) == Matching(t, prefix, sub) && NoRepeats(entries)
      ensures Path(old(disk), steps, disk, {}) && Within(steps, t, moved + Matching(t, prefix, sub))
    {
      entries, steps := [], [];
      ghost var d := disk;
      var keys := ReadDir(disk.here, sub);
      ghost var all := Entries(disk.here, sub);
      assert moved + KeySet([]) == moved;
      for i := 0 to |keys|
        invariant MovedSoFar(entries, keys[..i], prefix, t, moved, sub) && disk == Apart(t, moved + KeySet(entries))
        invariant Path(d, steps, disk, {}) && Within(steps, t, moved + Matching(t, prefix, sub))
      {
        NextKey(keys, i, all);
        TakeOneMore(keys, i);
        if Matches(prefix, keys[i]) {
          ghost var m := disk;
          MoveEntry(keys[i], t, moved, entries);
          MovedOneMore(entries, keys[..i], keys[i], prefix, t, moved, sub);
          entries := entries + [keys[i]];
          PathPush(d, steps, m, disk, {});
          steps := steps + [disk];
        }
      }
      TakeAll(keys);
      MovedAll(entries, keys, prefix, t, moved, sub, all);
    }

    method MoveAllAside(prefix: string, ghost t: Tree) returns (entries: seq<Key>, ghost steps: seq<Disk>)
      requires disk == Apart(t, {})
      modifies this
      ensures disk == Apart(t, Moved(t, prefix, separate))
      ensures KeySet(entries) == Moved(t, prefix, separate) && NoRepeats(entries)
      ensures Path(old(disk), steps, disk, {}) && Within(steps, t, Moved(t, prefix, separate))
    {
      ghost var d, all := disk, Moved(t, prefix, separate);
      MovedInOrder(t, prefix, separate);
      entries, steps := MoveNext(prefix, Archive, t, [], {}, all, d, []);
      entries, steps := MoveNext(prefix, Live, t, entries, Upto(t, prefix, 1), all, d, steps);
      entries, steps := MoveNext(prefix, Renewal, t, entries, Upto(t, prefix, 2), all, d, steps);
      if separate {
        entries, steps := MoveNext(prefix, CertbotRenewal, t, entries, Upto(t, prefix, 3), all, d, steps);
      }
    }

    /** The matching entries of one more sub behind those moved before. */
    method MoveNext(prefix: string, sub: Sub, ghost t: Tree, before: seq<Key>, ghost moved: set<Key>, ghost all: set<Key>,
                    ghost d: Disk, ghost steps: seq<Disk>)
      returns (entries: seq<Key>, ghost more: seq<Disk>)
      requires NoRepeats(before) && KeySet(before) == moved && Lacks(moved, sub)
      requires disk == Apart(t, moved) && moved + Matching(t, prefix, sub) <= all
      requires Path(d, steps, disk, {}) && Within(steps, t, all)
      modifies this
      ensures KeySet(entries) == moved + Matching(t, prefix, sub) && NoRepeats(entries)
      ensures disk == Apart(t, moved + Matching(t, prefix, sub))
      ensures Path(d, more, disk, {}) && Within(more, t, all)
    {
      ghost var m := disk;
      var added;
      ghost var own;
      added, own := MoveAside(prefix, sub, t, moved);
      WithinGrows(own, t, moved + Matching(t, prefix, sub), all);
      PathJoin(d, steps, m, own, disk, {});
      Apartness(before, added, t, prefix, sub);
      entries := before + added;
      more := steps + own;
    }

    /** Everything of the certificate goes aside; the list says what. */
    method BackupCertDirsForRenewal(prefix: string) returns (entries: seq<Key>, ghost steps: seq<Disk>)
      modifies this
      ensures disk == Apart(Recovered(old(disk)).here, Moved(Recovered(old(disk)).here, prefix, separate))
      ensures disk.aside == SetAside(old(disk), prefix, separate) && KeySet(entries) == disk.aside.Keys && NoRepeats(entries)
      ensures Path(old(disk), steps, disk, {}) && AllBackup(old(disk), prefix, separate, steps)
    {
      ghost var d := disk;
      AsideKeys(d, prefix, separate);
      steps := RecoverStaleRenewalBackup();
      ghost var m := disk;
      NothingApart(disk);
      ghost var more;
      entries, more := MoveAllAside(prefix, disk.here);
      PathJoin(d, steps, m, more, disk, {});
      BackupSteps(d, prefix, separate, steps, more);
      steps := steps + more;
    }

    method RestoreEntry(k: Key, ghost after: Tree, ghost was: Tree, ghost ks: set<Key>) returns (ghost steps: seq<Disk>)
      requires disk == Home(after, was, ks) && k in was && k !in ks && ks <= was.Keys
      modifies this
      ensures disk == Home(after, was, ks + {k})
      ensures Path(old(disk), steps, disk, {}) && AllRestore(after, was, steps)
    {
      HomeStep(after, was, ks, k);
      steps := PutBack(k);
      forall j | 0 <= j < |steps| ensures RestoreCrash(after, was, steps[j]) {
        assert RestoreAt(after, was, ks, steps[j]);
      }
    }

    /** The previous files come back over whatever certbot created in their place. */
    method RestoreCertDirsBackup(entries: seq<Key>, ghost after: Tree, ghost was: Tree) returns (ghost steps: seq<Disk>)
      requires disk == Disk(after, was) && KeySet(entries) == was.Keys && NoRepeats(entries)
      modifies this
      ensures disk == Disk(after + was, map[])
      ensures Path(old(disk), steps, disk, {}) && AllRestore(after, was, steps)
    {
      steps := [];
      ghost var d := disk;
      HomeEnds(after, was);
      assert KeySet(entries[..0]) == {};
      for i := 0 to |entries|
        invariant disk == Home(after, was, KeySet(entries[..i]))
        invariant Path(d, steps, disk, {}) && AllRestore(after, was, steps)
      {
        NextKey(entries, i, was.Keys);
        ghost var m := disk;
        ghost var more := RestoreEntry(entries[i], after, was, KeySet(entries[..i]));
        PathJoin(d, steps, m, more, disk, {});
        steps := steps + more;
      }
      TakeAll(entries);
      HomeAlone(after, was);
      ghost var m := disk;
      ghost var more := Wipe();
      PathJoin(d, steps, m, more, disk, {});
      steps := steps + more;
    }

    /** certbot writes anything outside the backup. */
    method RunCertbot(c: Certbot) returns (ok: bool, ghost steps: seq<Disk>)
      modifies this
      ensures ok == c.ok && disk == old(disk).(here := c.after)
      ensures Path(old(disk), steps, disk, Writes(c)) && AllCertbot(old(disk).aside, c, steps)
    {
      ghost var d := disk;
      steps := [];
      for i := 0 to |c.during|
        invariant disk.aside == d.aside && Path(d, steps, disk, Writes(c)) && AllCertbot(d.aside, c, steps)
      {
        ghost var m := disk;
        disk := disk.(here := c.during[i]);
        PathPush(d, steps, m, disk, Writes(c));
        steps := steps + [disk];
      }
      ghost var m := disk;
      disk := disk.(here := c.after);
      PathPush(d, steps, m, disk, Writes(c));
      steps := steps + [disk];
      ok := c.ok;
    }

    /** `steps` are all states of the disk before the discard, `discarding` those of the discard. */
    method RunCertbotRenewal(prefix: string, elsewhere: bool, c: Certbot)
      returns (ok: bool, ghost steps: seq<Disk>, ghost discarding: seq<Disk>)
      modifies this
      ensures ok == Succeeds(old(disk), prefix, separate, elsewhere, c)
      ensures disk == RunSpec(old(disk), prefix, separate, elsewhere, c)
      ensures Path(old(disk), steps + discarding, disk, Writes(c))
      ensures if LineageIsIntact(old(disk), prefix, separate, elsewhere)
              then AllCertbot(old(disk).aside, c, steps) && discarding == []
              else AllRenewal(old(disk), prefix, separate, c, steps) && Discards(old(disk), prefix, separate, c, ok, steps, discarding)
    {
      if LineageIsIntact(disk, prefix, separate, elsewhere) {
        discarding := [];
        ok, steps := RunCertbot(c);
        assert steps + discarding == steps;
      } else {
        ok, steps, discarding := RenewBroken(prefix, c);
      }
    }

    method RenewBroken(prefix: string, c: Certbot)
      returns (ok: bool, ghost steps: seq<Disk>, ghost discarding: seq<Disk>)
      modifies this
      ensures ok == Renewed(prefix, separate, c)
      ensures disk == if ok then Disk(c.after, map[]) else Disk(c.after + SetAside(old(disk), prefix, separate), map[])
      ensures Path(old(disk), steps + discarding, disk, Writes(c)) && AllRenewal(old(disk), prefix, separate, c, steps)
      ensures Discards(old(disk), prefix, separate, c, ok, steps, discarding)
    {
      discarding := [];
      ghost var d, writes := disk, Writes(c);
      var entries;
      ghost var during;
      entries, steps := BackupCertDirsForRenewal(prefix);
      ghost var was, m1 := disk.aside, disk;
      PathWithWrites(d, steps, m1, writes);
      ok, during := RunCertbot(c);
      ghost var m2 := disk;
      PathJoin(d, steps, m1, during, m2, writes);
      steps := steps + during;
      ghost var last;
      if !ok || !RenewedLiveCertExists(disk.here, prefix, separate, c) {
        last := RestoreCertDirsBackup(entries, c.after, was);
        PathWithWrites(m2, last, disk, writes);
        PathJoin(d, steps, m2, last, disk, writes);
        ok, steps := false, steps + last;
        assert steps + discarding == steps;
      } else {
        last := DiscardCertDirsBackup();
        PathWithWrites(m2, last, disk, writes);
        PathJoin(d, steps, m2, last, disk, writes);
        discarding := last;
      }
    }

    method DiscardCertDirsBackup() returns (ghost steps: seq<Disk>)
      modifies this
      ensures disk == old(disk).(aside := map[])
      ensures Path(old(disk), steps, disk, {}) && AllWiped(old(disk), steps)
    {
      steps := Wipe();
    }
  }

  // ==== the recorded states ====

  ghost predicate AllPhase(d: Disk, sub: Sub, steps: seq<Disk>) {
    forall i :: 0 <= i < |steps| ==> PhaseCrash(d, sub, steps[i])
  }

  ghost predicate AllRecovery(d: Disk, steps: seq<Disk>) { forall i :: 0 <= i < |steps| ==> RecoveryCrash(d, steps[i]) }

  predicate AllWiped(d: Disk, steps: seq<Disk>) { forall i :: 0 <= i < |steps| ==> Wiped(d, steps[i]) }

  /** In the recovery, or in the moves after it. */
  ghost predicate AllBackup(d: Disk, prefix: string, separate: bool, steps: seq<Disk>) {
    forall i :: 0 <= i < |steps| ==>
      RecoveryCrash(d, steps[i]) || ApartWithin(steps[i], Recovered(d).here, Moved(Recovered(d).here, prefix, separate))
  }

  ghost predicate AllRestore(after: Tree, was: Tree, steps: seq<Disk>) {
    forall i :: 0 <= i < |steps| ==> RestoreCrash(after, was, steps[i])
  }

  predicate AllCertbot(aside: Tree, c: Certbot, steps: seq<Disk>) {
    forall i :: 0 <= i < |steps| ==> steps[i].aside == aside && steps[i].here in Writes(c)
  }

  ghost predicate AllRenewal(d: Disk, prefix: string, separate: bool, c: Certbot, steps: seq<Disk>) {
    forall i :: 0 <= i < |steps| ==> RenewalCrash(d, prefix, separate, c, steps[i])
  }

  /** The discard comes after all else, of a success only, and only shrinks the backup. */
  predicate Discards(d: Disk, prefix: string, separate: bool, c: Certbot, ok: bool, steps: seq<Disk>, discarding: seq<Disk>) {
    if ok then
      var m := Disk(c.after, SetAside(d, prefix, separate));
      At(d, steps, |steps|) == m && AllWiped(m, discarding)
    else discarding == []
  }

  lemma {:induction false} NothingApart(d: Disk)
    requires d.aside == map[]
    ensures d == Apart(d.here, {})
  {
    assert Apart(d.here, {}).here == d.here;
  }

  lemma {:induction false} BackupSteps(d: Disk, prefix: string, separate: bool, a: seq<Disk>, b: seq<Disk>)
    requires AllRecovery(d, a) && Within(b, Recovered(d).here, Moved(Recovered(d).here, prefix, separate))
    ensures AllBackup(d, prefix, separate, a + b)
  {
  }

  lemma {:induction false} RemoveOps(d: Disk, m: Disk, k: Key)
    requires k in d.here && (m == d || Trimmed(d, m, k))
    ensures m == d || Op(d, m, {})
    ensures var e := m.(here := m.here - {k}); Op(m, e, {}) && e == d.(here := d.here - {k})
  {
    if m != d {
      assert KeyOp(d, m, k);
      var p :| PartOf(p, d.here[k]) && m == d.(here := d.here[k := p]);
      assert d.here[k := p] - {k} == d.here - {k};
    }
    assert KeyOp(m, m.(here := m.here - {k}), k);
  }

  lemma {:induction false} MoveHomeOp(d: Disk, m: Disk, k: Key)
    requires k in d.aside && k !in m.here && m == d.(here := d.here - {k})
    ensures var e := Disk(m.here[k := m.aside[k]], m.aside - {k});
      Op(m, e, {}) && e == Disk(d.here[k := d.aside[k]], d.aside - {k})
  {
    assert KeyOp(m, Disk(m.here[k := m.aside[k]], m.aside - {k}), k);
    assert (d.here - {k})[k := d.aside[k]] == d.here[k := d.aside[k]];
  }

  lemma {:induction false} OnTheWay(d: Disk, sub: Sub, done: set<Key>, k: Key, steps: seq<Disk>)
    requires k in Entries(d.aside, sub) && k !in done && done <= Entries(d.aside, sub) && !Keep(d.here, k)
    requires k in Settle(d, done).aside && forall i :: 0 <= i < |steps| ==> PutBackStep(Settle(d, done), k, steps[i])
    ensures AllPhase(d, sub, steps)
  {
    forall i | 0 <= i < |steps| ensures PhaseCrash(d, sub, steps[i]) {
      assert PhaseAt(d, sub, done, steps[i]);
    }
  }

  lemma {:induction false} PhasesRecover(d: Disk, s1: seq<Disk>, s2: seq<Disk>, s3: seq<Disk>, s4: seq<Disk>, s5: seq<Disk>)
    requires var d1 := Phase(d, Live); var d2 := Phase(d1, Archive); var d3 := Phase(d2, Renewal);
      AllPhase(d, Live, s1) && AllPhase(d1, Archive, s2) && AllPhase(d2, Renewal, s3) && AllPhase(d3, CertbotRenewal, s4)
      && AllWiped(Phases(d), s5)
    ensures AllRecovery(d, s1 + s2 + s3 + s4 + s5)
  {
    RecoveryMore(d, s1, s2);
    RecoveryMore(d, s1 + s2, s3);
    RecoveryMore(d, s1 + s2 + s3, s4);
    RecoveryMore(d, s1 + s2 + s3 + s4, s5);
  }

  lemma {:induction false} RecoveryMore(d: Disk, a: seq<Disk>, b: seq<Disk>)
    ensures AllRecovery(d, a) && AllRecovery(d, b) ==> AllRecovery(d, a + b)
  {
  }

  ghost predicate Within(steps: seq<Disk>, t: Tree, all: set<Key>) {
    forall i :: 0 <= i < |steps| ==> ApartWithin(steps[i], t, all)
  }

  lemma WithinGrows(steps: seq<Disk>, t: Tree, a: set<Key>, b: set<Key>)
    requires Within(steps, t, a) && a <= b
    ensures Within(steps, t, b)
  {
    forall i | 0 <= i < |steps| ensures ApartWithin(steps[i], t, b) {
      assert ApartWithin(steps[i], t, a);
      var ks :| ks <= a && steps[i] == Apart(t, ks);
      assert ks <= b;
    }
  }

  /** The next of a list of distinct keys of a set. */
  lemma {:induction false} NextKey(keys: seq<Key>, i: nat, all: set<Key>)
    requires NoRepeats(keys) && i < |keys| && KeySet(keys) == all
    ensures keys[i] in all && keys[i] !in KeySet(keys[..i]) && KeySet(keys[..i]) <= all
    ensures KeySet(keys[..i + 1]) == KeySet(keys[..i]) + {keys[i]}
  {
    KeySetStep(keys, i);
    forall k | k in KeySet(keys[..i]) ensures k in all { assert k in keys; }
  }

  lemma KeySetStep(keys: seq<Key>, i: nat)
    requires NoRepeats(keys) && i < |keys|
    ensures KeySet(keys[..i + 1]) == KeySet(keys[..i]) + {keys[i]}
    ensures keys[i] in KeySet(keys) && keys[i] !in KeySet(keys[..i])
  {
    assert keys[..i + 1] == keys[..i] + [keys[i]];
    assert keys[i] in keys;
  }

  lemma HomeEnds(after: Tree, was: Tree)
    ensures Home(after, was, {}) == Disk(after, was) && Home(after, was, was.Keys) == Disk(after + was, map[])
  {
    assert Apart(was, {}).here == was && Apart(was, {}).aside == map[];
    assert Apart(was, was.Keys).here == map[] && Apart(was, was.Keys).aside == was;
  }

  lemma {:induction false} HomeAlone(after: Tree, was: Tree)
    ensures forall s :: Wiped(Home(after, was, was.Keys), s) ==> RestoreCrash(after, was, s)
    ensures Home(after, was, was.Keys) == Disk(after + was, map[])
  {
    HomeEnds(after, was);
    forall s | Wiped(Home(after, was, was.Keys), s) ensures RestoreCrash(after, was, s) {
      assert s.aside == map[];
      assert s == Home(after, was, was.Keys);
      assert RestoreAt(after, was, was.Keys, s);
    }
  }

  lemma AsideKeys(d: Disk, prefix: string, separate: bool)
    ensures var t := Recovered(d).here; SetAside(d, prefix, separate).Keys == Moved(t, prefix, separate)
  {
    MovedInside(Recovered(d).here, prefix, separate);
  }

  lemma {:induction false} MovedInside(t: Tree, prefix: string, separate: bool)
    ensures Moved(t, prefix, separate) <= t.Keys
    ensures Apart(t, Moved(t, prefix, separate)).aside.Keys == Moved(t, prefix, separate)
  {
  }

  /** A certbot run: what it has written at any time, what it leaves, whether it reports success,
      and whether certbot's own dir, if another one, then holds the live fullchain. */
  datatype Certbot = Certbot(during: seq<Tree>, after: Tree, ok: bool, elsewhere: bool)

  function Writes(c: Certbot): set<Tree> { (set t | t in c.during) + {c.after} }

  /** existsSync follows links and does not look at the size. */
  predicate RenewedLiveCertExists(t: Tree, prefix: string, separate: bool, c: Certbot) {
    Fullchain(t, prefix).File? && (separate ==> c.elsewhere)
  }

  predicate LineageIsIntact(d: Disk, prefix: string, separate: bool, elsewhere: bool) {
    && Key(if separate then CertbotRenewal else Renewal, prefix + ".conf") in d.here
    && if separate then elsewhere else Fullchain(d.here, prefix).File?
  }

  predicate Renewed(prefix: string, separate: bool, c: Certbot) {
    c.ok && RenewedLiveCertExists(c.after, prefix, separate, c)
  }

  function Moved(t: Tree, prefix: string, separate: bool): set<Key> {
    Matching(t, prefix, Archive) + Matching(t, prefix, Live) + Matching(t, prefix, Renewal)
    + if separate then Matching(t, prefix, CertbotRenewal) else {}
  }

  /** What a renewal of a broken lineage sets aside. */
  function SetAside(d: Disk, prefix: string, separate: bool): Tree {
    var t := Recovered(d).here;
    Apart(t, Moved(t, prefix, separate)).aside
  }

  predicate Succeeds(d: Disk, prefix: string, separate: bool, elsewhere: bool, c: Certbot) {
    c.ok && (LineageIsIntact(d, prefix, separate, elsewhere) || RenewedLiveCertExists(c.after, prefix, separate, c))
  }

  function RunSpec(d: Disk, prefix: string, separate: bool, elsewhere: bool, c: Certbot): Disk {
    if LineageIsIntact(d, prefix, separate, elsewhere) then d.(here := c.after)
    else if Succeeds(d, prefix, separate, elsewhere, c) then Disk(c.after, map[])
    else Disk(c.after + SetAside(d, prefix, separate), map[])
  }

  lemma {:induction false} LineageAside(t: Tree, ks: set<Key>, name: string)
    requires (Key(Live, name) in t ==> Key(Live, name) in ks) && (Key(Archive, name) in t ==> Key(Archive, name) in ks)
    ensures Fullchain(t, name) == Fullchain(Apart(t, ks).aside, name)
  {
    UsableDepends(t, Apart(t, ks).aside, name);
  }

  /** What was moved aside still holds every fullchain that was safe. */
  lemma MovedIsUsable(d0: Disk, prefix: string, separate: bool, name: string)
    requires InLineage(prefix, name) && Safe(d0, name)
    ensures Usable(SetAside(d0, prefix, separate), name)
  {
    SafeIffRecovered(d0, name);
    var t := Recovered(d0).here;
    MovedAt(t, prefix, separate, Key(Live, name));
    MovedAt(t, prefix, separate, Key(Archive, name));
    LineageAside(t, Moved(t, prefix, separate), name);
  }

  predicate Lacks(ks: set<Key>, sub: Sub) { forall k :: k in ks ==> k.sub != sub }

  /** What is aside after the first subs, in the order archive, live, renewal. */
  function Upto(t: Tree, prefix: string, n: nat): set<Key> {
    if n == 0 then {}
    else Upto(t, prefix, n - 1) + Matching(t, prefix, if n == 1 then Archive else if n == 2 then Live else Renewal)
  }

  lemma {:induction false} MovedInOrder(t: Tree, prefix: string, separate: bool)
    ensures Lacks({}, Archive) && Upto(t, prefix, 1) == {} + Matching(t, prefix, Archive) <= Moved(t, prefix, separate)
    ensures Lacks(Upto(t, prefix, 1), Live)
    ensures Upto(t, prefix, 2) == Upto(t, prefix, 1) + Matching(t, prefix, Live) <= Moved(t, prefix, separate)
    ensures Lacks(Upto(t, prefix, 2), Renewal)
    ensures Upto(t, prefix, 3) == Upto(t, prefix, 2) + Matching(t, prefix, Renewal) <= Moved(t, prefix, separate)
    ensures Lacks(Upto(t, prefix, 3), CertbotRenewal)
    ensures Moved(t, prefix, separate) == Upto(t, prefix, 3) + if separate then Matching(t, prefix, CertbotRenewal) else {}
  {
    assert Upto(t, prefix, 0) == {};
  }

  lemma {:induction false} Apartness(a: seq<Key>, b: seq<Key>, t: Tree, prefix: string, sub: Sub)
    requires NoRepeats(a) && NoRepeats(b) && Lacks(KeySet(a), sub) && KeySet(b) == Matching(t, prefix, sub)
    ensures NoRepeats(a + b) && KeySet(a + b) == KeySet(a) + KeySet(b)
  {
    forall k | k in a ensures k !in b {
      assert k in KeySet(a);
      assert k in b ==> k in KeySet(b);
    }
    Joined(a, b);
  }

  lemma {:induction false} Joined(a: seq<Key>, b: seq<Key>)
    requires NoRepeats(a) && NoRepeats(b) && forall k :: k in a ==> k !in b
    ensures NoRepeats(a + b) && KeySet(a + b) == KeySet(a) + KeySet(b)
  {
    forall i, j | 0 <= i < j < |a + b| ensures (a + b)[i] != (a + b)[j] {
      if i < |a| <= j { assert a[i] in a && b[j - |a|] in b; }
    }
  }

  /** The entries of `ks` are back over what certbot wrote, the others still aside. */
  function Home(after: Tree, was: Tree, ks: set<Key>): Disk {
    Disk(after + Apart(was, ks).aside, Apart(was, ks).here)
  }

  lemma HomeStep(after: Tree, was: Tree, ks: set<Key>, k: Key)
    requires k in was && k !in ks
    ensures var d := Home(after, was, ks);
      k in d.aside && d.aside[k] == was[k]
      && Home(after, was, ks + {k}) == Disk(d.here[k := d.aside[k]], d.aside - {k})
  {
    var d := Home(after, was, ks);
    assert Home(after, was, ks + {k}).here == d.here[k := d.aside[k]];
    assert Home(after, was, ks + {k}).aside == d.aside - {k};
  }

  lemma HomeHeld(after: Tree, was: Tree, ks: set<Key>, k: Key, s: Disk)
    requires k in was && k !in ks && PutBackStep(Home(after, was, ks), k, s)
    ensures Held(s, was)
  {
  }

  predicate NoRepeats(keys: seq<Key>) { forall i, j :: 0 <= i < j < |keys| ==> keys[i] != keys[j] }

  /** `entries` are the matching ones among the keys looked at. */
  ghost predicate MovedSoFar(entries: seq<Key>, keys: seq<Key>, prefix: string, t: Tree, moved: set<Key>, sub: Sub) {
    && NoRepeats(entries)
    && (forall k :: k in KeySet(entries) <==> k in KeySet(keys) && Matches(prefix, k))
    && KeySet(entries) <= Matching(t, prefix, sub)
  }

  lemma {:induction false} MovedOneMore(entries: seq<Key>, keys: seq<Key>, k: Key, prefix: string, t: Tree, moved: set<Key>, sub: Sub)
    requires MovedSoFar(entries, keys, prefix, t, moved, sub) && k !in KeySet(keys) && Matches(prefix, k)
    requires k in t && k.sub == sub
    ensures MovedSoFar(entries + [k], keys + [k], prefix, t, moved, sub)
    ensures ApartWithin(Apart(t, moved + KeySet(entries + [k])), t, moved + Matching(t, prefix, sub))
  {
    assert k !in KeySet(entries);
    assert KeySet(entries + [k]) == KeySet(entries) + {k} && KeySet(keys + [k]) == KeySet(keys) + {k};
  }

  lemma {:induction false} MovedAll(entries: seq<Key>, keys: seq<Key>, prefix: string, t: Tree, moved: set<Key>, sub: Sub, all: set<Key>)
    requires MovedSoFar(entries, keys, prefix, t, moved, sub) && KeySet(keys) == all
    requires all == Entries(Apart(t, moved).here, sub) && forall k :: k in moved ==> k.sub != sub
    ensures KeySet(entries) == Matching(t, prefix, sub)
  {
    forall k | k in Matching(t, prefix, sub) ensures k in KeySet(entries) {
      assert k in all;
    }
  }

  ghost predicate ApartWithin(s: Disk, t: Tree, all: set<Key>) { exists ks :: ks <= all && s == Apart(t, ks) }

  /** Some entries of `t` in place, the others moved aside. */
  function Apart(t: Tree, ks: set<Key>): Disk {
    Disk(map k | k in t && k !in ks :: t[k], map k | k in t && k in ks :: t[k])
  }

  /** A lineage of this certificate: npm-<id> itself or a numbered copy of it. */
  predicate InLineage(prefix: string, name: string) { name == prefix || prefix + "-" <= name }

  predicate Matches(prefix: string, k: Key) {
    if k.sub in {Live, Archive} then InLineage(prefix, k.name)
    else (k.name == prefix + ".conf" || prefix + "-" <= k.name) && EndsWith(k.name, ".conf")
  }

  function Matching(t: Tree, prefix: string, sub: Sub): set<Key> { set k | k in t && k.sub == sub && Matches(prefix, k) }

  lemma ApartStep(t: Tree, ks: set<Key>, k: Key)
    requires k in t && k !in ks
    ensures var d := Apart(t, ks);
      k in d.here && d.here[k] == t[k] && Apart(t, ks + {k}) == Disk(d.here - {k}, d.aside[k := t[k]])
  {
    var d := Apart(t, ks);
    assert Apart(t, ks + {k}).here == d.here - {k};
    assert Apart(t, ks + {k}).aside == d.aside[k := t[k]];
  }

  /** What is still aside after the live entries were looked at is usable in place. */
  lemma LiveIsDone(d: Disk)
    ensures LiveDone(Phase(d, Live))
  {
    var e := Phase(d, Live);
    forall name | Key(Live, name) in e.aside ensures Usable(e.here, name) {
      UsableDepends(d.here, e.here, name);
    }
  }

  /** The same live and archive entry of that name. */
  predicate SameLineage(t: Tree, u: Tree, name: string) {
    SameAt(t, u, Key(Live, name)) && SameAt(t, u, Key(Archive, name))
  }

  lemma {:induction false} LivePhase(d: Disk, name: string)
    ensures var l, a := Key(Live, name), Key(Archive, name); var e := Phase(d, Live);
      && SameLineage(e.here, if l in d.aside && !Usable(d.here, name) then d.here[l := d.aside[l]] else d.here, name)
      && (a in e.aside <==> a in d.aside) && (a in d.aside ==> e.aside[a] == d.aside[a])
  {
  }

  lemma {:induction false} ArchivePhase(d: Disk, name: string)
    ensures var a := Key(Archive, name); var e := Phase(d, Archive);
      SameLineage(e.here, if a in d.aside && !(a in d.here && Usable(d.here, name)) then d.here[a := d.aside[a]] else d.here, name)
  {
  }

  lemma {:induction false} ConfPhase(d: Disk, sub: Sub, name: string)
    requires sub == Renewal || sub == CertbotRenewal
    ensures SameLineage(Phase(d, sub).here, d.here, name)
  {
  }

  /** Safe means exactly: a completed recovery leaves the fullchain usable. */
  lemma {:induction false} SafeIffRecovered(d: Disk, name: string)
    ensures Safe(d, name) <==> Usable(Recovered(d).here, name)
  {
    var l, a := Key(Live, name), Key(Archive, name);
    var here1 := if l in d.aside && !Usable(d.here, name) then d.here[l := d.aside[l]] else d.here;
    var d1 := Phase(d, Live);
    LivePhase(d, name);
    UsableDepends(here1, d1.here, name);
    var here2 := if a in d.aside && !(a in here1 && Usable(here1, name)) then here1[a := d.aside[a]] else here1;
    var d2 := Phase(d1, Archive);
    ArchivePhase(d1, name);
    var d3 := Phase(d2, Renewal);
    ConfPhase(d2, Renewal, name);
    ConfPhase(d3, CertbotRenewal, name);
    UsableDepends(here2, Phase(d3, CertbotRenewal).here, name);
  }

  ghost predicate LiveDone(d: Disk) { forall name :: Key(Live, name) in d.aside ==> Usable(d.here, name) }

  lemma {:induction false} SettleNone(d: Disk)
    ensures Settle(d, {}) == d
  {
    assert Settle(d, {}).here == d.here && Settle(d, {}).aside == d.aside;
  }

  // ==== what a renewal promises ====

  /** Putting archive entries back leaves usable what the live phase kept. */
  lemma {:induction false} LiveStaysDone(d: Disk, k: Key)
    requires LiveDone(d) && k in d.aside && k.sub == Archive && !Keep(d.here, k)
    ensures LiveDone(Disk(d.here[k := d.aside[k]], d.aside - {k}))
  {
  }

  /** In a phase, whatever entries were looked at, what was safe is safe. */
  lemma {:induction false} SettleSafe(d: Disk, sub: Sub, done: set<Key>, name: string)
    requires done <= Entries(d.aside, sub) && Safe(d, name) && (sub == Archive ==> LiveDone(d))
    ensures Safe(Settle(d, done), name) && (sub == Archive ==> LiveDone(Settle(d, done)))
    decreases |done|
  {
    if done == {} {
      SettleNone(d);
    } else {
      var k :| k in done;
      var rest := done - {k};
      SettleSafe(d, sub, rest, name);
      SettleStep(d, rest, k, sub);
      assert rest + {k} == done;
      var s := Settle(d, rest);
      if !Keep(s.here, k) {
        PutBackSafe(s, k, if k in s.here then s.here[k] else s.aside[k], name);
        if sub == Archive { LiveStaysDone(s, k); }
      }
    }
  }

  lemma {:induction false} PhaseCrashSafe(d: Disk, sub: Sub, s: Disk, name: string)
    requires PhaseCrash(d, sub, s) && Safe(d, name) && (sub == Archive ==> LiveDone(d))
    ensures Safe(s, name)
  {
    var done :| done <= Entries(d.aside, sub) && PhaseAt(d, sub, done, s);
    SettleSafe(d, sub, done, name);
    var m := Settle(d, done);
    if s != m {
      var k :| k in Entries(d.aside, sub) && k !in done && !Keep(d.here, k) && k in m.aside && PutBackStep(m, k, s);
      SettleKeeps(d, done, k);
      PutBackStepSafe(m, k, s, name);
    }
  }

  lemma {:induction false} PutBackStepSafe(d: Disk, k: Key, s: Disk, name: string)
    requires Safe(d, name) && k in d.aside && !Keep(d.here, k) && PutBackStep(d, k, s)
    requires k.sub == Archive && Key(Live, k.name) in d.aside ==> Usable(d.here, k.name)
    ensures Safe(s, name)
  {
    if k in d.here && Trimmed(d, s, k) {
      var p :| PartOf(p, d.here[k]) && s == d.(here := d.here[k := p]);
      PutBackSafe(d, k, p, name);
    } else {
      PutBackSafe(d, k, if k in d.here then d.here[k] else d.aside[k], name);
    }
  }

  /** Wherever a recovery dies, what was safe is safe. */
  lemma {:induction false} RecoveryCrashSafe(d: Disk, s: Disk, name: string)
    requires RecoveryCrash(d, s) && Safe(d, name)
    ensures Safe(s, name)
  {
    var d1 := Phase(d, Live);
    var d2 := Phase(d1, Archive);
    var d3 := Phase(d2, Renewal);
    LiveIsDone(d);
    SettleSafe(d, Live, Entries(d.aside, Live), name);
    SettleSafe(d1, Archive, Entries(d1.aside, Archive), name);
    SettleSafe(d2, Renewal, Entries(d2.aside, Renewal), name);
    if PhaseCrash(d, Live, s) { PhaseCrashSafe(d, Live, s, name); }
    else if PhaseCrash(d1, Archive, s) { PhaseCrashSafe(d1, Archive, s, name); }
    else if PhaseCrash(d2, Renewal, s) { PhaseCrashSafe(d2, Renewal, s, name); }
    else if PhaseCrash(d3, CertbotRenewal, s) { PhaseCrashSafe(d3, CertbotRenewal, s, name); }
    else {
      SafeIffRecovered(d, name);
      UsableIsSafe(s, name);
    }
  }

  lemma {:induction false} ApartHeld(t: Tree, ks: set<Key>, all: set<Key>)
    requires ks <= all
    ensures Held(Apart(t, ks), Apart(t, all).aside)
  {
  }

  lemma {:induction false} RestoreCrashHeld(after: Tree, was: Tree, s: Disk)
    requires RestoreCrash(after, was, s)
    ensures Held(s, was)
  {
    var ks :| ks <= was.Keys && RestoreAt(after, was, ks, s);
    if s != Home(after, was, ks) {
      var k :| k in was && k !in ks && PutBackStep(Home(after, was, ks), k, s);
      HomeHeld(after, was, ks, k, s);
    }
  }

  /** Wherever a renewal dies before the discard, what was safe of this certificate is safe. */
  lemma {:induction false} RenewalCrashSafe(d: Disk, prefix: string, separate: bool, c: Certbot, s: Disk, name: string)
    requires RenewalCrash(d, prefix, separate, c, s) && InLineage(prefix, name) && Safe(d, name)
    ensures Safe(s, name)
  {
    var t, was := Recovered(d).here, SetAside(d, prefix, separate);
    if RecoveryCrash(d, s) {
      RecoveryCrashSafe(d, s, name);
    } else {
      if ApartWithin(s, t, Moved(t, prefix, separate)) {
        var ks :| ks <= Moved(t, prefix, separate) && s == Apart(t, ks);
        ApartHeld(t, ks, Moved(t, prefix, separate));
      } else if RestoreCrash(c.after, was, s) {
        RestoreCrashHeld(c.after, was, s);
      }
      MovedIsUsable(d, prefix, separate, name);
      HeldIsSafe(s, was, name);
    }
  }

  /** A process that looks after this certificate. */
  datatype Process = Recovery | BrokenRenewal(separate: bool, c: Certbot)

  /** The process, started at d, can die in s. */
  ghost predicate Died(d: Disk, prefix: string, p: Process, s: Disk) {
    if p.Recovery? then RecoveryCrash(d, s) else RenewalCrash(d, prefix, p.separate, p.c, s)
  }

  /** Processes die one after the other, in a recovery or anywhere in a renewal before its discard:
      one completed recovery then makes the certificate usable. */
  lemma {:induction false} CrashesThenRecovery(run: seq<Disk>, ps: seq<Process>, prefix: string, name: string)
    requires |run| == |ps| + 1 && InLineage(prefix, name) && (Usable(run[0].here, name) || Safe(run[0], name))
    requires forall i :: 0 <= i < |ps| ==> Died(run[i], prefix, ps[i], run[i + 1])
    ensures var e := Recovered(run[|ps|]); Usable(e.here, name) && e.aside == map[]
  {
    DiedSafe(run, ps, prefix, name);
    SafeIffRecovered(run[|ps|], name);
  }

  lemma {:induction false} DiedSafe(run: seq<Disk>, ps: seq<Process>, prefix: string, name: string)
    requires |run| == |ps| + 1 && InLineage(prefix, name) && (Usable(run[0].here, name) || Safe(run[0], name))
    requires forall i :: 0 <= i < |ps| ==> Died(run[i], prefix, ps[i], run[i + 1])
    ensures Safe(run[|ps|], name)
  {
    if |ps| == 0 {
      if Usable(run[0].here, name) { UsableIsSafe(run[0], name); }
    } else {
      var n := |ps| - 1;
      DiedSafe(run[..n + 1], ps[..n], prefix, name);
      assert Died(run[n], prefix, ps[n], run[n + 1]);
      if ps[n].Recovery? {
        RecoveryCrashSafe(run[n], run[n + 1], name);
      } else {
        RenewalCrashSafe(run[n], prefix, ps[n].separate, ps[n].c, run[n + 1], name);
      }
    }
  }

  // ==== files of one generation ====

  /** In the middle of a renewal: of the two entries of this name each that was set aside is aside still, with
      certbot's in its place, or at home; the others are certbot's. */
  predicate Between(d: Disk, was: Tree, now: Tree, name: string) {
    BetweenAt(d, was, now, Key(Live, name)) && BetweenAt(d, was, now, Key(Archive, name))
  }

  predicate BetweenAt(d: Disk, was: Tree, now: Tree, k: Key) {
    if k in d.aside then k in was && d.aside[k] == was[k] && SameAt(d.here, now, k)
    else SameAt(d.here, if k in was then was else now, k)
  }

  /** Recovery ends with certbot's live entry: there is no other, or it stands and its fullchain resolves. */
  predicate KeepsLive(d: Disk, was: Tree, name: string) {
    Key(Live, name) !in was || (Key(Live, name) in d.aside && Usable(d.here, name))
  }

  /** ... with certbot's archive entry: there is no other, or it stands and the fullchain of the live entry
      that is in place by then resolves. */
  predicate KeepsArchive(d: Disk, was: Tree, name: string) {
    var l, a := Key(Live, name), Key(Archive, name);
    || a !in was
    || (a in d.aside && a in d.here
        && Usable(if l in d.aside && !Usable(d.here, name) then d.here[l := d.aside[l]] else d.here, name))
  }

  lemma {:induction false} SettledEntries(d: Disk, was: Tree, now: Tree, name: string)
    requires Between(d, was, now, name)
    ensures SameAt(Recovered(d).here, if KeepsLive(d, was, name) then now else was, Key(Live, name))
    ensures SameAt(Recovered(d).here, if KeepsArchive(d, was, name) then now else was, Key(Archive, name))
  {
    var l, a := Key(Live, name), Key(Archive, name);
    var here1 := if l in d.aside && !Usable(d.here, name) then d.here[l := d.aside[l]] else d.here;
    var d1 := Phase(d, Live);
    var d2 := Phase(d1, Archive);
    LivePhase(d, name);
    UsableDepends(here1, d1.here, name);
    ArchivePhase(d1, name);
    ConfPhase(d2, Renewal, name);
    ConfPhase(Phase(d2, Renewal), CertbotRenewal, name);
  }

  /** Exactly when one recovery leaves the two entries of one generation: all that was set aside is back, or
      all is certbot's. They mix if and only if one of the two is kept, the other is not, and the generations
      differ in both. */
  lemma {:induction false} OneGenerationIff(d: Disk, was: Tree, now: Tree, name: string)
    requires Between(d, was, now, name)
    ensures var e := Recovered(d).here; var l, a := Key(Live, name), Key(Archive, name);
      && (SameLineage(e, was, name)
          <==> (KeepsLive(d, was, name) ==> SameAt(now, was, l)) && (KeepsArchive(d, was, name) ==> SameAt(now, was, a)))
      && (SameLineage(e, now, name)
          <==> (!KeepsLive(d, was, name) ==> SameAt(now, was, l)) && (!KeepsArchive(d, was, name) ==> SameAt(now, was, a)))
      && (SameLineage(e, was, name) || SameLineage(e, now, name)
          <==> KeepsLive(d, was, name) == KeepsArchive(d, was, name) || SameAt(now, was, l) || SameAt(now, was, a))
  {
    SettledEntries(d, was, now, name);
  }

  /** Something certbot wrote, or what a removal left of its result. */
  ghost predicate FromCertbot(now: Tree, c: Certbot) { now in Writes(c) || PartsOf(now, c.after) }

  lemma {:induction false} ApartIsBetween(t: Tree, ks: set<Key>, all: set<Key>, name: string)
    requires ks <= all && forall sub :: sub in {Live, Archive} && Key(sub, name) in t ==> Key(sub, name) in all
    ensures Between(Apart(t, ks), Apart(t, all).aside, map[], name)
  {
  }

  lemma {:induction false} HomeIsBetween(after: Tree, was: Tree, ks: set<Key>, name: string)
    ensures Between(Home(after, was, ks), was, after, name)
  {
  }

  lemma {:induction false} PutBackIsBetween(d: Disk, was: Tree, after: Tree, k: Key, s: Disk, name: string) returns (now: Tree)
    requires Between(d, was, after, name) && k in d.aside && k in was && d.aside[k] == was[k] && PutBackStep(d, k, s)
    requires k in d.here ==> k in after && d.here[k] == after[k]
    ensures Between(s, was, now, name) && PartsOf(now, after)
  {
    if s == Disk(d.here[k := d.aside[k]], d.aside - {k}) {
      now := after;
    } else if s == d.(here := d.here - {k}) {
      now := after - {k};
    } else {
      var p :| PartOf(p, d.here[k]) && s == d.(here := d.here[k := p]);
      now := after[k := p];
    }
  }

  lemma {:induction false} RestoreIsBetween(after: Tree, was: Tree, s: Disk, name: string) returns (now: Tree)
    requires RestoreCrash(after, was, s)
    ensures Between(s, was, now, name) && PartsOf(now, after)
  {
    var ks :| ks <= was.Keys && RestoreAt(after, was, ks, s);
    HomeIsBetween(after, was, ks, name);
    if s == Home(after, was, ks) {
      now := after;
    } else {
      var k :| k in was && k !in ks && PutBackStep(Home(after, was, ks), k, s);
      now := PutBackIsBetween(Home(after, was, ks), was, after, k, s, name);
    }
  }

  lemma {:induction false} MovesAreBetween(t: Tree, prefix: string, separate: bool, s: Disk, name: string)
    requires ApartWithin(s, t, Moved(t, prefix, separate)) && InLineage(prefix, name)
    ensures Between(s, Apart(t, Moved(t, prefix, separate)).aside, map[], name)
  {
    var all := Moved(t, prefix, separate);
    var ks :| ks <= all && s == Apart(t, ks);
    MovedAt(t, prefix, separate, Key(Live, name));
    MovedAt(t, prefix, separate, Key(Archive, name));
    ApartIsBetween(t, ks, all, name);
  }

  lemma {:induction false} WrittenIsBetween(was: Tree, s: Disk, name: string)
    requires s.aside == was
    ensures Between(s, was, s.here, name)
  {
  }

  /** A renewal that dies behind its first recovery. */
  ghost predicate DiesInRenewal(t: Tree, was: Tree, prefix: string, separate: bool, c: Certbot, s: Disk) {
    || ApartWithin(s, t, Moved(t, prefix, separate))
    || (s.aside == was && s.here in Writes(c))
    || RestoreCrash(c.after, was, s)
  }

  lemma {:induction false} DeathIsBetween(t: Tree, was: Tree, prefix: string, separate: bool, c: Certbot, s: Disk, name: string)
    returns (now: Tree)
    requires was == Apart(t, Moved(t, prefix, separate)).aside && InLineage(prefix, name)
    requires DiesInRenewal(t, was, prefix, separate, c, s)
    ensures FromCertbot(now, c) && Between(s, was, now, name)
  {
    if ApartWithin(s, t, Moved(t, prefix, separate)) {
      MovesAreBetween(t, prefix, separate, s, name);
      now := map[];
    } else if s.aside == was && s.here in Writes(c) {
      WrittenIsBetween(was, s, name);
      now := s.here;
    } else {
      now := RestoreIsBetween(c.after, was, s, name);
    }
  }

  /** Wherever a renewal dies behind its first recovery, its disk is between what was set aside and something
      of certbot's. */
  lemma {:induction false} CrashIsBetween(d: Disk, prefix: string, separate: bool, c: Certbot, s: Disk, name: string)
    returns (now: Tree)
    requires RenewalCrash(d, prefix, separate, c, s) && !RecoveryCrash(d, s) && InLineage(prefix, name)
    ensures FromCertbot(now, c) && Between(s, SetAside(d, prefix, separate), now, name)
  {
    now := DeathIsBetween(Recovered(d).here, SetAside(d, prefix, separate), prefix, separate, c, s, name);
  }

  const PRIVKEY: string := "privkey.pem"

  function OldLive(): Entry { Dir(map[FULLCHAIN := Link("fullchain1.pem"), PRIVKEY := Link("privkey1.pem")]) }

  function OldArchive(): Entry { Dir(map["fullchain1.pem" := Bytes(true), "privkey1.pem" := Bytes(true)]) }

  function NewArchive(): Entry { Dir(map["fullchain1.pem" := Bytes(true)]) }

  lemma {:induction false} FileNames()
    ensures FULLCHAIN != PRIVKEY && "fullchain1.pem" != "privkey1.pem" && OldArchive() != NewArchive()
  {
    assert FULLCHAIN[0] == 'f' && PRIVKEY[0] == 'p';
    assert "privkey1.pem"[0] == 'p' && "fullchain1.pem"[0] == 'f';
    assert "privkey1.pem" in OldArchive().files && "privkey1.pem" !in NewArchive().files;
  }

  lemma {:induction false} AllSetAside(d: Disk, name: string)
    requires d == Disk(map[Key(Live, name) := OldLive(), Key(Archive, name) := OldArchive()], map[])
    ensures SetAside(d, name, false) == d.here
  {
    assert Recovered(d).here == d.here;
    MovedAt(d.here, name, false, Key(Live, name));
    MovedAt(d.here, name, false, Key(Archive, name));
  }

  lemma {:induction false} OldFiles(t: Tree, name: string)
    requires t == map[Key(Live, name) := OldLive(), Key(Archive, name) := OldArchive()]
    ensures Resolved(t, name, FULLCHAIN) == File(true) && Resolved(t, name, PRIVKEY) == File(true)
  {
    FileNames();
  }

  lemma {:induction false} MixedFiles(t: Tree, name: string)
    requires Key(Live, name) in t && t[Key(Live, name)] == OldLive()
    requires Key(Archive, name) in t && t[Key(Archive, name)] == NewArchive()
    ensures Resolved(t, name, FULLCHAIN) == File(true) && Resolved(t, name, PRIVKEY) == Nothing
  {
    FileNames();
  }

  lemma {:induction false} MixedAfterCrash(name: string, was: Tree, s: Disk)
    requires was == map[Key(Live, name) := OldLive(), Key(Archive, name) := OldArchive()]
    requires s == Disk(map[Key(Archive, name) := NewArchive()], was)
    ensures SameAt(Recovered(s).here, was, Key(Live, name)) && SameAt(Recovered(s).here, s.here, Key(Archive, name))
  {
    WrittenIsBetween(was, s, name);
    MixedFiles(s.here[Key(Live, name) := OldLive()], name);
    assert !KeepsLive(s, was, name) && KeepsArchive(s, was, name);
    SettledEntries(s, was, s.here, name);
  }

  lemma {:induction false} WrittenCrash(d: Disk, prefix: string, c: Certbot, s: Disk)
    requires s.aside == SetAside(d, prefix, false) && s.here in c.during
    ensures RenewalCrash(d, prefix, false, c, s)
  {
  }

  lemma {:induction false} BeforeTheKey(name: string, d: Disk, c: Certbot, s: Disk)
    requires d == Disk(map[Key(Live, name) := OldLive(), Key(Archive, name) := OldArchive()], map[])
    requires s == Disk(map[Key(Archive, name) := NewArchive()], d.here) && s.here in c.during
    ensures RenewalCrash(d, name, false, c, s)
  {
    AllSetAside(d, name);
    WrittenCrash(d, name, c, s);
  }

  lemma {:induction false} KeyIsLost(name: string, was: Tree, s: Disk)
    requires was == map[Key(Live, name) := OldLive(), Key(Archive, name) := OldArchive()]
    requires s == Disk(map[Key(Archive, name) := NewArchive()], was)
    ensures var e := Recovered(s); Resolved(e.here, name, FULLCHAIN) == File(true) && Resolved(e.here, name, PRIVKEY) == Nothing
  {
    MixedAfterCrash(name, was, s);
    MixedFiles(Recovered(s).here, name);
  }

  /** certbot dies when its new archive has a fullchain and no key yet: the old live dir comes back, its
      fullchain resolves into the new archive, which is therefore kept, and the key is lost with the backup. */
  lemma {:induction false} OldLinksNewFiles(name: string, d: Disk, c: Certbot, s: Disk)
    requires name == "npm-7"
    requires d == Disk(map[Key(Live, name) := OldLive(), Key(Archive, name) := OldArchive()], map[])
    requires c == Certbot([map[Key(Archive, name) := NewArchive()]], map[], false, true)
    requires s == Disk(map[Key(Archive, name) := NewArchive()], d.here)
    ensures !LineageIsIntact(d, name, false, true) && RenewalCrash(d, name, false, c, s)
    ensures Resolved(d.here, name, FULLCHAIN) == File(true) && Resolved(d.here, name, PRIVKEY) == File(true)
    ensures var e := Recovered(s); Resolved(e.here, name, FULLCHAIN) == File(true) && Resolved(e.here, name, PRIVKEY) == Nothing
  {
    OldFiles(d.here, name);
    BeforeTheKey(name, d, c, s);
    KeyIsLost(name, d.here, s);
  }

  /** After a renewal of a broken lineage ran to its end: a failure keeps usable all that was safe;
      a success leaves what certbot wrote, which only has to exist. */
  lemma UsableAfterRun(d: Disk, prefix: string, separate: bool, elsewhere: bool, c: Certbot, name: string)
    requires InLineage(prefix, name) && Safe(d, name) && !LineageIsIntact(d, prefix, separate, elsewhere)
    ensures var ok := Succeeds(d, prefix, separate, elsewhere, c);
      Usable(RunSpec(d, prefix, separate, elsewhere, c).here, name) <==> !ok || Usable(c.after, name)
    ensures Succeeds(d, prefix, separate, elsewhere, c) && name == prefix ==>
      (Usable(RunSpec(d, prefix, separate, elsewhere, c).here, name) <==> Fullchain(c.after, name) != File(false))
  {
    var was := SetAside(d, prefix, separate);
    if !Succeeds(d, prefix, separate, elsewhere, c) {
      MovedIsUsable(d, prefix, separate, name);
      HeldIsSafe(Disk(c.after + was, map[]), was, name);
    }
  }

  /** The check before the discard does not look at the size: an empty fullchain costs the only
      valid certificate. */
  lemma EmptyFullchainLoses(d: Disk, c: Certbot)
    requires d == Disk(map[Key(Live, "npm-7") := Dir(map[FULLCHAIN := Bytes(true)])], map[])
    requires c == Certbot([], map[Key(Live, "npm-7") := Dir(map[FULLCHAIN := Bytes(false)])], true, true)
    ensures Usable(d.here, "npm-7") && !LineageIsIntact(d, "npm-7", false, true)
    ensures var e := RunSpec(d, "npm-7", false, true, c);
      Succeeds(d, "npm-7", false, true, c) && !Usable(e.here, "npm-7") && !Safe(e, "npm-7")
  {
  }

  lemma MovedAt(t: Tree, prefix: string, separate: bool, k: Key)
    ensures k in Moved(t, prefix, separate) <==> k in t && Matches(prefix, k) && (k.sub == CertbotRenewal ==> separate)
  {
  }

  /** After a failed renewal the moved entries are exactly what they were, and nothing certbot wrote
      under another name is touched. */
  lemma FailureRestores(d: Disk, prefix: string, separate: bool, elsewhere: bool, c: Certbot, k: Key)
    requires !LineageIsIntact(d, prefix, separate, elsewhere) && !Succeeds(d, prefix, separate, elsewhere, c)
    ensures var e := RunSpec(d, prefix, separate, elsewhere, c).here; var t := Recovered(d).here;
      if k in t && Matches(prefix, k) && (k.sub == CertbotRenewal ==> separate) then k in e && e[k] == t[k]
      else (k in e <==> k in c.after) && (k in e ==> e[k] == c.after[k])
  {
    MovedAt(Recovered(d).here, prefix, separate, k);
  }

  lemma PhaseKeeps(d: Disk, sub: Sub, k: Key)
    ensures var e := Phase(d, sub);
      && (k in e.aside ==> k in d.aside && e.aside[k] == d.aside[k] && (k.sub == sub ==> k in e.here))
      && (k in e.here <==> k in d.here || (k in d.aside && k !in e.aside))
      && (k in e.here ==> (k in d.here && e.here[k] == d.here[k]) || (k in d.aside && e.here[k] == d.aside[k]))
  {
  }

  /** Nothing is lost by a recovery: each entry ends as it was in place or as it was saved. */
  lemma RecoveryKeepsEntries(d: Disk, k: Key)
    ensures var e := Recovered(d).here;
      (k in e <==> k in d.here || k in d.aside)
      && (k in e ==> (k in d.here && e[k] == d.here[k]) || (k in d.aside && e[k] == d.aside[k]))
      && (k in e && k !in d.aside ==> e[k] == d.here[k]) && (k in e && k !in d.here ==> e[k] == d.aside[k])
  {
    var d1 := Phase(d, Live);
    var d2 := Phase(d1, Archive);
    var d3 := Phase(d2, Renewal);
    PhaseKeeps(d, Live, k);
    PhaseKeeps(d1, Archive, k);
    PhaseKeeps(d2, Renewal, k);
    PhaseKeeps(d3, CertbotRenewal, k);
  }
}
