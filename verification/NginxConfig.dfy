/** The nginx configuration transaction (backend/internal/nginx.js): configure() and
    bulkGenerateConfigs() over <conf>, <conf>.bak, <conf>.disabled and <conf>.err.
    `nginx -t` is an arbitrary predicate on the whole live set. */
module NginxConfig {
  import opened Wrappers
  import opened Seqs

  /** A host: its type and id, i.e. the name of its conf file. */
  type Host = string
  type Conf = string
  type Live = map<Host, Conf>

  /** The two fields of a host's meta that are written here. */
  datatype Meta = Meta(online: bool, err: bool)

  datatype Files = Files(live: Live, bak: Live, disabled: Live, err: Live, meta: map<Host, Meta>)

  // ==== configure ====

  datatype Outcome = BaselineBroken | Unsafe | RenderFailed | Applied | RejectedRestored | RejectedOffline

  /** A working conf to fall back to exists, in the live set or stashed. */
  predicate Saved(f: Files, h: Host) { h in f.live || h in f.disabled }

  function Previous(f: Files, h: Host): Conf
    requires Saved(f, h)
  {
    if h in f.live then f.live[h] else f.disabled[h]
  }

  /** The live set with the host's previous conf in place, or none if it had none. */
  function WithPrevious(f: Files, h: Host): Live {
    if Saved(f, h) then f.live[h := Previous(f, h)] else f.live - {h}
  }

  /** The state once the previous conf is back. */
  function RolledBack(f: Files, h: Host): Files {
    f.(live := WithPrevious(f, h), bak := if Saved(f, h) then f.bak - {h} else f.bak,
       disabled := f.disabled - {h}, err := f.err - {h})
  }

  function ConfigureSpec(f: Files, h: Host, safe: bool, rendered: Option<Conf>, valid: Live -> bool): (Files, Outcome) {
    if !valid(f.live) then (f, BaselineBroken)
    else if !safe then (f, Unsafe)
    else if rendered.None? then (RolledBack(f, h), RenderFailed)
    else if valid(f.live[h := rendered.value]) then
      (f.(live := f.live[h := rendered.value], bak := f.bak - {h}, disabled := f.disabled - {h}, err := f.err - {h},
          meta := f.meta[h := Meta(true, false)]), Applied)
    else
      var back := RolledBack(f, h);
      (back.(err := back.err[h := rendered.value], meta := f.meta[h := Meta(Saved(f, h), true)]),
       if Saved(f, h) then RejectedRestored else RejectedOffline)
  }

  // ==== bulkGenerateConfigs ====

  datatype BulkOutcome = AllApplied | BaseBroken | Isolated(accepted: seq<Host>, rejected: seq<Host>)

  predicate Distinct(hosts: seq<Host>) { forall i, j :: 0 <= i < j < |hosts| ==> hosts[i] != hosts[j] }

  /** The pre-call set, stashed confs of the listed hosts counted as pre-call. */
  function Base(f: Files, hosts: seq<Host>): Live {
    f.live + map h | h in hosts && h !in f.live && h in f.disabled :: f.disabled[h]
  }

  predicate AllRendered(hosts: seq<Host>, render: Host -> Option<Conf>) {
    forall i :: 0 <= i < |hosts| ==> render(hosts[i]).Some?
  }

  /** The live set after every render that worked was written. */
  function Generated(live: Live, hosts: seq<Host>, render: Host -> Option<Conf>): Live {
    live + map h | h in hosts && render(h).Some? :: render(h).value
  }

  datatype Iso = Iso(live: Live, err: Live, accepted: seq<Host>, rejected: seq<Host>)

  /** The turn of one host: its new conf stays if the set passes with it, else its base conf returns. */
  function IsoStep(s: Iso, base: Live, h: Host, render: Host -> Option<Conf>, valid: Live -> bool): Iso {
    var tried := if render(h).Some? then s.live[h := render(h).value] else s.live;
    if render(h).Some? && valid(tried) then s.(live := tried, accepted := s.accepted + [h])
    else
      Iso(if h in base then tried[h := base[h]] else tried - {h},
          if h in tried then s.err[h := tried[h]] else s.err,
          s.accepted, s.rejected + [h])
  }

  function Isolate(f: Files, base: Live, hosts: seq<Host>, render: Host -> Option<Conf>, valid: Live -> bool): Iso {
    if hosts == [] then Iso(base, f.err, [], [])
    else IsoStep(Isolate(f, base, hosts[..|hosts| - 1], render, valid), base, hosts[|hosts| - 1], render, valid)
  }

  predicate Stale(m: map<Host, Meta>, h: Host) { h in m && (m[h].err || !m[h].online) }

  /** clearHostErrors on enabled hosts whose conf passed. */
  function Cleared(m: map<Host, Meta>, hosts: seq<Host>, enabled: set<Host>): map<Host, Meta> {
    map h | h in m :: if h in hosts && h in enabled && Stale(m, h) then Meta(true, false) else m[h]
  }

  /** markHostsRejected: still online exactly when the previous conf was kept. */
  function Marked(m: map<Host, Meta>, rejected: seq<Host>, base: Live): map<Host, Meta> {
    m + map h | h in rejected :: Meta(h in base, true)
  }

  /** .bak and .disabled once the backups were taken and dropped again. */
  function Settled(f: Files, hosts: seq<Host>): Files {
    f.(bak := map h | h in f.bak && !(h in hosts && Saved(f, h)) :: f.bak[h],
       disabled := map h | h in f.disabled && !(h in hosts && h !in f.live) :: f.disabled[h])
  }

  function BulkSpec(f: Files, hosts: seq<Host>, render: Host -> Option<Conf>, valid: Live -> bool, enabled: set<Host>)
    : (Files, BulkOutcome)
  {
    var s := Settled(f, hosts);
    var all := Generated(f.live, hosts, render);
    var base := Base(f, hosts);
    if hosts == [] then (f, AllApplied)
    else if AllRendered(hosts, render) && valid(all) then
      (s.(live := all, meta := Cleared(f.meta, hosts, enabled)), AllApplied)
    else if !valid(base) then (s.(live := base), BaseBroken)
    else
      var iso := Isolate(f, base, hosts, render, valid);
      (s.(live := iso.live, err := iso.err, meta := Marked(Cleared(f.meta, iso.accepted, enabled), iso.rejected, base)),
       Isolated(iso.accepted, iso.rejected))
  }

  // ==== the files, changed in place ====

  class Nginx {
    const valid: Live -> bool
    var live: Live
    var bak: Live
    var disabled: Live
    var err: Live
    var meta: map<Host, Meta>

    ghost function Now(): Files
      reads this
    {
      Files(live, bak, disabled, err, meta)
    }

    constructor (test: Live -> bool, f: Files)
      ensures Now() == f && valid == test
    {
      valid := test;
      live, bak, disabled, err, meta := f.live, f.bak, f.disabled, f.err, f.meta;
    }

    /** `nginx -t` */
    method Test() returns (ok: bool)
      ensures ok == valid(live)
    {
      ok := valid(live);
    }

    method BackupConfig(h: Host) returns (saved: bool)
      modifies this`bak, this`disabled
      ensures saved == Saved(old(Now()), h)
      ensures bak == if saved then old(bak)[h := Previous(old(Now()), h)] else old(bak)
      ensures disabled == if h in live then old(disabled) else old(disabled) - {h}
    {
      if h !in live {
        if h in disabled {
          bak := bak[h := disabled[h]];
          disabled := disabled - {h};
          return true;
        }
        assert disabled - {h} == disabled;
        return false;
      }
      bak := bak[h := live[h]];
      return true;
    }

    /** Take a conf out of the live set without losing it. */
    method StashConfig(h: Host) returns (ok: bool)
      modifies this`live, this`disabled
      ensures ok == (h in old(live))
      ensures live == old(live) - {h}
      ensures disabled == if ok then old(disabled)[h := old(live)[h]] else old(disabled)
    {
      if h !in live {
        assert live - {h} == live;
        return false;
      }
      disabled := disabled[h := live[h]];
      live := live - {h};
      return true;
    }

    method RestoreConfigBackup(h: Host) returns (restored: bool)
      modifies this`live, this`bak
      ensures restored == (h in old(bak))
      ensures live == if restored then old(live)[h := old(bak)[h]] else old(live)
      ensures bak == old(bak) - {h}
    {
      if h !in bak {
        assert bak - {h} == bak;
        return false;
      }
      live := live[h := bak[h]];
      bak := bak - {h};
      return true;
    }

    method DropConfigBackup(h: Host)
      modifies this`bak
      ensures bak == old(bak) - {h}
    {
      bak := bak - {h};
    }

    method DeleteConfig(h: Host, deleteErrFile: bool)
      modifies this`live, this`err, this`disabled
      ensures live == old(live) - {h}
      ensures err == if deleteErrFile then old(err) - {h} else old(err)
      ensures disabled == if deleteErrFile then old(disabled) - {h} else old(disabled)
    {
      live := live - {h};
      if deleteErrFile {
        err := err - {h};
        disabled := disabled - {h};
      }
    }

    method RenameConfigAsError(h: Host)
      modifies this`live, this`err
      ensures live == old(live) - {h}
      ensures err == if h in old(live) then old(err)[h := old(live)[h]] else old(err)
    {
      if h in live {
        err := err[h := live[h]];
      }
      live := live - {h};
    }

    /** Nothing is written when rendering fails. */
    method GenerateConfig(h: Host, rendered: Option<Conf>) returns (ok: bool)
      modifies this`live
      ensures ok == rendered.Some?
      ensures live == if ok then old(live)[h := rendered.value] else old(live)
    {
      if rendered.None? { return false; }
      live := live[h := rendered.value];
      return true;
    }

    /** The working conf goes to .bak, every other file of the host goes away. */
    method TakeOut(h: Host) returns (saved: bool)
      modifies this`live, this`bak, this`disabled, this`err
      ensures saved == Saved(old(Now()), h)
      ensures live == old(live) - {h} && disabled == old(disabled) - {h} && err == old(err) - {h}
      ensures bak == if saved then old(bak)[h := Previous(old(Now()), h)] else old(bak)
    {
      saved := BackupConfig(h);
      DeleteConfig(h, true);
      assert old(disabled) - {h} - {h} == old(disabled) - {h};
    }

    /** Whatever conf the host has now is dropped and the previous one is put back. */
    method RestorePrevious(h: Host, hadBackup: bool, ghost f: Files) returns (restored: bool)
      requires hadBackup == Saved(f, h)
      requires live - {h} == f.live - {h}
      requires bak == if hadBackup then f.bak[h := Previous(f, h)] else f.bak
      modifies this`live, this`bak, this`err, this`disabled
      ensures restored == hadBackup && err == old(err) && disabled == old(disabled)
      ensures live == RolledBack(f, h).live && bak == RolledBack(f, h).bak
    {
      DeleteConfig(h, false);
      restored := false;
      if hadBackup {
        restored := RestoreConfigBackup(h);
        assert (f.live - {h})[h := Previous(f, h)] == f.live[h := Previous(f, h)];
        assert f.bak[h := Previous(f, h)] - {h} == f.bak - {h};
      }
    }

    method Configure(h: Host, safe: bool, rendered: Option<Conf>) returns (o: Outcome)
      modifies this
      ensures (Now(), o) == ConfigureSpec(old(Now()), h, safe, rendered, valid)
    {
      var ok := Test();
      if !ok { return BaselineBroken; }
      if !safe { return Unsafe; }
      ghost var f := Now();
      var hadBackup := TakeOut(h);
      var written := GenerateConfig(h, rendered);
      if !written {
        var _ := RestorePrevious(h, hadBackup, f);
        return RenderFailed;
      }
      o := Conclude(h, rendered.value, hadBackup, f);
    }

    /** Test the new conf: keep it, or keep it as .err and put the previous one back. */
    method Conclude(h: Host, conf: Conf, hadBackup: bool, ghost f: Files) returns (o: Outcome)
      requires valid(f.live) && hadBackup == Saved(f, h) && meta == f.meta
      requires live == (f.live - {h})[h := conf] && disabled == f.disabled - {h} && err == f.err - {h}
      requires bak == if hadBackup then f.bak[h := Previous(f, h)] else f.bak
      modifies this
      ensures (Now(), o) == ConfigureSpec(f, h, true, Some(conf), valid)
    {
      assert live == f.live[h := conf];
      var ok := Test();
      if ok {
        meta := meta[h := Meta(true, false)];
        DropConfigBackup(h);
        assert bak == f.bak - {h};
        return Applied;
      }
      RenameConfigAsError(h);
      assert live - {h} == f.live - {h};
      var restored := RestorePrevious(h, hadBackup, f);
      meta := meta[h := Meta(restored, true)];
      return if restored then RejectedRestored else RejectedOffline;
    }

    /** Put the pre-call conf of a host back in the live set, keeping the .bak. */
    method PutBack(h: Host, saved: bool)
      requires saved ==> h in bak
      modifies this`live
      ensures live == if saved then old(live)[h := bak[h]] else old(live) - {h}
    {
      if saved {
        live := live[h := bak[h]];
      } else {
        live := live - {h};
      }
    }

    /** The confs of the listed hosts are saved in .bak; `backups` says of which hosts. */
    ghost predicate Held(f: Files, hosts: seq<Host>, backups: seq<bool>)
      reads this`bak, this`disabled
    {
      && |backups| == |hosts|
      && (forall i :: 0 <= i < |hosts| ==> backups[i] == Saved(f, hosts[i]))
      && bak == HeldBak(f, hosts)
      && disabled == Settled(f, hosts).disabled
    }

    method BackupAll(hosts: seq<Host>) returns (backups: seq<bool>)
      requires Distinct(hosts)
      modifies this`bak, this`disabled
      ensures Held(old(Now()), hosts, backups)
    {
      ghost var f := Now();
      backups := [];
      assert HeldBak(f, []) == bak && Settled(f, []).disabled == disabled;
      for i := 0 to |hosts|
        invariant live == f.live
        invariant Held(f, hosts[..i], backups)
      {
        HeldStep(f, hosts, i);
        var saved := BackupConfig(hosts[i]);
        backups := backups + [saved];
      }
      assert hosts[..|hosts|] == hosts;
    }

    method DropBackups(hosts: seq<Host>, backups: seq<bool>, ghost f: Files)
      requires Held(f, hosts, backups)
      modifies this`bak
      ensures bak == Settled(f, hosts).bak
    {
      DroppedAll(f, hosts);
      for i := 0 to |hosts|
        invariant bak == HeldBak(f, hosts) - DroppedBy(f, hosts[..i])
      {
        DroppedStep(f, hosts, i, HeldBak(f, hosts));
        if backups[i] { DropConfigBackup(hosts[i]); }
      }
      assert hosts[..|hosts|] == hosts;
    }

    /** Every render is awaited; `ok` = none failed. */
    method GenerateAll(hosts: seq<Host>, render: Host -> Option<Conf>) returns (ok: bool)
      modifies this`live
      ensures live == Generated(old(live), hosts, render)
      ensures ok == AllRendered(hosts, render)
    {
      ok := true;
      ghost var before := live;
      for i := 0 to |hosts|
        invariant live == Generated(before, hosts[..i], render)
        invariant ok == AllRendered(hosts[..i], render)
      {
        GeneratedStep(before, hosts, i, render);
        var written := GenerateConfig(hosts[i], render(hosts[i]));
        ok := ok && written;
      }
      assert hosts[..|hosts|] == hosts;
    }

    method PutBackAll(hosts: seq<Host>, backups: seq<bool>, ghost f: Files)
      requires Held(f, hosts, backups)
      requires forall h :: h !in hosts ==> SameAt(live, f.live, h)
      modifies this`live
      ensures live == Base(f, hosts)
    {
      ghost var base := Base(f, hosts);
      forall h | h !in hosts ensures SameAt(live, base, h) {
        BaseElsewhere(f, hosts, h);
      }
      for i := 0 to |hosts|
        invariant forall h :: h !in hosts[i..] ==> SameAt(live, base, h)
      {
        assert hosts[i..] == [hosts[i]] + hosts[i + 1..];
        HeldIsBase(f, hosts, hosts[i]);
        ghost var before := live;
        PutBack(hosts[i], backups[i]);
        assert SameAt(live, base, hosts[i]);
        forall h | h !in hosts[i + 1..] ensures SameAt(live, base, h) {
          if h != hosts[i] { assert SameAt(before, base, h); }
        }
      }
      assert hosts[|hosts|..] == [];
      SameEverywhere(live, base);
    }

    method TryHost(h: Host, saved: bool, render: Host -> Option<Conf>, ghost base: Live, ghost s: Iso) returns (ok: bool)
      requires saved == (h in base) && (saved ==> h in bak && bak[h] == base[h])
      requires s.live == live && s.err == err
      modifies this`live, this`err
      ensures var t := IsoStep(s, base, h, render, valid);
        t == Iso(live, err, if ok then s.accepted + [h] else s.accepted, if ok then s.rejected else s.rejected + [h])
    {
      ok := GenerateConfig(h, render(h));
      if ok { ok := Test(); }
      if !ok {
        ghost var tried := live;
        RenameConfigAsError(h);
        PutBack(h, saved);
        assert tried - {h} - {h} == tried - {h};
        assert saved ==> (tried - {h})[h := base[h]] == tried[h := base[h]];
      }
    }

    /** The hosts in turn: a new conf that fails the test makes room for the base conf again. */
    method IsolateAll(hosts: seq<Host>, backups: seq<bool>, render: Host -> Option<Conf>, ghost f: Files, ghost base: Live)
      returns (accepted: seq<Host>, rejected: seq<Host>, kept: seq<bool>)
      requires Held(f, hosts, backups) && live == base == Base(f, hosts) && err == f.err
      modifies this`live, this`err
      ensures Iso(live, err, accepted, rejected) == Isolate(f, base, hosts, render, valid)
      ensures |kept| == |rejected| && forall i :: 0 <= i < |kept| ==> kept[i] == (rejected[i] in base)
    {
      accepted, rejected, kept := [], [], [];
      for i := 0 to |hosts|
        invariant |kept| == |rejected| && forall j :: 0 <= j < |kept| ==> kept[j] == (rejected[j] in base)
        invariant Iso(live, err, accepted, rejected) == Isolate(f, base, hosts[..i], render, valid)
      {
        var h := hosts[i];
        assert hosts[..i + 1][..i] == hosts[..i];
        HeldIsBase(f, hosts, h);
        var ok := TryHost(h, backups[i], render, base, Iso(live, err, accepted, rejected));
        if ok {
          accepted := accepted + [h];
        } else {
          rejected, kept := rejected + [h], kept + [backups[i]];
        }
      }
      assert hosts[..|hosts|] == hosts;
    }

    method MarkHostsRejected(rejected: seq<Host>, kept: seq<bool>, ghost base: Live)
      requires |kept| == |rejected| && forall i :: 0 <= i < |kept| ==> kept[i] == (rejected[i] in base)
      modifies this`meta
      ensures meta == Marked(old(meta), rejected, base)
    {
      ghost var before := meta;
      for i := 0 to |rejected|
        invariant meta == Marked(before, rejected[..i], base)
      {
        MarkedStep(before, rejected, i, base);
        meta := meta[rejected[i] := Meta(kept[i], true)];
      }
      assert rejected[..|rejected|] == rejected;
    }

    method BulkGenerateConfigs(hosts: seq<Host>, render: Host -> Option<Conf>, enabled: set<Host>) returns (o: BulkOutcome)
      requires Distinct(hosts)
      modifies this
      ensures (Now(), o) == BulkSpec(old(Now()), hosts, render, valid, enabled)
    {
      if hosts == [] { return AllApplied; }
      ghost var f := Now();
      var backups := BackupAll(hosts);
      var ok := GenerateAll(hosts, render);
      if ok { ok := Test(); }
      if ok {
        AcceptAll(hosts, backups, enabled, f);
        return AllApplied;
      }
      o := IsolateBad(hosts, backups, render, enabled, f);
    }

    method AcceptAll(hosts: seq<Host>, backups: seq<bool>, enabled: set<Host>, ghost f: Files)
      requires Held(f, hosts, backups) && err == f.err && meta == f.meta
      modifies this`bak, this`meta
      ensures Now() == Settled(f, hosts).(live := old(live), meta := Cleared(f.meta, hosts, enabled))
    {
      DropBackups(hosts, backups, f);
      meta := Cleared(meta, hosts, enabled);
    }

    /** The backups go and meta is written. */
    method Finish(hosts: seq<Host>, backups: seq<bool>, accepted: seq<Host>, rejected: seq<Host>, kept: seq<bool>,
                  enabled: set<Host>, ghost f: Files)
      requires Held(f, hosts, backups) && |kept| == |rejected|
      requires forall i :: 0 <= i < |kept| ==> kept[i] == (rejected[i] in Base(f, hosts))
      modifies this`bak, this`meta
      ensures bak == Settled(f, hosts).bak && disabled == Settled(f, hosts).disabled
      ensures meta == Marked(Cleared(old(meta), accepted, enabled), rejected, Base(f, hosts))
    {
      DropBackups(hosts, backups, f);
      meta := Cleared(meta, accepted, enabled);
      MarkHostsRejected(rejected, kept, Base(f, hosts));
    }

    /** From the pre-call set, one host at a time. */
    method IsolateFromBase(hosts: seq<Host>, backups: seq<bool>, render: Host -> Option<Conf>, enabled: set<Host>, ghost f: Files)
      returns (accepted: seq<Host>, rejected: seq<Host>)
      requires Held(f, hosts, backups) && err == f.err && meta == f.meta && live == Base(f, hosts)
      modifies this
      ensures var iso := Isolate(f, Base(f, hosts), hosts, render, valid);
        && accepted == iso.accepted && rejected == iso.rejected
        && Now() == Settled(f, hosts).(live := iso.live, err := iso.err,
                                       meta := Marked(Cleared(f.meta, iso.accepted, enabled), iso.rejected, Base(f, hosts)))
    {
      var kept;
      accepted, rejected, kept := IsolateAll(hosts, backups, render, f, Base(f, hosts));
      Finish(hosts, backups, accepted, rejected, kept, enabled, f);
    }

    /** The pre-call set fails by itself: it stays. */
    method KeepBase(hosts: seq<Host>, backups: seq<bool>, ghost f: Files)
      requires Held(f, hosts, backups) && err == f.err && meta == f.meta && live == Base(f, hosts)
      modifies this`bak
      ensures Now() == Settled(f, hosts).(live := Base(f, hosts))
    {
      DropBackups(hosts, backups, f);
    }

    /** The batch failed: back to the pre-call set, then one host at a time. */
    method IsolateBad(hosts: seq<Host>, backups: seq<bool>, render: Host -> Option<Conf>, enabled: set<Host>, ghost f: Files)
      returns (o: BulkOutcome)
      requires hosts != [] && Held(f, hosts, backups) && err == f.err && meta == f.meta
      requires live == Generated(f.live, hosts, render) && !(AllRendered(hosts, render) && valid(live))
      modifies this
      ensures (Now(), o) == BulkSpec(f, hosts, render, valid, enabled)
    {
      GeneratedElsewhere(f.live, hosts, render);
      PutBackAll(hosts, backups, f);
      var ok := Test();
      if !ok {
        KeepBase(hosts, backups, f);
        return BaseBroken;
      }
      var accepted, rejected := IsolateFromBase(hosts, backups, render, enabled, f);
      return Isolated(accepted, rejected);
    }
  }

  function HeldBak(f: Files, hosts: seq<Host>): Live {
    f.bak + map h | h in hosts && Saved(f, h) :: Previous(f, h)
  }

  function DroppedBy(f: Files, hosts: seq<Host>): set<Host> { set h | h in hosts && Saved(f, h) }

  lemma HeldStep(f: Files, hosts: seq<Host>, i: nat)
    requires i < |hosts| && Distinct(hosts)
    ensures var h := hosts[i];
      HeldBak(f, hosts[..i + 1]) == if Saved(f, h) then HeldBak(f, hosts[..i])[h := Previous(f, h)] else HeldBak(f, hosts[..i])
    ensures var h := hosts[i]; var now := Settled(f, hosts[..i]).disabled;
      (h in now <==> h in f.disabled) && (h in now ==> now[h] == f.disabled[h])
      && Settled(f, hosts[..i + 1]).disabled == if h in f.live then now else now - {h}
  {
    var h := hosts[i];
    assert hosts[..i + 1] == hosts[..i] + [h];
    assert h !in hosts[..i];
    HeldBakStep(f, hosts[..i], h);
    SettledStep(f, hosts[..i], h);
  }

  lemma HeldBakStep(f: Files, hosts: seq<Host>, h: Host)
    ensures HeldBak(f, hosts + [h]) == if Saved(f, h) then HeldBak(f, hosts)[h := Previous(f, h)] else HeldBak(f, hosts)
  {
    assert forall g :: g in hosts + [h] <==> g in hosts || g == h;
  }

  lemma SettledStep(f: Files, hosts: seq<Host>, h: Host)
    requires h !in hosts
    ensures var now := Settled(f, hosts).disabled;
      (h in now <==> h in f.disabled) && (h in now ==> now[h] == f.disabled[h])
      && Settled(f, hosts + [h]).disabled == if h in f.live then now else now - {h}
  {
    assert forall g :: g in hosts + [h] <==> g in hosts || g == h;
  }

  /** What the .bak of a listed host holds is its conf in the pre-call set. */
  lemma HeldIsBase(f: Files, hosts: seq<Host>, h: Host)
    requires h in hosts
    ensures h in Base(f, hosts) <==> Saved(f, h)
    ensures Saved(f, h) ==> h in HeldBak(f, hosts) && HeldBak(f, hosts)[h] == Base(f, hosts)[h] == Previous(f, h)
  {
  }

  lemma BaseElsewhere(f: Files, hosts: seq<Host>, h: Host)
    requires h !in hosts
    ensures SameAt(f.live, Base(f, hosts), h)
  {
  }

  lemma SameEverywhere(a: Live, b: Live)
    requires forall h :: SameAt(a, b, h)
    ensures a == b
  {
    forall h ensures (h in a <==> h in b) && (h in a ==> a[h] == b[h]) { assert SameAt(a, b, h); }
  }

  lemma {:induction false} AllRenderedStep(hosts: seq<Host>, i: nat, render: Host -> Option<Conf>)
    requires i < |hosts|
    ensures AllRendered(hosts[..i + 1], render) == (AllRendered(hosts[..i], render) && render(hosts[i]).Some?)
  {
    assert AllRendered(hosts[..i + 1], render) ==> render(hosts[..i + 1][i]).Some?;
    assert AllRendered(hosts[..i + 1], render) ==> forall j :: 0 <= j < i ==> hosts[..i][j] == hosts[..i + 1][j];
  }

  lemma {:induction false} GeneratedStep(live: Live, hosts: seq<Host>, i: nat, render: Host -> Option<Conf>)
    requires i < |hosts|
    ensures var now := Generated(live, hosts[..i], render);
      Generated(live, hosts[..i + 1], render)
      == if render(hosts[i]).Some? then now[hosts[i] := render(hosts[i]).value] else now
    ensures AllRendered(hosts[..i + 1], render) == (AllRendered(hosts[..i], render) && render(hosts[i]).Some?)
  {
    assert hosts[..i + 1] == hosts[..i] + [hosts[i]];
    AllRenderedStep(hosts, i, render);
  }

  lemma {:induction false} DroppedStep(f: Files, hosts: seq<Host>, i: nat, bak: Live)
    requires i < |hosts|
    ensures var now := bak - DroppedBy(f, hosts[..i]);
      bak - DroppedBy(f, hosts[..i + 1]) == if Saved(f, hosts[i]) then now - {hosts[i]} else now
  {
    assert hosts[..i + 1] == hosts[..i] + [hosts[i]];
  }

  lemma {:induction false} DroppedAll(f: Files, hosts: seq<Host>)
    ensures HeldBak(f, hosts) - DroppedBy(f, hosts[..0]) == HeldBak(f, hosts)
    ensures HeldBak(f, hosts) - DroppedBy(f, hosts) == Settled(f, hosts).bak
  {
  }

  lemma {:induction false} GeneratedElsewhere(live: Live, hosts: seq<Host>, render: Host -> Option<Conf>)
    ensures forall h :: h !in hosts ==> SameAt(Generated(live, hosts, render), live, h)
  {
  }

  lemma MarkedStep(m: map<Host, Meta>, hosts: seq<Host>, i: nat, base: Live)
    requires i < |hosts|
    ensures Marked(m, hosts[..i + 1], base) == Marked(m, hosts[..i], base)[hosts[i] := Meta(hosts[i] in base, true)]
  {
    assert hosts[..i + 1] == hosts[..i] + [hosts[i]];
  }

  // ==== what configure keeps ====

  predicate Accepted(f: Files, h: Host, rendered: Option<Conf>, valid: Live -> bool) {
    rendered.Some? && valid(f.live[h := rendered.value])
  }

  /** The host's only conf is the stashed one, which the first test did not see. */
  predicate StashOnly(f: Files, h: Host) { h !in f.live && h in f.disabled }

  /** The live set passes the test at exit exactly when it did at entry, except when an unseen
      stashed conf is put back and breaks it. */
  lemma ConfigureValidity(f: Files, h: Host, safe: bool, rendered: Option<Conf>, valid: Live -> bool)
    ensures valid(ConfigureSpec(f, h, safe, rendered, valid).0.live)
      <==> (valid(f.live)
            && !(safe && StashOnly(f, h) && !Accepted(f, h, rendered, valid) && !valid(f.live[h := f.disabled[h]])))
  {
    assert h in f.live ==> f.live[h := f.live[h]] == f.live;
    assert h !in f.live ==> f.live - {h} == f.live;
  }

  /** The promise of configure, without a stashed conf: a valid set stays valid on every path. */
  lemma ConfigureKeepsValid(f: Files, h: Host, safe: bool, rendered: Option<Conf>, valid: Live -> bool)
    requires valid(f.live) && h !in f.disabled
    ensures valid(ConfigureSpec(f, h, safe, rendered, valid).0.live)
  {
    ConfigureValidity(f, h, safe, rendered, valid);
  }

  /** A stashed conf can make a valid set invalid. */
  lemma StashCanBreak(f: Files, h: Host)
    requires h == "proxy_host/1" && f == Files(map[], map[], map[h := "listen 80 80;"], map[], map[])
    ensures var valid := (l: Live) => h !in l;
      valid(f.live) && !valid(ConfigureSpec(f, h, true, None, valid).0.live)
  {
  }

  /** The host has its new conf exactly when that was accepted, its previous conf otherwise, and
      none only if it had none; nobody else's files move. */
  lemma {:induction false} ConfigureConf(f: Files, h: Host, safe: bool, rendered: Option<Conf>, valid: Live -> bool)
    requires valid(f.live) && safe
    ensures var (g, o) := ConfigureSpec(f, h, safe, rendered, valid);
      && (o.Applied? <==> Accepted(f, h, rendered, valid))
      && (h in g.live <==> o.Applied? || Saved(f, h))
      && (h in g.live ==> g.live[h] == if o.Applied? then rendered.value else Previous(f, h))
      && h !in g.disabled && (Saved(f, h) || o.Applied? ==> h !in g.bak)
    ensures var (g, _) := ConfigureSpec(f, h, safe, rendered, valid);
      && g.live - {h} == f.live - {h} && g.bak - {h} == f.bak - {h} && g.err - {h} == f.err - {h}
      && g.disabled - {h} == f.disabled - {h} && g.meta - {h} == f.meta - {h}
  {
    ConfigureFrame(f, h, safe, rendered, valid);
  }

  /** Only files and meta of the configured host change. */
  lemma {:induction false} ConfigureFrame(f: Files, h: Host, safe: bool, rendered: Option<Conf>, valid: Live -> bool)
    ensures var (g, _) := ConfigureSpec(f, h, safe, rendered, valid);
      && g.live - {h} == f.live - {h} && g.bak - {h} == f.bak - {h} && g.err - {h} == f.err - {h}
      && g.disabled - {h} == f.disabled - {h} && g.meta - {h} == f.meta - {h}
  {
  }

  /** No conf is lost: on every path each host that had one has the same one afterwards, or the new
      one if it is the configured host and that was applied; a live conf stays live. */
  lemma {:induction false} ConfigureLosesNothing(f: Files, g: Host, h: Host, safe: bool, rendered: Option<Conf>, valid: Live -> bool)
    requires Saved(f, g)
    ensures var (t, o) := ConfigureSpec(f, h, safe, rendered, valid);
      && Saved(t, g)
      && Previous(t, g) == (if g == h && o.Applied? then rendered.value else Previous(f, g))
      && (g in f.live || (g == h && MetaWritten(o)) ==> g in t.live)
      && (g != h ==> SameAt(f.live, t.live, g) && SameAt(f.disabled, t.disabled, g))
  {
    var (t, o) := ConfigureSpec(f, h, safe, rendered, valid);
    assert g != h ==> (g in t.live <==> g in f.live) && (g in t.disabled <==> g in f.disabled);
  }

  predicate MetaWritten(o: Outcome) { o.Applied? || o.RejectedRestored? || o.RejectedOffline? }

  /** The nginx_online it writes says whether the host's conf is live, and an error is kept
      exactly when the new conf was rejected. */
  lemma OnlineIsLive(f: Files, h: Host, safe: bool, rendered: Option<Conf>, valid: Live -> bool)
    requires MetaWritten(ConfigureSpec(f, h, safe, rendered, valid).1)
    ensures var (g, o) := ConfigureSpec(f, h, safe, rendered, valid);
      h in g.meta && g.meta[h].online == (h in g.live) && g.meta[h].err == (h in g.err) && g.meta[h].err == !o.Applied?
  {
  }

  function Stashed(f: Files, h: Host): Files
    requires h in f.live
  {
    f.(live := f.live - {h}, disabled := f.disabled[h := f.live[h]])
  }

  /** Stash, then configure, from a valid set: the new conf if it passes, else exactly the set
      from before the stash, unless the set without the host fails; then the conf stays stashed. */
  lemma StashThenConfigure(f: Files, h: Host, rendered: Option<Conf>, valid: Live -> bool)
    requires h in f.live && valid(f.live)
    ensures var (g, o) := ConfigureSpec(Stashed(f, h), h, true, rendered, valid);
      if !valid(f.live - {h}) then g == Stashed(f, h)
      else valid(g.live) && g.live == if o.Applied? then f.live[h := rendered.value] else f.live
  {
    assert f.live - {h} + map[h := f.live[h]] == f.live;
    assert (f.live - {h})[h := f.live[h]] == f.live;
    assert rendered.Some? ==> (f.live - {h})[h := rendered.value] == f.live[h := rendered.value];
  }

  // ==== what bulkGenerateConfigs keeps ====

  /** New conf for the accepted, base conf (or none) for everyone else. */
  ghost predicate NewOrBase(s: Iso, base: Live, hosts: seq<Host>, render: Host -> Option<Conf>) {
    forall h ::
      if h in s.accepted then h in hosts && h !in s.rejected && render(h).Some? && h in s.live && s.live[h] == render(h).value
      else SameAt(s.live, base, h) && (h in hosts <==> h in s.rejected)
  }

  lemma {:induction false} IsolateInv(f: Files, base: Live, hosts: seq<Host>, render: Host -> Option<Conf>, valid: Live -> bool)
    requires Distinct(hosts) && valid(base)
    ensures var s := Isolate(f, base, hosts, render, valid);
      valid(s.live) && NewOrBase(s, base, hosts, render) && |s.accepted| + |s.rejected| == |hosts|
  {
    if hosts != [] {
      var n := |hosts| - 1;
      IsolateInv(f, base, hosts[..n], render, valid);
      TakeOneMore(hosts, n);
      TakeAll(hosts);
      TurnKeeps(Isolate(f, base, hosts[..n], render, valid), base, hosts[..n], hosts[n], render, valid);
    }
  }

  lemma {:induction false} TurnKeeps(s: Iso, base: Live, hosts: seq<Host>, h: Host, render: Host -> Option<Conf>, valid: Live -> bool)
    requires h !in hosts && valid(s.live) && NewOrBase(s, base, hosts, render)
    ensures var t := IsoStep(s, base, h, render, valid);
      valid(t.live) && NewOrBase(t, base, hosts + [h], render) && |t.accepted| + |t.rejected| == |s.accepted| + |s.rejected| + 1
  {
    var t := IsoStep(s, base, h, render, valid);
    if t.rejected != s.rejected { assert t.live == s.live; }
  }

  /** Each host's turn: rejected exactly if its conf does not render or fails the test on top of
      what was accepted before it. */
  lemma {:induction false} RejectedAtTurn(f: Files, base: Live, hosts: seq<Host>, i: nat, render: Host -> Option<Conf>, valid: Live -> bool)
    requires Distinct(hosts) && valid(base) && i < |hosts|
    ensures hosts[i] in Isolate(f, base, hosts, render, valid).rejected
      <==> !(render(hosts[i]).Some? && valid(Isolate(f, base, hosts[..i], render, valid).live[hosts[i] := render(hosts[i]).value]))
  {
    var n := |hosts| - 1;
    if i < n {
      RejectedAtTurn(f, base, hosts[..n], i, render, valid);
      assert hosts[..n][..i] == hosts[..i];
    } else {
      IsolateInv(f, base, hosts[..n], render, valid);
      assert hosts[n] !in hosts[..n];
    }
  }

  lemma BaseCovered(f: Files, hosts: seq<Host>, render: Host -> Option<Conf>)
    requires AllRendered(hosts, render)
    ensures Generated(f.live, hosts, render) == Generated(Base(f, hosts), hosts, render)
  {
    assert forall h :: h in hosts ==> render(h).Some?;
  }

  /** Isolation always names a culprit: it cannot end with an empty list of rejected hosts. */
  lemma IsolationFindsOne(f: Files, hosts: seq<Host>, render: Host -> Option<Conf>, valid: Live -> bool, enabled: set<Host>)
    requires Distinct(hosts)
    ensures var o := BulkSpec(f, hosts, render, valid, enabled).1; o.Isolated? ==> o.rejected != []
  {
    var o := BulkSpec(f, hosts, render, valid, enabled).1;
    if o.Isolated? {
      var base := Base(f, hosts);
      var s := Isolate(f, base, hosts, render, valid);
      IsolateInv(f, base, hosts, render, valid);
      if s.rejected == [] {
        assert forall i :: 0 <= i < |hosts| ==> hosts[i] in s.accepted;
        assert AllRendered(hosts, render);
        BaseCovered(f, hosts, render);
        AllAccepted(s, base, hosts, render);
      }
    }
  }

  lemma AllAccepted(s: Iso, base: Live, hosts: seq<Host>, render: Host -> Option<Conf>)
    requires NewOrBase(s, base, hosts, render) && s.rejected == []
    ensures s.live == Generated(base, hosts, render)
  {
    var g := Generated(base, hosts, render);
    forall h ensures SameAt(s.live, g, h) {
      assert h in hosts ==> h in s.accepted;
    }
    SameEverywhere(s.live, g);
  }

  /** The set passes the test at exit, or it is exactly the pre-call set, which fails on its own. */
  lemma BulkEndsValidOrBase(f: Files, hosts: seq<Host>, render: Host -> Option<Conf>, valid: Live -> bool, enabled: set<Host>)
    requires Distinct(hosts) && hosts != []
    ensures var (g, o) := BulkSpec(f, hosts, render, valid, enabled);
      if o.BaseBroken? then g.live == Base(f, hosts) && !valid(g.live) else valid(g.live)
  {
    if BulkSpec(f, hosts, render, valid, enabled).1.Isolated? {
      IsolateInv(f, Base(f, hosts), hosts, render, valid);
    }
  }

  predicate NewConf(g: Files, h: Host, render: Host -> Option<Conf>) {
    render(h).Some? && h in g.live && g.live[h] == render(h).value
  }

  /** Every host of the list has its new conf or, if rejected, its previous one (none if it had
      none); a host outside the list keeps what it had. */
  lemma BulkHosts(f: Files, hosts: seq<Host>, render: Host -> Option<Conf>, valid: Live -> bool, enabled: set<Host>, h: Host)
    requires Distinct(hosts)
    ensures var (g, o) := BulkSpec(f, hosts, render, valid, enabled);
      if h !in hosts then SameAt(g.live, f.live, h) && SameAt(g.disabled, f.disabled, h)
      else if o.AllApplied? || (o.Isolated? && h !in o.rejected) then NewConf(g, h, render) && (o.Isolated? ==> h in o.accepted)
      else (o.Isolated? ==> h !in o.accepted) && SameAt(g.live, WithPrevious(f, h), h)
  {
    var (g, o) := BulkSpec(f, hosts, render, valid, enabled);
    if o.Isolated? { IsolateInv(f, Base(f, hosts), hosts, render, valid); }
    if o.AllApplied? && h in hosts {
      var i :| 0 <= i < |hosts| && hosts[i] == h;
      assert render(hosts[i]).Some?;
    }
  }

  /** No .bak of this call and no stashed conf of a listed host that was picked up remains; the
      .bak of every other host is untouched, and no working conf is lost. */
  lemma BulkLeavesNothing(f: Files, hosts: seq<Host>, render: Host -> Option<Conf>, valid: Live -> bool, enabled: set<Host>, h: Host)
    requires Distinct(hosts) && hosts != []
    ensures var (g, o) := BulkSpec(f, hosts, render, valid, enabled);
      && (h in hosts && Saved(f, h) ==> h !in g.bak && h in g.live && (h in g.disabled ==> h in f.live))
      && (!(h in hosts && Saved(f, h)) ==> SameAt(g.bak, f.bak, h))
      && (Saved(f, h) ==> Saved(g, h))
  {
    BulkHosts(f, hosts, render, valid, enabled, h);
  }

  /** What the host rows say afterwards: a rejected host is online exactly when its previous conf
      is live; an enabled host whose conf passed shows no stale error. */
  lemma BulkMeta(f: Files, hosts: seq<Host>, render: Host -> Option<Conf>, valid: Live -> bool, enabled: set<Host>, h: Host)
    requires Distinct(hosts) && hosts != [] && h in hosts
    ensures var (g, o) := BulkSpec(f, hosts, render, valid, enabled);
      if o.BaseBroken? then g.meta == f.meta
      else if o.Isolated? && h in o.rejected then h in g.meta && g.meta[h] == Meta(h in g.live, true)
      else (h in g.meta <==> h in f.meta) && (h in g.meta ==> g.meta[h] == if h in enabled then Meta(true, false) else f.meta[h])
  {
    BulkHosts(f, hosts, render, valid, enabled, h);
    var o := BulkSpec(f, hosts, render, valid, enabled).1;
    if o.Isolated? { IsolateInv(f, Base(f, hosts), hosts, render, valid); }
  }
}
