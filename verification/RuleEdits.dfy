/** The two editors of live iptables chains in the embedded agent script (backend/internal/agent.js):
    ensure_ingress_jump and dedupe_iface_rules. Rules are deleted by their number, one at a time. */
module RuleEdits {
  import opened Wrappers
  import opened Seqs

  datatype Target = ACCEPT | DROP | RETURN | MASQUERADE | Other(name: string)

  /** One `-A` line: its `-i`/`-o` interfaces, the rest of its matches, its target. */
  datatype Rule = Rule(ifaces: set<string>, matches: string, target: Target)

  /** A stateless matcher: which packets a rule hits. */
  type Matcher<!Packet(!new)> = (Rule, Packet) -> bool

  /** What a non-terminal target decides, if anything: a jump may come back, LOG always does. */
  type Calls<!Packet(!new)> = (string, Packet) -> Option<Target>

  predicate Terminal(t: Target) { !t.Other? }

  /** First match: the verdict of a chain, None when a packet falls off its end. */
  function Verdict<Packet(!new)>(rules: seq<Rule>, hit: Matcher<Packet>, call: Calls<Packet>, p: Packet): Option<Target> {
    if rules == [] then None
    else if !hit(rules[0], p) then Verdict(rules[1..], hit, call, p)
    else if Terminal(rules[0].target) then Some(rules[0].target)
    else if call(rules[0].target.name, p).Some? then call(rules[0].target.name, p)
    else Verdict(rules[1..], hit, call, p)
  }

  /** The rules from number lo (from 0) on whose number is not in `drop`. */
  function Survivors(rules: seq<Rule>, drop: set<nat>, lo: nat): seq<Rule>
    requires lo <= |rules|
    decreases |rules| - lo
  {
    if lo == |rules| then []
    else (if lo in drop then [] else [rules[lo]]) + Survivors(rules, drop, lo + 1)
  }

  /** The list once every number in `drop` from m on was deleted, from the bottom up. */
  function Below(rules: seq<Rule>, drop: set<nat>, m: nat): seq<Rule>
    requires m <= |rules|
  {
    rules[..m] + Survivors(rules, drop, m)
  }

  predicate Ascending(nums: seq<nat>) { forall i, j :: 0 <= i < j < |nums| ==> nums[i] < nums[j] }

  lemma {:induction false} NoneBetween(rules: seq<Rule>, drop: set<nat>, n: nat, m: nat)
    requires n <= m <= |rules| && forall i :: n <= i < m ==> i !in drop
    ensures Survivors(rules, drop, n) == rules[n..m] + Survivors(rules, drop, m)
    decreases m - n
  {
    if n < m {
      NoneBetween(rules, drop, n + 1, m);
      Associate([rules[n]], rules[n + 1..m], Survivors(rules, drop, m));
      SliceHead(rules, n, m);
    }
  }

  lemma {:induction false} SliceHead(rules: seq<Rule>, n: nat, m: nat)
    requires n < m <= |rules|
    ensures rules[n..m] == [rules[n]] + rules[n + 1..m]
  {
  }

  /** Deleting the next number from the bottom gives the next list. */
  lemma {:induction false} NextDeletion(rules: seq<Rule>, drop: set<nat>, n: nat, m: nat)
    requires n < m <= |rules| && n in drop && forall i :: n < i < m ==> i !in drop
    ensures var now := Below(rules, drop, m);
      n < |now| && now[..n] + now[n + 1..] == Below(rules, drop, n)
  {
    NoneBetween(rules, drop, n + 1, m);
    DropAt(rules, n, m, Survivors(rules, drop, m));
  }

  lemma {:induction false} DropAt(rules: seq<Rule>, n: nat, m: nat, tail: seq<Rule>)
    requires n < m <= |rules|
    ensures var now := rules[..m] + tail;
      n < |now| && now[..n] == rules[..n] && now[n + 1..] == rules[n + 1..m] + tail
  {
  }

  lemma {:induction false} BelowStep(rules: seq<Rule>, drop: set<nat>, m: nat)
    requires m < |rules|
    ensures var now := Below(rules, drop, m + 1);
      && m < |now| && now[..m] == rules[..m] && now[m] == rules[m]
      && Below(rules, drop, m) == if m in drop then now[..m] + now[m + 1..] else now
  {
    var tail := Survivors(rules, drop, m + 1);
    var now := rules[..m + 1] + tail;
    assert now[m + 1..] == tail;
    assert now[..m] == rules[..m];
    if m in drop {
      assert Below(rules, drop, m) == rules[..m] + tail;
    } else {
      assert Below(rules, drop, m) == rules[..m] + ([rules[m]] + tail);
    }
  }

  lemma NothingToDelete(rules: seq<Rule>, drop: set<nat>, m: nat)
    requires m <= |rules| && forall i :: 0 <= i < m ==> i !in drop
    ensures Below(rules, drop, m) == Survivors(rules, drop, 0)
  {
    NoneBetween(rules, drop, 0, m);
    assert rules[0..m] == rules[..m];
  }

  // ==== duplicates ====

  predicate Removable(r: Rule, iface: string) { iface in r.ifaces && Terminal(r.target) }

  /** An exact copy of an earlier rule, on the interface, with a terminal target. */
  predicate Duplicate(rules: seq<Rule>, iface: string, i: nat)
    requires i < |rules|
  {
    Removable(rules[i], iface) && rules[i] in rules[..i]
  }

  function Duplicates(rules: seq<Rule>, iface: string): set<nat> {
    set i | 0 <= i < |rules| && Duplicate(rules, iface, i)
  }

  function Deduped(rules: seq<Rule>, iface: string): seq<Rule> { Survivors(rules, Duplicates(rules, iface), 0) }

  /** A rule behind a terminal copy of itself never decides. */
  lemma {:induction false} CopyIsDead<Packet(!new)>(rules: seq<Rule>, n: nat, hit: Matcher<Packet>, call: Calls<Packet>, p: Packet)
    requires n < |rules| && rules[n] in rules[..n] && Terminal(rules[n].target)
    ensures Verdict(rules[..n] + rules[n + 1..], hit, call, p) == Verdict(rules, hit, call, p)
  {
    var without := rules[..n] + rules[n + 1..];
    assert without[0] == rules[0] && without[1..] == rules[1..][..n - 1] + rules[1..][n..];
    if rules[0] != rules[n] {
      assert rules[1..][..n - 1] == rules[1..n];
      assert rules[..n] == [rules[0]] + rules[1..n];
      CopyIsDead(rules[1..], n - 1, hit, call, p);
    } else if !hit(rules[0], p) {
      SkipMiss(rules[1..], n - 1, hit, call, p);
    }
  }

  lemma {:induction false} SkipMiss<Packet(!new)>(rules: seq<Rule>, n: nat, hit: Matcher<Packet>, call: Calls<Packet>, p: Packet)
    requires n < |rules| && !hit(rules[n], p)
    ensures Verdict(rules[..n] + rules[n + 1..], hit, call, p) == Verdict(rules, hit, call, p)
  {
    var without := rules[..n] + rules[n + 1..];
    if n == 0 {
      assert without == rules[1..];
    } else {
      assert without[0] == rules[0] && without[1..] == rules[1..][..n - 1] + rules[1..][n..];
      SkipMiss(rules[1..], n - 1, hit, call, p);
    }
  }

  /** Every list on the way gives every packet the verdict it had. */
  lemma {:induction false} DedupeKeepsVerdict<Packet(!new)>(rules: seq<Rule>, iface: string, m: nat, hit: Matcher<Packet>, call: Calls<Packet>, p: Packet)
    requires m <= |rules|
    ensures Verdict(Below(rules, Duplicates(rules, iface), m), hit, call, p) == Verdict(rules, hit, call, p)
    decreases |rules| - m
  {
    var drop := Duplicates(rules, iface);
    if m == |rules| {
      assert Below(rules, drop, m) == rules;
    } else {
      DedupeKeepsVerdict(rules, iface, m + 1, hit, call, p);
      BelowStep(rules, drop, m);
      if m in drop {
        CopyIsDead(Below(rules, drop, m + 1), m, hit, call, p);
      }
    }
  }

  lemma DedupedVerdict<Packet(!new)>(rules: seq<Rule>, iface: string, hit: Matcher<Packet>, call: Calls<Packet>, p: Packet)
    ensures Verdict(Deduped(rules, iface), hit, call, p) == Verdict(rules, hit, call, p)
  {
    DedupeKeepsVerdict(rules, iface, 0, hit, call, p);
    assert Below(rules, Duplicates(rules, iface), 0) == Deduped(rules, iface);
  }

  /** What is left: every rule is still there, and no removable one twice. */
  lemma {:induction false} SurvivorsOnce(rules: seq<Rule>, iface: string, m: nat)
    requires m <= |rules|
    ensures var s := Survivors(rules, Duplicates(rules, iface), m);
      && (forall r :: r in rules[m..] ==> r in s || r in rules[..m])
      && (forall r :: r in s ==> r in rules[m..] && (Removable(r, iface) ==> r !in rules[..m]))
      && (forall i, j :: 0 <= i < j < |s| && Removable(s[i], iface) ==> s[i] != s[j])
    decreases |rules| - m
  {
    if m < |rules| {
      SurvivorsOnce(rules, iface, m + 1);
      assert rules[m..] == [rules[m]] + rules[m + 1..];
      assert rules[..m + 1] == rules[..m] + [rules[m]];
    }
  }

  lemma DedupedOnce(rules: seq<Rule>, iface: string)
    ensures var s := Deduped(rules, iface);
      (forall r :: r in s <==> r in rules) && forall i, j :: 0 <= i < j < |s| && Removable(s[i], iface) ==> s[i] != s[j]
  {
    SurvivorsOnce(rules, iface, 0);
    assert rules[0..] == rules;
  }

  // ==== the ingress jump ====

  const JUMP := Rule({}, "", Other("FG_IN"))

  function Others(rules: seq<Rule>): seq<Rule> {
    if rules == [] then [] else (if rules[0] == JUMP then [] else [rules[0]]) + Others(rules[1..])
  }

  /** The numbers of every jump below position 1. */
  function ExtraJumps(rules: seq<Rule>): set<nat> { set i | 1 <= i < |rules| && rules[i] == JUMP }

  lemma {:induction false} JumpSurvivors(rules: seq<Rule>, m: nat)
    requires 1 <= m <= |rules|
    ensures Survivors(rules, ExtraJumps(rules), m) == Others(rules[m..])
    decreases |rules| - m
  {
    if m < |rules| {
      JumpSurvivors(rules, m + 1);
      assert rules[m..][1..] == rules[m + 1..];
    }
  }

  lemma {:induction false} OthersHasNone(rules: seq<Rule>)
    ensures JUMP !in Others(rules)
    ensures JUMP !in rules ==> Others(rules) == rules
  {
    if rules != [] { OthersHasNone(rules[1..]); }
  }

  /** With a jump on top: only one is left, and the others keep their order. */
  lemma JumpRemains(rules: seq<Rule>)
    requires rules != [] && rules[0] == JUMP
    ensures Survivors(rules, ExtraJumps(rules), 0) == [JUMP] + Others(rules[1..])
    ensures Others(rules) == Others(rules[1..])
  {
    JumpSurvivors(rules, 1);
  }

  // ==== the chain, edited in place ====

  class Chain {
    var rules: seq<Rule>

    constructor (rules: seq<Rule>)
      ensures this.rules == rules
    {
      this.rules := rules;
    }

    /** `iptables -D <chain> <n>`, n from 1. */
    method Delete(n: nat)
      requires 1 <= n <= |rules|
      modifies this
      ensures rules == old(rules)[..n - 1] + old(rules)[n..] && DeletedAt(old(rules), rules, n - 1)
    {
      rules := rules[..n - 1] + rules[n..];
    }

    /** `iptables -I <chain> 1`. */
    method InsertFirst(r: Rule)
      modifies this
      ensures rules == [r] + old(rules) && Inserted(old(rules), rules)
    {
      rules := [r] + rules;
    }

    /** `iptables -D` with the next number from the bottom. */
    method DeleteNumber(nums: seq<nat>, k: nat, ghost was: seq<Rule>, ghost drop: set<nat>, ghost steps: seq<seq<Rule>>)
      returns (ghost more: seq<seq<Rule>>)
      requires Numbers(was, drop, nums) && k < |nums| && nums[k] - 1 in drop
      requires Progress(was, drop, steps, rules, Mark(was, nums, k + 1))
      modifies this
      ensures Progress(was, drop, more, rules, nums[k] - 1)
    {
      NextStep(was, drop, nums, k);
      ghost var before := rules;
      Delete(nums[k]);
      DeletionsPush(was, steps, before, rules, nums[k] - 1);
      more := steps + [rules];
    }

    /** The numbers (from 1) of the removable rules seen before. */
    method FindDuplicates(iface: string) returns (nums: seq<nat>)
      ensures Ascending(nums) && InRange(nums, |rules|)
      ensures NumbersOf(nums, rules, iface, |rules|)
    {
      nums := [];
      var seen: set<Rule> := {};
      for i := 0 to |rules|
        invariant Found(nums, seen, rules, iface, i)
      {
        FoundMore(nums, seen, rules, iface, i);
        if Removable(rules[i], iface) {
          if rules[i] in seen {
            nums := nums + [i + 1];
          } else {
            seen := seen + {rules[i]};
          }
        }
      }
    }

    /** Later copies go, from the bottom up; `steps` are all the lists the kernel saw. */
    method DedupeIfaceRules(iface: string) returns (ghost steps: seq<seq<Rule>>)
      modifies this
      ensures rules == Deduped(old(rules), iface)
      ensures Deletions(old(rules), steps, rules) && PartlyDeduped(old(rules), iface, steps)
    {
      steps := [];
      var nums := FindDuplicates(iface);
      ghost var was := rules;
      NumbersFound(was, iface, nums);
      steps := DeleteNumbers(nums, Duplicates(was, iface));
      DedupeDone(was, iface, nums, steps, rules);
    }

    /** `for n in $nums`, from the highest number down. */
    method DeleteNumbers(nums: seq<nat>, ghost drop: set<nat>) returns (ghost steps: seq<seq<Rule>>)
      requires Numbers(rules, drop, nums) && AllDropped(nums, drop)
      modifies this
      ensures Progress(old(rules), drop, steps, rules, Mark(old(rules), nums, 0))
    {
      steps := [];
      ghost var was := rules;
      NoneDeleted(was, drop);
      for k := |nums| downto 0
        invariant Progress(was, drop, steps, rules, Mark(was, nums, k))
      {
        steps := DeleteNumber(nums, k, was, drop, steps);
      }
    }

    /** `grep -nxF`: the numbers (from 1) of the lines that are exactly the jump. */
    method FindJumps() returns (nums: seq<nat>)
      ensures Ascending(nums) && InRange(nums, |rules|)
      ensures forall n :: n in nums <==> 1 <= n <= |rules| && rules[n - 1] == JUMP
    {
      nums := [];
      for i := 0 to |rules|
        invariant Ascending(nums) && InRange(nums, i) && (forall n :: n in nums <==> 1 <= n <= i && rules[n - 1] == JUMP)
      {
        if rules[i] == JUMP {
          assert forall j :: 0 <= j < |nums| ==> nums[j] in nums;
          nums := nums + [i + 1];
        }
      }
    }

    /** `for n in $nums`, from the highest number down; number 1 is left alone. */
    method RemoveExtraJumps() returns (ghost steps: seq<seq<Rule>>)
      requires rules != [] && rules[0] == JUMP
      modifies this
      ensures rules == [JUMP] + Others(old(rules))
      ensures Deletions(old(rules), steps, rules) && OnTop(steps)
    {
      steps := [];
      var nums := FindJumps();
      assert 1 in nums;
      assert nums[0] == 1;
      ghost var was, drop := rules, ExtraJumps(rules);
      ghost var m := |rules|;
      assert Below(was, drop, m) == rules;
      for k := |nums| downto 0
        invariant m == Mark(was, nums, if k == 0 then 1 else k) && m > 0 && Progress(was, drop, steps, rules, m)
      {
        assert nums[k] in nums;
        if nums[k] != 1 {
          assert k != 0;
          steps := DeleteNumber(nums, k, was, drop, steps);
          m := nums[k] - 1;
        }
      }
      TopsStay(was, drop, steps, rules, m);
      FirstStep(was, drop, nums, 1);
      NothingToDelete(was, drop, m);
      JumpRemains(was);
    }

    /** Insert first, then remove the extra copies: never a moment without the jump. `steps` are all
        the lists the kernel saw. */
    method EnsureIngressJump() returns (ghost steps: seq<seq<Rule>>)
      modifies this
      ensures rules == [JUMP] + Others(old(rules)) && JUMP !in Others(old(rules))
      ensures Edits(old(rules), steps, rules) && OnTop(steps)
    {
      steps := [];
      OthersHasNone(rules);
      var first := rules != [] && rules[0] == JUMP;
      var nums := FindJumps();
      if first && |nums| == 1 {
        OnlyJump(rules, nums);
        return;
      }
      ghost var was := rules;
      if !first {
        InsertFirst(JUMP);
        steps := [rules];
      }
      assert Others(rules) == Others(was);
      ghost var mid := rules;
      ghost var more := RemoveExtraJumps();
      EditsJoin(was, steps, mid, more, rules);
      steps := steps + more;
    }
  }

  // ==== the lists on the way ====

  predicate DeletedAt(a: seq<Rule>, b: seq<Rule>, n: nat) { n < |a| && b == a[..n] + a[n + 1..] }

  predicate Inserted(a: seq<Rule>, b: seq<Rule>) { b != [] && b[1..] == a }

  ghost predicate Deleted(a: seq<Rule>, b: seq<Rule>) { exists n: nat :: DeletedAt(a, b, n) }

  /** `steps` are all lists from `from` (not included) to `to`, one deleted rule apart. */
  ghost predicate Deletions(from: seq<Rule>, steps: seq<seq<Rule>>, to: seq<Rule>) {
    && At(from, steps, |steps|) == to
    && forall i :: 0 <= i < |steps| ==> Deleted(At(from, steps, i), steps[i])
  }

  /** ... one deleted rule or one rule inserted on top apart. */
  ghost predicate Edits(from: seq<Rule>, steps: seq<seq<Rule>>, to: seq<Rule>) {
    && At(from, steps, |steps|) == to
    && forall i :: 0 <= i < |steps| ==> Deleted(At(from, steps, i), steps[i]) || Inserted(At(from, steps, i), steps[i])
  }

  lemma {:induction false} DeletionsPush(from: seq<Rule>, steps: seq<seq<Rule>>, m: seq<Rule>, to: seq<Rule>, n: nat)
    requires Deletions(from, steps, m) && DeletedAt(m, to, n)
    ensures Deletions(from, steps + [to], to)
  {
    AtJoin(from, steps, m, [to]);
    forall i | 0 <= i < |steps + [to]| ensures Deleted(At(from, steps + [to], i), (steps + [to])[i]) {
      if i < |steps| { assert Deleted(At(from, steps, i), steps[i]); }
    }
  }

  lemma {:induction false} EditsJoin(from: seq<Rule>, a: seq<seq<Rule>>, m: seq<Rule>, b: seq<seq<Rule>>, to: seq<Rule>)
    requires Edits(from, a, m) && Deletions(m, b, to)
    ensures Edits(from, a + b, to)
  {
    AtJoin(from, a, m, b);
    forall i | 0 <= i < |a + b|
      ensures Deleted(At(from, a + b, i), (a + b)[i]) || Inserted(At(from, a + b, i), (a + b)[i])
    {
      if i < |a| {
        assert Deleted(At(from, a, i), a[i]) || Inserted(At(from, a, i), a[i]);
      } else {
        assert Deleted(At(m, b, i - |a|), b[i - |a|]);
      }
    }
  }

  /** The list with every number in `drop` from some number on deleted. */
  ghost predicate Partly(was: seq<Rule>, drop: set<nat>, now: seq<Rule>, least: nat) {
    exists m :: least <= m <= |was| && now == Below(was, drop, m)
  }

  /** Where the deletions stand: the numbers of `drop` from m on are gone, and how they went. */
  ghost predicate Progress(was: seq<Rule>, drop: set<nat>, steps: seq<seq<Rule>>, now: seq<Rule>, m: nat) {
    && m <= |was| && now == Below(was, drop, m)
    && Deletions(was, steps, now)
    && forall k :: 0 <= k < |steps| ==> Partly(was, drop, steps[k], m)
  }

  ghost predicate PartlyDeduped(was: seq<Rule>, iface: string, steps: seq<seq<Rule>>) {
    forall k :: 0 <= k < |steps| ==> Partly(was, Duplicates(was, iface), steps[k], 0)
  }

  predicate AllDropped(nums: seq<nat>, drop: set<nat>) { forall k :: 0 <= k < |nums| ==> nums[k] >= 1 && nums[k] - 1 in drop }

  lemma {:induction false} NoneDeleted(was: seq<Rule>, drop: set<nat>)
    ensures Progress(was, drop, [], was, |was|)
  {
    assert was[..|was|] + [] == was;
  }

  lemma {:induction false} NumbersFound(was: seq<Rule>, iface: string, nums: seq<nat>)
    requires Ascending(nums) && InRange(nums, |was|) && NumbersOf(nums, was, iface, |was|)
    ensures Numbers(was, Duplicates(was, iface), nums)
    ensures AllDropped(nums, Duplicates(was, iface))
  {
    forall k | 0 <= k < |nums| ensures nums[k] - 1 in Duplicates(was, iface) { assert nums[k] in nums; }
  }

  lemma {:induction false} DedupeDone(was: seq<Rule>, iface: string, nums: seq<nat>, steps: seq<seq<Rule>>, now: seq<Rule>)
    requires Numbers(was, Duplicates(was, iface), nums)
    requires Progress(was, Duplicates(was, iface), steps, now, Mark(was, nums, 0))
    ensures now == Deduped(was, iface) && Deletions(was, steps, now) && PartlyDeduped(was, iface, steps)
  {
    var drop := Duplicates(was, iface);
    FirstStep(was, drop, nums, 0);
    NothingToDelete(was, drop, Mark(was, nums, 0));
    forall k | 0 <= k < |steps| ensures Partly(was, drop, steps[k], 0) {
      assert Partly(was, drop, steps[k], Mark(was, nums, 0));
    }
  }

  lemma {:induction false} TopsStay(was: seq<Rule>, drop: set<nat>, steps: seq<seq<Rule>>, now: seq<Rule>, m: nat)
    requires was != [] && was[0] == JUMP && 0 < m && Progress(was, drop, steps, now, m)
    ensures OnTop(steps)
  {
    forall k | 0 <= k < |steps| ensures steps[k] != [] && steps[k][0] == JUMP {
      assert Partly(was, drop, steps[k], m);
      var j :| m <= j <= |was| && steps[k] == Below(was, drop, j);
      TopStays(was, drop, j);
    }
  }

  /** From the first list to the last, every list the kernel saw gives every packet the verdict it had. */
  lemma {:induction false} DedupeIsInvisible<Packet(!new)>(was: seq<Rule>, iface: string, steps: seq<seq<Rule>>, now: seq<Rule>,
                                                           hit: Matcher<Packet>, call: Calls<Packet>, p: Packet)
    requires now == Deduped(was, iface) && Deletions(was, steps, now) && PartlyDeduped(was, iface, steps)
    ensures forall i :: 0 <= i <= |steps| ==> Verdict(At(was, steps, i), hit, call, p) == Verdict(was, hit, call, p)
    ensures Verdict(now, hit, call, p) == Verdict(was, hit, call, p)
  {
    DedupedVerdict(was, iface, hit, call, p);
    forall i | 0 < i <= |steps| ensures Verdict(At(was, steps, i), hit, call, p) == Verdict(was, hit, call, p) {
      assert Partly(was, Duplicates(was, iface), steps[i - 1], 0);
      var m :| 0 <= m <= |was| && steps[i - 1] == Below(was, Duplicates(was, iface), m);
      DedupeKeepsVerdict(was, iface, m, hit, call, p);
    }
  }

  lemma TopStays(rules: seq<Rule>, drop: set<nat>, m: nat)
    requires 0 < m <= |rules|
    ensures Below(rules, drop, m) != [] && Below(rules, drop, m)[0] == rules[0]
  {
  }

  /** Every list has the jump at position 1. */
  predicate OnTop(steps: seq<seq<Rule>>) { forall k :: 0 <= k < |steps| ==> steps[k] != [] && steps[k][0] == JUMP }

  /** The removable rules among `rules`. */
  ghost predicate SeenAre(seen: set<Rule>, rules: seq<Rule>, iface: string) {
    forall r :: r in seen <==> r in rules && Removable(r, iface)
  }

  lemma {:induction false} SeenMore(seen: set<Rule>, rules: seq<Rule>, r: Rule, iface: string)
    requires SeenAre(seen, rules, iface)
    ensures SeenAre(if Removable(r, iface) && r !in seen then seen + {r} else seen, rules + [r], iface)
    ensures Removable(r, iface) ==> (r in seen <==> r in rules)
  {
  }

  /** Where the search stands after i rules. */
  ghost predicate Found(nums: seq<nat>, seen: set<Rule>, rules: seq<Rule>, iface: string, i: nat) {
    i <= |rules| && SeenAre(seen, rules[..i], iface) && Ascending(nums) && InRange(nums, i) && NumbersOf(nums, rules, iface, i)
  }

  lemma {:induction false} FoundMore(nums: seq<nat>, seen: set<Rule>, rules: seq<Rule>, iface: string, i: nat)
    requires i < |rules| && Found(nums, seen, rules, iface, i)
    ensures var r := rules[i]; var again := Removable(r, iface) && r in seen;
      Found(if again then nums + [i + 1] else nums, if Removable(r, iface) && !again then seen + {r} else seen, rules, iface, i + 1)
  {
    NextNumber(nums, rules, iface, i);
    TakeOneMore(rules, i);
    SeenMore(seen, rules[..i], rules[i], iface);
  }

  /** The numbers found among the first i rules. */
  ghost predicate NumbersOf(nums: seq<nat>, rules: seq<Rule>, iface: string, i: nat) {
    forall n :: n in nums <==> 1 <= n <= i && n - 1 in Duplicates(rules, iface)
  }

  lemma {:induction false} NextNumber(nums: seq<nat>, rules: seq<Rule>, iface: string, i: nat)
    requires i < |rules| && Ascending(nums) && InRange(nums, i) && NumbersOf(nums, rules, iface, i)
    ensures var more := if Duplicate(rules, iface, i) then nums + [i + 1] else nums;
      Ascending(more) && InRange(more, i + 1) && NumbersOf(more, rules, iface, i + 1)
  {
  }

  predicate InRange(nums: seq<nat>, len: nat) { forall j :: 0 <= j < |nums| ==> 1 <= nums[j] <= len }

  /** Where the deletions stand before number k (counted from the end) is handled. */
  function Mark(rules: seq<Rule>, nums: seq<nat>, k: nat): nat
    requires k <= |nums| && InRange(nums, |rules|)
  {
    if k == |nums| then |rules| else nums[k] - 1
  }

  predicate Numbers(rules: seq<Rule>, drop: set<nat>, nums: seq<nat>) {
    && Ascending(nums)
    && InRange(nums, |rules|)
    && forall i :: 1 <= i < |rules| ==> (i in drop <==> i + 1 in nums)
  }

  lemma NextStep(rules: seq<Rule>, drop: set<nat>, nums: seq<nat>, k: nat)
    requires Numbers(rules, drop, nums) && k < |nums| && nums[k] - 1 in drop
    ensures var now := Below(rules, drop, Mark(rules, nums, k + 1)); var n := nums[k] - 1;
      0 <= n < |now| && now[..n] + now[n + 1..] == Below(rules, drop, n)
  {
    var m := Mark(rules, nums, k + 1);
    assert nums[k] in nums;
    forall i | nums[k] - 1 < i < m ensures i !in drop {
      assert forall j :: 0 <= j < |nums| ==> (j <= k ==> nums[j] <= nums[k]) && (j > k ==> nums[k + 1] <= nums[j]);
      assert i + 1 !in nums;
    }
    NextDeletion(rules, drop, nums[k] - 1, m);
  }

  lemma FirstStep(rules: seq<Rule>, drop: set<nat>, nums: seq<nat>, k: nat)
    requires Numbers(rules, drop, nums) && k <= |nums| && k <= 1 && 0 !in drop && (k == 1 ==> nums[0] == 1)
    ensures forall i :: 0 <= i < Mark(rules, nums, k) ==> i !in drop
  {
    forall i | 1 <= i < Mark(rules, nums, k) ensures i !in drop {
      assert forall j :: k <= j < |nums| ==> nums[k] <= nums[j];
      assert i + 1 !in nums;
    }
  }

  lemma {:induction false} OnlyJump(rules: seq<Rule>, nums: seq<nat>)
    requires rules != [] && rules[0] == JUMP && |nums| == 1
    requires forall n :: n in nums <==> 1 <= n <= |rules| && rules[n - 1] == JUMP
    ensures rules == [JUMP] + Others(rules)
  {
    OneNumber(nums);
    assert forall i :: 1 <= i < |rules| && rules[i] == JUMP ==> i + 1 in nums;
    NoJumpBelow(rules);
  }

  lemma {:induction false} OneNumber(nums: seq<nat>)
    requires |nums| == 1 && 1 in nums
    ensures forall n :: n in nums ==> n == 1
  {
  }

  lemma {:induction false} NoJumpBelow(rules: seq<Rule>)
    requires rules != [] && rules[0] == JUMP && forall i :: 1 <= i < |rules| ==> rules[i] != JUMP
    ensures rules == [JUMP] + Others(rules)
  {
    NoneToDrop(rules[1..]);
    assert rules == [JUMP] + rules[1..];
  }

  lemma {:induction false} NoneToDrop(rules: seq<Rule>)
    requires forall i :: 0 <= i < |rules| ==> rules[i] != JUMP
    ensures Others(rules) == rules
  {
    if rules != [] {
      NoneToDrop(rules[1..]);
    }
  }
}
