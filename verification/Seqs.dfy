/** Notions and facts about sequences and maps that the proofs need by name. */
module Seqs {
  /** The two maps agree about one key. */
  predicate SameAt<K(==), V(==)>(a: map<K, V>, b: map<K, V>, k: K) { (k in a <==> k in b) && (k in a ==> a[k] == b[k]) }

  predicate EndsWith<T(==)>(s: seq<T>, e: seq<T>) { |e| <= |s| && s[|s| - |e|..] == e }

  lemma {:induction false} Associate<T>(a: seq<T>, b: seq<T>, c: seq<T>)
    ensures a + (b + c) == a + b + c
  {
  }

  /** One element more of a prefix. */
  lemma {:induction false} TakeOneMore<T>(s: seq<T>, i: nat)
    requires i < |s|
    ensures s[..i + 1] == s[..i] + [s[i]] && s[..i + 1][..i] == s[..i]
  {
  }

  /** One element less of a suffix. */
  lemma {:induction false} DropOneMore<T>(s: seq<T>, i: nat)
    requires i < |s|
    ensures s[i..] == [s[i]] + s[i + 1..] && s[i..][1..] == s[i + 1..]
  {
  }

  lemma {:induction false} ConcatTail<T>(a: seq<T>, b: seq<T>)
    requires a != []
    ensures (a + b)[0] == a[0] && (a + b)[1..] == a[1..] + b
  {
  }

  lemma {:induction false} ConcatInit<T>(a: seq<T>, b: seq<T>)
    requires b != []
    ensures (a + b)[|a + b| - 1] == b[|b| - 1] && (a + b)[..|a + b| - 1] == a + b[..|b| - 1]
  {
  }

  lemma {:induction false} TakeTwice<T>(s: seq<T>, i: nat, j: nat)
    requires i <= j <= |s|
    ensures s[..j][..i] == s[..i]
  {
  }

  lemma {:induction false} TakeAll<T>(s: seq<T>)
    ensures s[..|s|] == s
  {
  }

  /** The state before step i of a list of steps that starts at `from`. */
  function At<T>(from: T, steps: seq<T>, i: nat): T
    requires i <= |steps|
  {
    if i == 0 then from else steps[i - 1]
  }

  lemma {:induction false} AtJoin<T>(from: T, a: seq<T>, m: T, b: seq<T>)
    requires At(from, a, |a|) == m
    ensures forall i :: 0 <= i < |a| ==> At(from, a + b, i) == At(from, a, i) && (a + b)[i] == a[i]
    ensures forall i :: |a| <= i <= |a + b| ==> At(from, a + b, i) == At(m, b, i - |a|)
    ensures forall i :: |a| <= i < |a + b| ==> (a + b)[i] == b[i - |a|]
  {
  }
}
