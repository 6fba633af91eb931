/** Definitions shared by the other modules. */
module Basics {

  datatype Option<+T> = None | Some(value: T)

  const WORD: int := 0x1_0000_0000

  /** No element occurs twice. */
  ghost predicate NoDup<T>(s: seq<T>) {
    forall i, j :: 0 <= i < j < |s| ==> s[i] != s[j]
  }

  /** The sequence without the element at index k. */
  function Without<T>(s: seq<T>, k: nat): (r: seq<T>)
    requires k < |s|
  {
    s[..k] + s[k + 1..]
  }

  lemma WithoutMembers<T>(s: seq<T>, k: nat)
    requires k < |s| && NoDup(s)
    ensures NoDup(Without(s, k))
    ensures forall x :: x in Without(s, k) <==> x in s && x != s[k]
  {
  }

  /** A duplicate-free sequence is no longer than a set that holds all its elements. */
  lemma {:induction false} NoDupFits<T>(s: seq<T>, all: set<T>)
    requires NoDup(s)
    requires forall x :: x in s ==> x in all
    ensures |s| <= |all|
  {
    if s != [] {
      NoDupFits(s[1..], all - {s[0]});
    }
  }
}
