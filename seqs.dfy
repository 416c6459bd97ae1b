/** Array operations the script uses on its lists: `findIndex` with an
    identity test, `splice(index, 1)`, and facts about lists kept in
    strictly increasing order. */
module Seqs {

  /** `s.findIndex(el => el === x)`: the first index holding `x`, or -1. */
  method FindIndex<T(==)>(s: seq<T>, x: T) returns (index: int)
    ensures index == -1 <==> x !in s
    ensures index != -1 ==> 0 <= index < |s| && s[index] == x && x !in s[..index]
  {
    index := 0;
    while index < |s|
      invariant 0 <= index <= |s|
      invariant x !in s[..index]
    {
      if s[index] == x {
        return;
      }
      assert s[..index + 1] == s[..index] + [s[index]];
      index := index + 1;
    }
    assert s[..index] == s;
    index := -1;
  }

  /** `s.splice(index, 1)`: the list without the element at `index`. */
  function RemoveAt<T>(s: seq<T>, index: nat): (r: seq<T>)
    requires index < |s|
    ensures |r| == |s| - 1
    ensures multiset(r) == multiset(s) - multiset{s[index]}
  {
    assert s == s[..index] + [s[index]] + s[index + 1..];
    s[..index] + s[index + 1..]
  }

  ghost predicate StrictlyIncreasing(s: seq<int>) {
    forall i, j :: 0 <= i < j < |s| ==> s[i] < s[j]
  }

  /** Splicing one element out of a strictly increasing list keeps it strictly
      increasing and removes exactly that value. */
  lemma RemoveAtIncreasing(s: seq<int>, index: nat)
    requires StrictlyIncreasing(s) && index < |s|
    ensures StrictlyIncreasing(RemoveAt(s, index))
    ensures forall x :: x in RemoveAt(s, index) <==> x in s && x != s[index]
  {
  }

  /** A strictly increasing list is determined by the values it holds. */
  lemma {:induction false} IncreasingUnique(a: seq<int>, b: seq<int>)
    requires StrictlyIncreasing(a) && StrictlyIncreasing(b)
    requires forall x :: x in a <==> x in b
    ensures a == b
  {
    assert a != [] ==> a[0] in a && a[0] in b;
    assert b != [] ==> b[0] in b && b[0] in a;
    if a == [] || b == [] {
      // a value in one of them would be in the other
    } else {
      assert a[0] in a;
      assert a[0] in b;
      assert b[0] in b;
      assert b[0] in a;
      var i :| 0 <= i < |a| && a[i] == b[0];
      var j :| 0 <= j < |b| && b[j] == a[0];
      assert forall k :: 0 <= k < |a| ==> a[0] <= a[k];
      assert forall k :: 0 <= k < |b| ==> b[0] <= b[k];
      assert a[0] <= a[i] == b[0] <= b[j] == a[0];
      forall x ensures x in a[1..] <==> x in b[1..] {
        TailMembers(a, x);
        TailMembers(b, x);
      }
      IncreasingUnique(a[1..], b[1..]);
      assert a == [a[0]] + a[1..] && b == [b[0]] + b[1..];
    }
  }

  lemma TailMembers(s: seq<int>, x: int)
    requires StrictlyIncreasing(s) && s != []
    ensures StrictlyIncreasing(s[1..])
    ensures x in s[1..] <==> x in s && x != s[0]
  {
  }
}
