/**
  The library sort the planners call. Callers see only that the array is
  reordered into ascending key order: which of several equal keys comes first
  is not promised, as with Go's `sort.Slice`.
 */
module Sorting {

  ghost predicate Sorted<T>(s: seq<T>, key: T -> int) {
    forall i, j | 0 <= i < j < |s| :: key(s[i]) <= key(s[j])
  }

  method Swap<T>(a: array<T>, i: nat, j: nat)
    requires i < j < a.Length
    modifies a
    ensures a[..] == old(a[..])[i := old(a[j])][j := old(a[i])]
    ensures multiset(a[..]) == multiset(old(a[..]))
  {
    a[i], a[j] := a[j], a[i];
  }

  method SortBy<T>(a: array<T>, key: T -> int)
    modifies a
    ensures Sorted(a[..], key)
    ensures multiset(a[..]) == multiset(old(a[..]))
  {
    var n := 0;
    while n < a.Length
      invariant n <= a.Length
      invariant Sorted(a[..n], key)
      invariant multiset(a[..]) == multiset(old(a[..]))
    {
      var i := n;
      while i > 0 && key(a[i]) < key(a[i - 1])
        invariant 0 <= i <= n
        invariant forall j, k | 0 <= j < k <= n && k != i :: key(a[j]) <= key(a[k])
        invariant multiset(a[..]) == multiset(old(a[..]))
      {
        Swap(a, i - 1, i);
        i := i - 1;
      }
      n := n + 1;
    }
    assert a[..a.Length] == a[..];
  }

  /** Membership survives any reordering. */
  lemma {:induction false} SameMembers<T>(s: seq<T>, t: seq<T>)
    requires multiset(s) == multiset(t)
    ensures |s| == |t|
    ensures forall x :: x in s <==> x in t
  {
    assert |multiset(s)| == |multiset(t)|;
    forall x
      ensures x in s <==> x in t
    {
      assert x in s <==> x in multiset(s);
      assert x in t <==> x in multiset(t);
    }
  }
}
