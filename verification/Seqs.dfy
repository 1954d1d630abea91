/** Filtering and reversing of lists, as values and in place. */
module Seqs {

  function Filter<T(!new)>(s: seq<T>, keep: T -> bool): (r: seq<T>)
    ensures |r| <= |s|
    ensures forall x :: x in r <==> x in s && keep(x)
  {
    if s == [] then []
    else
      var rest, last := Filter(s[..|s| - 1], keep), s[|s| - 1];
      assert s == s[..|s| - 1] + [last];
      if keep(last) then rest + [last] else rest
  }

  lemma FilterStep<T(!new)>(s: seq<T>, i: nat, keep: T -> bool)
    requires i < |s|
    ensures Filter(s[..i + 1], keep) == if keep(s[i]) then Filter(s[..i], keep) + [s[i]] else Filter(s[..i], keep)
  {
    assert s[..i + 1][..i] == s[..i];
  }

  lemma {:induction false} FilterAll<T(!new)>(s: seq<T>, keep: T -> bool)
    ensures |Filter(s, keep)| == |s| <==> (forall x :: x in s ==> keep(x))
    ensures (forall x :: x in s ==> keep(x)) ==> Filter(s, keep) == s
  {
    if s != [] {
      var rest, last := s[..|s| - 1], s[|s| - 1];
      FilterAll(rest, keep);
      assert s == rest + [last];
      assert last in s;
    }
  }

  /** Filtering keeps the order: what held between earlier and later elements
      still does. */
  lemma {:induction false} FilterKeepsOrder<T(!new)>(s: seq<T>, keep: T -> bool, before: (T, T) -> bool)
    requires forall i, j :: 0 <= i < j < |s| ==> before(s[i], s[j])
    ensures forall i, j :: 0 <= i < j < |Filter(s, keep)| ==> before(Filter(s, keep)[i], Filter(s, keep)[j])
  {
    if s != [] {
      var rest, last := s[..|s| - 1], s[|s| - 1];
      FilterKeepsOrder(rest, keep, before);
      forall x | x in Filter(rest, keep) ensures before(x, last) {
        var i :| 0 <= i < |rest| && rest[i] == x;
        assert s[i] == x;
      }
    }
  }

  function Reversed<T>(s: seq<T>): (r: seq<T>)
    ensures |r| == |s|
    ensures forall i :: 0 <= i < |s| ==> r[i] == s[|s| - 1 - i]
  {
    seq(|s|, i requires 0 <= i < |s| => s[|s| - 1 - i])
  }

  /** The `kept := list[:0]` idiom: kept elements are moved to the front of the
      buffer that is being ranged over. */
  method Compact<T(!new)>(a: array<T>, keep: T -> bool) returns (k: nat)
    modifies a
    ensures k <= a.Length && a[..k] == Filter(old(a[..]), keep)
  {
    k := 0;
    for i := 0 to a.Length
      invariant k <= i
      invariant a[..k] == Filter(old(a[..])[..i], keep)
      invariant a[i..] == old(a[..])[i..]
    {
      FilterStep(old(a[..]), i, keep);
      assert a[i] == a[i..][0];
      assert a[i + 1..] == a[i..][1..];
      if keep(a[i]) {
        ghost var front := a[..k];
        a[k] := a[i];
        assert a[..k + 1] == front + [old(a[..])[i]];
        k := k + 1;
      }
    }
    assert old(a[..])[..a.Length] == old(a[..]);
  }

  /** Reversal by swapping from both ends. */
  method ReverseInPlace<T>(a: array<T>)
    modifies a
    ensures a[..] == Reversed(old(a[..]))
  {
    var i, j := 0, a.Length - 1;
    while i < j
      invariant 0 <= i <= a.Length && i + j == a.Length - 1 && i <= j + 2
      invariant forall m :: 0 <= m < i || j < m < a.Length ==> a[m] == old(a[..])[a.Length - 1 - m]
      invariant forall m :: i <= m <= j ==> a[m] == old(a[..])[m]
    {
      a[i], a[j] := a[j], a[i];
      i, j := i + 1, j - 1;
    }
  }

  method ToArray<T>(s: seq<T>) returns (a: array<T>)
    ensures fresh(a) && a[..] == s
  {
    a := new T[|s|](i requires 0 <= i < |s| => s[i]);
  }
}
