/** Sequences from which one member is deleted. */
module Sequences {
  ghost predicate Distinct<T>(s: seq<T>) {
    forall i, j :: 0 <= i < j < |s| ==> s[i] != s[j]
  }

  /** The sequence without its first occurrence of `x`, if it has one. */
  ghost function Without<T>(s: seq<T>, x: T): seq<T> {
    if s == [] then [] else if s[0] == x then s[1..] else [s[0]] + Without(s[1..], x)
  }

  ghost function IndexOf<T>(s: seq<T>, x: T): (k: nat)
    ensures k <= |s| && (k < |s| ==> s[k] == x) && (k == |s| ==> x !in s)
    ensures forall i :: 0 <= i < k ==> s[i] != x
  {
    if s == [] then 0 else if s[0] == x then 0 else 1 + IndexOf(s[1..], x)
  }

  lemma {:induction false} WithoutAbsent<T>(s: seq<T>, x: T)
    requires x !in s
    ensures Without(s, x) == s
  {
    if s == [] {
    } else {
      WithoutAbsent(s[1..], x);
    }
  }

  lemma {:induction false} WithoutAt<T>(s: seq<T>, k: nat)
    requires k < |s| && forall i :: 0 <= i < k ==> s[i] != s[k]
    ensures Without(s, s[k]) == s[..k] + s[k + 1..]
  {
    if k == 0 {
    } else {
      WithoutAt(s[1..], k - 1);
      assert s[..k] + s[k + 1..] == [s[0]] + (s[1..][..k - 1] + s[1..][k..]);
    }
  }

  /** Removal keeps the others, once each, and removing again changes nothing. */
  lemma {:induction false} WithoutKeepsTheRest<T>(s: seq<T>, x: T)
    requires Distinct(s)
    ensures Distinct(Without(s, x))
    ensures x !in Without(s, x) && Without(Without(s, x), x) == Without(s, x)
    ensures forall y :: y in Without(s, x) <==> y in s && y != x
    ensures |Without(s, x)| == |s| - if x in s then 1 else 0
  {
    if x in s {
      var k := IndexOf(s, x);
      WithoutAt(s, k);
      var d := s[..k] + s[k + 1..];
      forall y ensures y in d <==> y in s && y != x {
        if y in s && y != x {
          var i :| 0 <= i < |s| && s[i] == y;
          assert d[if i < k then i else i - 1] == y;
        }
      }
      WithoutAbsent(d, x);
    } else {
      WithoutAbsent(s, x);
    }
  }

  function Skipping(n: nat, k: nat): (from: seq<nat>)
    ensures |from| == n && forall i :: 0 <= i < n ==> from[i] == if i < k then i else i + 1
  {
    seq(n, (i: nat) => if i < k then i else i + 1)
  }

  lemma SkipAt<T>(s: seq<T>, k: nat, d: seq<T>)
    requires k < |s| && d == s[..k] + s[k + 1..]
    ensures forall i :: 0 <= i < |d| ==> d[i] == s[if i < k then i else i + 1]
  {
  }

  /** Removal keeps the order: the positions that the remaining elements come from increase. */
  lemma WithoutPositions<T>(s: seq<T>, x: T) returns (from: seq<nat>)
    ensures |from| == |Without(s, x)|
    ensures forall i :: 0 <= i < |from| ==> from[i] < |s| && Without(s, x)[i] == s[from[i]]
    ensures forall i, j :: 0 <= i < j < |from| ==> from[i] < from[j]
  {
    if x in s {
      var k := IndexOf(s, x);
      WithoutAt(s, k);
      from := Skipping(|s| - 1, k);
      SkippedPositions(s, k, Without(s, x), from);
    } else {
      WithoutAbsent(s, x);
      from := seq(|s|, (i: nat) => i);
    }
  }

  lemma SkippedPositions<T>(s: seq<T>, k: nat, d: seq<T>, from: seq<nat>)
    requires k < |s| && d == s[..k] + s[k + 1..] && from == Skipping(|s| - 1, k)
    ensures |from| == |d|
    ensures forall i :: 0 <= i < |from| ==> from[i] < |s| && d[i] == s[from[i]]
    ensures forall i, j :: 0 <= i < j < |from| ==> from[i] < from[j]
  {
    SkipAt(s, k, d);
  }

  lemma RemoveOne<T>(s: seq<T>, k: nat)
    requires k < |s|
    ensures multiset(s[..k] + s[k + 1..]) == multiset(s) - multiset{s[k]}
  {
    assert s == s[..k] + [s[k]] + s[k + 1..];
  }

  /** A permutation holds the first element of the other list somewhere; dropping both leaves a permutation. */
  lemma DropFromBoth<T>(a: seq<T>, b: seq<T>) returns (k: nat)
    requires multiset(a) == multiset(b) && a != []
    ensures k < |b| && b[k] == a[0]
    ensures multiset(a[1..]) == multiset(b[..k] + b[k + 1..])
  {
    assert a[0] in multiset(a);
    assert a[0] in b;
    k :| 0 <= k < |b| && b[k] == a[0];
    RemoveOne(a, 0);
    RemoveOne(b, k);
    assert a[..0] + a[1..] == a[1..];
  }

  lemma NoneFromEmpty<T>(b: seq<T>)
    requires multiset(b) == multiset([])
    ensures b == []
  {
    assert |multiset(b)| == |b|;
  }
}
