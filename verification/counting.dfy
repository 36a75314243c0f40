/** Cardinality facts shared by the arithmetic and the allocation proofs. */
module Counting {

  /** f takes pairwise different values on [0, k). */
  ghost predicate InjectiveBelow<T(!new)>(f: nat -> T, k: nat) {
    forall i: nat, j: nat :: i < j < k ==> f(i) != f(j)
  }

  ghost function Image<T(!new)>(f: nat -> T, k: nat): set<T> {
    set i: nat | i < k :: f(i)
  }

  lemma {:induction false} InjectiveImageSize<T(!new)>(f: nat -> T, k: nat)
    requires InjectiveBelow(f, k)
    ensures |Image(f, k)| == k
  {
    if k == 0 {
      assert Image(f, 0) == {};
    } else {
      InjectiveImageSize(f, k - 1);
      assert Image(f, k) == Image(f, k - 1) + {f(k - 1)};
      assert f(k - 1) !in Image(f, k - 1);
    }
  }

  /** The numbers 0, .., n-1. */
  ghost function Below(n: nat): set<nat> {
    Image((i: nat) => i, n)
  }

  lemma BelowFacts(n: nat)
    ensures |Below(n)| == n
    ensures forall v: nat :: v in Below(n) <==> v < n
  {
    var f := (i: nat) => i;
    InjectiveImageSize(f, n);
    assert Below(n) == Image(f, n) by {
      forall v: nat ensures v in Below(n) <==> v in Image(f, n) {
      }
    }
    forall v: nat | v < n ensures v in Below(n) {
      assert f(v) == v;
    }
  }

  /** The integers 0, .., n-1. */
  function IntsBelow(n: nat): (r: set<int>)
    ensures |r| == n
    ensures forall i :: i in r <==> 0 <= i < n
  {
    if n == 0 then {} else IntsBelow(n - 1) + {n - 1}
  }

  predicate NoDuplicates<T(==)>(s: seq<T>) {
    forall i, j :: 0 <= i < j < |s| ==> s[i] != s[j]
  }

  /** All but the last element. */
  function Front<T>(s: seq<T>): seq<T>
    requires s != []
  {
    s[..|s| - 1]
  }

  function ToSet<T>(s: seq<T>): set<T> {
    set x | x in s
  }

  lemma {:induction false} NoDuplicatesSize<T>(s: seq<T>)
    requires NoDuplicates(s)
    ensures |ToSet(s)| == |s|
  {
    if s != [] {
      var front, last := s[..|s| - 1], s[|s| - 1];
      NoDuplicatesSize(front);
      assert ToSet(s) == ToSet(front) + {last};
      assert last !in front;
    }
  }

  lemma SubsetSize<T>(a: set<T>, b: set<T>)
    requires a <= b
    ensures |a| <= |b|
    ensures |a| == |b| ==> a == b
  {
    assert b == a + (b - a);
    assert |b| == |a| + |b - a|;
  }

  function Concat<T>(parts: seq<seq<T>>): seq<T> {
    if parts == [] then [] else parts[0] + Concat(parts[1..])
  }

  function Min(a: int, b: int): int {
    if a < b then a else b
  }
}
