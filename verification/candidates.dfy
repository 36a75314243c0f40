/** lottery-go/candidates.go: the matching numbers in walker order, handed out in batches. */
module CandidateStream {
  import opened Counting
  import opened Decimal
  import opened Patterns
  import opened Walkers

  /** Every matching number once, in the scrambled order of one seed. */
  function NumberWalk(digits: nat, p: Pattern, seed: Seed): (w: seq<nat>)
    requires InRange(digits, p)
    ensures |w| == MatchCount(p)
    ensures forall i :: 0 <= i < |w| ==> w[i] == NumberOf(digits, p, Walk(MatchCount(p), seed)[i])
  {
    seq(MatchCount(p), i requires 0 <= i < MatchCount(p) => NumberOf(digits, p, Step(MatchCount(p), seed, i)))
  }

  class Candidates {
    const digits: nat
    const p: Pattern
    const w: Walker

    ghost predicate Valid()
      reads this, w
    {
      InRange(digits, p) && w.Valid() && w.n == MatchCount(p)
    }

    constructor (digits: nat, p: Pattern, seed: Seed)
      requires InRange(digits, p) && SeedFor(MatchCount(p), seed)
      ensures Valid() && fresh(w) && w.i == 0
      ensures this.digits == digits && this.p == p && w.seed == seed
    {
      this.digits := digits;
      this.p := p;
      this.w := new Walker(MatchCount(p), seed);
    }

    ghost function Stream(): seq<nat>
      reads this, w
      requires Valid()
    {
      NumberWalk(digits, p, w.seed)
    }

    method NextBatch(max: nat) returns (out: seq<nat>)
      requires Valid()
      modifies w`i
      ensures Valid()
      ensures w.i == Min(old(w.i) + max, |Stream()|)
      ensures out == Stream()[old(w.i)..w.i]
    {
      out := [];
      while |out| < max
        invariant Valid() && old(w.i) <= w.i == old(w.i) + |out|
        invariant |out| <= max
        invariant out == Stream()[old(w.i)..w.i]
      {
        var j, ok := w.Next();
        if !ok {
          break;
        }
        var n := NumberAt(digits, p, j);
        out := out + [n];
      }
    }
  }

  /** One seed's walk lists exactly the matches of the pattern, each once. */
  lemma NumberWalkIsMatchSet(digits: nat, p: Pattern, seed: Seed)
    requires IsParsed(digits, p) && SeedFor(MatchCount(p), seed)
    ensures InRange(digits, p)
    ensures NoDuplicates(NumberWalk(digits, p, seed))
    ensures forall n: nat :: n in NumberWalk(digits, p, seed) <==> MatchesNumber(digits, p, n)
    ensures forall n: nat :: n in NumberWalk(digits, p, seed) ==> n < Pow10(digits)
  {
    OdometerIsomorphism(digits, p);
    var n := MatchCount(p);
    var walk, numbers := Walk(n, seed), NumberWalk(digits, p, seed);
    PermutationIffCoprime(n, seed);
    BelowFacts(n);
    forall i, j | 0 <= i < j < n ensures numbers[i] != numbers[j] {
      assert walk[i] != walk[j];
    }
    forall m: nat | MatchesNumber(digits, p, m) ensures m in numbers {
      var j: nat :| j < n && NumberOf(digits, p, j) == m;
      assert j in ToSet(walk);
      var i :| 0 <= i < n && walk[i] == j;
      assert numbers[i] == m;
    }
  }

  /** The first candidate is the match with index b, so requests for one pattern start at different numbers exactly if
      their seeds differ in b. */
  lemma CandidatesStartApart(digits: nat, p: Pattern, first: Seed, second: Seed)
    requires IsParsed(digits, p) && SeedFor(MatchCount(p), first) && SeedFor(MatchCount(p), second)
    ensures InRange(digits, p)
    ensures NumberWalk(digits, p, first)[0] == NumberOf(digits, p, first.b)
    ensures NumberWalk(digits, p, first)[0] == NumberWalk(digits, p, second)[0] <==> first.b == second.b
  {
    OdometerIsomorphism(digits, p);
    WalkAdvances(MatchCount(p), first);
    WalkAdvances(MatchCount(p), second);
    var i, j := first.b, second.b;
    assert i < j ==> NumberOf(digits, p, i) < NumberOf(digits, p, j);
    assert j < i ==> NumberOf(digits, p, j) < NumberOf(digits, p, i);
  }

  /** Every number the pattern matches. */
  ghost function Matching(digits: nat, p: Pattern): set<nat>
    requires InRange(digits, p)
  {
    set n: nat | n < Pow10(digits) && MatchesNumber(digits, p, n)
  }

  /** Whatever the seed, the walk goes once through the match set. */
  lemma WalkIsMatching(digits: nat, p: Pattern, seed: Seed)
    requires IsParsed(digits, p) && SeedFor(MatchCount(p), seed)
    ensures InRange(digits, p)
    ensures NoDuplicates(NumberWalk(digits, p, seed)) && ToSet(NumberWalk(digits, p, seed)) == Matching(digits, p)
  {
    NumberWalkIsMatchSet(digits, p, seed);
  }

  // ------------------------------------------------------------- batching

  /** What successive NextBatch calls of the given sizes return, starting at position `at`. */
  function Batches(stream: seq<nat>, at: nat, sizes: seq<nat>): (r: seq<seq<nat>>)
    requires at <= |stream|
    ensures |r| == |sizes|
    decreases |sizes|
  {
    if sizes == [] then []
    else
      var next := Min(at + sizes[0], |stream|);
      [stream[at..next]] + Batches(stream, next, sizes[1..])
  }

  function Sum(sizes: seq<nat>): nat {
    if sizes == [] then 0 else sizes[0] + Sum(sizes[1..])
  }

  lemma {:induction false} BatchesConcat(stream: seq<nat>, at: nat, sizes: seq<nat>)
    requires at <= |stream|
    ensures Concat(Batches(stream, at, sizes)) == stream[at..Min(at + Sum(sizes), |stream|)]
    decreases |sizes|
  {
    if sizes != [] {
      var next := Min(at + sizes[0], |stream|);
      BatchesConcat(stream, next, sizes[1..]);
      assert Batches(stream, at, sizes)[1..] == Batches(stream, next, sizes[1..]);
    }
  }

  lemma {:induction false} BatchesPrefix(stream: seq<nat>, at: nat, sizes: seq<nat>, i: nat)
    requires at <= |stream| && i <= |sizes|
    ensures Batches(stream, at, sizes)[..i] == Batches(stream, at, sizes[..i])
    decreases |sizes|
  {
    if i > 0 {
      var next := Min(at + sizes[0], |stream|);
      BatchesPrefix(stream, next, sizes[1..], i - 1);
      assert sizes[..i][1..] == sizes[1..][..i - 1];
      assert Batches(stream, at, sizes)[..i] == [stream[at..next]] + Batches(stream, next, sizes[1..])[..i - 1];
    }
  }

  /** Batch i starts where the batches before it end. */
  lemma {:induction false} BatchStarts(stream: seq<nat>, at: nat, sizes: seq<nat>, i: nat)
    requires at <= |stream| && i < |sizes|
    ensures var from := Min(at + Sum(sizes[..i]), |stream|);
      Batches(stream, at, sizes)[i] == stream[from..Min(from + sizes[i], |stream|)]
    decreases |sizes|
  {
    if i > 0 {
      var next := Min(at + sizes[0], |stream|);
      BatchStarts(stream, next, sizes[1..], i - 1);
      assert sizes[..i][1..] == sizes[1..][..i - 1];
    }
  }

  lemma {:induction false} BatchesOfStream(stream: seq<nat>, sizes: seq<nat>, i: nat)
    requires NoDuplicates(stream) && i < |sizes| && sizes[i] > 0
    ensures var batches := Batches(stream, 0, sizes);
      && NoDuplicates(Concat(batches))
      && (forall n: nat :: n in Concat(batches) ==> n in stream)
      && (batches[i] == [] <==> forall n: nat :: n in stream ==> n in Concat(batches[..i]))
  {
    BatchesConcat(stream, 0, sizes);
    BatchesPrefix(stream, 0, sizes, i);
    BatchStarts(stream, 0, sizes, i);
    BatchesConcat(stream, 0, sizes[..i]);
    PrefixComplete(stream, Min(Sum(sizes[..i]), |stream|));
  }

  /** For every sequence of positive batch sizes: the batches together repeat nothing and contain only
      matches, and batch i is empty exactly when the batches before it held every match. */
  lemma {:induction false} BatchIndependence(digits: nat, p: Pattern, seed: Seed, sizes: seq<nat>, i: nat)
    requires IsParsed(digits, p) && SeedFor(MatchCount(p), seed)
    requires forall k :: 0 <= k < |sizes| ==> sizes[k] > 0
    requires i < |sizes|
    ensures InRange(digits, p)
    ensures var batches := Batches(NumberWalk(digits, p, seed), 0, sizes);
      && NoDuplicates(Concat(batches))
      && (forall n: nat :: n in Concat(batches) ==> MatchesNumber(digits, p, n))
      && (batches[i] == [] <==> forall n: nat :: MatchesNumber(digits, p, n) ==> n in Concat(batches[..i]))
  {
    NumberWalkIsMatchSet(digits, p, seed);
    BatchesOfStream(NumberWalk(digits, p, seed), sizes, i);
  }

  lemma PrefixComplete(stream: seq<nat>, from: nat)
    requires NoDuplicates(stream) && from <= |stream|
    ensures from == |stream| <==> forall n: nat :: n in stream ==> n in stream[0..from]
  {
    if from < |stream| {
      assert stream[from] in stream;
      assert stream[from] !in stream[0..from];
    } else {
      assert stream[0..from] == stream;
    }
  }
}
