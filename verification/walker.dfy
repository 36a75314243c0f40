/** Euclid's algorithm and the divisibility facts the walker rests on. */
module NumberTheory {
  import opened Decimal

  /** What the loop of gcd computes. */
  function Euclid(a: nat, b: nat): nat
    decreases b
  {
    if b == 0 then a else Euclid(b, a % b)
  }

  method Gcd(x: nat, y: nat) returns (g: nat)
    ensures g == Euclid(x, y)
  {
    var a, b := x, y;
    while b != 0
      invariant Euclid(a, b) == Euclid(x, y)
      decreases b
    {
      a, b := b, a % b;
    }
    g := a;
  }

  ghost predicate Times(n: int, d: int, k: int) {
    n == d * k
  }

  ghost predicate Divides(d: int, n: int) {
    exists k: int :: Times(n, d, k)
  }

  lemma DividesCombination(d: int, u: int, v: int, q: int)
    requires Divides(d, u) && Divides(d, v)
    ensures Divides(d, u * q + v)
  {
    var k: int :| Times(u, d, k);
    var m: int :| Times(v, d, m);
    assert u * q + v == d * (k * q + m) by {
      assert d * (k * q + m) == (d * k) * q + d * m;
    }
    assert Times(u * q + v, d, k * q + m);
  }

  /** The loop returns a common divisor that every common divisor divides. */
  lemma {:induction false} EuclidIsGreatestCommonDivisor(a: nat, b: nat)
    ensures Divides(Euclid(a, b), a) && Divides(Euclid(a, b), b)
    ensures forall d: int :: Divides(d, a) && Divides(d, b) ==> Divides(d, Euclid(a, b))
    decreases b
  {
    if b == 0 {
      assert Times(a, a, 1) && Times(0, a, 0);
    } else {
      var g, r, q := Euclid(a, b), a % b, a / b;
      EuclidIsGreatestCommonDivisor(b, r);
      assert a == b * q + r;
      DividesCombination(g, b, r, q);
      forall d: int | Divides(d, a) && Divides(d, b) ensures Divides(d, g) {
        DividesCombination(d, b, a, -q);
        assert b * -q + a == r;
      }
    }
  }

  lemma {:induction false} Bezout(a: nat, b: nat) returns (x: int, y: int)
    ensures a * x + b * y == Euclid(a, b)
    decreases b
  {
    if b == 0 {
      x, y := 1, 0;
    } else {
      var u, v := Bezout(b, a % b);
      x, y := v, u - (a / b) * v;
      assert a % b == a - b * (a / b);
      assert b * (u - (a / b) * v) == b * u - (b * (a / b)) * v;
      assert a * v - (b * (a / b)) * v == (a - b * (a / b)) * v;
    }
  }

  lemma AddMultiple(x: int, n: int, c: int)
    requires n > 0
    ensures (x + n * c) % n == x % n
  {
    assert x + n * c == n * (x / n + c) + x % n;
    QuotientUnique(x + n * c, n, x / n + c, x % n);
  }

  lemma SameRemainder(x: int, y: int, n: int)
    requires n > 0 && x % n == y % n
    ensures Times(y - x, n, y / n - x / n)
  {
    assert n * (y / n - x / n) == n * (y / n) - n * (x / n);
  }
}

/** lottery-go/walker.go: every value of [0, n) exactly once, in the order (a*i + b) mod n. */
module Walkers {
  import opened Counting
  import opened NumberTheory
  import D = Decimal

  /** The two random draws of newWalker. */
  datatype Seed = Seed(a: nat, b: nat)

  predicate SeedFor(n: nat, seed: Seed) {
    n == 0 || (1 <= seed.a <= n && Euclid(seed.a, n) == 1 && seed.b < n)
  }

  function Step(n: nat, seed: Seed, i: nat): (j: nat)
    requires n > 0
    ensures j < n
  {
    (seed.a * i + seed.b) % n
  }

  /** The complete walk. */
  function Walk(n: nat, seed: Seed): (w: seq<nat>)
    ensures |w| == n
    ensures forall i :: 0 <= i < n ==> w[i] == Step(n, seed, i)
  {
    seq(n, i requires 0 <= i < n => Step(n, seed, i))
  }

  ghost function Visited(n: nat, seed: Seed): set<nat> {
    ToSet(Walk(n, seed))
  }

  /** One random multiplier: 1 + r.Intn(n), with the raw draw r reduced into range. */
  function Multiplier(n: nat, draw: nat): (a: nat)
    requires n > 0
    ensures 1 <= a <= n
  {
    1 + draw % n
  }

  /** Every multiplier in [1, n] can be drawn, by n different draws. */
  lemma MultiplierCovers(n: nat, a: nat, draw: nat)
    requires 1 <= a <= n && draw < n
    ensures Multiplier(n, draw) == a <==> draw == a - 1
  {
    D.QuotientUnique(draw, n, 0, draw);
  }

  /** Rejection sampling: the first multiplier coprime to n. That one exists is probability's business. */
  method CoprimeTo(n: nat, draws: seq<nat>) returns (a: nat, ghost taken: nat)
    requires n > 0
    requires exists k :: 0 <= k < |draws| && Euclid(Multiplier(n, draws[k]), n) == 1
    ensures 1 <= a <= n && Euclid(a, n) == 1
    ensures taken < |draws| && a == Multiplier(n, draws[taken])
    ensures forall k :: 0 <= k < taken ==> Euclid(Multiplier(n, draws[k]), n) != 1
  {
    var k := 0;
    while true
      invariant 0 <= k < |draws|
      invariant forall m :: 0 <= m < k ==> Euclid(Multiplier(n, draws[m]), n) != 1
      decreases |draws| - k
    {
      a := Multiplier(n, draws[k]);
      var g := Gcd(a, n);
      if g == 1 {
        return a, k;
      }
      k := k + 1;
    }
  }

  /** An acceptable multiplier exists for every n. */
  lemma {:induction false} OneIsCoprime(n: nat)
    requires n > 0
    ensures SeedFor(n, Seed(1, 0))
  {
    assert Euclid(1, 0) == 1;
    if n == 1 {
      assert 1 % n == 0;
    } else {
      D.QuotientUnique(1, n, 0, 1);
      D.QuotientUnique(n, 1, n, 0);
      assert Euclid(1, n) == Euclid(n, 1) == Euclid(1, 0);
    }
  }

  class Walker {
    const n: nat
    const seed: Seed
    var i: nat

    predicate Valid()
      reads this
    {
      i <= n && SeedFor(n, seed)
    }

    constructor (n: int, seed: Seed)
      requires n > 0 ==> SeedFor(n, seed)
      ensures Valid() && i == 0 && this.n == (if n > 0 then n else 0) && this.seed == seed
    {
      this.n := if n > 0 then n else 0;
      this.seed := seed;
      i := 0;
    }

    method Next() returns (j: nat, ok: bool)
      requires Valid()
      modifies this`i
      ensures Valid()
      ensures ok <==> old(i) < n
      ensures ok ==> i == old(i) + 1 && j == Walk(n, seed)[old(i)]
      ensures !ok ==> i == old(i) && j == 0
    {
      if i >= n {
        return 0, false;
      }
      j := (seed.a * i + seed.b) % n;
      i := i + 1;
      ok := true;
    }
  }

  /** The walk starts at b and goes on by a, modulo n. Nothing else does. */
  lemma {:induction false} WalkFromB(n: nat, seed: Seed, w: seq<nat>)
    requires n > 0 && SeedFor(n, seed) && |w| == n
    ensures w == Walk(n, seed) <==> w[0] == seed.b && forall i :: 0 <= i < n - 1 ==> w[i + 1] == (w[i] + seed.a) % n
  {
    WalkAdvances(n, seed);
    if w[0] == seed.b && forall i :: 0 <= i < n - 1 ==> w[i + 1] == (w[i] + seed.a) % n {
      SameWalk(n, seed, w, n);
    }
  }

  lemma RemainderOfSum(u: nat, a: nat, n: nat)
    requires n > 0
    ensures (u + a) % n == (u % n + a) % n
  {
    var q, r := u / n, u % n;
    assert u + a == r + a + n * q;
    AddMultiple(r + a, n, q);
  }

  lemma StepAdvances(n: nat, seed: Seed, i: nat, next: nat)
    requires n > 0 && next == i + 1
    ensures Step(n, seed, next) == (Step(n, seed, i) + seed.a) % n
  {
    NextProduct(seed.a, i, next);
    RemainderOfSum(seed.a * i + seed.b, seed.a, n);
  }

  lemma NextProduct(a: int, i: int, next: int)
    requires next == i + 1
    ensures a * next == a * i + a
  {
  }

  lemma WalkAdvances(n: nat, seed: Seed)
    requires n > 0 && SeedFor(n, seed)
    ensures Walk(n, seed)[0] == seed.b
    ensures forall i :: 0 <= i < n - 1 ==> Walk(n, seed)[i + 1] == (Walk(n, seed)[i] + seed.a) % n
  {
    assert seed.a * 0 + seed.b == seed.b;
    D.QuotientUnique(seed.b, n, 0, seed.b);
    forall i: nat | i < n - 1 ensures Walk(n, seed)[i + 1] == (Walk(n, seed)[i] + seed.a) % n {
      StepAdvances(n, seed, i, i + 1);
    }
  }

  lemma {:induction false} SameWalk(n: nat, seed: Seed, w: seq<nat>, m: nat)
    requires n > 0 && SeedFor(n, seed) && |w| == n && 0 < m <= n
    requires w[0] == seed.b && forall i :: 0 <= i < n - 1 ==> w[i + 1] == (w[i] + seed.a) % n
    ensures w[..m] == Walk(n, seed)[..m]
  {
    WalkAdvances(n, seed);
    if m > 1 {
      var before, all := m - 1, Walk(n, seed);
      SameWalk(n, seed, w, before);
      assert w[before - 1] == w[..before][before - 1] == all[before - 1];
      assert w[m - 2 + 1] == all[m - 2 + 1];
    }
  }

  /** Requests for one pattern start at different numbers exactly if their seeds differ in b. */
  lemma StartsApart(n: nat, first: Seed, second: Seed)
    requires n > 0 && SeedFor(n, first) && SeedFor(n, second)
    ensures Walk(n, first)[0] == Walk(n, second)[0] <==> first.b == second.b
  {
    WalkAdvances(n, first);
    WalkAdvances(n, second);
  }

  /** No intermediate value exceeds n*n - 1. */
  lemma {:induction false} NoOverflow(n: nat, seed: Seed, i: nat)
    requires i < n && SeedFor(n, seed)
    ensures 0 <= seed.a * i + seed.b <= n * n - 1
  {
    MulMonotone(seed.a, n, i);
    MulMonotone(i, n - 1, n);
    assert n * n == (n - 1) * n + n;
  }

  lemma MulMonotone(x: int, y: int, z: int)
    requires x <= y && z >= 0
    ensures x * z <= y * z
  {
    assert (y - x) * z >= 0;
  }

  /** One period: stepping n/g further lands on the same value. */
  lemma StepPeriod(n: nat, seed: Seed, g: nat, m: nat, c: int, q: nat, r: nat)
    requires n > 0 && n == g * m && Times(seed.a, g, c)
    ensures Step(n, seed, m * q + r) == Step(n, seed, r)
  {
    var a := seed.a;
    assert a * (m * q + r) == (a * m) * q + a * r;
    assert a * m == (g * c) * m == n * c;
    assert (n * c) * q == n * (c * q);
    AddMultiple(a * r + seed.b, n, c * q);
  }

  /** Within one period no value repeats: Gauss's lemma through Bezout. */
  lemma StepInjective(n: nat, seed: Seed, m: nat, i: nat, j: nat)
    requires n > 0 && n == Euclid(seed.a, n) * m
    requires i < j < m
    ensures Step(n, seed, i) != Step(n, seed, j)
  {
    if Step(n, seed, i) == Step(n, seed, j) {
      var a, t, g := seed.a, j - i, Euclid(seed.a, n);
      var u, v := a * i + seed.b, a * j + seed.b;
      SameRemainder(u, v, n);
      var c := v / n - u / n;
      assert v - u == a * t;
      var x, y := Bezout(a, n);
      GaussStep(a, n, t, c, x, y, g, m);
      D.MultipleIsFar(m, c * x + y * t);
      assert false;
    }
  }

  lemma GaussStep(a: int, n: int, t: int, c: int, x: int, y: int, g: int, m: int)
    requires a * x + n * y == g && a * t == n * c && n == g * m && g != 0
    ensures t == m * (c * x + y * t)
  {
    var k := c * x + y * t;
    assert g * t == (a * t) * x + n * (y * t);
    assert (n * c) * x == n * (c * x);
    assert g * t == n * k;
    assert (g * m) * k == g * (m * k);
    assert g * (t - m * k) == 0;
  }

  /** Over i in [0, n) the formula takes exactly n / gcd(a, n) distinct values. */
  lemma ImageLaw(n: nat, seed: Seed)
    requires n > 0
    ensures Euclid(seed.a, n) > 0
    ensures |Visited(n, seed)| == n / Euclid(seed.a, n)
  {
    var g := Euclid(seed.a, n);
    EuclidIsGreatestCommonDivisor(seed.a, n);
    var m: int :| Times(n, g, m);
    var c: int :| Times(seed.a, g, c);
    FactorsPositive(n, g, m);
    VisitedInOnePeriod(n, seed, g, m, c);
  }

  lemma VisitedInOnePeriod(n: nat, seed: Seed, g: nat, m: nat, c: int)
    requires g == Euclid(seed.a, n) > 0 && 0 < m <= n && n == g * m && Times(seed.a, g, c)
    ensures |Visited(n, seed)| == m
  {
    var w := Walk(n, seed);
    forall i, j | 0 <= i < j < m ensures w[..m][i] != w[..m][j] {
      StepInjective(n, seed, m, i, j);
    }
    NoDuplicatesSize(w[..m]);
    forall v | v in w ensures v in w[..m] {
      var i :| 0 <= i < n && w[i] == v;
      InOnePeriod(n, seed, g, m, c, i);
      assert w[..m][i % m] == v;
    }
    assert Visited(n, seed) == ToSet(w[..m]);
  }

  lemma InOnePeriod(n: nat, seed: Seed, g: nat, m: nat, c: int, i: nat)
    requires 0 < m <= n && n == g * m && Times(seed.a, g, c)
    ensures Step(n, seed, i) == Step(n, seed, i % m)
  {
    StepPeriod(n, seed, g, m, c, i / m, i % m);
  }

  lemma FactorsPositive(n: nat, g: nat, m: int)
    requires n > 0 && n == g * m
    ensures g > 0 && 0 < m <= n && n / g == m
  {
    if m <= 0 {
      MulMonotone(m, 0, g);
    }
    MulMonotone(1, g, m);
    D.QuotientUnique(n, g, m, 0);
  }

  /** The walk is a permutation of [0, n) exactly when the Euclid loop returns 1. */
  lemma PermutationIffCoprime(n: nat, seed: Seed)
    requires n > 0
    ensures NoDuplicates(Walk(n, seed)) && ToSet(Walk(n, seed)) == Below(n) <==> Euclid(seed.a, n) == 1
  {
    ImageLaw(n, seed);
    var w, all, g := Walk(n, seed), Below(n), Euclid(seed.a, n);
    BelowFacts(n);
    if g == 1 {
      SubsetSize(ToSet(w), all);
      forall i, j | 0 <= i < j < n ensures w[i] != w[j] {
        StepInjective(n, seed, n, i, j);
      }
    } else {
      QuotientShrinks(n, g);
    }
  }

  lemma QuotientShrinks(n: nat, g: nat)
    requires n > 0 && g > 1
    ensures n / g < n
  {
    var q := n / g;
    MulMonotone(2, g, q);
    assert n == g * q + n % g;
  }
}
