/** The in-memory store and the database-backed one, claim for claim
    (lottery-go/store.go, lottery-go/postgres/store.go). */
module Backends {
  import opened Counting
  import opened Patterns
  import opened Walkers
  import opened CandidateStream
  import opened Allocation
  import opened Stock
  import opened MemoryStores
  import opened TicketTable
  import opened ClaimRounds
  import opened ClaimGuarantees
  import opened PostgresStores

  /** The store in memory and the table hold the same tickets, with the same numbers, in the same states. */
  ghost predicate Corresponds(s: MemoryStore, rows: Table)
    reads s
  {
    s.book == ViewBook(rows) && NumberMap(s.numberOf) == Numbers(rows)
  }

  /** The rows open to an undisturbed claim are the in-memory store's scan. */
  lemma OpenStockIsScan(t: Table, wanted: set<nat>, now: int)
    requires WellKept(t)
    ensures OpenStock(t, wanted, now) == Scan(ViewBook(t), Numbers(t), wanted, now)
  {
    forall id ensures id in OpenStock(t, wanted, now) <==> id in Scan(ViewBook(t), Numbers(t), wanted, now) {
      if id in t {
        assert Consistent(t[id]);
      }
    }
  }

  /** An uncancelled claim of the in-memory store brings min(k, claimable matches). */
  lemma MemoryClaimFills(s: MemoryStore, p: Pattern, seed1: Seed, seed2: Seed, o: Order)
    requires s.Valid() && IsParsed(s.digits, p) && InRange(s.digits, p) && o.until >= o.now
    requires SeedFor(MatchCount(p), seed1) && SeedFor(MatchCount(p), seed2)
    ensures GivenTo(s.book, Route(s.index, s.digits, p, seed1), MatchCount(p), Route(s.index, s.digits, p, seed2),
      MatchCount(p), o).Len()
         == Min(o.k, |Scan(s.book, NumberMap(s.numberOf), Matching(s.digits, p), o.now)|)
  {
    var carries := NumberMap(s.numberOf);
    RouteFacts(s.index, carries, s.digits, p, seed1);
    RouteFacts(s.index, carries, s.digits, p, seed2);
    FullClaimFacts(s.book, carries, Route(s.index, s.digits, p, seed1), NumberWalk(s.digits, p, seed1),
                   Route(s.index, s.digits, p, seed2), NumberWalk(s.digits, p, seed2), o, Matching(s.digits, p));
  }

  /** From corresponding states and undisturbed, the two stores hand out equally many tickets, whatever seeds each of
      them draws, as long as the match set fits the batch budget of the database. */
  lemma BackendsClaimAlike(s: MemoryStore, rows: Table, p: Pattern, c: Call, now: int, seed1: Seed, seed2: Seed,
      dbSeed1: Seed, dbSeed2: Seed, env1: nat -> Moment, env2: nat -> Moment)
    requires s.Valid() && IsParsed(s.digits, p) && InRange(s.digits, p)
    requires SeedFor(MatchCount(p), seed1) && SeedFor(MatchCount(p), seed2)
    requires SeedFor(MatchCount(p), dbSeed1) && SeedFor(MatchCount(p), dbSeed2)
    requires ProperPlan(c.plan) && c.lease >= 0 && AllUndisturbed(env1, now) && AllUndisturbed(env2, now)
    requires MatchCount(p) <= c.maxBatches * c.batchSize
    requires WellKept(rows) && Corresponds(s, rows)
    ensures var o := Order(c.k, 1, c.holder, now, now + c.lease);
      GivenTo(s.book, Route(s.index, s.digits, p, seed1), MatchCount(p), Route(s.index, s.digits, p, seed2),
        MatchCount(p), o).Len()
        == StoreClaim(c, NumberWalk(s.digits, p, dbSeed1), NumberWalk(s.digits, p, dbSeed2), env1, env2, rows).got.Len()
  {
    MemoryClaimFills(s, p, seed1, seed2, Order(c.k, 1, c.holder, now, now + c.lease));
    OpenStockIsScan(rows, Matching(s.digits, p), now);
    SeededClaimFills(s.digits, p, c, dbSeed1, dbSeed2, env1, env2, rows, now);
  }
}
