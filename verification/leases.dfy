/** lottery-go/store.go: which leases keep one claim from handing out a ticket twice. */
module Leases {
  import opened Counting
  import opened Decimal
  import opened Patterns
  import opened Walkers
  import opened CandidateStream
  import opened TicketIndex
  import opened Ledger
  import opened Allocation
  import opened Stock
  import opened MemoryStores

  /** A state of an in-memory store, and a claim of it: which pattern and how many, for whom, with which seeds, and how
      far the context let each pass come. */
  datatype Request = Request(digits: nat, ix: Index, numbers: seq<nat>, past: History, p: Pattern, k: nat, who: string,
                             seed1: Seed, m1: nat, seed2: Seed, m2: nat) {

    ghost predicate WellPosed() {
      && Stocked(ix, NumberMap(numbers), Pow10(digits)) && Lawful(NumberMap(numbers).Keys, past)
      && IsParsed(digits, p) && InRange(digits, p) && SeedFor(MatchCount(p), seed1) && SeedFor(MatchCount(p), seed2)
      && m1 <= MatchCount(p) && m2 <= MatchCount(p)
    }

    /** The tickets the claim hands out. */
    ghost function Answer(now: int, lease: int): Ids
      requires WellPosed()
    {
      GivenTo(Current(NumberMap(numbers).Keys, past), Route(ix, digits, p, seed1), m1, Route(ix, digits, p, seed2), m2,
              Order(k, 1, who, now, now + lease))
    }
  }

  /** Every valid store is such a state, and its Claim gives such an answer. */
  lemma StoreIsState(s: MemoryStore, p: Pattern, k: nat, who: string, now: int, lease: int, seed1: Seed, m1: nat,
      seed2: Seed, m2: nat)
    requires s.Valid() && IsParsed(s.digits, p) && InRange(s.digits, p)
    requires SeedFor(MatchCount(p), seed1) && SeedFor(MatchCount(p), seed2) && m1 <= MatchCount(p) &&
      m2 <= MatchCount(p)
    ensures var r := Request(s.digits, s.index, s.numberOf, s.log, p, k, who, seed1, m1, seed2, m2);
      && r.WellPosed()
      && r.Answer(now, lease) ==
         GivenTo(s.book, Route(s.index, s.digits, p, seed1), m1, Route(s.index, s.digits, p, seed2), m2,
                                         Order(k, 1, who, now, now + lease))
  {
  }

  /** No claim is handed one ticket twice. */
  ghost predicate NeverTwice(now: int, lease: int) {
    forall r: Request :: r.WellPosed() ==> r.Answer(now, lease).Distinct()
  }

  /** That holds exactly for leases that are not negative: a negative one lets pass 2 claim the tickets of pass
      1 again. */
  lemma NeverTwiceIffLeaseNotNegative(now: int, lease: int)
    ensures NeverTwice(now, lease) <==> lease >= 0
  {
    if lease >= 0 {
      forall r: Request | r.WellPosed() ensures r.Answer(now, lease).Distinct() {
        NotTwice(r, now, lease);
      }
    } else {
      var r, tickets := TakenTwice(6, now, lease);
    }
  }

  lemma NotTwice(r: Request, now: int, lease: int)
    requires r.WellPosed() && lease >= 0
    ensures r.Answer(now, lease).Distinct()
  {
    var carries := NumberMap(r.numbers);
    RouteFacts(r.ix, carries, r.digits, r.p, r.seed1);
    RouteFacts(r.ix, carries, r.digits, r.p, r.seed2);
    ClaimFacts(Current(carries.Keys, r.past), carries,
               Route(r.ix, r.digits, r.p, r.seed1), NumberWalk(r.digits, r.p, r.seed1), r.m1,
               Route(r.ix, r.digits, r.p, r.seed2), NumberWalk(r.digits, r.p, r.seed2), r.m2,
               Order(r.k, 1, r.who, now, now + lease), Matching(r.digits, r.p));
  }

  // ---------------------------------------------------------------- a ticket handed out twice

  /** The pattern 0...0. */
  function Zeros(digits: nat): (s: string)
    ensures |s| == digits
  {
    if digits == 0 then "" else Zeros(digits - 1) + "0"
  }

  lemma {:induction false} ZerosParse(digits: nat)
    ensures WellFormed(digits, Zeros(digits)) && PatternOf(Zeros(digits)) == Pattern(0, [])
  {
    if digits > 0 {
      ZerosParse(digits - 1);
      assert Front(Zeros(digits)) == Zeros(digits - 1);
    }
  }

  /** The index of a single ticket with id 0 and number 0. */
  function OneTicketIndex(space: nat): Index {
    Index(seq(space + 1, n => if n == 0 then 0 else 1), [0])
  }

  lemma {:induction false} OneTicketStart(n: nat)
    ensures Start([Ticket(0, 0)], n) == if n == 0 then 0 else 1
    ensures IdsOf([Ticket(0, 0)], n) == if n == 0 then [0] else []
  {
    assert Front([Ticket(0, 0)]) == [];
    if n > 0 {
      OneTicketStart(n - 1);
    }
  }

  lemma OneTicketBlocks(space: nat, n: nat)
    requires n < space
    ensures var ix := OneTicketIndex(space); ix.Covers(n) && ix.TicketsFor(n) == IdsOf([Ticket(0, 0)], n)
  {
    OneTicketStart(n);
    var ix := OneTicketIndex(space);
    assert ix.offsets[n + 1] == 1;
  }

  lemma OneTicketIndexed(space: nat)
    ensures Indexes(OneTicketIndex(space), space, [Ticket(0, 0)])
  {
    var tickets, ix := [Ticket(0, 0)], OneTicketIndex(space);
    forall n: nat | n <= space ensures ix.offsets[n] == Start(tickets, n) {
      OneTicketStart(n);
    }
    forall n: nat | n < space ensures ix.Covers(n) && ix.TicketsFor(n) == IdsOf(tickets, n) {
      OneTicketBlocks(space, n);
    }
  }

  lemma OneTicketLoadable(digits: nat)
    ensures Loadable(digits, [Ticket(0, 0)])
  {
    var tickets := [Ticket(0, 0)];
    forall n: nat | n < Pow10(digits) ensures |IdsOf(tickets, n)| <= COUNTER_MODULUS {
      OneTicketStart(n);
    }
    assert AllIds(tickets) == [0];
  }

  /** Loading one ticket is possible in every number space. */
  lemma OneTicketLoads(digits: nat)
    ensures Loadable(digits, [Ticket(0, 0)]) && Numbered([0], [Ticket(0, 0)])
    ensures Indexes(OneTicketIndex(Pow10(digits)), Pow10(digits), [Ticket(0, 0)])
    ensures Stocked(OneTicketIndex(Pow10(digits)), NumberMap([0]), Pow10(digits))
    ensures BlockOf(OneTicketIndex(Pow10(digits)), 0) == [0]
  {
    OneTicketLoadable(digits);
    OneTicketIndexed(Pow10(digits));
    BlocksOfLoad(digits, [Ticket(0, 0)], OneTicketIndex(Pow10(digits)), [0]);
    OneTicketBlocks(Pow10(digits), 0);
    OneTicketStart(0);
  }

  /** The pattern 0...0 matches one number. */
  lemma OneMatch(digits: nat)
    ensures var p := Pattern(0, []); IsParsed(digits, p) && InRange(digits, p) && MatchCount(p) == 1
    ensures SeedFor(1, Seed(1, 0))
  {
    ZerosParse(digits);
    OneIsCoprime(1);
  }

  lemma OneStop(digits: nat, p: Pattern, seed: Seed)
    requires InRange(digits, p) && p == Pattern(0, []) && MatchCount(p) == 1
    ensures NumberWalk(digits, p, seed) == [0]
  {
    var walk := NumberWalk(digits, p, seed);
    assert walk[0] == NumberOf(digits, p, Walk(1, seed)[0]) == 0;
  }

  /** Its only walk visits the number 0, which has the one ticket. */
  lemma OneTicketRoute(digits: nat, p: Pattern, seed: Seed)
    requires InRange(digits, p) && p == Pattern(0, []) && MatchCount(p) == 1
    ensures Route(OneTicketIndex(Pow10(digits)), digits, p, seed) == [[0]]
  {
    OneStop(digits, p, seed);
    OneTicketLoads(digits);
  }

  /** The ticket of a store that just loaded it is free. */
  lemma OneTicketFree()
    ensures var carries := NumberMap([0]); 0 in carries && Lawful(carries.Keys, NoEvents)
    ensures var book := Current(NumberMap([0]).Keys, NoEvents); 0 in book && book[0] == Free
  {
    NumberAtId([0], 1, 0);
  }

  /** A store just loaded with one ticket, a pattern that matches it, two wanted, a negative lease: the ticket is handed
      out, and handed out again. */
  lemma TakenTwice(digits: nat, now: int, lease: int) returns (r: Request, tickets: seq<Ticket>)
    requires lease < 0
    ensures r.WellPosed() && r.digits == digits && r.past == NoEvents && r.m1 == r.m2 == MatchCount(r.p)
    ensures Loadable(digits, tickets) && Indexes(r.ix, Pow10(digits), tickets) && Numbered(r.numbers, tickets)
    ensures r.Answer(now, lease) == Snoc(Snoc(Nil, 0), 0)
  {
    tickets := [Ticket(0, 0)];
    OneTicketLoads(digits);
    OneMatch(digits);
    OneTicketRoute(digits, Pattern(0, []), Seed(1, 0));
    OneTicketFree();
    r := Request(digits, OneTicketIndex(Pow10(digits)), [0], NoEvents, Pattern(0, []), 2, "", Seed(1, 0), 1, Seed(1, 0),
      1);
    SameTicketTwice(Current(NumberMap([0]).Keys, NoEvents), now, lease);
  }

  lemma SameTicketTwice(book: Book, now: int, lease: int)
    requires lease < 0 && 0 in book && book[0] == Free
    ensures GivenTo(book, [[0]], 1, [[0]], 1, Order(2, 1, "", now, now + lease)) == Snoc(Snoc(Nil, 0), 0)
  {
    var first := ChooseTo(book, [[0]], 1, 2, 1, now);
    assert ChooseTo(book, [[0]], 0, 2, 1, now) == Nil;
    assert first == Pick(book, [0], 1, 1, now, Nil) == PickOne(book, 0, 1, now, Pick(book, [0], 0, 1, now, Nil));
    assert first == Snoc(Nil, 0);
    var granted := Grant(book, first.Members(), "", now + lease);
    assert granted[0] == Held("", now + lease);
    var second := ChooseTo(granted, [[0]], 1, 1, 0, now);
    assert ChooseTo(granted, [[0]], 0, 1, 0, now) == Nil;
    assert second == Pick(granted, [0], 1, 1, now, Nil) ==
      PickOne(granted, 0, 1, now, Pick(granted, [0], 0, 1, now, Nil));
    assert second == Snoc(Nil, 0);
    assert Join(first, second) == Snoc(Join(first, Nil), 0);
  }
}
