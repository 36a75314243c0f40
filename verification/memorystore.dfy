/** lottery-go/store.go: every ticket in memory, behind an index and an availability bitmap. */
module MemoryStores {
  import opened Counting
  import opened Decimal
  import opened Patterns
  import opened Walkers
  import opened CandidateStream
  import opened Bitmaps
  import opened TicketIndex
  import opened Ledger
  import opened Allocation
  import opened Stock

  const BATCH_SIZE: nat := 64

  /** Ids are 0 .. len-1, each once, and no number has more tickets than its counter can tell apart. */
  ghost predicate Loadable(digits: nat, tickets: seq<Ticket>) {
    && NumbersBelow(tickets, Pow10(digits))
    && (forall i :: 0 <= i < |tickets| ==> 0 <= tickets[i].id < |tickets|)
    && NoDuplicates(AllIds(tickets))
    && forall n: nat :: n < Pow10(digits) ==> |IdsOf(tickets, n)| <= COUNTER_MODULUS
  }

  /** Dense distinct ids leave no gap: every id below the ticket count belongs to some ticket. */
  lemma {:induction false} DenseIds(tickets: seq<Ticket>, id: int)
    requires forall i :: 0 <= i < |tickets| ==> 0 <= tickets[i].id < |tickets|
    requires NoDuplicates(AllIds(tickets)) && 0 <= id < |tickets|
    ensures exists i :: 0 <= i < |tickets| && tickets[i].id == id
  {
    var all := AllIds(tickets);
    NoDuplicatesSize(all);
    assert ToSet(all) <= IntsBelow(|tickets|);
    SubsetSize(ToSet(all), IntsBelow(|tickets|));
    assert id in ToSet(all);
    var i :| 0 <= i < |all| && all[i] == id;
  }

  /** numbers[id] is the number of the ticket with that id. */
  ghost predicate Numbered(numbers: seq<nat>, tickets: seq<Ticket>) {
    && |numbers| == |tickets|
    && forall i :: 0 <= i < |tickets| ==> 0 <= tickets[i].id < |numbers| && numbers[tickets[i].id] == tickets[i].number
  }

  lemma {:induction false} BlocksOfLoad(digits: nat, tickets: seq<Ticket>, ix: Index, numbers: seq<nat>)
    requires Loadable(digits, tickets) && Indexes(ix, Pow10(digits), tickets) && Numbered(numbers, tickets)
    ensures Stocked(ix, NumberMap(numbers), Pow10(digits))
    ensures forall id :: 0 <= id < |numbers| ==> numbers[id] < Pow10(digits)
  {
    forall n: nat | n < Pow10(digits) ensures ix.Covers(n) && IsBlock(ix.TicketsFor(n), n, NumberMap(numbers)) {
      IdsOfDistinct(tickets, n);
      forall id ensures id in IdsOf(tickets, n) <==> id in NumberMap(numbers) && NumberMap(numbers)[id] == n {
        NumberAtId(numbers, |numbers|, id);
        IdsOfMembers(tickets, n, id);
        if 0 <= id < |tickets| {
          DenseIds(tickets, id);
        }
      }
    }
    StockedIntro(ix, NumberMap(numbers), Pow10(digits));
    forall id | 0 <= id < |numbers| ensures numbers[id] < Pow10(digits) {
      DenseIds(tickets, id);
    }
  }

  /** Counters and bits after loading these tickets. */
  ghost predicate Counted(tickets: seq<Ticket>, counters: seq<nat>, bits: set<nat>) {
    forall n: nat :: n < |counters| ==>
      counters[n] == Counter(|IdsOf(tickets, n)|) && (n in bits <==> IdsOf(tickets, n) != [])
  }

  lemma {:induction false} LoadStep(tickets: seq<Ticket>, i: nat, counters: seq<nat>, bits: set<nat>)
    requires i < |tickets| && tickets[i].number < |counters| && Counted(tickets[..i], counters, bits)
    ensures var n := tickets[i].number;
      Counted(tickets[..i + 1], counters[n := (counters[n] + 1) % COUNTER_MODULUS], bits + {n})
  {
    CountStep(tickets, i);
    CounterStep(|IdsOf(tickets[..i], tickets[i].number)|);
    var n := tickets[i].number;
    var after, more, upTo := counters[n := (counters[n] + 1) % COUNTER_MODULUS], bits + {n}, tickets[..i + 1];
    forall m: nat | m < |after|
      ensures after[m] == Counter(|IdsOf(upTo, m)|) && (m in more <==> IdsOf(upTo, m) != [])
    {
      assert |IdsOf(upTo, m)| == |IdsOf(tickets[..i], m)| + if n == m then 1 else 0;
    }
  }

  /** The loading loop of NewMemoryStore. */
  method Tally(digits: nat, tickets: seq<Ticket>, unsold: array<nat>, unsoldNumbers: Bitmap) returns (numbers: seq<nat>)
    requires Loadable(digits, tickets)
    requires unsold.Length == unsoldNumbers.size == Pow10(digits) && unsoldNumbers.Valid()
    requires unsold as object != unsoldNumbers.words
    requires unsoldNumbers.Members() == {} && forall n :: 0 <= n < unsold.Length ==> unsold[n] == 0
    modifies unsold, unsoldNumbers.words
    ensures Numbered(numbers, tickets)
    ensures Counted(tickets, unsold[..], unsoldNumbers.Members())
  {
    var numberOf := new nat[|tickets|](_ => 0);
    for i := 0 to |tickets|
      invariant forall q :: 0 <= q < i ==> numberOf[tickets[q].id] == tickets[q].number
      invariant Counted(tickets[..i], unsold[..], unsoldNumbers.Members())
    {
      var t := tickets[i];
      forall q | 0 <= q < i ensures tickets[q].id != t.id {
        assert AllIds(tickets)[q] != AllIds(tickets)[i];
      }
      numberOf[t.id] := t.number;
      CountOne(tickets, i, unsold, unsoldNumbers);
    }
    assert tickets[..|tickets|] == tickets;
    numbers := numberOf[..];
  }

  method CountOne(tickets: seq<Ticket>, i: nat, unsold: array<nat>, unsoldNumbers: Bitmap)
    requires unsold.Length == unsoldNumbers.size && unsoldNumbers.Valid() && unsold as object != unsoldNumbers.words
    requires i < |tickets| && tickets[i].number < unsold.Length
    requires Counted(tickets[..i], unsold[..], unsoldNumbers.Members())
    modifies unsold, unsoldNumbers.words
    ensures Counted(tickets[..i + 1], unsold[..], unsoldNumbers.Members())
  {
    var n := tickets[i].number;
    LoadStep(tickets, i, unsold[..], unsoldNumbers.Members());
    unsold[n] := (unsold[n] + 1) % COUNTER_MODULUS;
    unsoldNumbers.Set(n);
  }

  lemma FreshCounts(tickets: seq<Ticket>, ix: Index, space: nat, counters: seq<nat>, bits: set<nat>, n: nat)
    requires Indexes(ix, space, tickets) && Counted(tickets, counters, bits) && |counters| == space
    requires n < space && |IdsOf(tickets, n)| <= COUNTER_MODULUS
    ensures ix.Covers(n) && FreshCount(ix.TicketsFor(n), counters[n], n in bits)
  {
  }

  /** Right after loading, when every ticket is free, counters and bits agree with the book. */
  lemma FreshTally(tickets: seq<Ticket>, ix: Index, space: nat, numbers: map<int, nat>, counters: seq<nat>,
      bits: set<nat>, book: Book)
    requires Indexes(ix, space, tickets) && Counted(tickets, counters, bits) && |counters| == space
    requires forall n: nat :: n < space ==> |IdsOf(tickets, n)| <= COUNTER_MODULUS
    requires Stocked(ix, numbers, space) && book == Current(numbers.Keys, NoEvents)
    ensures Tallied(book, numbers, counters, bits, space)
  {
    forall n: nat | n < space ensures ix.Covers(n) && FreshCount(ix.TicketsFor(n), counters[n], n in bits) {
      FreshCounts(tickets, ix, space, counters, bits, n);
    }
    TallyFresh(book, numbers, counters, bits, ix, space);
  }

  /** The structures NewMemoryStore builds before anything is claimed. */
  method Build(digits: nat, tickets: seq<Ticket>)
    returns (ix: Index, numbers: seq<nat>, counters: array<nat>, bits: Bitmap)
    requires Loadable(digits, tickets)
    ensures Numbered(numbers, tickets) && Indexes(ix, Pow10(digits), tickets)
    ensures fresh(counters) && fresh(bits) && fresh(bits.words) && counters as object != bits.words
    ensures bits.Valid() && counters.Length == bits.size == Pow10(digits)
    ensures Counted(tickets, counters[..], bits.Members())
  {
    var space := Pow10(digits);
    ix := BuildIndex(space, tickets);
    counters := new nat[space](_ => 0);
    bits := new Bitmap(space);
    numbers := Tally(digits, tickets, counters, bits);
  }

  /** What they say about a stock in which every ticket is free. */
  lemma PreparedStock(digits: nat, tickets: seq<Ticket>, ix: Index, numbers: seq<nat>, counters: seq<nat>,
    bits: set<nat>)
    requires Loadable(digits, tickets) && Numbered(numbers, tickets) && Indexes(ix, Pow10(digits), tickets)
    requires Counted(tickets, counters, bits) && |counters| == Pow10(digits)
    ensures forall id :: 0 <= id < |numbers| ==> numbers[id] < Pow10(digits)
    ensures Stocked(ix, NumberMap(numbers), Pow10(digits))
    ensures Tallied(Current(NumberMap(numbers).Keys, NoEvents), NumberMap(numbers), counters, bits, Pow10(digits))
  {
    var carries := NumberMap(numbers);
    BlocksOfLoad(digits, tickets, ix, numbers);
    FreshTally(tickets, ix, Pow10(digits), carries, counters, bits, Current(carries.Keys, NoEvents));
  }

  method Prepare(digits: nat, tickets: seq<Ticket>)
    returns (ix: Index, numbers: seq<nat>, counters: array<nat>, bits: Bitmap)
    requires Loadable(digits, tickets)
    ensures Numbered(numbers, tickets)
    ensures forall id :: 0 <= id < |numbers| ==> numbers[id] < Pow10(digits)
    ensures Stocked(ix, NumberMap(numbers), Pow10(digits))
    ensures fresh(counters) && fresh(bits) && fresh(bits.words) && counters as object != bits.words
    ensures bits.Valid() && counters.Length == bits.size == Pow10(digits)
    ensures Tallied(Current(NumberMap(numbers).Keys, NoEvents), NumberMap(numbers), counters[..], bits.Members(),
      Pow10(digits))
  {
    ix, numbers, counters, bits := Build(digits, tickets);
    PreparedStock(digits, tickets, ix, numbers, counters[..], bits.Members());
  }

  /** The context stays live throughout. */
  ghost predicate NeverCancelled(cancelled: nat -> bool) {
    forall i: nat :: !cancelled(i)
  }

  /** The first n checks of a pass find the context live. */
  ghost predicate LiveFor(cancelled: nat -> bool, n: nat) {
    forall j: nat :: j < n ==> !cancelled(j)
  }

  /** The i-th check of a pass is the first to find the context ended. */
  ghost predicate EndsAt(cancelled: nat -> bool, i: nat) {
    cancelled(i) && LiveFor(cancelled, i)
  }

  /** How many numbers of a walk of n make a difference to a pass: all of them, unless a check before one of its batches
      of 64 finds the context ended. */
  ghost function Visits(cancelled: nat -> bool, n: nat): nat {
    if i: nat :| EndsAt(cancelled, i) then Min(64 * i, n) else n
  }

  lemma VisitsFacts(cancelled: nat -> bool, n: nat)
    ensures Visits(cancelled, n) <= n && (NeverCancelled(cancelled) ==> Visits(cancelled, n) == n)
    ensures forall i: nat :: EndsAt(cancelled, i) ==> Visits(cancelled, n) == Min(64 * i, n)
  {
    forall i: nat, j: nat | EndsAt(cancelled, i) && EndsAt(cancelled, j) ensures i == j {
      assert !(i < j) && !(j < i);
    }
  }

  /** What the checks made so far say about it. */
  lemma VisitsSoFar(cancelled: nat -> bool, n: nat, checks: nat, due: nat)
    requires LiveFor(cancelled, checks) && due == 64 * checks
    ensures Min(due, n) <= Visits(cancelled, n) <= n
    ensures cancelled(checks) ==> Visits(cancelled, n) == Min(due, n)
    ensures !cancelled(checks) ==> LiveFor(cancelled, checks + 1)
  {
    VisitsFacts(cancelled, n);
    forall i: nat | EndsAt(cancelled, i) ensures i >= checks {
    }
    if cancelled(checks) {
      assert EndsAt(cancelled, checks);
    }
  }

  /** batch is the part of the walk that starts at position `at`. */
  ghost predicate Stretch(batch: seq<nat>, walk: seq<nat>, at: nat) {
    at + |batch| <= |walk| && forall q :: 0 <= q < |batch| ==> batch[q] == walk[at + q]
  }

  lemma StretchOf(batch: seq<nat>, walk: seq<nat>, at: nat)
    requires at + |batch| <= |walk| && batch == walk[at..at + |batch|]
    ensures Stretch(batch, walk, at)
  {
  }

  // ---------------------------------------------------------------- what one claim hands out

  /** The blocks one pass visits, in the order of its seed. */
  ghost function Route(ix: Index, digits: nat, p: Pattern, seed: Seed): (blocks: seq<seq<int>>)
    requires InRange(digits, p)
    ensures |blocks| == MatchCount(p)
  {
    BlocksAlong(ix, NumberWalk(digits, p, seed))
  }

  /** A route visits every matching number once, and nothing else. */
  lemma RouteFacts(ix: Index, carries: map<int, nat>, digits: nat, p: Pattern, seed: Seed)
    requires Stocked(ix, carries, Pow10(digits)) && IsParsed(digits, p) && SeedFor(MatchCount(p), seed)
    ensures InRange(digits, p)
    ensures var walk, blocks := NumberWalk(digits, p, seed), Route(ix, digits, p, seed);
      && |walk| == |blocks| && Stops(ix, Pow10(digits), walk, blocks, |blocks|)
      && WalkOf(blocks, walk, carries)
      && ToSet(walk) == First(walk, |walk|) == Matching(digits, p)
  {
    NumberWalkIsMatchSet(digits, p, seed);
    var walk := NumberWalk(digits, p, seed);
    forall i | 0 <= i < |walk| ensures walk[i] < Pow10(digits) {
      var n := walk[i];
      assert n in walk;
    }
    StopsIntro(ix, Pow10(digits), walk, |walk|);
    RouteIsWalk(ix, Pow10(digits), carries, walk, Route(ix, digits, p, seed));
    WholeWalk(walk);
  }

  lemma RouteStops(ix: Index, carries: map<int, nat>, digits: nat, p: Pattern, seed: Seed)
    returns (blocks: seq<seq<int>>)
    requires Stocked(ix, carries, Pow10(digits)) && IsParsed(digits, p) && SeedFor(MatchCount(p), seed)
    ensures InRange(digits, p) && blocks == Route(ix, digits, p, seed)
    ensures |blocks| == MatchCount(p) && Stops(ix, Pow10(digits), NumberWalk(digits, p, seed), blocks, |blocks|)
  {
    RouteFacts(ix, carries, digits, p, seed);
    blocks := Route(ix, digits, p, seed);
  }

  /** Distinct tickets, all of them claimable matches, at most k. */
  ghost predicate Sound(given: Ids, k: nat, scan: set<int>) {
    given.Distinct() && given.Members() <= scan && given.Len() <= k
  }

  /** As many tickets, and as many different numbers, as a naive scan of the whole stock could have found. */
  ghost predicate Optimal(given: Ids, k: nat, scan: set<int>, numberOf: map<int, nat>) {
    && given.Len() == Min(k, |scan|)
    && |NumbersOf(given.Members(), numberOf)| == Min(k, |NumbersOf(scan, numberOf)|)
  }

  lemma {:induction false} FirstGrows(walk: seq<nat>, m: nat, j: nat)
    requires m <= j <= |walk|
    ensures First(walk, m) <= First(walk, j)
  {
    if m < j {
      FirstGrows(walk, m, j - 1);
    }
  }

  /** A pass that was cut short after m numbers took only tickets of the scan, each once. */
  lemma {:induction false} PassSound(book: Book, carries: map<int, nat>, blocks: seq<seq<int>>, walk: seq<nat>, m: nat,
      need: nat, perNumber: nat, now: int)
    requires WalkOf(blocks, walk, carries) && m <= |walk|
    ensures var r := ChooseTo(book, blocks, m, need, perNumber, now);
      r.Distinct() && r.Members() <= Scan(book, carries, First(walk, |walk|), now)
  {
    ChooseSound(book, carries, blocks, walk, m, need, perNumber, now);
    FirstGrows(walk, m, |walk|);
    AmongIsScan(ChooseTo(book, blocks, m, need, perNumber, now).Members(), book, carries, First(walk, |walk|), now);
  }

  /** The tickets of a claim whose passes visited m1 and m2 numbers. */
  ghost function GivenTo(book: Book, b1: seq<seq<int>>, m1: nat, b2: seq<seq<int>>, m2: nat, o: Order): Ids
    requires m1 <= |b1| && m2 <= |b2|
  {
    var first := ChooseTo(book, b1, m1, o.k, 1, o.now);
    Join(first, ChooseTo(Grant(book, first.Members(), o.holder, o.until), b2, m2, Remaining(o.k, first.Len()), 0,
      o.now))
  }

  /** Whatever cut the passes short, the claim is sound. If nothing did, it is optimal. */
  lemma {:induction false} ClaimFacts(book: Book, carries: map<int, nat>, b1: seq<seq<int>>, walk1: seq<nat>, m1: nat,
      b2: seq<seq<int>>, walk2: seq<nat>, m2: nat, o: Order, wanted: set<nat>)
    requires WalkOf(b1, walk1, carries) && WalkOf(b2, walk2, carries) && m1 <= |walk1| && m2 <= |walk2|
    requires First(walk1, |walk1|) == wanted == First(walk2, |walk2|)
    requires o.until >= o.now
    ensures Sound(GivenTo(book, b1, m1, b2, m2, o), o.k, Scan(book, carries, wanted, o.now))
  {
    var first := ChooseTo(book, b1, m1, o.k, 1, o.now);
    var granted := Grant(book, first.Members(), o.holder, o.until);
    var need := Remaining(o.k, first.Len());
    var second := ChooseTo(granted, b2, m2, need, 0, o.now);
    SpreadLen(book, b1, m1, o.k, o.now);
    TopUpLen(granted, b2, m2, need, o.now);
    PassSound(book, carries, b1, walk1, m1, o.k, 1, o.now);
    PassSound(granted, carries, b2, walk2, m2, need, 0, o.now);
    ScanAfterGrant(book, carries, wanted, first.Members(), o.holder, o.now, o.until);
    JoinFacts(first, second);
  }

  lemma {:induction false} FullClaimFacts(book: Book, carries: map<int, nat>, b1: seq<seq<int>>, walk1: seq<nat>,
      b2: seq<seq<int>>, walk2: seq<nat>, o: Order, wanted: set<nat>)
    requires WalkOf(b1, walk1, carries) && WalkOf(b2, walk2, carries)
    requires First(walk1, |walk1|) == wanted == First(walk2, |walk2|) && o.until >= o.now
    ensures Optimal(GivenTo(book, b1, |walk1|, b2, |walk2|, o), o.k, Scan(book, carries, wanted, o.now), carries)
  {
    var first := Choose(book, b1, o.k, 1, o.now);
    var second := Choose(Grant(book, first.Members(), o.holder, o.until), b2, Remaining(o.k, first.Len()), 0, o.now);
    ClaimOptimal(book, carries, wanted, b1, walk1, first, b2, walk2, second, o.k, o.holder, o.now, o.until);
    JoinFacts(first, second);
  }

  /** What two passes did, seen as one hand-out: in the book a grant, in the result one reservation each. */
  lemma {:induction false} ClaimEffect(from: Stage, carries: map<int, nat>, b1: seq<seq<int>>, walk1: seq<nat>,
      m1: nat, b2: seq<seq<int>>, walk2: seq<nat>, m2: nat, o: Order, o2: Order)
    requires WalkOf(b1, walk1, carries) && WalkOf(b2, walk2, carries) && m1 <= |walk1| && m2 <= |walk2|
    requires from.out == [] && o.perNumber == 1 && o2 == o.(perNumber := 0)
    requires |CourseTo(from, b1, m1, carries, o).out| <= o.k
    ensures var mid, given := CourseTo(from, b1, m1, carries, o), GivenTo(from.book, b1, m1, b2, m2, o);
      var end := CourseTo(mid, b2, m2, carries, o2);
      && end == Handed(from, given, carries, o)
      && end.book == Grant(from.book, given.Members(), o.holder, o.until)
      && end.out == Reservations(given, carries, o.until)
      && |end.out| == given.Len() <= o.k
  {
    var first := ChooseTo(from.book, b1, m1, o.k, 1, o.now);
    var mid := CourseTo(from, b1, m1, carries, o);
    assert Need(from, o) == o.k;
    HandedLen(from, first, carries, o);
    PassSound(from.book, carries, b1, walk1, m1, o.k, 1, o.now);
    HandedIsGrant(from, first, carries, o);
    var need := Remaining(o.k, first.Len());
    assert Need(mid, o2) == need;
    var second := ChooseTo(mid.book, b2, m2, need, 0, o.now);
    PassSound(mid.book, carries, b2, walk2, m2, need, 0, o.now);
    HandedTwice(from, first, second, carries, o, o2);
    JoinFacts(first, second);
    HandedIsGrant(from, Join(first, second), carries, o);
    HandedLen(from, Join(first, second), carries, o);
    TopUpLen(mid.book, b2, m2, need, o.now);
  }

  /** A claim that pass 1 has filled needs no second walk. */
  lemma {:induction false} NoTopUp(mid: Stage, blocks: seq<seq<int>>, m: nat, carries: map<int, nat>, o: Order)
    requires |mid.out| >= o.k && m <= |blocks|
    ensures CourseTo(mid, blocks, m, carries, o) == mid
  {
    CourseFull(mid, blocks, 0, m, carries, o);
  }

  /** The reservation says what book and numbers say. */
  ghost predicate Named(r: Reservation, book: Book, numbers: seq<nat>, who: string, until: int) {
    && r.ticketId in book && book[r.ticketId] == Held(who, until) && r.leaseUntil == until
    && 0 <= r.ticketId < |numbers| && r.number == numbers[r.ticketId]
  }

  lemma ReportNamed(id: int, all: set<int>, before: Book, book: Book, numbers: seq<nat>, carries: map<int, nat>,
    o: Order)
    requires carries == NumberMap(numbers) && before.Keys == carries.Keys && id in before && id in all
    requires book == Grant(before, all, o.holder, o.until)
    ensures Named(Reservation(id, NumberFor(carries, id), o.until), book, numbers, o.holder, o.until)
  {
    assert id in carries.Keys;
    NumberAtId(numbers, |numbers|, id);
  }

  /** Every reservation does. */
  ghost predicate AllNamed(out: seq<Reservation>, book: Book, numbers: seq<nat>, who: string, until: int) {
    forall q :: 0 <= q < |out| ==> Named(out[q], book, numbers, who, until)
  }

  lemma {:induction false} ReportsNamed(some: Ids, all: set<int>, before: Book, book: Book, numbers: seq<nat>,
      carries: map<int, nat>, o: Order)
    requires carries == NumberMap(numbers) && before.Keys == carries.Keys && forall id :: id in all ==> id in before
    requires some.Members() <= all && book == Grant(before, all, o.holder, o.until)
    ensures AllNamed(Reservations(some, carries, o.until), book, numbers, o.holder, o.until)
  {
    if some.Snoc? {
      ReportsNamed(some.front, all, before, book, numbers, carries, o);
      assert some.last in all;
      ReportNamed(some.last, all, before, book, numbers, carries, o);
    }
  }

  /** Where the context ends the two passes of a claim; one that has ended before the claim starts leaves it nothing. */
  lemma ClaimEnds(cancelled1: nat -> bool, m1: nat, cancelled2: nat -> bool, m2: nat, from: Stage, b1: seq<seq<int>>,
      b2: seq<seq<int>>, o: Order)
    requires m1 == Visits(cancelled1, |b1|) <= |b1| && m2 == Visits(cancelled2, |b2|) <= |b2|
    ensures NeverCancelled(cancelled1) ==> m1 == |b1|
    ensures NeverCancelled(cancelled2) ==> m2 == |b2|
    ensures forall i: nat :: EndsAt(cancelled1, i) ==> m1 == Min(64 * i, |b1|)
    ensures forall i: nat :: EndsAt(cancelled2, i) ==> m2 == Min(64 * i, |b2|)
    ensures cancelled1(0) && cancelled2(0) ==> GivenTo(from.book, b1, m1, b2, m2, o) == Nil
  {
    VisitsFacts(cancelled1, |b1|);
    VisitsFacts(cancelled2, |b2|);
    if cancelled1(0) && cancelled2(0) {
      assert EndsAt(cancelled1, 0) && EndsAt(cancelled2, 0);
    }
  }

  /** Whatever the lease, only tickets of the stock are handed out. */
  lemma {:induction false} GivenKnown(book: Book, carries: map<int, nat>, b1: seq<seq<int>>, walk1: seq<nat>, m1: nat,
      b2: seq<seq<int>>, walk2: seq<nat>, m2: nat, o: Order)
    requires WalkOf(b1, walk1, carries) && WalkOf(b2, walk2, carries) && m1 <= |walk1| && m2 <= |walk2|
    ensures forall id :: id in GivenTo(book, b1, m1, b2, m2, o).Members() ==> id in book
  {
    var first := ChooseTo(book, b1, m1, o.k, 1, o.now);
    var granted, need := Grant(book, first.Members(), o.holder, o.until), Remaining(o.k, first.Len());
    PassSound(book, carries, b1, walk1, m1, o.k, 1, o.now);
    PassSound(granted, carries, b2, walk2, m2, need, 0, o.now);
    JoinFacts(first, ChooseTo(granted, b2, m2, need, 0, o.now));
  }

  /** The stage of a claim before and after: exactly these tickets were granted, logged and reported, in this order. */
  ghost predicate Effect(from: Stage, to: Stage, given: Ids, carries: map<int, nat>, o: Order) {
    && to == Handed(from, given, carries, o)
    && to.book == Grant(from.book, given.Members(), o.holder, o.until)
    && to.out == Reservations(given, carries, o.until)
    && |to.out| == given.Len() <= o.k
  }

  lemma {:induction false} ClaimSummary(from: Stage, mid: Stage, to: Stage, ix: Index, carries: map<int, nat>,
      digits: nat, p: Pattern, seed1: Seed, b1: seq<seq<int>>, m1: nat, seed2: Seed, b2: seq<seq<int>>, m2: nat,
      o: Order, o2: Order)
    returns (given: Ids)
    requires Stocked(ix, carries, Pow10(digits)) && IsParsed(digits, p) && InRange(digits, p)
    requires SeedFor(MatchCount(p), seed1) && SeedFor(MatchCount(p), seed2)
    requires m1 <= MatchCount(p) && m2 <= MatchCount(p) && from.out == [] && o.perNumber == 1
    requires b1 == Route(ix, digits, p, seed1) && b2 == Route(ix, digits, p, seed2)
    requires mid == CourseTo(from, b1, m1, carries, o)
    requires o2 == o.(perNumber := 0) && |mid.out| <= o.k && to == CourseTo(mid, b2, m2, carries, o2)
    ensures given == GivenTo(from.book, b1, m1, b2, m2, o) && Effect(from, to, given, carries, o)
    ensures forall id :: id in given.Members() ==> id in from.book
    ensures o.until >= o.now ==> Sound(given, o.k, Scan(from.book, carries, Matching(digits, p), o.now))
    ensures o.until >= o.now && m1 == m2 == MatchCount(p) ==>
      Optimal(given, o.k, Scan(from.book, carries, Matching(digits, p), o.now), carries)
  {
    RouteFacts(ix, carries, digits, p, seed1);
    RouteFacts(ix, carries, digits, p, seed2);
    var walk1, walk2 := NumberWalk(digits, p, seed1), NumberWalk(digits, p, seed2);
    given := GivenTo(from.book, b1, m1, b2, m2, o);
    ClaimEffect(from, carries, b1, walk1, m1, b2, walk2, m2, o, o2);
    GivenKnown(from.book, carries, b1, walk1, m1, b2, walk2, m2, o);
    if o.until >= o.now {
      ClaimFacts(from.book, carries, b1, walk1, m1, b2, walk2, m2, o, Matching(digits, p));
      if m1 == m2 == MatchCount(p) {
        FullClaimFacts(from.book, carries, b1, walk1, b2, walk2, o, Matching(digits, p));
      }
    }
  }

  lemma {:induction false} NumberMapSize(numbers: seq<nat>, m: nat)
    requires m <= |numbers|
    ensures |NumberTo(numbers, m).Keys| == m
  {
    if m > 0 {
      NumberMapSize(numbers, m - 1);
      NumberAtId(numbers, m - 1, m - 1);
      var before := NumberTo(numbers, m - 1);
      assert m - 1 !in before.Keys;
      assert NumberTo(numbers, m).Keys == before.Keys + {m - 1};
    }
  }

  class MemoryStore {
    const digits: nat
    const index: Index
    const numberOf: seq<nat>
    const status: array<Status>
    const holder: array<string>
    const leaseUntil: array<int>
    const unsold: array<nat>
    const unsoldNumbers: Bitmap

    ghost const space: nat
    ghost const carries: map<int, nat>
    ghost var book: Book
    ghost var log: History

    /** What never changes after construction. */
    ghost predicate Shape() {
      && status.Length == holder.Length == leaseUntil.Length == |numberOf|
      && unsold.Length == unsoldNumbers.size == space
      && unsoldNumbers.Valid()
      && carries == NumberMap(numberOf)
      && (forall i :: 0 <= i < |numberOf| ==> numberOf[i] < space)
      && Stocked(index, carries, space)
      && leaseUntil as object != unsold && leaseUntil as object != unsoldNumbers.words &&
         unsold as object != unsoldNumbers.words
    }

    /** book is what the arrays say; counters and bitmap agree with it; the log explains it. */
    ghost predicate Valid()
      reads this, status, holder, leaseUntil, unsold, unsoldNumbers.words
    {
      && space == Pow10(digits)
      && Shape()
      && book == BookOf(status[..], holder[..], leaseUntil[..])
      && book.Keys == carries.Keys
      && Tallied(book, carries, unsold[..], unsoldNumbers.Members(), space)
      && Lawful(carries.Keys, log)
      && book == Current(carries.Keys, log)
    }

    constructor (digits: nat, tickets: seq<Ticket>)
      requires Loadable(digits, tickets)
      ensures Valid() && log == NoEvents && this.digits == digits
      ensures Numbered(numberOf, tickets)
    {
      var ix, numbers, counters, bits := Prepare(digits, tickets);
      this.digits := digits;
      this.index := ix;
      this.numberOf := numbers;
      this.status := new Status[|tickets|](_ => Available);
      this.holder := new string[|tickets|](_ => "");
      this.leaseUntil := new int[|tickets|](_ => 0);
      this.unsold := counters;
      this.unsoldNumbers := bits;
      this.space := Pow10(digits);
      this.carries := NumberMap(numbers);
      this.log := NoEvents;
      this.book := Current(NumberMap(numbers).Keys, NoEvents);
      new;
      FreshBook(status[..], holder[..], leaseUntil[..], numberOf);
    }

    /** Expiry is evaluated at claim time. */
    predicate ClaimableNow(id: int, now: int)
      reads status, holder, leaseUntil
      requires 0 <= id < status.Length == holder.Length == leaseUntil.Length
      ensures ClaimableNow(id, now) <==> Claimable(SlotOf(status[id], holder[id], leaseUntil[id]), now)
    {
      match status[id]
      case Available => true
      case Reserved => now > leaseUntil[id]
      case Sold => false
    }

    /** The slot of one ticket, read off the arrays. */
    lemma {:induction false} BookSays(id: int)
      requires Valid()
      ensures id in book <==> 0 <= id < status.Length
      ensures id in carries <==> 0 <= id < status.Length
      ensures id in book ==> book[id] == SlotOf(status[id], holder[id], leaseUntil[id]) && carries[id] == numberOf[id]
    {
      BookAt(status[..], holder[..], leaseUntil[..], status.Length, id);
      NumberAtId(numberOf, |numberOf|, id);
    }

    /** Over the whole run so far: a confirmation now would succeed exactly for the holder of the ticket's latest claim,
        if nothing happened to the ticket since and the lease still runs. */
    lemma ConfirmNeedsLiveClaim(id: int, who: string, now: int)
      requires Valid() && 0 <= id < |numberOf|
      ensures var run := log.Events();
        ConfirmVerdict(book, id, who, now) == Success <==>
          exists i: nat :: i < |run| && LiveClaim(run, i, |run|, id, who, now)
    {
      BookSays(id);
      HistoryIsLog(carries.Keys, log);
      ConfirmSucceedsIffLiveClaim(carries.Keys, log.Events(), id, who, now);
    }

    /** Over the whole run so far: a ticket was claimed again only after its holder released it or its lease was
        strictly over, and never after it was sold. */
    lemma Exclusive(i: nat, j: nat)
      requires Valid() && i < j < |log.Events()| && log.Events()[j].id == log.Events()[i].id
      ensures log.Events()[i].Claimed? && log.Events()[j].Claimed? ==>
        exists m :: i < m <= j && EndsClaim(log.Events(), i, m)
      ensures !log.Events()[i].Confirmed?
    {
      HistoryIsLog(carries.Keys, log);
      if log.Events()[i].Claimed? && log.Events()[j].Claimed? {
        ClaimsAreSeparated(carries.Keys, log.Events(), i, j);
      }
      if log.Events()[i].Confirmed? {
        SoldIsAbsorbing(carries.Keys, log.Events(), i, j);
      }
    }

    /** Free, held and sold tickets always add up to the stock that was loaded. */
    lemma Conserved()
      requires Valid()
      ensures |FreeIn(book)| + |HeldIn(book)| + |TakenIn(book)| == |numberOf|
    {
      NumberMapSize(numberOf, |numberOf|);
      Conservation(book);
    }

    /** The array writes of a reservation, a sale or a release. */
    method Write(id: int, s: Status, who: string, until: int)
      requires status.Length == holder.Length == leaseUntil.Length && 0 <= id < status.Length
      requires book == BookOf(status[..], holder[..], leaseUntil[..])
      modifies this`book, status, holder, leaseUntil
      ensures book == BookOf(status[..], holder[..], leaseUntil[..])
      ensures book == old(book)[id := SlotOf(s, who, until)]
      ensures status[..] == old(status[..])[id := s] && holder[..] == old(holder[..])[id := who]
      ensures leaseUntil[..] == old(leaseUntil[..])[id := until]
    {
      BookUpdate(status[..], holder[..], leaseUntil[..], status.Length, id, s, who, until);
      status[id] := s;
      holder[id] := who;
      leaseUntil[id] := until;
      book := book[id := SlotOf(s, who, until)];
      assert status[..] == old(status[..])[id := s];
      assert holder[..] == old(holder[..])[id := who];
      assert leaseUntil[..] == old(leaseUntil[..])[id := until];
    }

    /** A sale writes the status only. */
    method WriteSold(id: int)
      requires status.Length == holder.Length == leaseUntil.Length && 0 <= id < status.Length
      requires book == BookOf(status[..], holder[..], leaseUntil[..])
      modifies this`book, status
      ensures book == BookOf(status[..], holder[..], leaseUntil[..]) == old(book)[id := Taken]
      ensures status[..] == old(status[..])[id := Sold]
    {
      BookUpdate(status[..], holder[..], leaseUntil[..], status.Length, id, Sold, holder[id], leaseUntil[id]);
      assert holder[..][id := holder[id]] == holder[..] && leaseUntil[..][id := leaseUntil[id]] == leaseUntil[..];
      status[id] := Sold;
      book := book[id := Taken];
      assert status[..] == old(status[..])[id := Sold];
    }

    method ReserveOne(id: int, who: string, now: int, until: int)
      requires Valid() && 0 <= id < status.Length && ClaimableNow(id, now)
      modifies this`log, this`book, status, holder, leaseUntil
      ensures Valid()
      ensures book == old(book)[id := Held(who, until)]
      ensures log == Then(old(log), Claimed(id, who, now, until))
    {
      BookSays(id);
      TallyAfterMove(book, carries, unsold[..], unsoldNumbers.Members(), space, id, Held(who, until));
      Write(id, Reserved, who, until);
      log := Then(log, Claimed(id, who, now, until));
    }

    method Confirm(id: int, who: string, now: int) returns (v: Verdict)
      requires Valid()
      modifies this`log, this`book, status, unsold, unsoldNumbers.words
      ensures Valid()
      ensures v == ConfirmVerdict(old(book), id, who, now)
      ensures v == TicketNotFound <==> !(0 <= id < status.Length)
      ensures v == NotHeld <==> 0 <= id < status.Length && (old(status[id]) != Reserved || old(holder[id]) != who)
      ensures v == LeaseExpired <==>
        0 <= id < status.Length && old(status[id]) == Reserved && old(holder[id]) == who && now > old(leaseUntil[id])
      ensures v == Success ==> book == old(book)[id := Taken] && log == Then(old(log), Confirmed(id, who, now))
      ensures v == Success ==> status[..] == old(status[..])[id := Sold]
      ensures v != Success ==> book == old(book) && log == old(log) && status[..] == old(status[..])
    {
      BookSays(id);
      if id < 0 || id >= status.Length {
        return TicketNotFound;
      }
      if status[id] != Reserved || holder[id] != who {
        return NotHeld;
      }
      if now > leaseUntil[id] {
        return LeaseExpired;
      }
      Sell(id, now);
      v := Success;
    }

    /** The sale itself; holder and lease stay on record. */
    method Sell(id: int, now: int)
      requires Valid() && 0 <= id < status.Length && status[id] == Reserved && now <= leaseUntil[id]
      modifies this`log, this`book, status, unsold, unsoldNumbers.words
      ensures Valid()
      ensures book == old(book)[id := Taken] && log == Then(old(log), Confirmed(id, holder[id], now))
      ensures status[..] == old(status[..])[id := Sold]
    {
      BookSays(id);
      ghost var who, n, counters, bits := holder[id], numberOf[id], unsold[..], unsoldNumbers.Members();
      TallyAfterSale(book, carries, counters, bits, space, id, n);
      WriteSold(id);
      assert unsold[..] == counters && unsoldNumbers.Members() == bits;
      CountSale(numberOf[id]);
      log := Then(log, Confirmed(id, who, now));
    }

    /** The counter of the sold ticket's number goes down by one; its bit goes with the last one. */
    method CountSale(n: nat)
      requires Shape() && n < unsold.Length
      modifies unsold, unsoldNumbers.words
      ensures unsold[..] == old(unsold[..])[n := OneFewer(old(unsold[n]))]
      ensures unsoldNumbers.Members() ==
        if unsold[n] == 0 then old(unsoldNumbers.Members()) - {n} else old(unsoldNumbers.Members())
    {
      unsold[n] := (unsold[n] + COUNTER_MODULUS - 1) % COUNTER_MODULUS;
      if unsold[n] == 0 {
        unsoldNumbers.Clear(n);
      }
    }

    /** A release leaves the old lease time behind, unread. */
    method Release(id: int, who: string) returns (v: Verdict)
      requires Valid()
      modifies this`log, this`book, status, holder, leaseUntil
      ensures Valid()
      ensures v == ReleaseVerdict(old(book), id, who)
      ensures v == TicketNotFound <==> !(0 <= id < status.Length)
      ensures v == NotHeld <==> 0 <= id < status.Length && (old(status[id]) != Reserved || old(holder[id]) != who)
      ensures v == Success ==> book == old(book)[id := Free] && log == Then(old(log), Released(id, who))
      ensures v == Success ==> status[..] == old(status[..])[id := Available] && holder[..] == old(holder[..])[id := ""]
      ensures v != Success ==> book == old(book) && log == old(log)
      ensures v != Success ==> status[..] == old(status[..]) && holder[..] == old(holder[..])
      ensures leaseUntil[..] == old(leaseUntil[..])
    {
      BookSays(id);
      if id < 0 || id >= status.Length {
        return TicketNotFound;
      }
      if status[id] != Reserved || holder[id] != who {
        return NotHeld;
      }
      TallyAfterMove(book, carries, unsold[..], unsoldNumbers.Members(), space, id, Free);
      Write(id, Available, "", leaseUntil[id]);
      log := Then(log, Released(id, who));
      v := Success;
    }

    /** The innermost loop of claimPass, for one ticket: reserve it if it is claimable. */
    method ClaimTicket(id: int, n: nat, o: Order, out: seq<Reservation>, ghost limit: nat, ghost from: Stage,
        ghost given: Ids)
      returns (all: seq<Reservation>, took: bool)
      requires Valid() && id in carries && carries[id] == n && id in from.book && book[id] == from.book[id]
      requires Stage(book, log, out) == Handed(from, given, carries, o) && given.Len() < limit
      modifies this`log, this`book, status, holder, leaseUntil
      ensures Valid()
      ensures Stage(book, log, all) == Handed(from, PickOne(from.book, id, limit, o.now, given), carries, o)
      ensures |all| == |out| + if took then 1 else 0
    {
      BookSays(id);
      took := ClaimableNow(id, o.now);
      if took {
        ReserveOne(id, o.holder, o.now, o.until);
        all := out + [Reservation(id, n, o.until)];
      } else {
        all := out;
      }
    }

    /** Part way through a number's block: the first q tickets have been considered. */
    ghost predicate InBlock(from: Stage, given: Ids, block: seq<int>, q: nat, limit: nat, o: Order,
        out: seq<Reservation>)
      reads this`book, this`log
      requires q <= |block|
    {
      Stage(book, log, out) == Handed(from, Pick(from.book, block, q, limit, o.now, given), carries, o)
    }

    method ClaimNext(n: nat, block: seq<int>, q: nat, o: Order, out: seq<Reservation>, ghost limit: nat,
        ghost from: Stage, ghost given: Ids, ghost next: nat)
      returns (all: seq<Reservation>, took: bool)
      requires Valid() && n < space && block == BlockOf(index, n) && q < |block| && next == q + 1
      requires from.book.Keys == carries.Keys && NoneCarries(given, carries, n)
      requires InBlock(from, given, block, q, limit, o, out) && |out| < |from.out| + limit
      modifies this`log, this`book, status, holder, leaseUntil
      ensures Valid() && |all| == |out| + if took then 1 else 0
      ensures InBlock(from, given, block, next, limit, o, all)
    {
      ghost var soFar := Pick(from.book, block, q, limit, o.now, given);
      StockedAt(index, carries, space, n);
      HandedLen(from, soFar, carries, o);
      NextOfBlock(block, n, q, limit, carries, from, given, o);
      all, took := ClaimTicket(block[q], n, o, out, limit, from, soFar);
    }

    /** The innermost loop of claimPass: up to the limit from one number's block, in block order. */
    method ClaimNumber(n: nat, o: Order, out: seq<Reservation>, ghost from: Stage, ghost given: Ids)
      returns (all: seq<Reservation>)
      requires Valid() && n < space && |from.out| <= |out| <= o.k && from.book.Keys == carries.Keys
      requires Stage(book, log, out) == Handed(from, given, carries, o) && NoneCarries(given, carries, n)
      modifies this`log, this`book, status, holder, leaseUntil
      ensures Valid() && |from.out| <= |all| <= o.k
      ensures var block := BlockOf(index, n);
        InBlock(from, given, block, |block|, Limit(given.Len(), Need(from, o), o.perNumber), o, all)
    {
      CoveredAt(index, carries, space, n);
      var block := index.TicketsFor(n);
      all := out;
      var taken := 0;
      ghost var limit := Limit(given.Len(), Need(from, o), o.perNumber);
      ghost var most := |from.out| + limit;
      HandedLen(from, given, carries, o);
      assert |out| == |from.out| + given.Len();
      for q := 0 to |block|
        invariant Valid() && |all| == |out| + taken && |all| <= most
        invariant InBlock(from, given, block, q, limit, o, all)
      {
        LimitReached(from, o, given.Len(), taken, |all|, most);
        if |all| == o.k || (o.perNumber > 0 && taken == o.perNumber) {
          BlockFull(from, given, block, q, limit, o, all);
          return;
        }
        ghost var next := q + 1;
        var took;
        all, took := ClaimNext(n, block, q, o, all, limit, from, given, next);
        taken := if took then taken + 1 else taken;
      }
    }

    /** The two exit conditions of the loop say that the limit is reached. */
    lemma LimitReached(from: Stage, o: Order, given: nat, taken: nat, len: nat, most: nat)
      requires most == |from.out| + Limit(given, Need(from, o), o.perNumber) && |from.out| <= o.k
      requires len == |from.out| + given + taken <= most
      ensures len == o.k || (o.perNumber > 0 && taken == o.perNumber) <==> len == most
    {
    }

    lemma {:induction false} BlockFull(from: Stage, given: Ids, block: seq<int>, q: nat, limit: nat, o: Order,
        out: seq<Reservation>)
      requires q <= |block| && InBlock(from, given, block, q, limit, o, out) && |out| >= |from.out| + limit
      ensures InBlock(from, given, block, |block|, limit, o, out)
    {
      HandedLen(from, Pick(from.book, block, q, limit, o.now, given), carries, o);
      PickFull(from.book, block, q, |block|, limit, o.now, given);
    }

    /** One candidate number, the m-th of the walk: skipped when its bit is clear. */
    method ClaimCandidate(n: nat, o: Order, out: seq<Reservation>, ghost from: Stage, ghost walk: seq<nat>,
        ghost blocks: seq<seq<int>>, ghost m: nat, ghost next: nat)
      returns (all: seq<Reservation>)
      requires Valid() && from.book.Keys == carries.Keys && |from.out| <= |out| <= o.k && next == m + 1
      requires m < |walk| == |blocks| && Stops(index, space, walk, blocks, |walk|) && walk[m] == n
      requires Stage(book, log, out) == CourseTo(from, blocks, m, carries, o)
      modifies this`log, this`book, status, holder, leaseUntil
      ensures Valid() && |from.out| <= |all| <= o.k
      ensures Stage(book, log, all) == CourseTo(from, blocks, next, carries, o)
    {
      ghost var need := Need(from, o);
      ghost var given := ChooseTo(from.book, blocks, m, need, o.perNumber, o.now);
      EveryStop(index, space, walk, blocks, |walk|, m);
      TakenEarlier(index, space, carries, from.book, walk, blocks, m, need, o.perNumber, o.now);
      var stocked := unsoldNumbers.Test(n);
      if !stocked {
        SoldOut(n, from, given, Limit(given.Len(), need, o.perNumber), o);
        all := out;
      } else {
        all := ClaimNumber(n, o, out, from, given);
      }
    }

    lemma {:induction false} SoldOut(n: nat, from: Stage, given: Ids, limit: nat, o: Order)
      requires Valid() && from.book.Keys == carries.Keys && n < space && n !in unsoldNumbers.Members()
      requires book == Handed(from, given, carries, o).book
      ensures var block := BlockOf(index, n); Pick(from.book, block, |block|, limit, o.now, given) == given
    {
      StockedAt(index, carries, space, n);
      TalliedAt(book, carries, unsold[..], unsoldNumbers.Members(), space, n);
      ClearBitHidesNothing(BlockOf(index, n), n, carries, from, given, limit, o);
    }

    /** The middle loop of claimPass: one batch of candidate numbers, `at` being its place on the walk. */
    method ClaimBatch(batch: seq<nat>, o: Order, out: seq<Reservation>, ghost from: Stage, ghost walk: seq<nat>,
        ghost blocks: seq<seq<int>>, ghost at: nat, ghost to: nat)
      returns (all: seq<Reservation>)
      requires Valid() && from.book.Keys == carries.Keys && |from.out| <= |out| <= o.k
      requires at + |batch| == to <= |walk| == |blocks| && Stops(index, space, walk, blocks, |walk|) &&
        Stretch(batch, walk, at)
      requires Stage(book, log, out) == CourseTo(from, blocks, at, carries, o)
      modifies this`log, this`book, status, holder, leaseUntil
      ensures Valid() && |from.out| <= |all| <= o.k
      ensures Stage(book, log, all) == CourseTo(from, blocks, to, carries, o)
    {
      all := out;
      ghost var here := at;
      for q := 0 to |batch|
        invariant Valid() && |from.out| <= |all| <= o.k && here == at + q
        invariant Stage(book, log, all) == CourseTo(from, blocks, here, carries, o)
      {
        if |all| == o.k {
          CourseFull(from, blocks, here, to, carries, o);
          return;
        }
        ghost var next := here + 1;
        all := ClaimCandidate(batch[q], o, all, from, walk, blocks, here, next);
        here := next;
      }
    }

    /** The outer loop body of claimPass: fetch one batch and work through it. */
    method ClaimRound(cands: Candidates, o: Order, out: seq<Reservation>, ghost from: Stage,
        ghost blocks: seq<seq<int>>)
      returns (all: seq<Reservation>, finished: bool)
      requires Valid() && from.book.Keys == carries.Keys && |from.out| <= |out| <= o.k
      requires cands.Valid() && |blocks| == |cands.Stream()| && Stops(index, space, cands.Stream(), blocks, |blocks|)
      requires Stage(book, log, out) == CourseTo(from, blocks, cands.w.i, carries, o)
      modifies this`log, this`book, status, holder, leaseUntil, cands.w`i
      ensures Valid() && cands.Valid() && old(cands.w.i) <= cands.w.i && |from.out| <= |all| <= o.k
      ensures if finished then old(cands.w.i) == cands.w.i == |blocks| else old(cands.w.i) < cands.w.i
      ensures cands.w.i == Min(old(cands.w.i) + BATCH_SIZE, |blocks|)
      ensures Stage(book, log, all) == CourseTo(from, blocks, cands.w.i, carries, o)
    {
      ghost var at := cands.w.i;
      var batch := cands.NextBatch(BATCH_SIZE);
      all, finished := out, |batch| == 0;
      if !finished {
        StretchOf(batch, cands.Stream(), at);
        all := ClaimBatch(batch, o, out, from, cands.Stream(), blocks, at, cands.w.i);
      }
    }

    /** The outer loop of claimPass. `seen` numbers of the walk were visited, or made no difference because the pass
        was full: all of them while the context is live, 64 for each check before the one that finds it ended. */
    method ClaimRounds(cands: Candidates, o: Order, out: seq<Reservation>, cancelled: nat -> bool,
        ghost blocks: seq<seq<int>>)
      returns (all: seq<Reservation>, ghost seen: nat)
      requires Valid() && |out| <= o.k
      requires cands.Valid() && cands.w.i == 0
      requires |blocks| == |cands.Stream()| && Stops(index, space, cands.Stream(), blocks, |blocks|)
      modifies this`log, this`book, status, holder, leaseUntil, cands.w`i
      ensures Valid() && |out| <= |all| <= o.k
      ensures seen == Visits(cancelled, |blocks|) <= |blocks|
      ensures Stage(book, log, all) == CourseTo(Stage(old(book), old(log), out), blocks, seen, carries, o)
    {
      ghost var from, due := Stage(book, log, out), 0;
      seen := Visits(cancelled, |blocks|);
      VisitsSoFar(cancelled, |blocks|, 0, 0);
      all := out;
      var checks := 0;
      while |all| < o.k
        invariant Valid() && |out| <= |all| <= o.k && LiveFor(cancelled, checks)
        invariant cands.Valid() && due == 64 * checks && cands.w.i == Min(due, |blocks|) <= seen
        invariant Stage(book, log, all) == CourseTo(from, blocks, cands.w.i, carries, o)
        decreases |blocks| - cands.w.i
      {
        VisitsSoFar(cancelled, |blocks|, checks, due);
        if cancelled(checks) {
          return;
        }
        checks, due := checks + 1, due + 64;
        var finished;
        all, finished := ClaimRound(cands, o, all, from, blocks);
        VisitsSoFar(cancelled, |blocks|, checks, due);
        if finished {
          return;
        }
      }
      CourseFull(from, blocks, cands.w.i, seen, carries, o);
    }

    /** One walk over the match set. */
    method ClaimPass(p: Pattern, o: Order, out: seq<Reservation>, seed: Seed, cancelled: nat -> bool,
        ghost blocks: seq<seq<int>>)
      returns (all: seq<Reservation>, ghost seen: nat)
      requires Valid() && |out| <= o.k && SeedFor(MatchCount(p), seed) && InRange(digits, p)
      requires |blocks| == MatchCount(p) && Stops(index, space, NumberWalk(digits, p, seed), blocks, |blocks|)
      modifies this`log, this`book, status, holder, leaseUntil
      ensures Valid() && |out| <= |all| <= o.k
      ensures seen == Visits(cancelled, |blocks|) <= |blocks|
      ensures Stage(book, log, all) == CourseTo(Stage(old(book), old(log), out), blocks, seen, carries, o)
    {
      var cands := new Candidates(digits, p, seed);
      all, seen := ClaimRounds(cands, o, out, cancelled, blocks);
    }

    /** The second pass, needed only if the first one could not fill the request. */
    method TopUp(p: Pattern, o: Order, out: seq<Reservation>, seed: Seed, cancelled: nat -> bool,
        ghost blocks: seq<seq<int>>)
      returns (all: seq<Reservation>, ghost seen: nat)
      requires Valid() && |out| <= o.k && SeedFor(MatchCount(p), seed) && InRange(digits, p)
      requires |blocks| == MatchCount(p) && Stops(index, space, NumberWalk(digits, p, seed), blocks, |blocks|)
      modifies this`log, this`book, status, holder, leaseUntil
      ensures Valid()
      ensures seen == Visits(cancelled, |blocks|) <= |blocks|
      ensures Stage(book, log, all) == CourseTo(Stage(old(book), old(log), out), blocks, seen, carries, o)
    {
      if |out| < o.k {
        all, seen := ClaimPass(p, o, out, seed, cancelled, blocks);
      } else {
        VisitsFacts(cancelled, |blocks|);
        all, seen := out, Visits(cancelled, |blocks|);
        NoTopUp(Stage(book, log, out), blocks, seen, carries, o);
      }
    }

    /** One ticket per number first, then a top-up without that limit. `given` are the tickets handed out, in order:
        what the two passes choose along the first m1 and m2 numbers of the walks of the two seeds. */
    method BothPasses(p: Pattern, o: Order, seed1: Seed, seed2: Seed, cancelled1: nat -> bool, cancelled2: nat -> bool)
      returns (out: seq<Reservation>, ghost given: Ids, ghost m1: nat, ghost m2: nat)
      requires Valid() && IsParsed(digits, p) && InRange(digits, p) && o.perNumber == 1
      requires SeedFor(MatchCount(p), seed1) && SeedFor(MatchCount(p), seed2)
      modifies this`log, this`book, status, holder, leaseUntil
      ensures Valid() && m1 == Visits(cancelled1, MatchCount(p)) <= MatchCount(p)
      ensures m2 == Visits(cancelled2, MatchCount(p)) <= MatchCount(p)
      ensures given == GivenTo(old(book), Route(index, digits, p, seed1), m1, Route(index, digits, p, seed2), m2, o)
      ensures Effect(Stage(old(book), old(log), []), Stage(book, log, out), given, carries, o)
      ensures forall id :: id in given.Members() ==> id in old(book)
      ensures o.until >= o.now ==> Sound(given, o.k, Scan(old(book), carries, Matching(digits, p), o.now))
      ensures o.until >= o.now && m1 == m2 == MatchCount(p) ==>
        Optimal(given, o.k, Scan(old(book), carries, Matching(digits, p), o.now), carries)
    {
      var o2 := o.(perNumber := 0);
      ghost var from := Stage(book, log, []);
      ghost var b1 := RouteStops(index, carries, digits, p, seed1);
      ghost var b2 := RouteStops(index, carries, digits, p, seed2);
      var first;
      first, m1 := ClaimPass(p, o, [], seed1, cancelled1, b1);
      ghost var mid := Stage(book, log, first);
      out, m2 := TopUp(p, o2, first, seed2, cancelled2, b2);
      given := ClaimSummary(from, mid, Stage(book, log, out), index, carries, digits, p, seed1, b1, m1, seed2, b2, m2,
        o, o2);
    }

    /** The passes see the whole walk while the context is live, and 64 numbers for each check before the one that finds
        it ended. A negative k panics before anything is touched. */
    method Claim(p: Pattern, k: int, who: string, now: int, lease: int, seed1: Seed, seed2: Seed,
        cancelled1: nat -> bool, cancelled2: nat -> bool)
      returns (out: seq<Reservation>, panics: bool, ghost given: Ids, ghost m1: nat, ghost m2: nat)
      requires Valid() && IsParsed(digits, p) && InRange(digits, p)
      requires SeedFor(MatchCount(p), seed1) && SeedFor(MatchCount(p), seed2)
      modifies this`log, this`book, status, holder, leaseUntil
      ensures Valid() && m1 <= MatchCount(p) && m2 <= MatchCount(p)
      ensures panics <==> k < 0
      ensures panics ==> book == old(book) && log == old(log) && out == []
      ensures !panics && NeverCancelled(cancelled1) ==> m1 == MatchCount(p)
      ensures !panics && NeverCancelled(cancelled2) ==> m2 == MatchCount(p)
      ensures !panics ==> forall i: nat :: EndsAt(cancelled1, i) ==> m1 == Min(64 * i, MatchCount(p))
      ensures !panics ==> forall i: nat :: EndsAt(cancelled2, i) ==> m2 == Min(64 * i, MatchCount(p))
      ensures cancelled1(0) && cancelled2(0) ==> out == [] && book == old(book) && log == old(log)
      ensures !panics ==>
        given == GivenTo(old(book), Route(index, digits, p, seed1), m1, Route(index, digits, p, seed2), m2,
                         Order(k, 1, who, now, now + lease))
      ensures !panics ==> Effect(Stage(old(book), old(log), []), Stage(book, log, out), given, carries,
        Order(k, 1, who, now, now + lease))
      ensures AllNamed(out, book, numberOf, who, now + lease)
      ensures !panics && lease >= 0 ==> Sound(given, k, Scan(old(book), carries, Matching(digits, p), now))
      ensures !panics && lease >= 0 && m1 == m2 == MatchCount(p) ==>
        Optimal(given, k, Scan(old(book), carries, Matching(digits, p), now), carries)
    {
      panics, given, m1, m2 := k < 0, Nil, 0, 0;
      if panics {
        return [], true, given, m1, m2;
      }
      var o := Order(k, 1, who, now, now + lease);
      ghost var from := Stage(book, log, []);
      out, given, m1, m2 := BothPasses(p, o, seed1, seed2, cancelled1, cancelled2);
      ReportsNamed(given, given.Members(), from.book, book, numberOf, carries, o);
      ClaimEnds(cancelled1, m1, cancelled2, m2, from, Route(index, digits, p, seed1), Route(index, digits, p, seed2),
        o);
    }
  }
}
