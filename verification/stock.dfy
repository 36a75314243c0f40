/** The value-level side of MemoryStore: what its arrays, counters and index mean, and how a claim moves them. */
module Stock {
  import opened Counting
  import opened TicketIndex
  import opened Ledger
  import opened Allocation

  datatype Status = Available | Reserved | Sold

  datatype Reservation = Reservation(ticketId: int, number: nat, leaseUntil: int)

  function SlotOf(status: Status, holder: string, leaseUntil: int): Slot {
    match status
    case Available => Free
    case Reserved => Held(holder, leaseUntil)
    case Sold => Taken
  }

  // ---------------------------------------------------------------- arrays as a book

  /** What the three arrays say about the first m tickets. */
  function BookTo(status: seq<Status>, holder: seq<string>, lease: seq<int>, m: nat): Book
    requires m <= |status| == |holder| == |lease|
  {
    if m == 0 then map[]
      else BookTo(status, holder, lease, m - 1)[m - 1 := SlotOf(status[m - 1], holder[m - 1], lease[m - 1])]
  }

  function BookOf(status: seq<Status>, holder: seq<string>, lease: seq<int>): Book
    requires |status| == |holder| == |lease|
  {
    BookTo(status, holder, lease, |status|)
  }

  lemma {:induction false} BookAt(status: seq<Status>, holder: seq<string>, lease: seq<int>, m: nat, id: int)
    requires m <= |status| == |holder| == |lease|
    ensures id in BookTo(status, holder, lease, m) <==> 0 <= id < m
    ensures 0 <= id < m ==> BookTo(status, holder, lease, m)[id] == SlotOf(status[id], holder[id], lease[id])
  {
    if m > 0 {
      BookAt(status, holder, lease, m - 1, id);
    }
  }

  lemma {:induction false} BookUpdate(status: seq<Status>, holder: seq<string>, lease: seq<int>, m: nat, i: nat,
      s: Status, h: string, l: int)
    requires m <= |status| == |holder| == |lease| && i < |status|
    ensures var after := BookTo(status[i := s], holder[i := h], lease[i := l], m);
      after == if i < m then BookTo(status, holder, lease, m)[i := SlotOf(s, h, l)]
        else BookTo(status, holder, lease, m)
  {
    if m > 0 {
      BookUpdate(status, holder, lease, m - 1, i, s, h, l);
    }
  }

  /** numbers[id] for the first m tickets, as a map. */
  function NumberTo(numbers: seq<nat>, m: nat): map<int, nat>
    requires m <= |numbers|
  {
    if m == 0 then map[] else NumberTo(numbers, m - 1)[m - 1 := numbers[m - 1]]
  }

  function NumberMap(numbers: seq<nat>): map<int, nat> {
    NumberTo(numbers, |numbers|)
  }

  lemma {:induction false} NumberAtId(numbers: seq<nat>, m: nat, id: int)
    requires m <= |numbers|
    ensures id in NumberTo(numbers, m) <==> 0 <= id < m
    ensures 0 <= id < m ==> NumberTo(numbers, m)[id] == numbers[id]
  {
    if m > 0 {
      NumberAtId(numbers, m - 1, id);
    }
  }

  lemma {:induction false} FreshBook(status: seq<Status>, holder: seq<string>, lease: seq<int>, numbers: seq<nat>)
    requires |status| == |holder| == |lease| == |numbers|
    requires forall i :: 0 <= i < |status| ==> status[i] == Available
    ensures BookOf(status, holder, lease) == Current(NumberMap(numbers).Keys, NoEvents)
  {
    var book, empty := BookOf(status, holder, lease), Current(NumberMap(numbers).Keys, NoEvents);
    forall id ensures id in book <==> id in empty {
      BookAt(status, holder, lease, |status|, id);
      NumberAtId(numbers, |numbers|, id);
    }
    forall id | id in book ensures book[id] == empty[id] {
      BookAt(status, holder, lease, |status|, id);
    }
  }

  // ---------------------------------------------------------------- the index

  /** Every number below m has a block in the index that lists exactly its tickets. */
  ghost predicate Stocked(ix: Index, numberOf: map<int, nat>, m: nat) {
    m == 0 || (Stocked(ix, numberOf, m - 1) && ix.Covers(m - 1) && IsBlock(ix.TicketsFor(m - 1), m - 1, numberOf))
  }

  lemma {:induction false} StockedAt(ix: Index, numberOf: map<int, nat>, m: nat, n: nat)
    requires Stocked(ix, numberOf, m) && n < m
    ensures ix.Covers(n) && IsBlock(ix.TicketsFor(n), n, numberOf)
  {
    if n < m - 1 {
      StockedAt(ix, numberOf, m - 1, n);
    }
  }

  lemma {:induction false} CoveredAt(ix: Index, numberOf: map<int, nat>, m: nat, n: nat)
    requires Stocked(ix, numberOf, m) && n < m
    ensures ix.Covers(n)
  {
    StockedAt(ix, numberOf, m, n);
  }

  lemma {:induction false} StockedIntro(ix: Index, numberOf: map<int, nat>, m: nat)
    requires forall n: nat :: n < m ==> ix.Covers(n) && IsBlock(ix.TicketsFor(n), n, numberOf)
    ensures Stocked(ix, numberOf, m)
  {
    if m > 0 {
      StockedIntro(ix, numberOf, m - 1);
    }
  }

  // ---------------------------------------------------------------- counters and bitmap

  /** The tickets of number n that are not sold: free, reserved or expired alike. */
  ghost function UnsoldOf(book: Book, numberOf: map<int, nat>, n: nat): set<int> {
    set id | id in book && id in numberOf && numberOf[id] == n && !book[id].Taken?
  }

  /** Modulus of the uint16 counters. */
  const COUNTER_MODULUS: nat := 65536

  /** What a uint16 counter shows when n tickets are left. */
  function Counter(n: nat): nat {
    n % COUNTER_MODULUS
  }

  /** A counter started at the number of tickets reaches zero only when the last one is sold: exactly
      up to 65536 tickets per number. */
  lemma {:induction false} CounterFaithful(total: nat)
    ensures total <= COUNTER_MODULUS <==> forall left: nat :: left < total ==> (Counter(left) == 0 <==> left == 0)
  {
    if total > COUNTER_MODULUS {
      assert Counter(COUNTER_MODULUS) == 0;
    }
  }

  lemma {:induction false} CounterStep(total: nat)
    ensures (Counter(total) + 1) % COUNTER_MODULUS == Counter(total + 1)
    ensures (Counter(total + 1) + COUNTER_MODULUS - 1) % COUNTER_MODULUS == Counter(total)
  {
  }

  /** Counter and bit of one number, given its unsold tickets. */
  ghost predicate TallyAt(live: set<int>, counter: nat, bit: bool) {
    && |live| <= COUNTER_MODULUS
    && counter == Counter(|live|)
    && (bit <==> live != {})
  }

  /** Counters and bitmap agree with the tickets, number by number, below m. */
  ghost predicate Tallied(book: Book, numberOf: map<int, nat>, counters: seq<nat>, bits: set<nat>, m: nat)
    requires m <= |counters|
  {
    m == 0 ||
    (Tallied(book, numberOf, counters, bits, m - 1) &&
      TallyAt(UnsoldOf(book, numberOf, m - 1), counters[m - 1], m - 1 in bits))
  }

  lemma {:induction false} TalliedAt(book: Book, numberOf: map<int, nat>, counters: seq<nat>, bits: set<nat>, m: nat,
      n: nat)
    requires n < m <= |counters| && Tallied(book, numberOf, counters, bits, m)
    ensures TallyAt(UnsoldOf(book, numberOf, n), counters[n], n in bits)
  {
    if n < m - 1 {
      TalliedAt(book, numberOf, counters, bits, m - 1, n);
    }
  }

  /** Reserving, releasing and letting expire never move a counter. */
  lemma {:induction false} TallyAfterMove(book: Book, numberOf: map<int, nat>, counters: seq<nat>, bits: set<nat>,
      m: nat, id: int, s: Slot)
    requires m <= |counters| && Tallied(book, numberOf, counters, bits, m)
    requires id in book && !book[id].Taken? && !s.Taken?
    ensures Tallied(book[id := s], numberOf, counters, bits, m)
  {
    if m > 0 {
      TallyAfterMove(book, numberOf, counters, bits, m - 1, id, s);
      assert UnsoldOf(book[id := s], numberOf, m - 1) == UnsoldOf(book, numberOf, m - 1);
    }
  }

  function OneFewer(counter: nat): nat {
    (counter + COUNTER_MODULUS - 1) % COUNTER_MODULUS
  }

  /** A sale moves exactly the counter of the ticket's number, and clears its bit exactly on the last one. */
  lemma {:induction false} TallyAfterSale(book: Book, numberOf: map<int, nat>, counters: seq<nat>, bits: set<nat>,
      m: nat, id: int, n: nat)
    requires m <= |counters| && Tallied(book, numberOf, counters, bits, m)
    requires id in book && !book[id].Taken? && id in numberOf && numberOf[id] == n < |counters|
    ensures var c := OneFewer(counters[n]);
      Tallied(book[id := Taken], numberOf, counters[n := c], if c == 0 then bits - {n} else bits, m)
  {
    if m > 0 {
      TallyAfterSale(book, numberOf, counters, bits, m - 1, id, n);
      var live := UnsoldOf(book, numberOf, m - 1);
      if m - 1 == n {
        assert UnsoldOf(book[id := Taken], numberOf, n) == live - {id} && id in live;
        CounterStep(|live| - 1);
        LastOne(live, id);
      } else {
        assert UnsoldOf(book[id := Taken], numberOf, m - 1) == live;
      }
    }
  }

  lemma {:induction false} LastOne(live: set<int>, id: int)
    requires id in live && |live| <= COUNTER_MODULUS
    ensures |live - {id}| == |live| - 1
    ensures Counter(|live| - 1) == 0 <==> live - {id} == {}
  {
  }

  /** Counters and bits as loading leaves them: one per ticket of the block. */
  ghost predicate FreshCount(block: seq<int>, counter: nat, bit: bool) {
    |block| <= COUNTER_MODULUS && counter == Counter(|block|) && (bit <==> block != [])
  }

  lemma {:induction false} TallyFresh(book: Book, numbers: map<int, nat>, counters: seq<nat>, bits: set<nat>,
      ix: Index, m: nat)
    requires m <= |counters| && Stocked(ix, numbers, m)
    requires forall n: nat :: n < m ==> ix.Covers(n) && FreshCount(ix.TicketsFor(n), counters[n], n in bits)
    requires book.Keys == numbers.Keys && forall id :: id in book ==> book[id] == Free
    ensures Tallied(book, numbers, counters, bits, m)
  {
    if m > 0 {
      TallyFresh(book, numbers, counters, bits, ix, m - 1);
      FreshStock(ix.TicketsFor(m - 1), m - 1, numbers, book);
    }
  }

  lemma {:induction false} FreshStock(block: seq<int>, n: nat, numbers: map<int, nat>, book: Book)
    requires IsBlock(block, n, numbers) && book.Keys == numbers.Keys
    requires forall id :: id in book ==> book[id] == Free
    ensures UnsoldOf(book, numbers, n) == ToSet(block)
    ensures |UnsoldOf(book, numbers, n)| == |block|
    ensures UnsoldOf(book, numbers, n) == {} <==> block == []
  {
    NoDuplicatesSize(block);
    var unsold := UnsoldOf(book, numbers, n);
    forall id ensures id in unsold <==> id in ToSet(block) {
      if id in block {
        assert id in numbers.Keys;
      }
    }
  }

  // ---------------------------------------------------------------- handing out tickets

  /** The parameters of claimPass that stay fixed: how many in all, how many per number, for whom, when, until when. */
  datatype Order = Order(k: nat, perNumber: nat, holder: string, now: int, until: int)

  /** Book, log and reservations at one moment of a claim. */
  datatype Stage = Stage(book: Book, log: History, out: seq<Reservation>)

  /** The stage after handing out these tickets, in order, and doing nothing else. */
  function Handed(from: Stage, given: Ids, numberOf: map<int, nat>, o: Order): Stage {
    if given.Nil? then from else HandOver(Handed(from, given.front, numberOf, o), given.last, numberOf, o)
  }

  function HandOver(s: Stage, id: int, numberOf: map<int, nat>, o: Order): Stage {
    Stage(s.book[id := Held(o.holder, o.until)],
          Then(s.log, Claimed(id, o.holder, o.now, o.until)),
          s.out + [Reservation(id, NumberFor(numberOf, id), o.until)])
  }

  lemma {:induction false} HandedLen(from: Stage, given: Ids, numberOf: map<int, nat>, o: Order)
    ensures |Handed(from, given, numberOf, o).out| == |from.out| + given.Len()
  {
    if given.Snoc? {
      HandedLen(from, given.front, numberOf, o);
    }
  }

  lemma {:induction false} HandedElsewhere(from: Stage, given: Ids, numberOf: map<int, nat>, o: Order, id: int)
    requires id in from.book && id !in given.Members()
    ensures id in Handed(from, given, numberOf, o).book && Handed(from, given, numberOf, o).book[id] == from.book[id]
  {
    if given.Snoc? {
      HandedElsewhere(from, given.front, numberOf, o, id);
    }
  }

  lemma {:induction false} HandedNeverTaken(from: Stage, given: Ids, numberOf: map<int, nat>, o: Order, id: int)
    requires id in from.book
    ensures id in Handed(from, given, numberOf, o).book
    ensures Handed(from, given, numberOf, o).book[id].Taken? ==> from.book[id].Taken?
  {
    if given.Snoc? {
      HandedNeverTaken(from, given.front, numberOf, o, id);
    }
  }

  /** Two passes of one claim are one hand-out. */
  lemma {:induction false} HandedTwice(from: Stage, first: Ids, second: Ids, numberOf: map<int, nat>, o: Order,
      o2: Order)
    requires o.holder == o2.holder && o.now == o2.now && o.until == o2.until
    ensures Handed(Handed(from, first, numberOf, o), second, numberOf, o2) ==
      Handed(from, Join(first, second), numberOf, o)
  {
    if second.Snoc? {
      HandedTwice(from, first, second.front, numberOf, o, o2);
    }
  }

  /** The reservations reported for these tickets. */
  function Reservations(given: Ids, numberOf: map<int, nat>, until: int): seq<Reservation> {
    if given.Nil? then []
    else Reservations(given.front, numberOf, until) + [Reservation(given.last, NumberFor(numberOf, given.last), until)]
  }

  lemma GrantOne(book: Book, ids: set<int>, id: int, holder: string, until: int)
    requires id in book
    ensures Grant(book, ids + {id}, holder, until) == Grant(book, ids, holder, until)[id := Held(holder, until)]
  {
  }

  /** Handing out tickets is a grant in the book and one reservation each in the result. */
  lemma {:induction false} HandedIsGrant(from: Stage, given: Ids, numberOf: map<int, nat>, o: Order)
    requires forall id :: id in given.Members() ==> id in from.book
    ensures Handed(from, given, numberOf, o).book == Grant(from.book, given.Members(), o.holder, o.until)
    ensures Handed(from, given, numberOf, o).out == from.out + Reservations(given, numberOf, o.until)
  {
    if given.Nil? {
      assert Grant(from.book, {}, o.holder, o.until) == from.book;
    } else {
      HandedIsGrant(from, given.front, numberOf, o);
      GrantOne(from.book, given.front.Members(), given.last, o.holder, o.until);
    }
  }

  // ---------------------------------------------------------------- the route of a pass

  /** The ids carrying number n. */
  function BlockOf(ix: Index, n: nat): seq<int> {
    if ix.Covers(n) then ix.TicketsFor(n) else []
  }

  /** The first m numbers of a walk through the stock: a new one at each step, with its whole block. */
  ghost predicate Stops(ix: Index, space: nat, walk: seq<nat>, blocks: seq<seq<int>>, m: nat)
    requires m <= |walk| == |blocks|
  {
    m == 0 || (Stops(ix, space, walk, blocks, m - 1) && StopAt(ix, space, walk, blocks, m - 1))
  }

  ghost predicate StopAt(ix: Index, space: nat, walk: seq<nat>, blocks: seq<seq<int>>, i: nat)
    requires i < |walk| == |blocks|
  {
    walk[i] < space && NewAt(walk, i, i) && blocks[i] == BlockOf(ix, walk[i])
  }

  /** walk[i] differs from the first j numbers of the walk. */
  ghost predicate NewAt(walk: seq<nat>, i: nat, j: nat)
    requires i < |walk| && j <= |walk|
  {
    j == 0 || (NewAt(walk, i, j - 1) && walk[j - 1] != walk[i])
  }

  lemma {:induction false} NewMeansDifferent(walk: seq<nat>, i: nat, j: nat, k: nat)
    requires i < |walk| && k < j <= |walk| && NewAt(walk, i, j)
    ensures walk[k] != walk[i]
  {
    if k < j - 1 {
      NewMeansDifferent(walk, i, j - 1, k);
    }
  }

  lemma {:induction false} NewIntro(walk: seq<nat>, i: nat, j: nat)
    requires NoDuplicates(walk) && j <= i < |walk|
    ensures NewAt(walk, i, j)
  {
    if j > 0 {
      NewIntro(walk, i, j - 1);
    }
  }

  lemma {:induction false} EveryStop(ix: Index, space: nat, walk: seq<nat>, blocks: seq<seq<int>>, m: nat, i: nat)
    requires i < m <= |walk| == |blocks| && Stops(ix, space, walk, blocks, m)
    ensures StopAt(ix, space, walk, blocks, i)
  {
    if i < m - 1 {
      EveryStop(ix, space, walk, blocks, m - 1, i);
    }
  }

  /** The blocks along a walk. */
  function BlocksAlong(ix: Index, walk: seq<nat>): (r: seq<seq<int>>)
    ensures |r| == |walk|
  {
    seq(|walk|, i requires 0 <= i < |walk| => BlockOf(ix, walk[i]))
  }

  lemma {:induction false} StopIntro(ix: Index, space: nat, walk: seq<nat>, i: nat)
    requires NoDuplicates(walk) && i < |walk| && walk[i] < space
    ensures StopAt(ix, space, walk, BlocksAlong(ix, walk), i)
  {
    NewIntro(walk, i, i);
  }

  lemma {:induction false} StopsIntro(ix: Index, space: nat, walk: seq<nat>, m: nat)
    requires m <= |walk| && NoDuplicates(walk) && forall i :: 0 <= i < |walk| ==> walk[i] < space
    ensures Stops(ix, space, walk, BlocksAlong(ix, walk), m)
  {
    if m > 0 {
      StopsIntro(ix, space, walk, m - 1);
      StopIntro(ix, space, walk, m - 1);
    }
  }

  /** A complete route is a walk in the sense of the allocation lemmas. */
  lemma {:induction false} RouteIsWalk(ix: Index, space: nat, numberOf: map<int, nat>, walk: seq<nat>,
      blocks: seq<seq<int>>)
    requires |walk| == |blocks| && Stops(ix, space, walk, blocks, |walk|) && Stocked(ix, numberOf, space)
    ensures WalkOf(blocks, walk, numberOf)
  {
    forall i | 0 <= i < |walk| ensures IsBlock(blocks[i], walk[i], numberOf) {
      EveryStop(ix, space, walk, blocks, |walk|, i);
      StockedAt(ix, numberOf, space, walk[i]);
    }
    forall i, j | 0 <= i < j < |walk| ensures walk[i] != walk[j] {
      EveryStop(ix, space, walk, blocks, |walk|, j);
      NewMeansDifferent(walk, j, j, i);
    }
  }

  /** How many tickets the order still lacks. */
  function Need(from: Stage, o: Order): nat {
    Remaining(o.k, |from.out|)
  }

  /** The stage after a pass has visited the first m numbers of its walk. */
  function CourseTo(from: Stage, blocks: seq<seq<int>>, m: nat, numberOf: map<int, nat>, o: Order): Stage
    requires m <= |blocks|
  {
    Handed(from, ChooseTo(from.book, blocks, m, Need(from, o), o.perNumber, o.now), numberOf, o)
  }

  /** Once the pass is full the rest of the walk makes no difference. */
  lemma {:induction false} CourseFull(from: Stage, blocks: seq<seq<int>>, m: nat, j: nat, numberOf: map<int, nat>,
      o: Order)
    requires m <= j <= |blocks|
    requires |CourseTo(from, blocks, m, numberOf, o).out| >= o.k
    ensures CourseTo(from, blocks, j, numberOf, o) == CourseTo(from, blocks, m, numberOf, o)
  {
    HandedLen(from, ChooseTo(from.book, blocks, m, Need(from, o), o.perNumber, o.now), numberOf, o);
    ChooseFull(from.book, blocks, m, j, Need(from, o), o.perNumber, o.now);
  }

  /** None of these tickets carries number n. */
  ghost predicate NoneCarries(given: Ids, numberOf: map<int, nat>, n: nat) {
    given.Nil? || (NoneCarries(given.front, numberOf, n) && !(given.last in numberOf && numberOf[given.last] == n))
  }

  lemma {:induction false} NoneCarriesMembers(given: Ids, numberOf: map<int, nat>, n: nat)
    ensures NoneCarries(given, numberOf, n) <==>
      forall id :: id in given.Members() ==> !(id in numberOf && numberOf[id] == n)
  {
    if given.Snoc? {
      NoneCarriesMembers(given.front, numberOf, n);
      if NoneCarries(given.front, numberOf, n) && given.last in numberOf && numberOf[given.last] == n {
        assert given.last in given.Members();
      }
    }
  }

  /** Tickets taken from earlier numbers of the walk do not carry the next one. */
  lemma {:induction false} TakenEarlier(ix: Index, space: nat, numberOf: map<int, nat>, start: Book, walk: seq<nat>,
      blocks: seq<seq<int>>, i: nat, need: nat, perNumber: nat, now: int)
    requires i < |walk| == |blocks| && Stops(ix, space, walk, blocks, |walk|) && Stocked(ix, numberOf, space)
    ensures NoneCarries(ChooseTo(start, blocks, i, need, perNumber, now), numberOf, walk[i])
  {
    RouteIsWalk(ix, space, numberOf, walk, blocks);
    ChooseSound(start, numberOf, blocks, walk, i, need, perNumber, now);
    FirstIsNew(walk, i);
    NoneCarriesMembers(ChooseTo(start, blocks, i, need, perNumber, now), numberOf, walk[i]);
  }

  /** The next ticket of a block has not been touched by this pass. */
  lemma {:induction false} NextOfBlock(block: seq<int>, n: nat, q: nat, limit: nat, numberOf: map<int, nat>,
      from: Stage, given: Ids, o: Order)
    requires IsBlock(block, n, numberOf) && q < |block| && from.book.Keys == numberOf.Keys
    requires NoneCarries(given, numberOf, n)
    ensures var id, soFar := block[q], Pick(from.book, block, q, limit, o.now, given);
      && id in numberOf && numberOf[id] == n && id in from.book
      && id in Handed(from, soFar, numberOf, o).book && Handed(from, soFar, numberOf, o).book[id] == from.book[id]
  {
    var id, soFar := block[q], Pick(from.book, block, q, limit, o.now, given);
    assert id in block;
    assert id in numberOf.Keys;
    NoneCarriesMembers(given, numberOf, n);
    PickMembers(from.book, block, q, limit, o.now, given);
    HandedElsewhere(from, soFar, numberOf, o, id);
  }

  /** A clear bit hides nothing: if every ticket of a number is sold now, none was claimable when the pass began. */
  lemma {:induction false} ClearBitHidesNothing(block: seq<int>, n: nat, numberOf: map<int, nat>, from: Stage,
      given: Ids, limit: nat, o: Order)
    requires IsBlock(block, n, numberOf) && from.book.Keys == numberOf.Keys
    requires UnsoldOf(Handed(from, given, numberOf, o).book, numberOf, n) == {}
    ensures Pick(from.book, block, |block|, limit, o.now, given) == given
  {
    var book := Handed(from, given, numberOf, o).book;
    forall i | 0 <= i < |block| ensures !ClaimableIn(from.book, block[i], o.now) {
      var id := block[i];
      assert id in block;
      assert id in numberOf.Keys;
      assert id !in UnsoldOf(book, numberOf, n);
      HandedNeverTaken(from, given, numberOf, o, id);
    }
    PickNothing(from.book, block, |block|, limit, o.now, given);
  }
}
