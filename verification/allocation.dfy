/** The choice of tickets made by one claim, as a function of the book, and its optimality. */
module Allocation {
  import opened Counting
  import opened Ledger

  /** Ticket ids in the order they were taken. */
  datatype Ids = Nil | Snoc(front: Ids, last: int) {

    function Len(): nat {
      if Nil? then 0 else front.Len() + 1
    }

    function Members(): set<int> {
      if Nil? then {} else front.Members() + {last}
    }

    /** No id was taken twice. */
    predicate Distinct() {
      Nil? || (front.Distinct() && last !in front.Members())
    }
  }

  /** First the tickets of a, then those of b. */
  function Join(a: Ids, b: Ids): Ids {
    if b.Nil? then a else Snoc(Join(a, b.front), b.last)
  }

  lemma {:induction false} JoinFacts(a: Ids, b: Ids)
    ensures Join(a, b).Len() == a.Len() + b.Len()
    ensures Join(a, b).Members() == a.Members() + b.Members()
    ensures a.Distinct() && b.Distinct() && a.Members() !! b.Members() ==> Join(a, b).Distinct()
  {
    if b.Snoc? {
      JoinFacts(a, b.front);
    }
  }

  /** Considers the first q tickets of a block, adding the claimable ones until `limit` have been taken in all. */
  function Pick(book: Book, block: seq<int>, q: nat, limit: nat, now: int, taken: Ids): Ids
    requires q <= |block|
  {
    if q == 0 then taken else PickOne(book, block[q - 1], limit, now, Pick(book, block, q - 1, limit, now, taken))
  }

  function PickOne(book: Book, id: int, limit: nat, now: int, taken: Ids): Ids {
    if taken.Len() < limit && ClaimableIn(book, id, now) then Snoc(taken, id) else taken
  }

  /** How far one more number may bring the total: perNumber == 0 means no limit of its own. */
  function Limit(taken: nat, need: nat, perNumber: nat): nat {
    if perNumber == 0 then need else Min(need, taken + perNumber)
  }

  /** The tickets taken from the first m numbers of a walk, blocks[i] being the tickets of the i-th. */
  function ChooseTo(book: Book, blocks: seq<seq<int>>, m: nat, need: nat, perNumber: nat, now: int): Ids
    requires m <= |blocks|
  {
    if m == 0 then Nil
    else ChooseNext(book, blocks[m - 1], need, perNumber, now, ChooseTo(book, blocks, m - 1, need, perNumber, now))
  }

  function ChooseNext(book: Book, block: seq<int>, need: nat, perNumber: nat, now: int, taken: Ids): Ids {
    Pick(book, block, |block|, Limit(taken.Len(), need, perNumber), now, taken)
  }

  /** The tickets one whole pass takes. */
  function Choose(book: Book, blocks: seq<seq<int>>, need: nat, perNumber: nat, now: int): Ids {
    ChooseTo(book, blocks, |blocks|, need, perNumber, now)
  }

  /** The book after reserving ids. */
  function Grant(book: Book, ids: set<int>, holder: string, until: int): Book {
    map id | id in book :: if id in ids then Held(holder, until) else book[id]
  }

  // ---------------------------------------------------------------- what is there to take

  /** block lists, once each, exactly the tickets carrying number n. */
  ghost predicate IsBlock(block: seq<int>, n: nat, numberOf: map<int, nat>) {
    && NoDuplicates(block)
    && forall id :: id in block <==> id in numberOf && numberOf[id] == n
  }

  /** blocks[i] is the block of the i-th number of a repetition-free walk. */
  ghost predicate WalkOf(blocks: seq<seq<int>>, walk: seq<nat>, numberOf: map<int, nat>) {
    && |blocks| == |walk|
    && NoDuplicates(walk)
    && forall i :: 0 <= i < |blocks| ==> IsBlock(blocks[i], walk[i], numberOf)
  }

  /** The naive scan: every claimable ticket whose number is wanted. */
  ghost function Scan(book: Book, numberOf: map<int, nat>, wanted: set<nat>, now: int): set<int> {
    set id | id in book && ClaimableIn(book, id, now) && id in numberOf && numberOf[id] in wanted
  }

  function NumberFor(numberOf: map<int, nat>, id: int): nat {
    if id in numberOf then numberOf[id] else 0
  }

  ghost function NumbersOf(ids: set<int>, numberOf: map<int, nat>): set<nat> {
    set id | id in ids :: NumberFor(numberOf, id)
  }

  /** The first m numbers of a walk. */
  ghost function First(walk: seq<nat>, m: nat): set<nat>
    requires m <= |walk|
  {
    if m == 0 then {} else First(walk, m - 1) + {walk[m - 1]}
  }

  lemma {:induction false} FirstMembers(walk: seq<nat>, m: nat)
    requires m <= |walk|
    ensures forall n :: n in First(walk, m) <==> exists i :: 0 <= i < m && walk[i] == n
  {
    if m > 0 {
      FirstMembers(walk, m - 1);
      assert walk[m - 1] in First(walk, m);
    }
  }

  lemma {:induction false} WholeWalk(walk: seq<nat>)
    ensures First(walk, |walk|) == ToSet(walk)
  {
    FirstMembers(walk, |walk|);
  }

  lemma {:induction false} FirstIsNew(walk: seq<nat>, m: nat)
    requires NoDuplicates(walk) && m < |walk|
    ensures walk[m] !in First(walk, m)
  {
    FirstMembers(walk, m);
  }

  /** How many of the first q tickets of a block are claimable. */
  function LiveCount(book: Book, block: seq<int>, q: nat, now: int): nat
    requires q <= |block|
  {
    if q == 0 then 0 else LiveCount(book, block, q - 1, now) + (if ClaimableIn(book, block[q - 1], now) then 1 else 0)
  }

  /** The same, over the blocks of the first m numbers of a walk. */
  function TotalLive(book: Book, blocks: seq<seq<int>>, m: nat, now: int): nat
    requires m <= |blocks|
  {
    if m == 0 then 0 else TotalLive(book, blocks, m - 1, now) + LiveCount(book, blocks[m - 1], |blocks[m - 1]|, now)
  }

  /** How many of the first m numbers have a claimable ticket. */
  function LiveNumbers(book: Book, blocks: seq<seq<int>>, m: nat, now: int): nat
    requires m <= |blocks|
  {
    if m == 0 then 0
    else LiveNumbers(book, blocks, m - 1, now) + Min(1, LiveCount(book, blocks[m - 1], |blocks[m - 1]|, now))
  }

  /** One number's part of the scan. */
  ghost function ScanOf(book: Book, numberOf: map<int, nat>, n: nat, now: int): set<int> {
    set id | id in book && ClaimableIn(book, id, now) && id in numberOf && numberOf[id] == n
  }

  lemma {:induction false} LiveCountIsScan(book: Book, block: seq<int>, q: nat, now: int) returns (live: set<int>)
    requires q <= |block| && NoDuplicates(block)
    ensures |live| == LiveCount(book, block, q, now)
    ensures forall id :: id in live <==> ClaimableIn(book, id, now) && exists i :: 0 <= i < q && block[i] == id
  {
    if q == 0 {
      live := {};
    } else {
      live := LiveCountIsScan(book, block, q - 1, now);
      if ClaimableIn(book, block[q - 1], now) {
        live := live + {block[q - 1]};
      }
    }
  }

  lemma {:induction false} BlockScan(book: Book, block: seq<int>, n: nat, numberOf: map<int, nat>, now: int)
    requires IsBlock(block, n, numberOf)
    ensures |ScanOf(book, numberOf, n, now)| == LiveCount(book, block, |block|, now)
  {
    var live := LiveCountIsScan(book, block, |block|, now);
    var scan := ScanOf(book, numberOf, n, now);
    forall id ensures id in live <==> id in scan {
      assert id in block <==> exists i :: 0 <= i < |block| && block[i] == id;
    }
    assert live == scan;
  }

  lemma ScanGrows(book: Book, numberOf: map<int, nat>, wanted: set<nat>, n: nat, now: int)
    requires n !in wanted
    ensures var before, own := Scan(book, numberOf, wanted, now), ScanOf(book, numberOf, n, now);
      && Scan(book, numberOf, wanted + {n}, now) == before + own
      && |Scan(book, numberOf, wanted + {n}, now)| == |before| + |own|
      && NumbersOf(before + own, numberOf) == NumbersOf(before, numberOf) + (if own == {} then {} else {n})
      && n !in NumbersOf(before, numberOf)
  {
    var before, own := Scan(book, numberOf, wanted, now), ScanOf(book, numberOf, n, now);
    assert Scan(book, numberOf, wanted + {n}, now) == before + own;
    assert before !! own;
    OwnNumber(book, numberOf, n, now);
    NumbersUnion(before, own, numberOf);
  }

  lemma OwnNumber(book: Book, numberOf: map<int, nat>, n: nat, now: int)
    ensures var own := ScanOf(book, numberOf, n, now); NumbersOf(own, numberOf) == if own == {} then {} else {n}
  {
    var own := ScanOf(book, numberOf, n, now);
    if id :| id in own {
      assert NumberFor(numberOf, id) in NumbersOf(own, numberOf);
    }
  }

  lemma NumbersUnion(a: set<int>, b: set<int>, numberOf: map<int, nat>)
    ensures NumbersOf(a + b, numberOf) == NumbersOf(a, numberOf) + NumbersOf(b, numberOf)
  {
  }

  /** The two counts along a walk are the size of the scan and the number of numbers in it. */
  lemma {:induction false} CountsAreScan(book: Book, numberOf: map<int, nat>, blocks: seq<seq<int>>, walk: seq<nat>,
      m: nat, now: int)
    requires WalkOf(blocks, walk, numberOf) && m <= |walk|
    ensures var scan := Scan(book, numberOf, First(walk, m), now);
      |scan| == TotalLive(book, blocks, m, now) && |NumbersOf(scan, numberOf)| == LiveNumbers(book, blocks, m, now)
  {
    if m == 0 {
      assert Scan(book, numberOf, First(walk, 0), now) == {};
    } else {
      CountsAreScan(book, numberOf, blocks, walk, m - 1, now);
      FirstIsNew(walk, m - 1);
      BlockScan(book, blocks[m - 1], walk[m - 1], numberOf, now);
      ScanGrows(book, numberOf, First(walk, m - 1), walk[m - 1], now);
    }
  }

  // ---------------------------------------------------------------- one block

  lemma {:induction false} DistinctSize(ids: Ids)
    requires ids.Distinct()
    ensures |ids.Members()| == ids.Len()
  {
    if ids.Snoc? {
      DistinctSize(ids.front);
    }
  }

  /** Once the limit is reached the rest of the block adds nothing. */
  lemma {:induction false} PickFull(book: Book, block: seq<int>, q: nat, j: nat, limit: nat, now: int, taken: Ids)
    requires q <= j <= |block| && Pick(book, block, q, limit, now, taken).Len() >= limit
    ensures Pick(book, block, j, limit, now, taken) == Pick(book, block, q, limit, now, taken)
  {
    if q < j {
      PickFull(book, block, q, j - 1, limit, now, taken);
    }
  }

  /** A block without claimable tickets adds nothing. */
  lemma {:induction false} PickNothing(book: Book, block: seq<int>, q: nat, limit: nat, now: int, taken: Ids)
    requires q <= |block| && forall i :: 0 <= i < |block| ==> !ClaimableIn(book, block[i], now)
    ensures Pick(book, block, q, limit, now, taken) == taken
  {
    if q > 0 {
      PickNothing(book, block, q - 1, limit, now, taken);
    }
  }

  /** Picked tickets come from what was taken before or from the block. */
  lemma {:induction false} PickMembers(book: Book, block: seq<int>, q: nat, limit: nat, now: int, taken: Ids)
    requires q <= |block|
    ensures forall id :: id in Pick(book, block, q, limit, now, taken).Members() ==>
      id in taken.Members() || (ClaimableIn(book, id, now) && exists i :: 0 <= i < q && block[i] == id)
  {
    if q > 0 {
      PickMembers(book, block, q - 1, limit, now, taken);
    }
  }

  /** A block adds as many of its claimable tickets as the limit allows. */
  lemma {:induction false} PickLen(book: Book, block: seq<int>, q: nat, limit: nat, now: int, taken: Ids)
    requires q <= |block|
    ensures taken.Len() <= limit ==>
      Pick(book, block, q, limit, now, taken).Len() == Min(limit, taken.Len() + LiveCount(book, block, q, now))
    ensures taken.Len() >= limit ==> Pick(book, block, q, limit, now, taken) == taken
  {
    if q > 0 {
      PickLen(book, block, q - 1, limit, now, taken);
    }
  }

  /** With room for one, a block adds nothing or one claimable ticket of its own. */
  lemma {:induction false} PickAtMostOne(book: Book, block: seq<int>, q: nat, limit: nat, now: int, taken: Ids)
    requires q <= |block| && limit <= taken.Len() + 1
    ensures var r := Pick(book, block, q, limit, now, taken);
      r == taken || (r.Snoc? && r.front == taken && ClaimableIn(book, r.last, now) && exists i ::
        0 <= i < q && block[i] == r.last)
  {
    if q > 0 {
      PickAtMostOne(book, block, q - 1, limit, now, taken);
    }
  }

  /** Picked tickets are new and distinct if the block is. */
  lemma {:induction false} PickDistinct(book: Book, block: seq<int>, q: nat, limit: nat, now: int, taken: Ids)
    requires q <= |block| && NoDuplicates(block) && taken.Distinct()
    requires forall i :: 0 <= i < |block| ==> block[i] !in taken.Members()
    ensures Pick(book, block, q, limit, now, taken).Distinct()
  {
    if q > 0 {
      PickDistinct(book, block, q - 1, limit, now, taken);
      PickMembers(book, block, q - 1, limit, now, taken);
      assert block[q - 1] !in Pick(book, block, q - 1, limit, now, taken).Members();
    }
  }

  // ---------------------------------------------------------------- one pass

  /** Once enough tickets are taken the rest of the walk adds nothing. */
  lemma {:induction false} ChooseFull(book: Book, blocks: seq<seq<int>>, m: nat, j: nat, need: nat, perNumber: nat,
      now: int)
    requires m <= j <= |blocks|
    requires ChooseTo(book, blocks, m, need, perNumber, now).Len() >= need
    ensures ChooseTo(book, blocks, j, need, perNumber, now) == ChooseTo(book, blocks, m, need, perNumber, now)
  {
    if m < j {
      ChooseFull(book, blocks, m, j - 1, need, perNumber, now);
      var taken := ChooseTo(book, blocks, j - 1, need, perNumber, now);
      PickLen(book, blocks[j - 1], |blocks[j - 1]|, Limit(taken.Len(), need, perNumber), now, taken);
    }
  }

  /** Pass 2 takes as many tickets as there are, up to the need. */
  lemma {:induction false} TopUpLen(book: Book, blocks: seq<seq<int>>, m: nat, need: nat, now: int)
    requires m <= |blocks|
    ensures ChooseTo(book, blocks, m, need, 0, now).Len() == Min(need, TotalLive(book, blocks, m, now))
  {
    if m > 0 {
      TopUpLen(book, blocks, m - 1, need, now);
      PickLen(book, blocks[m - 1], |blocks[m - 1]|, need, now, ChooseTo(book, blocks, m - 1, need, 0, now));
    }
  }

  /** Pass 1 takes one ticket from each number that has any, up to the need. */
  lemma {:induction false} SpreadLen(book: Book, blocks: seq<seq<int>>, m: nat, need: nat, now: int)
    requires m <= |blocks|
    ensures ChooseTo(book, blocks, m, need, 1, now).Len() == Min(need, LiveNumbers(book, blocks, m, now))
  {
    if m > 0 {
      SpreadLen(book, blocks, m - 1, need, now);
      var taken := ChooseTo(book, blocks, m - 1, need, 1, now);
      PickLen(book, blocks[m - 1], |blocks[m - 1]|, Limit(taken.Len(), need, 1), now, taken);
    }
  }

  /** Every one of these tickets is claimable and carries one of these numbers. */
  ghost predicate ClaimableAmong(ids: set<int>, book: Book, numberOf: map<int, nat>, wanted: set<nat>, now: int) {
    forall id :: id in ids ==> ClaimableIn(book, id, now) && id in numberOf && numberOf[id] in wanted
  }

  /** What a pass takes is distinct, claimable, and carries a number already visited. */
  lemma {:induction false} ChooseSound(book: Book, numberOf: map<int, nat>, blocks: seq<seq<int>>, walk: seq<nat>,
      m: nat, need: nat, perNumber: nat, now: int)
    requires WalkOf(blocks, walk, numberOf) && m <= |walk|
    ensures var r := ChooseTo(book, blocks, m, need, perNumber, now);
      r.Distinct() && ClaimableAmong(r.Members(), book, numberOf, First(walk, m), now)
  {
    if m > 0 {
      var taken, block := ChooseTo(book, blocks, m - 1, need, perNumber, now), blocks[m - 1];
      ChooseSound(book, numberOf, blocks, walk, m - 1, need, perNumber, now);
      SoundStep(book, numberOf, block, walk, m - 1, Limit(taken.Len(), need, perNumber), now, taken);
    }
  }

  lemma {:induction false} SoundStep(book: Book, numberOf: map<int, nat>, block: seq<int>, walk: seq<nat>, m: nat,
      limit: nat, now: int, taken: Ids)
    requires m < |walk| && NoDuplicates(walk) && IsBlock(block, walk[m], numberOf)
    requires taken.Distinct() && ClaimableAmong(taken.Members(), book, numberOf, First(walk, m), now)
    ensures Pick(book, block, |block|, limit, now, taken).Distinct()
    ensures ClaimableAmong(Pick(book, block, |block|, limit, now, taken).Members(), book, numberOf, First(walk, m + 1),
      now)
  {
    FirstIsNew(walk, m);
    forall i | 0 <= i < |block|
      ensures block[i] !in taken.Members() && block[i] in numberOf && numberOf[block[i]] == walk[m]
    {
      var id := block[i];
      assert id in block;
    }
    PickDistinct(book, block, |block|, limit, now, taken);
    PickMembers(book, block, |block|, limit, now, taken);
    var r := Pick(book, block, |block|, limit, now, taken);
    forall id | id in r.Members()
      ensures ClaimableIn(book, id, now) && id in numberOf && numberOf[id] in First(walk, m + 1)
    {
      if id !in taken.Members() {
        assert exists i :: 0 <= i < |block| && block[i] == id;
      }
    }
  }

  lemma AmongIsScan(ids: set<int>, book: Book, numberOf: map<int, nat>, wanted: set<nat>, now: int)
    requires ClaimableAmong(ids, book, numberOf, wanted, now)
    ensures ids <= Scan(book, numberOf, wanted, now)
  {
    forall id | id in ids ensures id in Scan(book, numberOf, wanted, now) {
      assert ClaimableIn(book, id, now);
    }
  }

  /** Pass 1 never takes two tickets of one number. */
  lemma {:induction false} SpreadNumbers(book: Book, numberOf: map<int, nat>, blocks: seq<seq<int>>, walk: seq<nat>,
      m: nat, need: nat, now: int)
    requires WalkOf(blocks, walk, numberOf) && m <= |walk|
    ensures var r := ChooseTo(book, blocks, m, need, 1, now); |NumbersOf(r.Members(), numberOf)| == r.Len()
  {
    if m > 0 {
      var taken, block := ChooseTo(book, blocks, m - 1, need, 1, now), blocks[m - 1];
      SpreadNumbers(book, numberOf, blocks, walk, m - 1, need, now);
      ChooseSound(book, numberOf, blocks, walk, m - 1, need, 1, now);
      FirstIsNew(walk, m - 1);
      PickAtMostOne(book, block, |block|, Limit(taken.Len(), need, 1), now, taken);
      SpreadStep(numberOf, block, walk[m - 1], taken, ChooseTo(book, blocks, m, need, 1, now));
    }
  }

  lemma SpreadStep(numberOf: map<int, nat>, block: seq<int>, n: nat, taken: Ids, r: Ids)
    requires IsBlock(block, n, numberOf)
    requires r == taken || (r.Snoc? && r.front == taken && exists i :: 0 <= i < |block| && block[i] == r.last)
    requires forall x :: x in taken.Members() ==> NumberFor(numberOf, x) != n
    requires |NumbersOf(taken.Members(), numberOf)| == taken.Len()
    ensures |NumbersOf(r.Members(), numberOf)| == r.Len()
  {
    if r != taken {
      assert r.last in block;
      OneMoreNumber(taken.Members(), r.last, n, numberOf);
    }
  }

  lemma OneMoreNumber(ids: set<int>, id: int, n: nat, numberOf: map<int, nat>)
    requires forall x :: x in ids ==> NumberFor(numberOf, x) != n
    requires NumberFor(numberOf, id) == n
    ensures |NumbersOf(ids + {id}, numberOf)| == |NumbersOf(ids, numberOf)| + 1
  {
    NumbersUnion(ids, {id}, numberOf);
    assert NumbersOf({id}, numberOf) == {n};
  }

  // ---------------------------------------------------------------- first come, first served

  /** Short of its limit a block has given every claimable ticket considered so far. */
  lemma {:induction false} PickAll(book: Book, block: seq<int>, q: nat, limit: nat, now: int, taken: Ids, i: nat)
    requires i < q <= |block| && ClaimableIn(book, block[i], now)
    requires Pick(book, block, q, limit, now, taken).Len() < limit
    ensures block[i] in Pick(book, block, q, limit, now, taken).Members()
  {
    if i < q - 1 {
      PickAll(book, block, q - 1, limit, now, taken, i);
    }
  }

  /** Within a block the tickets listed first go first: before a ticket that is taken no claimable one is
      passed over. */
  lemma {:induction false} EarliestTicketsWin(book: Book, block: seq<int>, q: nat, limit: nat, now: int, taken: Ids,
      i: nat, j: nat)
    requires NoDuplicates(block) && i < j < q <= |block| && ClaimableIn(book, block[i], now)
    requires block[j] !in taken.Members() && block[j] in Pick(book, block, q, limit, now, taken).Members()
    ensures block[i] in Pick(book, block, q, limit, now, taken).Members()
  {
    var before := q - 1;
    var soFar := Pick(book, block, before, limit, now, taken);
    if soFar.Len() < limit {
      if i < before {
        PickAll(book, block, before, limit, now, taken, i);
      }
    } else if j < before {
      EarliestTicketsWin(book, block, before, limit, now, taken, i, j);
    } else {
      PickMembers(book, block, before, limit, now, taken);
    }
  }

  lemma {:induction false} PickKeeps(book: Book, block: seq<int>, q: nat, limit: nat, now: int, taken: Ids)
    requires q <= |block|
    ensures taken.Members() <= Pick(book, block, q, limit, now, taken).Members()
  {
    if q > 0 {
      PickKeeps(book, block, q - 1, limit, now, taken);
    }
  }

  lemma {:induction false} ChooseKeeps(book: Book, blocks: seq<seq<int>>, j: nat, m: nat, need: nat, perNumber: nat,
      now: int)
    requires j <= m <= |blocks|
    ensures ChooseTo(book, blocks, j, need, perNumber, now).Members() <=
      ChooseTo(book, blocks, m, need, perNumber, now).Members()
    ensures ChooseTo(book, blocks, j, need, perNumber, now).Len() <=
      ChooseTo(book, blocks, m, need, perNumber, now).Len()
  {
    if j < m {
      var before := m - 1;
      ChooseKeeps(book, blocks, j, before, need, perNumber, now);
      var taken, block := ChooseTo(book, blocks, before, need, perNumber, now), blocks[before];
      PickKeeps(book, block, |block|, Limit(taken.Len(), need, perNumber), now, taken);
      PickLen(book, block, |block|, Limit(taken.Len(), need, perNumber), now, taken);
    }
  }

  /** A number gives what it owes the pass: all its claimable tickets, or one if the pass takes one of each. */
  ghost predicate Gives(book: Book, block: seq<int>, perNumber: nat, now: int, taken: set<int>) {
    if perNumber == 0 then forall q :: 0 <= q < |block| && ClaimableIn(book, block[q], now) ==> block[q] in taken
    else (exists q :: 0 <= q < |block| && ClaimableIn(book, block[q], now)) ==>
           exists q :: 0 <= q < |block| && block[q] in taken
  }

  lemma {:induction false} LiveBlock(book: Book, block: seq<int>, q: nat, now: int, i: nat)
    requires i < q <= |block| && ClaimableIn(book, block[i], now)
    ensures LiveCount(book, block, q, now) >= 1
  {
    if i < q - 1 {
      LiveBlock(book, block, q - 1, now, i);
    }
  }

  lemma {:induction false} BlockGives(book: Book, block: seq<int>, need: nat, perNumber: nat, now: int, taken: Ids)
    requires perNumber <= 1 && ChooseNext(book, block, need, perNumber, now, taken).Len() < need && taken.Len() < need
    ensures Gives(book, block, perNumber, now, ChooseNext(book, block, need, perNumber, now, taken).Members())
  {
    var limit := Limit(taken.Len(), need, perNumber);
    var r := Pick(book, block, |block|, limit, now, taken);
    forall i: nat | i < |block| && ClaimableIn(book, block[i], now)
      ensures if perNumber == 0 then block[i] in r.Members() else exists q ::
        0 <= q < |block| && block[q] in r.Members()
    {
      if perNumber == 0 {
        PickAll(book, block, |block|, limit, now, taken, i);
      } else {
        LiveBlock(book, block, |block|, now, i);
        PickLen(book, block, |block|, limit, now, taken);
        PickAtMostOne(book, block, |block|, limit, now, taken);
        assert r.last in r.Members();
      }
    }
  }

  /** While a pass still lacks tickets, every number behind it has given what it owes. */
  lemma {:induction false} NothingLeftBehind(book: Book, blocks: seq<seq<int>>, j: nat, need: nat, perNumber: nat,
      now: int, i: nat)
    requires perNumber <= 1 && i < j <= |blocks| && ChooseTo(book, blocks, j, need, perNumber, now).Len() < need
    ensures Gives(book, blocks[i], perNumber, now, ChooseTo(book, blocks, j, need, perNumber, now).Members())
  {
    var before := j - 1;
    ChooseKeeps(book, blocks, before, j, need, perNumber, now);
    if i < before {
      NothingLeftBehind(book, blocks, before, need, perNumber, now, i);
    } else {
      BlockGives(book, blocks[i], need, perNumber, now, ChooseTo(book, blocks, before, need, perNumber, now));
    }
  }

  /** Only a pass that still lacks tickets takes one of the next number. */
  lemma {:induction false} TakenOnDemand(book: Book, numberOf: map<int, nat>, blocks: seq<seq<int>>, walk: seq<nat>,
      m: nat, need: nat, perNumber: nat, now: int, j: nat, id: int)
    requires WalkOf(blocks, walk, numberOf) && j < m <= |walk| && id in blocks[j]
    requires id in ChooseTo(book, blocks, m, need, perNumber, now).Members()
    ensures ChooseTo(book, blocks, j, need, perNumber, now).Len() < need
  {
    var before := m - 1;
    var taken, block := ChooseTo(book, blocks, before, need, perNumber, now), blocks[before];
    var limit := Limit(taken.Len(), need, perNumber);
    ChooseSound(book, numberOf, blocks, walk, before, need, perNumber, now);
    FirstIsNew(walk, before);
    assert IsBlock(blocks[j], walk[j], numberOf) && IsBlock(block, walk[before], numberOf);
    PickMembers(book, block, |block|, limit, now, taken);
    if j < before {
      assert id !in block;
      TakenOnDemand(book, numberOf, blocks, walk, before, need, perNumber, now, j, id);
    } else {
      assert id !in taken.Members();
      PickLen(book, block, |block|, limit, now, taken);
    }
  }

  /** Along a walk the numbers visited first go first: if a pass takes a ticket of one number, every number before it
      has given all its claimable tickets, or one of them where the pass takes one of each. */
  lemma {:induction false} EarliestNumbersWin(book: Book, numberOf: map<int, nat>, blocks: seq<seq<int>>,
      walk: seq<nat>, m: nat, need: nat, perNumber: nat, now: int, i: nat, j: nat, id: int)
    requires WalkOf(blocks, walk, numberOf) && i < j < m <= |walk| && perNumber <= 1 && id in blocks[j]
    requires id in ChooseTo(book, blocks, m, need, perNumber, now).Members()
    ensures Gives(book, blocks[i], perNumber, now, ChooseTo(book, blocks, m, need, perNumber, now).Members())
  {
    TakenOnDemand(book, numberOf, blocks, walk, m, need, perNumber, now, j, id);
    NothingLeftBehind(book, blocks, j, need, perNumber, now, i);
    ChooseKeeps(book, blocks, j, m, need, perNumber, now);
  }

  // ---------------------------------------------------------------- both passes

  /** How many tickets a request still lacks. */
  function Remaining(k: nat, taken: nat): nat {
    if taken < k then k - taken else 0
  }

  /** Reserved tickets leave the scan, and nothing else does, as long as the new lease has not already run out. */
  lemma {:induction false} ScanAfterGrant(book: Book, numberOf: map<int, nat>, wanted: set<nat>, ids: set<int>,
      holder: string, now: int, until: int)
    requires until >= now
    ensures Scan(Grant(book, ids, holder, until), numberOf, wanted, now) == Scan(book, numberOf, wanted, now) - ids
  {
  }

  /** One per number, then a top-up without that limit: together exactly min(k, C) tickets of the scan, carrying exactly
      min(k, D) numbers. */
  lemma {:induction false} ClaimOptimal(book: Book, numberOf: map<int, nat>, wanted: set<nat>, spread: seq<seq<int>>,
      walk1: seq<nat>, first: Ids, topUp: seq<seq<int>>, walk2: seq<nat>, second: Ids, k: nat, holder: string,
      now: int, until: int)
    requires WalkOf(spread, walk1, numberOf) && WalkOf(topUp, walk2, numberOf)
    requires First(walk1, |walk1|) == wanted == First(walk2, |walk2|) && until >= now
    requires first == Choose(book, spread, k, 1, now)
    requires second == Choose(Grant(book, first.Members(), holder, until), topUp, Remaining(k, first.Len()), 0, now)
    ensures first.Len() + second.Len() == Min(k, |Scan(book, numberOf, wanted, now)|)
    ensures |NumbersOf(first.Members() + second.Members(), numberOf)| ==
      Min(k, |NumbersOf(Scan(book, numberOf, wanted, now), numberOf)|)
  {
    var need := Remaining(k, first.Len());
    FirstPass(book, numberOf, spread, walk1, k, now);
    SecondPass(Grant(book, first.Members(), holder, until), numberOf, topUp, walk2, need, now);
    ScanAfterGrant(book, numberOf, wanted, first.Members(), holder, now, until);
    ClaimSizes(Scan(book, numberOf, wanted, now), numberOf, first.Members(), second.Members(), k);
  }

  lemma {:induction false} FirstPass(book: Book, numberOf: map<int, nat>, blocks: seq<seq<int>>, walk: seq<nat>,
      need: nat, now: int)
    requires WalkOf(blocks, walk, numberOf)
    ensures var r, scan := Choose(book, blocks, need, 1, now), Scan(book, numberOf, First(walk, |walk|), now);
      && r.Distinct() && r.Members() <= scan
      && |NumbersOf(r.Members(), numberOf)| == r.Len() == |r.Members()| == Min(need, |NumbersOf(scan, numberOf)|)
  {
    ChooseSound(book, numberOf, blocks, walk, |walk|, need, 1, now);
    CountsAreScan(book, numberOf, blocks, walk, |walk|, now);
    SpreadLen(book, blocks, |walk|, need, now);
    SpreadNumbers(book, numberOf, blocks, walk, |walk|, need, now);
    DistinctSize(Choose(book, blocks, need, 1, now));
    AmongIsScan(Choose(book, blocks, need, 1, now).Members(), book, numberOf, First(walk, |walk|), now);
  }

  lemma {:induction false} SecondPass(book: Book, numberOf: map<int, nat>, blocks: seq<seq<int>>, walk: seq<nat>,
      need: nat, now: int)
    requires WalkOf(blocks, walk, numberOf)
    ensures var r, scan := Choose(book, blocks, need, 0, now), Scan(book, numberOf, First(walk, |walk|), now);
      r.Distinct() && r.Members() <= scan && r.Len() == |r.Members()| == Min(need, |scan|)
  {
    ChooseSound(book, numberOf, blocks, walk, |walk|, need, 0, now);
    CountsAreScan(book, numberOf, blocks, walk, |walk|, now);
    TopUpLen(book, blocks, |walk|, need, now);
    DistinctSize(Choose(book, blocks, need, 0, now));
    AmongIsScan(Choose(book, blocks, need, 0, now).Members(), book, numberOf, First(walk, |walk|), now);
  }

  lemma {:induction false} ClaimSizes(scan: set<int>, numberOf: map<int, nat>, first: set<int>, second: set<int>,
      k: nat)
    requires first <= scan && |NumbersOf(first, numberOf)| == |first|
    requires |first| == Min(k, |NumbersOf(scan, numberOf)|)
    requires second <= scan - first && |second| == Min(k - |first|, |scan - first|)
    ensures |first + second| == |first| + |second| == Min(k, |scan|)
    ensures |NumbersOf(first + second, numberOf)| == Min(k, |NumbersOf(scan, numberOf)|)
  {
    assert |scan - first| == |scan| - |first| by {
      assert scan == first + (scan - first);
    }
    if |first| < k {
      SubsetSize(NumbersOf(first, numberOf), NumbersOf(scan, numberOf));
      SameNumbers(scan, numberOf, first, second);
    } else {
      assert first + second == first;
    }
  }

  lemma {:induction false} SameNumbers(scan: set<int>, numberOf: map<int, nat>, first: set<int>, second: set<int>)
    requires first + second <= scan && NumbersOf(first, numberOf) == NumbersOf(scan, numberOf)
    ensures NumbersOf(first + second, numberOf) == NumbersOf(scan, numberOf)
  {
    var all, numbers := NumbersOf(first + second, numberOf), NumbersOf(scan, numberOf);
    forall v | v in all ensures v in numbers {
      var id :| id in first + second && NumberFor(numberOf, id) == v;
      assert id in scan;
    }
    forall v | v in numbers ensures v in all {
      var id :| id in first && NumberFor(numberOf, id) == v;
      assert id in first + second;
    }
  }
}
