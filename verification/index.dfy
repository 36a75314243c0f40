/** lottery-go/index.go: ticket ids grouped by number with a counting sort. */
module TicketIndex {
  import opened Counting

  datatype Ticket = Ticket(id: int, number: nat)

  /** offsets[n]..offsets[n+1] is the slice of ticketIDs belonging to number n. */
  datatype Index = Index(offsets: seq<nat>, ticketIDs: seq<int>) {

    predicate Covers(number: nat) {
      number + 1 < |offsets| && offsets[number] <= offsets[number + 1] <= |ticketIDs|
    }

    function TicketsFor(number: nat): seq<int>
      requires Covers(number)
    {
      ticketIDs[offsets[number]..offsets[number + 1]]
    }
  }

  /** The ids of one number, in input order. */
  function IdsOf(tickets: seq<Ticket>, n: nat): seq<int> {
    if tickets == [] then []
    else
      var t := tickets[|tickets| - 1];
      IdsOf(Front(tickets), n) + (if t.number == n then [t.id] else [])
  }

  /** How many tickets have a number below n. */
  function Start(tickets: seq<Ticket>, n: nat): nat {
    if n == 0 then 0 else Start(tickets, n - 1) + |IdsOf(tickets, n - 1)|
  }

  predicate NumbersBelow(tickets: seq<Ticket>, space: nat) {
    forall i :: 0 <= i < |tickets| ==> tickets[i].number < space
  }

  /** What BuildIndex promises: block n is the input-order list of n's ids. */
  ghost predicate Indexes(ix: Index, space: nat, tickets: seq<Ticket>) {
    && |ix.offsets| == space + 1
    && |ix.ticketIDs| == |tickets|
    && (forall n :: 0 <= n <= space ==> ix.offsets[n] == Start(tickets, n))
    && (forall n: nat :: n < space ==> ix.Covers(n) && ix.TicketsFor(n) == IdsOf(tickets, n))
  }

  lemma {:induction false} IdsOfPrefix(tickets: seq<Ticket>, i: nat, n: nat)
    requires i <= |tickets|
    ensures IdsOf(tickets[..i], n) <= IdsOf(tickets, n)
  {
    if i < |tickets| {
      IdsOfPrefix(Front(tickets), i, n);
      assert Front(tickets)[..i] == tickets[..i];
    } else {
      assert tickets[..i] == tickets;
    }
  }

  lemma {:induction false} IdsOfStep(tickets: seq<Ticket>, i: nat, n: nat)
    requires i < |tickets|
    ensures IdsOf(tickets[..i + 1], n) ==
      IdsOf(tickets[..i], n) + (if tickets[i].number == n then [tickets[i].id] else [])
  {
    assert Front(tickets[..i + 1]) == tickets[..i];
  }

  lemma {:induction false} StartMonotone(tickets: seq<Ticket>, m: nat, n: nat)
    requires m < n
    ensures Start(tickets, m) + |IdsOf(tickets, m)| <= Start(tickets, n)
  {
    if m + 1 < n {
      StartMonotone(tickets, m, n - 1);
    }
  }

  lemma {:induction false} StartSnoc(tickets: seq<Ticket>, n: nat)
    requires tickets != []
    ensures Start(tickets, n) == Start(Front(tickets), n) + if tickets[|tickets| - 1].number < n then 1 else 0
  {
    if n > 0 {
      StartSnoc(tickets, n - 1);
    }
  }

  /** Everything is below the end of the number space, so the sentinel offset is the ticket count. */
  lemma {:induction false} StartTotal(tickets: seq<Ticket>, space: nat)
    requires NumbersBelow(tickets, space)
    ensures Start(tickets, space) == |tickets|
  {
    if tickets == [] {
      StartEmpty(space);
    } else {
      StartSnoc(tickets, space);
      StartTotal(Front(tickets), space);
    }
  }

  lemma {:induction false} StartEmpty(n: nat)
    ensures Start([], n) == 0
  {
    if n > 0 {
      StartEmpty(n - 1);
    }
  }

  /** The slot pass 3 gives to ticket i. */
  function Slot(tickets: seq<Ticket>, i: nat): nat
    requires i < |tickets|
  {
    Cursor(tickets, i, tickets[i].number)
  }

  /** The next free slot in the block of n, once the first i tickets are placed. */
  function Cursor(tickets: seq<Ticket>, i: nat, n: nat): nat
    requires i <= |tickets|
  {
    Start(tickets, n) + |IdsOf(tickets[..i], n)|
  }

  lemma {:induction false} CursorStep(tickets: seq<Ticket>, i: nat, n: nat)
    requires i < |tickets|
    ensures Cursor(tickets, i + 1, n) == if tickets[i].number == n then Slot(tickets, i) + 1 else Cursor(tickets, i, n)
  {
    IdsOfStep(tickets, i, n);
  }

  lemma {:induction false} SlotInBlock(tickets: seq<Ticket>, i: nat)
    requires i < |tickets|
    ensures Slot(tickets, i) < Start(tickets, tickets[i].number + 1)
  {
    var n := tickets[i].number;
    IdsOfStep(tickets, i, n);
    IdsOfPrefix(tickets, i + 1, n);
  }

  lemma {:induction false} BlockEnd(tickets: seq<Ticket>, space: nat, n: nat)
    requires NumbersBelow(tickets, space) && n < space
    ensures Start(tickets, n) + |IdsOf(tickets, n)| == Start(tickets, n + 1) <= |tickets|
  {
    StartTotal(tickets, space);
    if n + 1 < space {
      StartMonotone(tickets, n + 1, space);
    }
  }

  /** Pass 3 writes every slot exactly once: the slots of different tickets differ and all lie in range. */
  lemma {:induction false} SlotsAreAPermutation(tickets: seq<Ticket>, space: nat, i: nat, j: nat)
    requires NumbersBelow(tickets, space) && i < j < |tickets|
    ensures Slot(tickets, i) != Slot(tickets, j)
    ensures Slot(tickets, i) < |tickets| && Slot(tickets, j) < |tickets|
  {
    var m, n := tickets[i].number, tickets[j].number;
    SlotInBlock(tickets, i);
    SlotInBlock(tickets, j);
    BlockEnd(tickets, space, m);
    BlockEnd(tickets, space, n);
    if m == n {
      SlotsOfOneNumber(tickets, i, j);
    } else if m < n {
      StartMonotone(tickets, m, n);
    } else {
      StartMonotone(tickets, n, m);
    }
  }

  lemma {:induction false} SlotsOfOneNumber(tickets: seq<Ticket>, i: nat, j: nat)
    requires i < j < |tickets| && tickets[i].number == tickets[j].number
    ensures Slot(tickets, i) < Slot(tickets, j)
  {
    var n := tickets[i].number;
    IdsOfStep(tickets, i, n);
    IdsOfPrefix(tickets[..j], i + 1, n);
    assert tickets[..j][..i + 1] == tickets[..i + 1];
  }

  /** The ids of number n among the first i tickets sit at the front of n's block. */
  ghost predicate BlockPlaced(ids: seq<int>, tickets: seq<Ticket>, i: nat, n: nat)
    requires i <= |tickets|
  {
    var from, placed := Start(tickets, n), IdsOf(tickets[..i], n);
    from + |placed| <= |ids| && ids[from..from + |placed|] == placed
  }

  ghost predicate AllPlaced(ids: seq<int>, tickets: seq<Ticket>, i: nat, space: nat)
    requires i <= |tickets|
  {
    forall n: nat :: n < space ==> BlockPlaced(ids, tickets, i, n)
  }

  lemma {:induction false} NothingPlaced(ids: seq<int>, tickets: seq<Ticket>, space: nat)
    requires |ids| == |tickets| && NumbersBelow(tickets, space)
    ensures AllPlaced(ids, tickets, 0, space)
  {
    forall n: nat | n < space ensures BlockPlaced(ids, tickets, 0, n) {
      BlockEnd(tickets, space, n);
    }
  }

  lemma {:induction false} PlaceOwn(ids: seq<int>, tickets: seq<Ticket>, i: nat, space: nat)
    requires i < |tickets| == |ids| && NumbersBelow(tickets, space)
    requires BlockPlaced(ids, tickets, i, tickets[i].number)
    ensures Slot(tickets, i) < |ids|
    ensures BlockPlaced(ids[Slot(tickets, i) := tickets[i].id], tickets, i + 1, tickets[i].number)
  {
    SlotInBlock(tickets, i);
    BlockEnd(tickets, space, tickets[i].number);
    IdsOfStep(tickets, i, tickets[i].number);
  }

  lemma {:induction false} PlaceOther(ids: seq<int>, tickets: seq<Ticket>, i: nat, space: nat, n: nat)
    requires i < |tickets| == |ids| && NumbersBelow(tickets, space)
    requires n < space && n != tickets[i].number && BlockPlaced(ids, tickets, i, n)
    ensures Slot(tickets, i) < |ids|
    ensures BlockPlaced(ids[Slot(tickets, i) := tickets[i].id], tickets, i + 1, n)
  {
    var m := tickets[i].number;
    SlotInBlock(tickets, i);
    BlockEnd(tickets, space, m);
    IdsOfStep(tickets, i, n);
    IdsOfPrefix(tickets, i, n);
    if n < m {
      StartMonotone(tickets, n, m);
    } else {
      StartMonotone(tickets, m, n);
    }
  }

  lemma {:induction false} PlaceStep(ids: seq<int>, tickets: seq<Ticket>, i: nat, space: nat)
    requires i < |tickets| == |ids| && NumbersBelow(tickets, space)
    requires AllPlaced(ids, tickets, i, space)
    ensures Slot(tickets, i) < |ids|
    ensures AllPlaced(ids[Slot(tickets, i) := tickets[i].id], tickets, i + 1, space)
  {
    PlaceOwn(ids, tickets, i, space);
    var after, next := ids[Slot(tickets, i) := tickets[i].id], i + 1;
    forall n: nat | n < space ensures BlockPlaced(after, tickets, next, n) {
      if n != tickets[i].number {
        PlaceOther(ids, tickets, i, space, n);
      }
    }
  }

  lemma {:induction false} CountStep(tickets: seq<Ticket>, i: nat)
    requires i < |tickets|
    ensures forall n: nat ::
      |IdsOf(tickets[..i + 1], n)| == |IdsOf(tickets[..i], n)| + if tickets[i].number == n then 1 else 0
  {
    forall n: nat
      ensures |IdsOf(tickets[..i + 1], n)| == |IdsOf(tickets[..i], n)| + if tickets[i].number == n then 1 else 0
    {
      IdsOfStep(tickets, i, n);
    }
  }

  method BuildIndex(space: nat, tickets: seq<Ticket>) returns (ix: Index)
    requires NumbersBelow(tickets, space)
    ensures Indexes(ix, space, tickets)
  {
    var offsets := Count(space, tickets);
    Accumulate(space, tickets, offsets);
    var ids := Place(space, tickets, offsets);
    ix := Index(offsets[..], ids[..]);
    BlocksComplete(ix, space, tickets);
  }

  /** Pass 1: count into offsets[n + 1]. */
  method Count(space: nat, tickets: seq<Ticket>) returns (offsets: array<nat>)
    requires NumbersBelow(tickets, space)
    ensures fresh(offsets) && offsets.Length == space + 1 && offsets[0] == 0
    ensures forall m :: 0 < m <= space ==> offsets[m] == |IdsOf(tickets, m - 1)|
  {
    offsets := new nat[space + 1](_ => 0);
    for i := 0 to |tickets|
      invariant offsets[0] == 0
      invariant forall m :: 0 < m <= space ==> offsets[m] == |IdsOf(tickets[..i], m - 1)|
    {
      CountStep(tickets, i);
      offsets[tickets[i].number + 1] := offsets[tickets[i].number + 1] + 1;
    }
    assert tickets[..|tickets|] == tickets;
  }

  /** Pass 2: turn the counts into start positions, in place. */
  method Accumulate(space: nat, tickets: seq<Ticket>, offsets: array<nat>)
    requires offsets.Length == space + 1 && offsets[0] == 0
    requires forall m :: 0 < m <= space ==> offsets[m] == |IdsOf(tickets, m - 1)|
    modifies offsets
    ensures forall m :: 0 <= m <= space ==> offsets[m] == Start(tickets, m)
  {
    ghost var starts := seq(space + 1, m requires 0 <= m => Start(tickets, m));
    for n := 0 to space
      invariant forall m :: 0 <= m <= n ==> offsets[m] == starts[m]
      invariant forall m :: n < m <= space ==> offsets[m] == old(offsets[m])
    {
      assert old(offsets[n + 1]) == |IdsOf(tickets, n)|;
      offsets[n + 1] := offsets[n + 1] + offsets[n];
    }
  }

  /** Pass 3: place through a copy of the offsets, so the offsets themselves survive. */
  method Place(space: nat, tickets: seq<Ticket>, offsets: array<nat>) returns (ids: array<int>)
    requires NumbersBelow(tickets, space) && offsets.Length == space + 1
    requires forall m :: 0 <= m <= space ==> offsets[m] == Start(tickets, m)
    ensures fresh(ids) && ids.Length == |tickets|
    ensures AllPlaced(ids[..], tickets, |tickets|, space)
  {
    var cursor := new nat[space + 1](n requires 0 <= n <= space reads offsets => offsets[n]);
    ids := new int[|tickets|](_ => 0);
    NothingPlaced(ids[..], tickets, space);
    for i := 0 to |tickets|
      invariant forall n: nat :: n < space ==> cursor[n] == Cursor(tickets, i, n)
      invariant AllPlaced(ids[..], tickets, i, space)
    {
      PlaceStep(ids[..], tickets, i, space);
      PlaceOne(tickets, i, space, cursor, ids);
    }
  }

  method PlaceOne(tickets: seq<Ticket>, i: nat, space: nat, cursor: array<nat>, ids: array<int>)
    requires i < |tickets| == ids.Length && NumbersBelow(tickets, space) && cursor.Length == space + 1
    requires cursor as object != ids && Slot(tickets, i) < ids.Length
    requires forall n: nat :: n < space ==> cursor[n] == Cursor(tickets, i, n)
    modifies cursor, ids
    ensures forall n: nat :: n < space ==> cursor[n] == Cursor(tickets, i + 1, n)
    ensures ids[..] == old(ids[..])[Slot(tickets, i) := tickets[i].id]
  {
    var m, next := tickets[i].number, i + 1;
    assert cursor[m] == Slot(tickets, i);
    ids[cursor[m]] := tickets[i].id;
    cursor[m] := cursor[m] + 1;
    forall n: nat | n < space ensures cursor[n] == Cursor(tickets, next, n) {
      CursorStep(tickets, i, n);
    }
  }

  lemma {:induction false} BlocksComplete(ix: Index, space: nat, tickets: seq<Ticket>)
    requires |ix.offsets| == space + 1 && |ix.ticketIDs| == |tickets| && NumbersBelow(tickets, space)
    requires forall n :: 0 <= n <= space ==> ix.offsets[n] == Start(tickets, n)
    requires AllPlaced(ix.ticketIDs, tickets, |tickets|, space)
    ensures Indexes(ix, space, tickets)
  {
    assert tickets[..|tickets|] == tickets;
    forall n: nat | n < space ensures ix.Covers(n) && ix.TicketsFor(n) == IdsOf(tickets, n) {
      assert BlockPlaced(ix.ticketIDs, tickets, |tickets|, n);
      BlockEnd(tickets, space, n);
    }
  }

  // ---------------------------------------------------------- the index as a whole

  /** The blocks of numbers 0, .., n-1, one after the other. */
  function Blocks(tickets: seq<Ticket>, n: nat): seq<int> {
    if n == 0 then [] else Blocks(tickets, n - 1) + IdsOf(tickets, n - 1)
  }

  function AllIds(tickets: seq<Ticket>): seq<int> {
    seq(|tickets|, i requires 0 <= i < |tickets| => tickets[i].id)
  }

  /** How often x occurs in s. */
  function Occurs(s: seq<int>, x: int): nat {
    |set i | 0 <= i < |s| && s[i] == x|
  }

  lemma {:induction false} OccursSnoc(s: seq<int>, e: int, x: int)
    ensures Occurs(s + [e], x) == Occurs(s, x) + if e == x then 1 else 0
  {
    var t := s + [e];
    var before := set i | 0 <= i < |s| && s[i] == x;
    var after := set i | 0 <= i < |t| && t[i] == x;
    if e == x {
      assert t[|s|] == x;
      assert after == before + {|s|};
    } else {
      assert after == before;
    }
  }

  lemma {:induction false} OccursConcat(s: seq<int>, t: seq<int>, x: int)
    ensures Occurs(s + t, x) == Occurs(s, x) + Occurs(t, x)
  {
    if t == [] {
      assert s + t == s;
    } else {
      var front, e := t[..|t| - 1], t[|t| - 1];
      OccursConcat(s, front, x);
      OccursSnoc(s + front, e, x);
      OccursSnoc(front, e, x);
      assert s + t == s + front + [e] && t == front + [e];
    }
  }

  lemma {:induction false} OccursIsMultiplicity(s: seq<int>, x: int)
    ensures Occurs(s, x) == multiset(s)[x]
  {
    if s != [] {
      var front, e := s[..|s| - 1], s[|s| - 1];
      OccursIsMultiplicity(front, x);
      OccursSnoc(front, e, x);
      assert s == front + [e];
    }
  }

  function Bump(t: Ticket, hit: bool, x: int): nat {
    if hit && t.id == x then 1 else 0
  }

  lemma {:induction false} BlockSnoc(all: seq<Ticket>, front: seq<Ticket>, t: Ticket, n: nat, x: int)
    requires all == front + [t]
    ensures Occurs(IdsOf(all, n), x) == Occurs(IdsOf(front, n), x) + Bump(t, t.number == n, x)
  {
    assert Front(all) == front;
    if t.number == n {
      OccursSnoc(IdsOf(front, n), t.id, x);
    } else {
      assert IdsOf(all, n) == IdsOf(front, n);
    }
  }

  lemma {:induction false} BlocksSnoc(all: seq<Ticket>, front: seq<Ticket>, t: Ticket, n: nat, x: int)
    requires all == front + [t]
    ensures Occurs(Blocks(all, n), x) == Occurs(Blocks(front, n), x) + Bump(t, t.number < n, x)
  {
    if n > 0 {
      BlocksSnoc(all, front, t, n - 1, x);
      BlockSnoc(all, front, t, n - 1, x);
      OccursConcat(Blocks(all, n - 1), IdsOf(all, n - 1), x);
      OccursConcat(Blocks(front, n - 1), IdsOf(front, n - 1), x);
    }
  }

  lemma {:induction false} BlocksEmpty(n: nat)
    ensures Blocks([], n) == []
  {
    if n > 0 {
      BlocksEmpty(n - 1);
    }
  }

  lemma {:induction false} BlocksCount(tickets: seq<Ticket>, space: nat, x: int)
    requires NumbersBelow(tickets, space)
    ensures Occurs(Blocks(tickets, space), x) == Occurs(AllIds(tickets), x)
  {
    if tickets == [] {
      BlocksEmpty(space);
    } else {
      var front, t := Front(tickets), tickets[|tickets| - 1];
      BlocksCount(front, space, x);
      BlocksSnoc(tickets, front, t, space, x);
      assert AllIds(tickets) == AllIds(front) + [t.id];
      OccursSnoc(AllIds(front), t.id, x);
    }
  }

  /** All blocks together hold every ticket id exactly as often as the input does. */
  lemma {:induction false} BlocksArePermutation(tickets: seq<Ticket>, space: nat)
    requires NumbersBelow(tickets, space)
    ensures multiset(Blocks(tickets, space)) == multiset(AllIds(tickets))
  {
    forall x ensures multiset(Blocks(tickets, space))[x] == multiset(AllIds(tickets))[x] {
      BlocksCount(tickets, space, x);
      OccursIsMultiplicity(Blocks(tickets, space), x);
      OccursIsMultiplicity(AllIds(tickets), x);
    }
  }

  /** The flat id array is exactly the blocks, with no gap and no overlap. */
  lemma {:induction false} IdsAreBlocks(ix: Index, space: nat, tickets: seq<Ticket>, n: nat)
    requires n <= space < |ix.offsets| && ix.offsets[0] == 0
    requires forall m: nat :: m < space ==> ix.Covers(m) && ix.TicketsFor(m) == IdsOf(tickets, m)
    ensures ix.offsets[n] <= |ix.ticketIDs|
    ensures ix.ticketIDs[..ix.offsets[n]] == Blocks(tickets, n)
  {
    if n > 0 {
      IdsAreBlocks(ix, space, tickets, n - 1);
      NextBlock(ix, n - 1, Blocks(tickets, n - 1), IdsOf(tickets, n - 1));
    }
  }

  lemma {:induction false} NextBlock(ix: Index, n: nat, done: seq<int>, block: seq<int>)
    requires ix.Covers(n) && ix.ticketIDs[..ix.offsets[n]] == done && ix.TicketsFor(n) == block
    ensures ix.ticketIDs[..ix.offsets[n + 1]] == done + block
  {
    AppendSlice(ix.ticketIDs, ix.offsets[n], ix.offsets[n + 1]);
  }

  lemma {:induction false} AppendSlice(ids: seq<int>, a: nat, b: nat)
    requires a <= b <= |ids|
    ensures ids[..b] == ids[..a] + ids[a..b]
  {
  }

  /** Offsets rise to the ticket count, and the id list is a permutation of the input ids. */
  lemma {:induction false} IndexIsPermutation(ix: Index, space: nat, tickets: seq<Ticket>)
    requires Indexes(ix, space, tickets) && NumbersBelow(tickets, space)
    ensures multiset(ix.ticketIDs) == multiset(AllIds(tickets))
    ensures ix.offsets[space] == |tickets|
    ensures forall m: nat, n: nat :: m < n <= space ==> ix.offsets[m] <= ix.offsets[n]
  {
    StartTotal(tickets, space);
    IdsAreBlocks(ix, space, tickets, space);
    BlocksArePermutation(tickets, space);
    assert ix.ticketIDs[..|tickets|] == ix.ticketIDs;
    forall m: nat, n: nat | m < n <= space ensures ix.offsets[m] <= ix.offsets[n] {
      StartMonotone(tickets, m, n);
    }
  }

  lemma {:induction false} IdsOfMembers(tickets: seq<Ticket>, n: nat, id: int)
    ensures id in IdsOf(tickets, n) <==> exists i :: 0 <= i < |tickets| && tickets[i].id == id && tickets[i].number == n
  {
    if tickets != [] {
      var last := |tickets| - 1;
      IdsOfMembers(Front(tickets), n, id);
      if tickets[last].number == n && tickets[last].id == id {
        assert id in IdsOf(tickets, n);
      }
    }
  }

  lemma {:induction false} IdsOfDistinct(tickets: seq<Ticket>, n: nat)
    requires NoDuplicates(AllIds(tickets))
    ensures NoDuplicates(IdsOf(tickets, n))
  {
    if tickets != [] {
      var t := tickets[|tickets| - 1];
      assert AllIds(Front(tickets)) == AllIds(tickets)[..|tickets| - 1];
      IdsOfDistinct(Front(tickets), n);
      IdsOfMembers(Front(tickets), n, t.id);
      forall i | 0 <= i < |tickets| - 1 ensures tickets[i].id != t.id {
        assert AllIds(tickets)[i] != AllIds(tickets)[|tickets| - 1];
      }
    }
  }
}
