/** The hybrid protocol as a transition system: one authoritative book of tickets, any number of replicas with their own
    hints, and every interleaving of their database statements with the hint updates that follow them
    (lottery-go/postgres/hybrid.go, load.go). */
module Drift {
  import opened Counting
  import opened Ledger
  import opened Allocation
  import opened Stock
  import opened Availabilities

  /** A loaded but not yet swapped-in hint, the own confirmations that were unfinished when it was read, and the book it
      was read from. */
  datatype Snapshot = Snapshot(counts: Hint, before: set<int>, read: Book)

  /** A replica's memory, and what its running calls still have to do to it. */
  datatype Replica = Replica(
    hint: Hint,
    known: map<int, nat>,            // numberOf: numbers of the reservations this replica handed out
    landed: multiset<Ids>,           // claimed batches whose MarkAvailable calls are still to run
    raised: multiset<Ids>,           // batches marked available, ids not yet remembered
    committed: set<int>,             // confirmed in the database, number not yet looked up
    marking: map<int, nat>,          // number looked up and forgotten, MarkSold still to run
    freed: multiset<int>,            // released in the database, number not yet looked up
    restocking: multiset<nat>,       // number looked up and forgotten, MarkAvailable still to run
    snapshots: map<int, Snapshot>,   // running refreshes
    straddled: set<int>)             // see Swapped
  {
    /** Own confirmations between their commit and their MarkSold. */
    function Pending(): set<int> {
      committed + marking.Keys
    }

    /** No call of this replica is running. */
    predicate Idle() {
      && landed == multiset{} && raised == multiset{} && committed == {} && marking == map[]
      && freed == multiset{} && restocking == multiset{} && snapshots == map[]
    }
  }

  /** nums is the number of every ticket; it never changes. */
  datatype System = System(book: Book, nums: map<int, nat>, space: nat, replicas: seq<Replica>)

  /** The first four are database statements, by the replica `at` or, for any other index, by someone else. */
  datatype Step =
    | ClaimBatch(at: int, taken: Ids, holder: string, now: int, until: int)
    | Sell(at: int, id: int, holder: string, now: int)
    | GiveBack(at: int, id: int, holder: string)
    | Sweep(ids: set<int>, now: int)
    | MarkBatch(r: nat, batch: Ids)
    | RememberBatch(r: nat, batch: Ids)
    | ForgetSold(r: nat, id: int)
    | FinishSale(r: nat, id: int)
    | ForgetFreed(r: nat, id: int)
    | Restock(r: nat, n: nat)
    | TakeSnapshot(r: nat, token: int)
    | SwapIn(r: nat, token: int)
  {
    predicate Statement() {
      ClaimBatch? || Sell? || GiveBack? || Sweep?
    }
  }

  /** What loadSQL reads. */
  ghost function CountsOf(book: Book, nums: map<int, nat>, space: nat): Hint {
    seq(space, n requires 0 <= n => |UnsoldOf(book, nums, n)|)
  }

  // ---------------------------------------------------------------- statements

  ghost predicate Allowed(book: Book, step: Step)
    requires step.Statement()
  {
    match step
    case ClaimBatch(_, ids, _, now, _) =>
      ids != Nil && ids.Distinct() && forall id :: id in ids.Members() ==> ClaimableIn(book, id, now)
    case Sell(_, id, holder, now) => id in book && Legal(Confirmed(id, holder, now), book[id])
    case GiveBack(_, id, holder) => id in book && Legal(Released(id, holder), book[id])
    case Sweep(ids, now) => forall id :: id in ids ==> id in book && Legal(Reaped(id, now), book[id])
  }

  function BookAfter(book: Book, step: Step): (r: Book)
    requires step.Statement()
  {
    match step
    case ClaimBatch(_, ids, holder, _, until) => Grant(book, ids.Members(), holder, until)
    case Sell(_, id, _, _) => book[id := Taken]
    case GiveBack(_, id, _) => book[id := Free]
    case Sweep(ids, _) => map id | id in book :: if id in ids then Free else book[id]
  }

  /** What the replica that issued the statement has to do next. */
  function Reported(rep: Replica, step: Step): Replica
    requires step.Statement()
  {
    match step
    case ClaimBatch(_, ids, _, _, _) => rep.(landed := rep.landed + multiset{ids})
    case Sell(_, id, _, _) => rep.(committed := rep.committed + {id})
    case GiveBack(_, id, _) => rep.(freed := rep.freed + multiset{id})
    case Sweep(_, _) => rep
  }

  // ---------------------------------------------------------------- steps inside a replica

  function MarkEach(hint: Hint, ids: Ids, nums: map<int, nat>): (r: Hint)
    ensures |r| == |hint|
  {
    if ids.Nil? then hint else MarkAvailable(MarkEach(hint, ids.front, nums), NumberFor(nums, ids.last))
  }

  function RememberEach(known: map<int, nat>, ids: Ids, nums: map<int, nat>): map<int, nat> {
    if ids.Nil? then known else RememberEach(known, ids.front, nums)[ids.last := NumberFor(nums, ids.last)]
  }

  /** forgetNumber after a sale: a number this replica never knew leaves the hint one too high. */
  function Forgotten(rep: Replica, id: int): Replica {
    var next := rep.(committed := rep.committed - {id}, known := rep.known - {id});
    if id in rep.known then next.(marking := rep.marking[id := rep.known[id]]) else next
  }

  function Finished(rep: Replica, id: int): Replica
    requires id in rep.marking
  {
    rep.(hint := MarkSold(rep.hint, rep.marking[id]), marking := rep.marking - {id})
  }

  function Unreleased(rep: Replica, id: int): Replica {
    var next := rep.(freed := rep.freed - multiset{id}, known := rep.known - {id});
    if id in rep.known then next.(restocking := rep.restocking + multiset{rep.known[id]}) else next
  }

  /** The swap. Straddled are the own confirmations that were committed before the snapshot was read and have not
      reached MarkSold by now: the new counts already exclude them, and MarkSold will subtract them once more. */
  function Swapped(rep: Replica, token: int): Replica
    requires token in rep.snapshots
  {
    var snap := rep.snapshots[token];
    rep.(hint := snap.counts, snapshots := rep.snapshots - {token}, straddled := snap.before * rep.Pending())
  }

  ghost predicate Due(rep: Replica, step: Step)
    requires !step.Statement()
  {
    match step
    case MarkBatch(_, batch) => batch in rep.landed
    case RememberBatch(_, batch) => batch in rep.raised
    case ForgetSold(_, id) => id in rep.committed
    case FinishSale(_, id) => id in rep.marking
    case ForgetFreed(_, id) => id in rep.freed
    case Restock(_, n) => n in rep.restocking
    case TakeSnapshot(_, token) => token !in rep.snapshots
    case SwapIn(_, token) => token in rep.snapshots
  }

  ghost function Local(rep: Replica, book: Book, nums: map<int, nat>, space: nat, step: Step): Replica
    requires !step.Statement() && Due(rep, step)
  {
    match step
    case MarkBatch(_, batch) =>
      rep.(hint := MarkEach(rep.hint, batch, nums), landed := rep.landed - multiset{batch},
        raised := rep.raised + multiset{batch})
    case RememberBatch(_, batch) =>
      rep.(known := RememberEach(rep.known, batch, nums), raised := rep.raised - multiset{batch})
    case ForgetSold(_, id) => Forgotten(rep, id)
    case FinishSale(_, id) => Finished(rep, id)
    case ForgetFreed(_, id) => Unreleased(rep, id)
    case Restock(_, n) => rep.(hint := MarkAvailable(rep.hint, n), restocking := rep.restocking - multiset{n})
    case TakeSnapshot(_, token) =>
      rep.(snapshots := rep.snapshots[token := Snapshot(CountsOf(book, nums, space), rep.Pending(), book)])
    case SwapIn(_, token) => Swapped(rep, token)
  }

  ghost predicate Enabled(s: System, step: Step) {
    if step.Statement() then Allowed(s.book, step) else step.r < |s.replicas| && Due(s.replicas[step.r], step)
  }

  /** The replica a statement reports to, if it is one of ours. */
  predicate Own(s: System, step: Step, r: int) {
    step.Statement() && !step.Sweep? && step.at == r && 0 <= r < |s.replicas|
  }

  ghost function Next(s: System, step: Step): System
    requires Enabled(s, step)
  {
    if step.Sweep? then s.(book := BookAfter(s.book, step))
    else if step.Statement() then
      s.(book := BookAfter(s.book, step),
         replicas := if Own(s, step, step.at) then s.replicas[step.at := Reported(s.replicas[step.at], step)]
           else s.replicas)
    else
      s.(replicas := s.replicas[step.r := Local(s.replicas[step.r], s.book, s.nums, s.space, step)])
  }

  // ---------------------------------------------------------------- the invariant

  /** Those of the ids that carry number n. */
  ghost function Of(ids: set<int>, nums: map<int, nat>, n: nat): set<int> {
    set id | id in ids && id in nums && nums[id] == n
  }

  /** counts[n] >= unsold(n) + pendingOwnConfirms(n) - straddled(n) */
  ghost predicate Bound(rep: Replica, book: Book, nums: map<int, nat>, n: nat) {
    n < |rep.hint| && rep.hint[n] + |Of(rep.straddled, nums, n)| >=
      |UnsoldOf(book, nums, n)| + |Of(rep.Pending(), nums, n)|
  }

  /** What a running refresh has read is what the book said then: nothing sold has become unsold since, and the own
      confirmations that are pending now were sold after it exactly if they are not among those pending then. */
  ghost predicate SnapshotInv(snap: Snapshot, pending: set<int>, book: Book, nums: map<int, nat>, space: nat) {
    && snap.counts == CountsOf(snap.read, nums, space)
    && snap.read.Keys == book.Keys
    && (forall id :: id in book && snap.read[id].Taken? ==> book[id].Taken?)
    && (forall id :: id in book && id in snap.before ==> snap.read[id].Taken?)
    && (forall id :: id in book && id in pending && id !in snap.before ==> !snap.read[id].Taken?)
  }

  ghost predicate BatchOf(ids: Ids, nums: map<int, nat>) {
    forall id :: id in ids.Members() ==> id in nums
  }

  /** Remembered numbers are right, and a pending confirmation is a sold ticket. */
  ghost predicate Faithful(rep: Replica, book: Book, nums: map<int, nat>) {
    && (forall id :: id in rep.known ==> id in nums && rep.known[id] == nums[id])
    && (forall id :: id in rep.marking ==> id in nums && rep.marking[id] == nums[id])
    && (forall batch :: batch in rep.landed || batch in rep.raised ==> BatchOf(batch, nums))
    && (forall id :: id in rep.Pending() ==> id in book && book[id].Taken?)
    && rep.committed !! rep.marking.Keys
  }

  ghost predicate ReplicaInv(rep: Replica, book: Book, nums: map<int, nat>, space: nat) {
    && Faithful(rep, book, nums)
    && (forall n: nat :: n < space ==> Bound(rep, book, nums, n))
    && (forall token :: token in rep.snapshots ==> SnapshotInv(rep.snapshots[token], rep.Pending(), book, nums, space))
  }

  ghost predicate Inv(s: System) {
    && s.book.Keys == s.nums.Keys
    && (forall id :: id in s.nums ==> s.nums[id] < s.space)
    && forall r :: 0 <= r < |s.replicas| ==> ReplicaInv(s.replicas[r], s.book, s.nums, s.space)
  }

  // ---------------------------------------------------------------- counting

  lemma OfAdd(ids: set<int>, nums: map<int, nat>, id: int, n: nat)
    requires id !in ids && id in nums
    ensures |Of(ids + {id}, nums, n)| == |Of(ids, nums, n)| + if nums[id] == n then 1 else 0
  {
    assert Of(ids + {id}, nums, n) == Of(ids, nums, n) + if nums[id] == n then {id} else {};
  }

  lemma OfRemove(ids: set<int>, nums: map<int, nat>, id: int, n: nat)
    requires id in ids && id in nums
    ensures |Of(ids - {id}, nums, n)| == |Of(ids, nums, n)| - if nums[id] == n then 1 else 0
  {
    assert ids == ids - {id} + {id};
    OfAdd(ids - {id}, nums, id, n);
  }

  lemma OfMonotone(a: set<int>, b: set<int>, nums: map<int, nat>, n: nat)
    requires a <= b
    ensures |Of(a, nums, n)| <= |Of(b, nums, n)|
  {
    SubsetSize(Of(a, nums, n), Of(b, nums, n));
  }

  lemma OfSplit(a: set<int>, b: set<int>, nums: map<int, nat>, n: nat)
    ensures |Of(a, nums, n)| == |Of(a - b, nums, n)| + |Of(b * a, nums, n)|
  {
    assert Of(a, nums, n) == Of(a - b, nums, n) + Of(b * a, nums, n);
  }

  /** Sales, seen from a number: an enabled statement leaves its unsold tickets alone or sells one of them. */
  lemma UnsoldAfter(book: Book, nums: map<int, nat>, step: Step, n: nat)
    requires step.Statement() && Allowed(book, step) && book.Keys == nums.Keys
    ensures BookAfter(book, step).Keys == book.Keys
    ensures step.Sell? ==> UnsoldOf(BookAfter(book, step), nums, n) == UnsoldOf(book, nums, n) - {step.id}
    ensures step.Sell? && nums[step.id] == n ==> step.id in UnsoldOf(book, nums, n)
    ensures step.Sell? && nums[step.id] != n ==> step.id !in UnsoldOf(book, nums, n)
    ensures !step.Sell? ==> UnsoldOf(BookAfter(book, step), nums, n) == UnsoldOf(book, nums, n)
  {
    var after := BookAfter(book, step);
    assert step.Sell? || step.GiveBack? ==> step.id in book.Keys;
    assert after.Keys == book.Keys;
    forall id | id in book ensures after[id].Taken? <==> book[id].Taken? || (step.Sell? && id == step.id) {
      if step.ClaimBatch? && id in step.taken.Members() {
        assert ClaimableIn(book, id, step.now);
      }
    }
  }

  /** Sold stays sold. */
  lemma TakenStays(book: Book, step: Step, id: int)
    requires step.Statement() && Allowed(book, step) && id in book && book[id].Taken?
    ensures id in BookAfter(book, step) && BookAfter(book, step)[id].Taken?
  {
    assert step.ClaimBatch? && id in step.taken.Members() ==> ClaimableIn(book, id, step.now);
  }

  lemma UnsoldSize(book: Book, nums: map<int, nat>, step: Step, n: nat)
    requires step.Statement() && Allowed(book, step) && book.Keys == nums.Keys
    ensures |UnsoldOf(BookAfter(book, step), nums, n)|
         == |UnsoldOf(book, nums, n)| - if step.Sell? && nums[step.id] == n then 1 else 0
  {
    UnsoldAfter(book, nums, step, n);
    if step.Sell? && nums[step.id] != n {
      assert UnsoldOf(book, nums, n) - {step.id} == UnsoldOf(book, nums, n);
    }
  }

  // ---------------------------------------------------------------- every step keeps the invariant

  lemma BoundNarrower(rep: Replica, next: Replica, book: Book, nums: map<int, nat>, n: nat)
    requires Bound(rep, book, nums, n) && n < |next.hint| && next.hint[n] >= rep.hint[n]
    requires next.Pending() <= rep.Pending() && next.straddled == rep.straddled
    ensures Bound(next, book, nums, n)
  {
    OfMonotone(next.Pending(), rep.Pending(), nums, n);
  }

  /** A step that only takes pending confirmations away and moves no counter down. */
  lemma QuietStep(rep: Replica, next: Replica, book: Book, nums: map<int, nat>, space: nat)
    requires ReplicaInv(rep, book, nums, space) && Faithful(next, book, nums)
    requires |next.hint| == |rep.hint| && forall n :: 0 <= n < |rep.hint| ==> next.hint[n] >= rep.hint[n]
    requires next.Pending() <= rep.Pending() && next.straddled == rep.straddled && next.snapshots == rep.snapshots
    ensures ReplicaInv(next, book, nums, space)
  {
    forall n: nat | n < space ensures Bound(next, book, nums, n) {
      BoundNarrower(rep, next, book, nums, n);
    }
    forall token | token in next.snapshots
      ensures SnapshotInv(next.snapshots[token], next.Pending(), book, nums, space)
    {
      assert SnapshotInv(rep.snapshots[token], rep.Pending(), book, nums, space);
    }
  }

  lemma {:induction false} MarkEachRaises(hint: Hint, ids: Ids, nums: map<int, nat>, n: nat)
    requires n < |hint|
    ensures MarkEach(hint, ids, nums)[n] >= hint[n]
    ensures hint[n] > 0 ==> MarkEach(hint, ids, nums)[n] == hint[n]
  {
    if ids.Snoc? {
      MarkEachRaises(hint, ids.front, nums, n);
    }
  }

  lemma {:induction false} RememberEachAt(known: map<int, nat>, ids: Ids, nums: map<int, nat>, id: int)
    ensures id in RememberEach(known, ids, nums) <==> id in known || id in ids.Members()
    ensures id in ids.Members() ==> RememberEach(known, ids, nums)[id] == NumberFor(nums, id)
    ensures id in known && id !in ids.Members() ==> RememberEach(known, ids, nums)[id] == known[id]
  {
    if ids.Snoc? {
      RememberEachAt(known, ids.front, nums, id);
    }
  }

  lemma BatchMarked(rep: Replica, batch: Ids, book: Book, nums: map<int, nat>, space: nat)
    requires ReplicaInv(rep, book, nums, space) && batch in rep.landed
    ensures ReplicaInv(Local(rep, book, nums, space, MarkBatch(0, batch)), book, nums, space)
  {
    var next := Local(rep, book, nums, space, MarkBatch(0, batch));
    forall n | 0 <= n < |rep.hint| ensures next.hint[n] >= rep.hint[n] {
      MarkEachRaises(rep.hint, batch, nums, n);
    }
    QuietStep(rep, next, book, nums, space);
  }

  lemma BatchRemembered(rep: Replica, batch: Ids, book: Book, nums: map<int, nat>, space: nat)
    requires ReplicaInv(rep, book, nums, space) && batch in rep.raised
    ensures ReplicaInv(Local(rep, book, nums, space, RememberBatch(0, batch)), book, nums, space)
  {
    var next := Local(rep, book, nums, space, RememberBatch(0, batch));
    assert BatchOf(batch, nums);
    forall id | id in next.known ensures id in nums && next.known[id] == nums[id] {
      RememberEachAt(rep.known, batch, nums, id);
    }
    QuietStep(rep, next, book, nums, space);
  }

  /** An unknown number drops a pending confirmation without touching the count: the hint over-reports. */
  lemma SaleForgotten(rep: Replica, id: int, book: Book, nums: map<int, nat>, space: nat)
    requires ReplicaInv(rep, book, nums, space) && id in rep.committed
    ensures ReplicaInv(Forgotten(rep, id), book, nums, space)
  {
    assert Forgotten(rep, id).Pending() <= rep.Pending();
    QuietStep(rep, Forgotten(rep, id), book, nums, space);
  }

  lemma ReleaseForgotten(rep: Replica, id: int, book: Book, nums: map<int, nat>, space: nat)
    requires ReplicaInv(rep, book, nums, space)
    ensures ReplicaInv(Unreleased(rep, id), book, nums, space)
  {
    QuietStep(rep, Unreleased(rep, id), book, nums, space);
  }

  lemma NumberRestocked(rep: Replica, n: nat, book: Book, nums: map<int, nat>, space: nat)
    requires ReplicaInv(rep, book, nums, space)
    ensures ReplicaInv(rep.(hint := MarkAvailable(rep.hint, n), restocking := rep.restocking - multiset{n}), book, nums,
      space)
  {
    QuietStep(rep, rep.(hint := MarkAvailable(rep.hint, n), restocking := rep.restocking - multiset{n}), book, nums,
      space);
  }

  /** MarkSold takes one off the count of a ticket that is no longer pending. */
  lemma SaleFinished(rep: Replica, id: int, book: Book, nums: map<int, nat>, space: nat)
    requires ReplicaInv(rep, book, nums, space) && id in rep.marking
    ensures ReplicaInv(Finished(rep, id), book, nums, space)
  {
    var next := Finished(rep, id);
    assert next.Pending() == rep.Pending() - {id};
    forall n: nat | n < space ensures Bound(next, book, nums, n) {
      assert Bound(rep, book, nums, n);
      OfRemove(rep.Pending(), nums, id, n);
    }
    forall token | token in next.snapshots
      ensures SnapshotInv(next.snapshots[token], next.Pending(), book, nums, space)
    {
      assert SnapshotInv(rep.snapshots[token], rep.Pending(), book, nums, space);
    }
  }

  lemma SnapshotTaken(rep: Replica, token: int, book: Book, nums: map<int, nat>, space: nat)
    requires ReplicaInv(rep, book, nums, space) && token !in rep.snapshots
    ensures ReplicaInv(Local(rep, book, nums, space, TakeSnapshot(0, token)), book, nums, space)
  {
    var next := Local(rep, book, nums, space, TakeSnapshot(0, token));
    forall n: nat | n < space ensures Bound(next, book, nums, n) {
      assert Bound(rep, book, nums, n);
    }
    forall t | t in next.snapshots ensures SnapshotInv(next.snapshots[t], next.Pending(), book, nums, space) {
      if t != token {
        assert SnapshotInv(rep.snapshots[t], rep.Pending(), book, nums, space);
      }
    }
  }

  /** The tickets of number n sold since a book was read. */
  ghost function SoldSince(read: Book, book: Book, nums: map<int, nat>, n: nat): set<int> {
    UnsoldOf(read, nums, n) - UnsoldOf(book, nums, n)
  }

  /** A snapshot exceeds the truth by exactly the sales since; the own confirmations pending now that were not pending
      then are among those sales, the others are not. */
  lemma SnapshotCounts(snap: Snapshot, pending: set<int>, book: Book, nums: map<int, nat>, space: nat, n: nat)
    requires SnapshotInv(snap, pending, book, nums, space) && n < space && book.Keys == nums.Keys
    requires forall id :: id in pending ==> id in book && book[id].Taken?
    ensures |snap.counts| == space
    ensures snap.counts[n] == |UnsoldOf(book, nums, n)| + |SoldSince(snap.read, book, nums, n)|
    ensures Of(pending - snap.before, nums, n) <= SoldSince(snap.read, book, nums, n)
    ensures Of(pending * snap.before, nums, n) !! SoldSince(snap.read, book, nums, n)
  {
    var earlier, left := UnsoldOf(snap.read, nums, n), UnsoldOf(book, nums, n);
    forall id | id in left ensures id in earlier {
      assert id in snap.read.Keys <==> id in book.Keys;
    }
    forall id | id in Of(pending - snap.before, nums, n) ensures id in earlier && id !in left {
      assert id in pending && id in book.Keys;
      assert id in snap.read.Keys <==> id in book.Keys;
    }
    forall id | id in Of(pending * snap.before, nums, n) ensures id !in earlier {
      assert id in pending && id in book.Keys && id in snap.before;
    }
    assert earlier == left + (earlier - left);
  }

  lemma SwapKeeps(rep: Replica, token: int, book: Book, nums: map<int, nat>, space: nat)
    requires ReplicaInv(rep, book, nums, space) && token in rep.snapshots && book.Keys == nums.Keys
    ensures ReplicaInv(Swapped(rep, token), book, nums, space)
  {
    var next, snap := Swapped(rep, token), rep.snapshots[token];
    forall n: nat | n < space ensures Bound(next, book, nums, n) {
      SnapshotCounts(snap, rep.Pending(), book, nums, space, n);
      SubsetSize(Of(rep.Pending() - snap.before, nums, n), SoldSince(snap.read, book, nums, n));
      OfSplit(rep.Pending(), snap.before, nums, n);
    }
    forall t | t in next.snapshots ensures SnapshotInv(next.snapshots[t], next.Pending(), book, nums, space) {
      assert SnapshotInv(rep.snapshots[t], rep.Pending(), book, nums, space);
    }
  }

  /** A statement issued by somebody else can only lower the number of unsold tickets. */
  lemma ForeignStatement(rep: Replica, book: Book, nums: map<int, nat>, space: nat, step: Step)
    requires ReplicaInv(rep, book, nums, space) && step.Statement() && Allowed(book, step) && book.Keys == nums.Keys
    ensures ReplicaInv(rep, BookAfter(book, step), nums, space)
  {
    var after := BookAfter(book, step);
    UnsoldAfter(book, nums, step, 0);
    forall n: nat | n < space ensures Bound(rep, after, nums, n) {
      assert Bound(rep, book, nums, n);
      UnsoldSize(book, nums, step, n);
    }
    forall id | id in rep.Pending() ensures id in after && after[id].Taken? {
      TakenStays(book, step, id);
    }
    forall token | token in rep.snapshots ensures SnapshotInv(rep.snapshots[token], rep.Pending(), after, nums, space) {
      SnapshotAges(rep.snapshots[token], rep.Pending(), book, nums, space, step);
    }
  }

  lemma SnapshotAges(snap: Snapshot, pending: set<int>, book: Book, nums: map<int, nat>, space: nat, step: Step)
    requires SnapshotInv(snap, pending, book, nums, space)
    requires step.Statement() && Allowed(book, step) && book.Keys == nums.Keys
    ensures SnapshotInv(snap, pending, BookAfter(book, step), nums, space)
  {
    var after := BookAfter(book, step);
    UnsoldAfter(book, nums, step, 0);
    forall id | id in after && snap.read[id].Taken? ensures after[id].Taken? {
      TakenStays(book, step, id);
    }
  }

  /** An own confirmation takes one unsold ticket away and adds one pending confirmation of the same number. */
  lemma OwnSale(rep: Replica, book: Book, nums: map<int, nat>, space: nat, step: Step)
    requires ReplicaInv(rep, book, nums, space) && step.Sell? && Allowed(book, step) && book.Keys == nums.Keys
    ensures ReplicaInv(Reported(rep, step), BookAfter(book, step), nums, space)
  {
    var next, id, after := Reported(rep, step), step.id, BookAfter(book, step);
    assert id in nums.Keys;
    assert next.Pending() == rep.Pending() + {id} && id !in rep.Pending();
    forall n: nat | n < space ensures Bound(next, after, nums, n) {
      assert Bound(rep, book, nums, n);
      UnsoldSize(book, nums, step, n);
      OfAdd(rep.Pending(), nums, id, n);
    }
    forall token | token in next.snapshots
      ensures SnapshotInv(next.snapshots[token], next.Pending(), after, nums, space)
    {
      SnapshotAges(rep.snapshots[token], rep.Pending(), book, nums, space, step);
    }
  }

  lemma OwnStatement(rep: Replica, book: Book, nums: map<int, nat>, space: nat, step: Step)
    requires ReplicaInv(rep, book, nums, space) && step.Statement() && Allowed(book, step) && book.Keys == nums.Keys
    ensures ReplicaInv(Reported(rep, step), BookAfter(book, step), nums, space)
  {
    if step.Sell? {
      OwnSale(rep, book, nums, space, step);
    } else {
      ForeignStatement(rep, book, nums, space, step);
      if step.ClaimBatch? {
        forall id | id in step.taken.Members() ensures id in nums {
          assert ClaimableIn(book, id, step.now);
          assert id in book.Keys;
        }
      }
      QuietStep(rep, Reported(rep, step), BookAfter(book, step), nums, space);
    }
  }

  lemma LocalKeeps(rep: Replica, book: Book, nums: map<int, nat>, space: nat, step: Step)
    requires ReplicaInv(rep, book, nums, space) && book.Keys == nums.Keys && !step.Statement() && Due(rep, step)
    ensures ReplicaInv(Local(rep, book, nums, space, step), book, nums, space)
  {
    match step
    case MarkBatch(_, batch) => BatchMarked(rep, batch, book, nums, space);
    case RememberBatch(_, batch) => BatchRemembered(rep, batch, book, nums, space);
    case ForgetSold(_, id) => SaleForgotten(rep, id, book, nums, space);
    case FinishSale(_, id) => SaleFinished(rep, id, book, nums, space);
    case ForgetFreed(_, id) => ReleaseForgotten(rep, id, book, nums, space);
    case Restock(_, n) => NumberRestocked(rep, n, book, nums, space);
    case TakeSnapshot(_, token) => SnapshotTaken(rep, token, book, nums, space);
    case SwapIn(_, token) => SwapKeeps(rep, token, book, nums, space);
  }

  lemma StepKeeps(s: System, step: Step)
    requires Inv(s) && Enabled(s, step)
    ensures Inv(Next(s, step))
  {
    var next := Next(s, step);
    if step.Statement() {
      UnsoldAfter(s.book, s.nums, step, 0);
    }
    forall r | 0 <= r < |next.replicas| ensures ReplicaInv(next.replicas[r], next.book, next.nums, next.space) {
      if Own(s, step, r) {
        OwnStatement(s.replicas[r], s.book, s.nums, s.space, step);
      } else if step.Statement() {
        ForeignStatement(s.replicas[r], s.book, s.nums, s.space, step);
      } else if r == step.r {
        LocalKeeps(s.replicas[r], s.book, s.nums, s.space, step);
      }
    }
  }

  // ---------------------------------------------------------------- reachable states

  /** Steps one after the other. */
  datatype Path = Here | On(past: Path, step: Step)

  ghost function End(s: System, path: Path): System {
    match path
    case Here => s
    case On(past, step) => if Enabled(End(s, past), step) then Next(End(s, past), step) else End(s, past)
  }

  ghost predicate Feasible(s: System, path: Path) {
    match path
    case Here => true
    case On(past, step) => Feasible(s, past) && Enabled(End(s, past), step)
  }

  /** A replica that has just been built: its hint is what the database said, and nothing is running. */
  ghost function Booted(book: Book, nums: map<int, nat>, space: nat): Replica {
    Replica(CountsOf(book, nums, space), map[], multiset{}, multiset{}, {}, map[], multiset{}, multiset{}, map[], {})
  }

  ghost predicate Initial(s: System) {
    && s.book.Keys == s.nums.Keys
    && (forall id :: id in s.nums ==> s.nums[id] < s.space)
    && forall r :: 0 <= r < |s.replicas| ==> s.replicas[r] == Booted(s.book, s.nums, s.space)
  }

  ghost predicate Reachable(s: System) {
    exists start: System, path: Path :: Initial(start) && Feasible(start, path) && End(start, path) == s
  }

  lemma {:induction false} PathKeeps(s: System, path: Path)
    requires Inv(s) && Feasible(s, path)
    ensures Inv(End(s, path))
  {
    if path.On? {
      PathKeeps(s, path.past);
      StepKeeps(End(s, path.past), path.step);
    }
  }

  lemma InitialInv(s: System)
    requires Initial(s)
    ensures Inv(s)
  {
    forall r | 0 <= r < |s.replicas| ensures ReplicaInv(s.replicas[r], s.book, s.nums, s.space) {
      forall n: nat | n < s.space ensures Bound(s.replicas[r], s.book, s.nums, n) {
        assert Of({}, s.nums, n) == {};
      }
    }
  }

  lemma ReachableInv(s: System)
    requires Reachable(s)
    ensures Inv(s)
  {
    var start: System, path: Path :| Initial(start) && Feasible(start, path) && End(start, path) == s;
    InitialInv(start);
    PathKeeps(start, path);
  }

  lemma {:induction false} ReachableOn(s: System, step: Step)
    requires Reachable(s) && Enabled(s, step)
    ensures Reachable(Next(s, step))
  {
    var start: System, path: Path :| Initial(start) && Feasible(start, path) && End(start, path) == s;
    assert Feasible(start, On(path, step)) && End(start, On(path, step)) == Next(s, step);
  }

  // ---------------------------------------------------------------- the drift bound

  /** The drift bound: in every reachable state each replica's count of a number is at least its unsold tickets plus the
      replica's own pending confirmations minus those straddled by its latest refresh. */
  lemma DriftBound(s: System, r: nat, n: nat)
    requires Reachable(s) && r < |s.replicas| && n < s.space
    ensures var rep := s.replicas[r];
      && |rep.hint| > n
      && rep.hint[n] >= |UnsoldOf(s.book, s.nums, n)| + |Of(rep.Pending(), s.nums, n)| - |Of(rep.straddled, s.nums, n)|
  {
    ReachableInv(s);
    assert Bound(s.replicas[r], s.book, s.nums, n);
  }

  /** Without straddled confirmations of a number its unsold tickets are never hidden. */
  lemma NeverHidden(s: System, r: nat, id: int)
    requires Reachable(s) && r < |s.replicas|
    requires id in s.book && !s.book[id].Taken? && id in s.nums
    requires Of(s.replicas[r].straddled, s.nums, s.nums[id]) == {}
    ensures MaybeAvailable(s.replicas[r].hint, s.nums[id])
  {
    ReachableInv(s);
    DriftBound(s, r, s.nums[id]);
    assert id in UnsoldOf(s.book, s.nums, s.nums[id]);
  }

  /** A refresh that no own confirmation straddles undoes all earlier damage: after it every unsold ticket's
      number passes. */
  lemma RefreshHeals(s: System, r: nat, token: int, id: int)
    requires Reachable(s) && r < |s.replicas| && token in s.replicas[r].snapshots
    requires s.replicas[r].snapshots[token].before !! s.replicas[r].Pending()
    requires id in s.book && !s.book[id].Taken? && id in s.nums
    ensures Reachable(Next(s, SwapIn(r, token)))
    ensures MaybeAvailable(Next(s, SwapIn(r, token)).replicas[r].hint, s.nums[id])
  {
    var next := Next(s, SwapIn(r, token));
    ReachableOn(s, SwapIn(r, token));
    assert next.replicas[r].straddled == {};
    assert Of({}, s.nums, s.nums[id]) == {};
    NeverHidden(next, r, id);
  }
}
