/** Exactly when a replica's count can fall below the truth, and when it can strand stock, before its next refresh
    (lottery-go/postgres/hybrid.go, load.go, STATE-SYNC.md). */
module Stranding {
  import opened Ledger
  import opened Allocation
  import opened Stock
  import opened Availabilities
  import opened Drift

  /** The ticket came back from a claim of this replica that has not remembered its number yet. */
  ghost predicate InBatch(rep: Replica, id: int) {
    exists batch :: (batch in rep.landed || batch in rep.raised) && id in batch.Members()
  }

  /** The pending confirmations whose MarkSold is still to come: the replica knows the number, or may get to know it
      before it looks it up. */
  ghost function Owed(rep: Replica): set<int> {
    set id | id in rep.Pending() && (id in rep.marking || id in rep.known || InBatch(rep, id))
  }

  /** The path contains no swap by replica r. */
  predicate NoSwap(path: Path, r: nat) {
    path.Here? || (NoSwap(path.past, r) && !(path.step.SwapIn? && path.step.r == r))
  }

  ghost predicate CountTrue(s: System, r: nat, n: nat) {
    r < |s.replicas| && n < |s.replicas[r].hint| && s.replicas[r].hint[n] >= |UnsoldOf(s.book, s.nums, n)|
  }

  /** Whatever happens before the replica's next swap, its count of n is at least the number of unsold tickets. */
  ghost predicate StaysTrue(s: System, r: nat, n: nat) {
    forall path :: Feasible(s, path) && NoSwap(path, r) ==> CountTrue(End(s, path), r, n)
  }

  ghost predicate Visible(s: System, r: nat, n: nat) {
    r < |s.replicas| && (UnsoldOf(s.book, s.nums, n) == {} || MaybeAvailable(s.replicas[r].hint, n))
  }

  /** Whatever happens before the replica's next swap, n passes its hint as long as it has an unsold ticket. */
  ghost predicate StaysVisible(s: System, r: nat, n: nat) {
    forall path :: Feasible(s, path) && NoSwap(path, r) ==> Visible(End(s, path), r, n)
  }

  /** The count covers the unsold tickets and everything MarkSold will still take off. */
  ghost predicate Covered(rep: Replica, book: Book, nums: map<int, nat>, n: nat) {
    n < |rep.hint| &&
    (UnsoldOf(book, nums, n) == {} || rep.hint[n] >= |UnsoldOf(book, nums, n)| + |Of(Owed(rep), nums, n)|)
  }

  // ---------------------------------------------------------------- what is covered stays covered

  lemma CoveredNarrower(rep: Replica, next: Replica, book: Book, nums: map<int, nat>, n: nat)
    requires Covered(rep, book, nums, n) && n < |next.hint| && next.hint[n] >= rep.hint[n]
    requires Owed(next) <= Owed(rep)
    ensures Covered(next, book, nums, n)
  {
    OfMonotone(Owed(next), Owed(rep), nums, n);
  }

  /** Statements other than a sale owe nothing new: a claimed or released ticket is not a sold one. */
  lemma OwedUnsold(rep: Replica, book: Book, nums: map<int, nat>, step: Step)
    requires Faithful(rep, book, nums) && step.Statement() && !step.Sell? && Allowed(book, step)
    ensures Owed(Reported(rep, step)) <= Owed(rep)
  {
    var next := Reported(rep, step);
    forall id | id in Owed(next) ensures id in Owed(rep) {
      if InBatch(next, id) && !InBatch(rep, id) {
        assert ClaimableIn(book, id, step.now);
      }
    }
  }

  lemma OwedSale(rep: Replica, step: Step)
    requires step.Sell?
    ensures Owed(Reported(rep, step)) <= Owed(rep) + {step.id}
  {
    var next := Reported(rep, step);
    forall id | id in Owed(next) ensures id in Owed(rep) + {step.id} {
      assert InBatch(next, id) <==> InBatch(rep, id);
    }
  }

  lemma StatementCovered(rep: Replica, book: Book, nums: map<int, nat>, space: nat, step: Step, own: bool, n: nat)
    requires ReplicaInv(rep, book, nums, space) && book.Keys == nums.Keys && Covered(rep, book, nums, n)
    requires step.Statement() && Allowed(book, step)
    ensures Covered(if own then Reported(rep, step) else rep, BookAfter(book, step), nums, n)
  {
    UnsoldAfter(book, nums, step, n);
    UnsoldSize(book, nums, step, n);
    if own {
      if step.Sell? {
        assert step.id in nums.Keys && step.id !in rep.Pending();
        OwedSale(rep, step);
        OfMonotone(Owed(Reported(rep, step)), Owed(rep) + {step.id}, nums, n);
        OfAdd(Owed(rep), nums, step.id, n);
      } else {
        OwedUnsold(rep, book, nums, step);
        CoveredNarrower(rep, Reported(rep, step), BookAfter(book, step), nums, n);
      }
    }
  }

  lemma SameBatches(rep: Replica, next: Replica, id: int)
    requires forall b :: b in next.landed || b in next.raised <==> b in rep.landed || b in rep.raised
    ensures InBatch(next, id) <==> InBatch(rep, id)
  {
  }

  lemma BatchesWithout(rep: Replica, next: Replica, batch: Ids, id: int)
    requires batch in rep.raised && next.landed == rep.landed && next.raised == rep.raised - multiset{batch}
    ensures id in batch.Members() ==> InBatch(rep, id)
    ensures id !in batch.Members() ==> (InBatch(next, id) <==> InBatch(rep, id))
    ensures InBatch(next, id) ==> InBatch(rep, id)
  {
    if InBatch(rep, id) && id !in batch.Members() {
      var b :| (b in rep.landed || b in rep.raised) && id in b.Members();
      assert b in next.landed || b in next.raised;
    }
  }

  /** Marking a batch changes nothing that is owed. */
  lemma OwedMarked(rep: Replica, batch: Ids, nums: map<int, nat>)
    requires batch in rep.landed
    ensures Owed(Local(rep, map[], nums, 0, MarkBatch(0, batch))) == Owed(rep)
  {
    var next := Local(rep, map[], nums, 0, MarkBatch(0, batch));
    assert forall b :: b in next.landed || b in next.raised <==> b in rep.landed || b in rep.raised;
    forall id ensures id in Owed(next) <==> id in Owed(rep) {
      SameBatches(rep, next, id);
    }
  }

  /** Remembering a batch changes nothing that is owed. */
  lemma OwedRemembered(rep: Replica, batch: Ids, nums: map<int, nat>)
    requires batch in rep.raised
    ensures Owed(Local(rep, map[], nums, 0, RememberBatch(0, batch))) == Owed(rep)
  {
    var next := Local(rep, map[], nums, 0, RememberBatch(0, batch));
    forall id ensures id in Owed(next) <==> id in Owed(rep) {
      RememberEachAt(rep.known, batch, nums, id);
      BatchesWithout(rep, next, batch, id);
    }
  }

  lemma OwedForgotten(rep: Replica, id: int)
    requires id in rep.committed
    ensures Owed(Forgotten(rep, id)) <= Owed(rep)
    ensures id in rep.known ==> Owed(Forgotten(rep, id)) == Owed(rep)
  {
    var next := Forgotten(rep, id);
    forall x ensures x in Owed(next) ==> x in Owed(rep) {
      SameBatches(rep, next, x);
    }
    if id in rep.known {
      forall x ensures x in Owed(rep) ==> x in Owed(next) {
        SameBatches(rep, next, x);
      }
    }
  }

  lemma OwedFinished(rep: Replica, id: int)
    requires id in rep.marking && rep.committed !! rep.marking.Keys
    ensures Owed(Finished(rep, id)) == Owed(rep) - {id}
  {
    var next := Finished(rep, id);
    forall x ensures x in Owed(next) <==> x in Owed(rep) - {id} {
      SameBatches(rep, next, x);
    }
  }

  lemma OwedElsewhere(rep: Replica, book: Book, nums: map<int, nat>, space: nat, step: Step)
    requires step.ForgetFreed? || step.Restock? || step.TakeSnapshot?
    requires Due(rep, step)
    ensures Owed(Local(rep, book, nums, space, step)) <= Owed(rep)
  {
    var next := Local(rep, book, nums, space, step);
    forall x ensures x in Owed(next) ==> x in Owed(rep) {
      SameBatches(rep, next, x);
    }
  }

  lemma FinishCovered(rep: Replica, id: int, book: Book, nums: map<int, nat>, space: nat, n: nat)
    requires ReplicaInv(rep, book, nums, space) && Covered(rep, book, nums, n) && id in rep.marking
    ensures Covered(Finished(rep, id), book, nums, n)
  {
    OwedFinished(rep, id);
    OfRemove(Owed(rep), nums, id, n);
  }

  lemma LocalCovered(rep: Replica, book: Book, nums: map<int, nat>, space: nat, step: Step, n: nat)
    requires ReplicaInv(rep, book, nums, space) && Covered(rep, book, nums, n)
    requires !step.Statement() && !step.SwapIn? && Due(rep, step)
    ensures Covered(Local(rep, book, nums, space, step), book, nums, n)
  {
    match step
    case MarkBatch(_, batch) =>
      OwedMarked(rep, batch, nums);
      MarkEachRaises(rep.hint, batch, nums, n);
      CoveredNarrower(rep, Local(rep, book, nums, space, step), book, nums, n);
    case RememberBatch(_, batch) =>
      OwedRemembered(rep, batch, nums);
      CoveredNarrower(rep, Local(rep, book, nums, space, step), book, nums, n);
    case ForgetSold(_, id) =>
      OwedForgotten(rep, id);
      CoveredNarrower(rep, Local(rep, book, nums, space, step), book, nums, n);
    case FinishSale(_, id) =>
      FinishCovered(rep, id, book, nums, space, n);
    case ForgetFreed(_, _) =>
      OwedElsewhere(rep, book, nums, space, step);
      CoveredNarrower(rep, Local(rep, book, nums, space, step), book, nums, n);
    case Restock(_, _) =>
      OwedElsewhere(rep, book, nums, space, step);
      CoveredNarrower(rep, Local(rep, book, nums, space, step), book, nums, n);
    case TakeSnapshot(_, _) =>
      OwedElsewhere(rep, book, nums, space, step);
      CoveredNarrower(rep, Local(rep, book, nums, space, step), book, nums, n);
  }

  /** What one step does to one replica. */
  lemma NextReplica(s: System, step: Step, r: nat)
    requires Enabled(s, step) && r < |s.replicas|
    ensures |Next(s, step).replicas| == |s.replicas| && Next(s, step).nums == s.nums && Next(s, step).space == s.space
    ensures step.Statement() ==> Next(s, step).book == BookAfter(s.book, step)
    ensures step.Statement() ==>
      Next(s, step).replicas[r] == if Own(s, step, r) then Reported(s.replicas[r], step) else s.replicas[r]
    ensures !step.Statement() ==> Next(s, step).book == s.book
    ensures !step.Statement() ==>
      Next(s, step).replicas[r] ==
        if step.r == r then Local(s.replicas[r], s.book, s.nums, s.space, step) else s.replicas[r]
  {
  }

  lemma StepCovered(s: System, step: Step, r: nat, n: nat)
    requires r < |s.replicas| && ReplicaInv(s.replicas[r], s.book, s.nums, s.space) && s.book.Keys == s.nums.Keys
    requires Enabled(s, step) && !(step.SwapIn? && step.r == r) && Covered(s.replicas[r], s.book, s.nums, n)
    ensures |Next(s, step).replicas| == |s.replicas| && Next(s, step).nums == s.nums
    ensures Covered(Next(s, step).replicas[r], Next(s, step).book, s.nums, n)
  {
    NextReplica(s, step, r);
    if step.Statement() {
      StatementCovered(s.replicas[r], s.book, s.nums, s.space, step, Own(s, step, r), n);
    } else if step.r == r {
      LocalCovered(s.replicas[r], s.book, s.nums, s.space, step, n);
    }
  }

  lemma {:induction false} PathCovered(s: System, path: Path, r: nat, n: nat)
    requires Inv(s) && Feasible(s, path) && NoSwap(path, r) && r < |s.replicas|
    requires Covered(s.replicas[r], s.book, s.nums, n)
    ensures var t := End(s, path); r < |t.replicas| && t.nums == s.nums && Covered(t.replicas[r], t.book, t.nums, n)
  {
    if path.On? {
      PathCovered(s, path.past, r, n);
      PathKeeps(s, path.past);
      StepCovered(End(s, path.past), path.step, r, n);
    }
  }

  // ---------------------------------------------------------------- what is not covered comes true

  /** The path leads from start to s without a swap by r. */
  ghost predicate Leads(start: System, path: Path, r: nat, s: System) {
    Feasible(start, path) && NoSwap(path, r) && End(start, path) == s && r < |s.replicas|
  }

  lemma LeadsInv(start: System, path: Path, r: nat, s: System)
    requires Inv(start) && Leads(start, path, r, s)
    ensures s.book.Keys == s.nums.Keys && ReplicaInv(s.replicas[r], s.book, s.nums, s.space)
  {
    PathKeeps(start, path);
  }

  /** One more step of replica r. */
  lemma StepLocally(start: System, path: Path, r: nat, s: System, step: Step) returns (longer: Path, t: System)
    requires Leads(start, path, r, s) && !step.Statement() && !step.SwapIn? && step.r == r && Due(s.replicas[r], step)
    ensures Leads(start, longer, r, t) && t.book == s.book && t.nums == s.nums && t.space == s.space
    ensures t.replicas[r] == Local(s.replicas[r], s.book, s.nums, s.space, step)
  {
    longer, t := On(path, step), Next(s, step);
    NextReplica(s, step, r);
  }

  /** One more statement of replica r. */
  lemma StepOutside(start: System, path: Path, r: nat, s: System, step: Step) returns (longer: Path, t: System)
    requires Leads(start, path, r, s) && step.Statement() && Own(s, step, r) && Allowed(s.book, step)
    ensures Leads(start, longer, r, t) && t.book == BookAfter(s.book, step) && t.nums == s.nums && t.space == s.space
    ensures t.replicas[r] == Reported(s.replicas[r], step)
  {
    longer, t := On(path, step), Next(s, step);
    NextReplica(s, step, r);
  }

  /** While the count of n is positive, marking batches does not move it. */
  lemma {:induction false} Mark(start: System, path: Path, r: nat, s: System, n: nat, batch: Ids)
    returns (longer: Path, t: System)
    requires Leads(start, path, r, s) && n < |s.replicas[r].hint| && s.replicas[r].hint[n] > 0 &&
      batch in s.replicas[r].landed
    ensures Leads(start, longer, r, t) && t.book == s.book && t.nums == s.nums && t.space == s.space
    ensures n < |t.replicas[r].hint| && t.replicas[r].hint[n] == s.replicas[r].hint[n]
    ensures Owed(t.replicas[r]) == Owed(s.replicas[r]) && t.replicas[r].Pending() == s.replicas[r].Pending()
    ensures t.replicas[r].committed == s.replicas[r].committed && batch in t.replicas[r].raised
  {
    longer, t := StepLocally(start, path, r, s, MarkBatch(r, batch));
    MarkEachRaises(s.replicas[r].hint, batch, s.nums, n);
    OwedMarked(s.replicas[r], batch, s.nums);
  }

  lemma {:induction false} Recall(start: System, path: Path, r: nat, s: System, batch: Ids, id: int)
    returns (longer: Path, t: System)
    requires Leads(start, path, r, s) && batch in s.replicas[r].raised && id in batch.Members()
    ensures Leads(start, longer, r, t) && t.book == s.book && t.nums == s.nums && t.space == s.space
    ensures t.replicas[r].hint == s.replicas[r].hint && t.replicas[r].committed == s.replicas[r].committed
    ensures Owed(t.replicas[r]) == Owed(s.replicas[r]) && id in t.replicas[r].known
  {
    longer, t := StepLocally(start, path, r, s, RememberBatch(r, batch));
    OwedRemembered(s.replicas[r], batch, s.nums);
    RememberEachAt(s.replicas[r].known, batch, s.nums, id);
  }

  lemma {:induction false} Forget(start: System, path: Path, r: nat, s: System, id: int)
    returns (longer: Path, t: System)
    requires Leads(start, path, r, s) && id in s.replicas[r].committed && id in s.replicas[r].known
    ensures Leads(start, longer, r, t) && t.book == s.book && t.nums == s.nums && t.space == s.space
    ensures t.replicas[r].hint == s.replicas[r].hint && Owed(t.replicas[r]) == Owed(s.replicas[r])
    ensures id in t.replicas[r].marking
  {
    longer, t := StepLocally(start, path, r, s, ForgetSold(r, id));
    OwedForgotten(s.replicas[r], id);
  }

  /** An owed confirmation can reach the point just before MarkSold without the count of n moving. */
  lemma {:induction false} ReachMarking(start: System, path: Path, r: nat, s: System, n: nat, id: int)
    returns (longer: Path, t: System)
    requires Leads(start, path, r, s) && n < |s.replicas[r].hint| && s.replicas[r].hint[n] > 0 &&
      id in Owed(s.replicas[r])
    ensures Leads(start, longer, r, t) && t.book == s.book && t.nums == s.nums && t.space == s.space
    ensures n < |t.replicas[r].hint| && t.replicas[r].hint[n] == s.replicas[r].hint[n]
    ensures Owed(t.replicas[r]) == Owed(s.replicas[r]) && id in t.replicas[r].marking
  {
    longer, t := path, s;
    if id !in s.replicas[r].marking {
      if id !in s.replicas[r].known {
        var batch :| (batch in s.replicas[r].landed || batch in s.replicas[r].raised) && id in batch.Members();
        if batch !in s.replicas[r].raised {
          longer, t := Mark(start, longer, r, t, n, batch);
        }
        longer, t := Recall(start, longer, r, t, batch, id);
      }
      longer, t := Forget(start, longer, r, t, id);
    }
  }

  /** MarkSold on a ticket of number n. */
  lemma {:induction false} Finish(start: System, path: Path, r: nat, s: System, n: nat, id: int)
    returns (longer: Path, t: System)
    requires Inv(start) && Leads(start, path, r, s) && n < |s.replicas[r].hint| && s.replicas[r].hint[n] > 0
    requires id in s.replicas[r].marking && id in s.nums && s.nums[id] == n
    ensures Leads(start, longer, r, t) && t.book == s.book && t.nums == s.nums && t.space == s.space
    ensures n < |t.replicas[r].hint| && t.replicas[r].hint[n] == s.replicas[r].hint[n] - 1
    ensures Owed(t.replicas[r]) == Owed(s.replicas[r]) - {id}
  {
    LeadsInv(start, path, r, s);
    longer, t := StepLocally(start, path, r, s, FinishSale(r, id));
    OwedFinished(s.replicas[r], id);
  }

  /** If the count does not cover what is owed, letting the running confirmations finish takes it below the truth. */
  lemma {:induction false} FallBelow(start: System, path: Path, r: nat, s: System, n: nat)
    returns (longer: Path, t: System)
    requires Inv(start) && Leads(start, path, r, s) && n < s.space && n < |s.replicas[r].hint|
    requires !Covered(s.replicas[r], s.book, s.nums, n)
    ensures Leads(start, longer, r, t) && t.nums == s.nums && t.space == s.space && t.book == s.book
    ensures n < |t.replicas[r].hint| && t.replicas[r].hint[n] < |UnsoldOf(t.book, t.nums, n)|
    decreases |Of(Owed(s.replicas[r]), s.nums, n)|
  {
    var owed := Of(Owed(s.replicas[r]), s.nums, n);
    if s.replicas[r].hint[n] < |UnsoldOf(s.book, s.nums, n)| {
      longer, t := path, s;
    } else {
      assert |UnsoldOf(s.book, s.nums, n)| > 0 && |owed| > 0;
      var id := OneOf(owed);
      longer, t := ReachMarking(start, path, r, s, n, id);
      longer, t := Finish(start, longer, r, t, n, id);
      OfRemove(Owed(s.replicas[r]), s.nums, id, n);
      longer, t := FallBelow(start, longer, r, t, n);
    }
  }

  lemma OneOf(ids: set<int>) returns (id: int)
    requires |ids| > 0
    ensures id in ids
  {
    assert (exists x :: x in ids) || ids == {};
    id :| id in ids;
  }

  /** A whole life of one ticket of number n at replica r: claimed, confirmed, marked sold. */
  lemma {:induction false} SellOne(start: System, path: Path, r: nat, s: System, n: nat, id: int)
    returns (longer: Path, t: System)
    requires Inv(start) && Leads(start, path, r, s) && n < |s.replicas[r].hint| && s.replicas[r].hint[n] > 0
    requires id in UnsoldOf(s.book, s.nums, n)
    ensures Leads(start, longer, r, t) && t.nums == s.nums && t.space == s.space
    ensures n < |t.replicas[r].hint| && t.replicas[r].hint[n] == s.replicas[r].hint[n] - 1
    ensures |UnsoldOf(t.book, t.nums, n)| == |UnsoldOf(s.book, s.nums, n)| - 1
  {
    var now := if s.book[id].Held? then s.book[id].until + 1 else 0;
    var batch, claim, sale := Snoc(Nil, id), ClaimBatch(r, Snoc(Nil, id), "", now, now), Sell(r, id, "", now);
    assert batch.Members() == {id} && ClaimableIn(s.book, id, now);
    LeadsInv(start, path, r, s);
    UnsoldSize(s.book, s.nums, claim, n);
    longer, t := StepOutside(start, path, r, s, claim);
    longer, t := Mark(start, longer, r, t, n, batch);
    longer, t := Recall(start, longer, r, t, batch, id);
    assert t.book[id] == Held("", now);
    LeadsInv(start, longer, r, t);
    UnsoldSize(t.book, t.nums, sale, n);
    longer, t := StepOutside(start, longer, r, t, sale);
    longer, t := Forget(start, longer, r, t, id);
    longer, t := Finish(start, longer, r, t, n, id);
  }

  /** Once the count is below the truth, selling on empties it while stock is left. */
  lemma {:induction false} RunDry(start: System, path: Path, r: nat, s: System, n: nat)
    returns (longer: Path, t: System)
    requires Inv(start) && Leads(start, path, r, s) && n < |s.replicas[r].hint|
    requires s.replicas[r].hint[n] < |UnsoldOf(s.book, s.nums, n)|
    ensures Leads(start, longer, r, t) && t.nums == s.nums
    ensures n < |t.replicas[r].hint| && t.replicas[r].hint[n] == 0 && UnsoldOf(t.book, t.nums, n) != {}
    decreases s.replicas[r].hint[n]
  {
    longer, t := path, s;
    var id := OneOf(UnsoldOf(s.book, s.nums, n));
    if s.replicas[r].hint[n] > 0 {
      longer, t := SellOne(start, longer, r, t, n, id);
      longer, t := RunDry(start, longer, r, t, n);
    }
  }

  // ---------------------------------------------------------------- the exact conditions

  /** From a reachable state, and until the replica swaps in another refresh, its count of n can never fall below the
      truth, and equally it can never hide stock of n, exactly if n is sold out or the count covers the unsold tickets
      together with the pending confirmations that are still going to be marked. */
  lemma {:induction false} NeverStrandsIff(s: System, r: nat, n: nat)
    requires Reachable(s) && r < |s.replicas| && n < s.space
    ensures var rep, unsold := s.replicas[r], UnsoldOf(s.book, s.nums, n);
      && n < |rep.hint|
      && (StaysTrue(s, r, n) <==> unsold == {} || rep.hint[n] >= |unsold| + |Of(Owed(rep), s.nums, n)|)
      && (StaysVisible(s, r, n) <==> StaysTrue(s, r, n))
  {
    ReachableInv(s);
    DriftBound(s, r, n);
    if Covered(s.replicas[r], s.book, s.nums, n) {
      forall path | Feasible(s, path) && NoSwap(path, r)
        ensures CountTrue(End(s, path), r, n) && Visible(End(s, path), r, n)
      {
        PathCovered(s, path, r, n);
      }
    } else {
      var path, t := FallBelow(s, Here, r, s, n);
      assert Feasible(s, path) && NoSwap(path, r) && !CountTrue(End(s, path), r, n);
      path, t := RunDry(s, path, r, t, n);
      assert Feasible(s, path) && NoSwap(path, r) && !Visible(End(s, path), r, n);
    }
  }

  /** Just after a refresh has been swapped in, that is so exactly if n is sold out or the tickets of n that were sold
      since the snapshot was read, and that MarkSold will not subtract, are at least as many as the straddled
      confirmations of n that it will. */
  lemma {:induction false} RefreshStrandsIff(s: System, r: nat, token: int, n: nat)
    requires Reachable(s) && r < |s.replicas| && token in s.replicas[r].snapshots && n < s.space
    ensures var after, read := Next(s, SwapIn(r, token)), s.replicas[r].snapshots[token].read;
      var owed, sold := Owed(after.replicas[r]), SoldSince(read, s.book, s.nums, n);
      && Reachable(after)
      && (StaysTrue(after, r, n) <==>
            UnsoldOf(s.book, s.nums, n) == {} || |sold - owed| >= |Of(after.replicas[r].straddled * owed, s.nums, n)|)
      && (StaysVisible(after, r, n) <==> StaysTrue(after, r, n))
  {
    var after, snap := Next(s, SwapIn(r, token)), s.replicas[r].snapshots[token];
    ReachableOn(s, SwapIn(r, token));
    ReachableInv(s);
    NeverStrandsIff(after, r, n);
    SnapshotCounts(snap, s.replicas[r].Pending(), s.book, s.nums, s.space, n);
    StraddledShare(after.replicas[r], snap, s.book, s.nums, n);
  }

  /** What is owed splits into sales since the snapshot and straddled confirmations. */
  lemma StraddledShare(rep: Replica, snap: Snapshot, book: Book, nums: map<int, nat>, n: nat)
    requires rep.straddled == snap.before * rep.Pending()
    requires Of(rep.Pending() - snap.before, nums, n) <= SoldSince(snap.read, book, nums, n)
    requires Of(rep.Pending() * snap.before, nums, n) !! SoldSince(snap.read, book, nums, n)
    ensures var owed, sold := Owed(rep), SoldSince(snap.read, book, nums, n);
      |sold| - |Of(owed, nums, n)| == |sold - owed| - |Of(rep.straddled * owed, nums, n)|
  {
    var owed, sold := Owed(rep), SoldSince(snap.read, book, nums, n);
    var mine, late := Of(owed - snap.before, nums, n), Of(rep.straddled * owed, nums, n);
    assert Of(owed, nums, n) == mine + late && mine !! late;
    assert sold == (sold - owed) + mine;
  }

  // ---------------------------------------------------------------- a run that strands a ticket

  const TWO_TICKETS: map<int, nat> := map[0 := 2, 1 := 2]
  const BOTH_FREE: Book := map[0 := Free, 1 := Free]
  const ONE_HELD: Book := map[0 := Held("a", 9), 1 := Free]
  const ONE_SOLD: Book := map[0 := Taken, 1 := Free]

  /** The only replica of the example. */
  ghost function Seller(counts: Hint, known: map<int, nat>, committed: set<int>, marking: map<int, nat>): Replica {
    Replica(counts, known, multiset{}, multiset{}, committed, marking, multiset{}, multiset{}, map[], {})
  }

  ghost function Single(book: Book, rep: Replica): System {
    System(book, TWO_TICKETS, 3, [rep])
  }

  lemma AfterLocal(book: Book, rep: Replica, step: Step, next: Replica)
    requires Reachable(Single(book, rep)) && !step.Statement() && step.r == 0
    requires Due(rep, step) && Local(rep, book, TWO_TICKETS, 3, step) == next
    ensures Reachable(Single(book, next))
  {
    ReachableOn(Single(book, rep), step);
    assert Next(Single(book, rep), step) == Single(book, next);
  }

  lemma AfterStatement(book: Book, rep: Replica, step: Step, after: Book, next: Replica)
    requires Reachable(Single(book, rep)) && step.Statement() && !step.Sweep? && step.at == 0
    requires Allowed(book, step) && BookAfter(book, step) == after && Reported(rep, step) == next
    ensures Reachable(Single(after, next))
  {
    ReachableOn(Single(book, rep), step);
    assert Next(Single(book, rep), step) == Single(after, next);
  }

  lemma BatchClaimed() returns (counts: Hint)
    ensures |counts| == 3
    ensures Reachable(Single(ONE_HELD, Seller(counts, map[], {}, map[]).(landed := multiset{Snoc(Nil, 0)})))
  {
    counts := CountsOf(BOTH_FREE, TWO_TICKETS, 3);
    var rep, batch := Seller(counts, map[], {}, map[]), Snoc(Nil, 0);
    var s := Single(BOTH_FREE, rep);
    assert Initial(s) && Feasible(s, Here) && End(s, Here) == s;
    assert batch.Members() == {0} && Grant(BOTH_FREE, {0}, "a", 9) == ONE_HELD;
    assert rep.landed + multiset{batch} == multiset{batch};
    AfterStatement(BOTH_FREE, rep, ClaimBatch(0, batch, "a", 0, 9), ONE_HELD, rep.(landed := multiset{batch}));
  }

  lemma BatchReconciled() returns (counts: Hint)
    ensures |counts| == 3 && Reachable(Single(ONE_HELD, Seller(counts, map[0 := 2], {}, map[])))
  {
    var before := BatchClaimed();
    var batch := Snoc(Nil, 0);
    counts := MarkEach(before, batch, TWO_TICKETS);
    var landed := Seller(before, map[], {}, map[]).(landed := multiset{batch});
    var raised := Seller(counts, map[], {}, map[]).(raised := multiset{batch});
    assert landed.landed - multiset{batch} == multiset{} && landed.raised + multiset{batch} == multiset{batch};
    AfterLocal(ONE_HELD, landed, MarkBatch(0, batch), raised);
    assert raised.raised - multiset{batch} == multiset{} && RememberEach(map[], batch, TWO_TICKETS) == map[0 := 2];
    AfterLocal(ONE_HELD, raised, RememberBatch(0, batch), Seller(counts, map[0 := 2], {}, map[]));
  }

  lemma SaleLookedUp() returns (counts: Hint)
    ensures |counts| == 3 && Reachable(Single(ONE_SOLD, Seller(counts, map[], {}, map[0 := 2])))
  {
    counts := BatchReconciled();
    var held, sold := Seller(counts, map[0 := 2], {}, map[]), Seller(counts, map[0 := 2], {0}, map[]);
    assert ONE_HELD[0 := Taken] == ONE_SOLD && held.committed + {0} == {0};
    AfterStatement(ONE_HELD, held, Sell(0, 0, "a", 1), ONE_SOLD, sold);
    assert Forgotten(sold, 0) == Seller(counts, map[], {}, map[0 := 2]);
    AfterLocal(ONE_SOLD, sold, ForgetSold(0, 0), Seller(counts, map[], {}, map[0 := 2]));
  }

  lemma RefreshSwapped() returns (counts: Hint)
    ensures counts == CountsOf(ONE_SOLD, TWO_TICKETS, 3)
    ensures Reachable(Single(ONE_SOLD, Seller(counts, map[], {}, map[0 := 2]).(straddled := {0})))
  {
    var before := SaleLookedUp();
    counts := CountsOf(ONE_SOLD, TWO_TICKETS, 3);
    var rep := Seller(before, map[], {}, map[0 := 2]);
    assert rep.Pending() == {0};
    var read := rep.(snapshots := map[7 := Snapshot(counts, {0}, ONE_SOLD)]);
    AfterLocal(ONE_SOLD, rep, TakeSnapshot(0, 7), read);
    assert read.snapshots - {7} == map[] && read.Pending() == {0} && {0} * {0} == {0};
    AfterLocal(ONE_SOLD, read, SwapIn(0, 7), Seller(counts, map[], {}, map[0 := 2]).(straddled := {0}));
  }

  /** Against the documented rule: two tickets of one number; the replica confirms one of them and, between the commit
      and MarkSold, refreshes. The refreshed count already excludes the sale, MarkSold subtracts it again, and the other
      ticket is hidden although nothing is left to do. */
  lemma StraddlingHidesStock() returns (s: System)
    ensures Reachable(s) && |s.replicas| == 1 && s.book == ONE_SOLD && s.nums == TWO_TICKETS
    ensures s.replicas[0].Idle() && !MaybeAvailable(s.replicas[0].hint, 2)
  {
    var counts := RefreshSwapped();
    assert UnsoldOf(ONE_SOLD, TWO_TICKETS, 2) == {1};
    var rep := Seller(counts, map[], {}, map[0 := 2]).(straddled := {0});
    var done := Seller(counts[2 := 0], map[], {}, map[]).(straddled := {0});
    assert rep.marking - {0} == map[];
    AfterLocal(ONE_SOLD, rep, FinishSale(0, 0), done);
    s := Single(ONE_SOLD, done);
  }
}
