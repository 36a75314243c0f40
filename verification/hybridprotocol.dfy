/** The calls of the hybrid store as runs of the drift protocol (lottery-go/postgres/hybrid.go): alone each call is such
    a run, and a claim may have any others running beside it. */
module HybridProtocol {
  import opened Counting
  import opened Ledger
  import opened Allocation
  import opened Stock
  import opened TicketTable
  import opened ClaimRounds
  import opened Availabilities
  import opened HybridRounds
  import opened Drift

  /** The protocol's book and numbers are those of the table. */
  ghost predicate OnTable(s: System, rows: Table) {
    s.book == ViewBook(rows) && s.nums == Numbers(rows)
  }

  /** Table and memory of replica r are what the protocol says they are. */
  ghost predicate Describes(s: System, r: nat, rows: Table, m: Memory) {
    OnTable(s, rows) && r < |s.replicas| && s.replicas[r].hint == m.hint && s.replicas[r].known == m.known
  }

  /** The same system with another table and another memory of replica r; no call has been left unfinished. */
  ghost function Changed(s: System, r: nat, rows: Table, m: Memory): System
    requires r < |s.replicas|
  {
    s.(book := ViewBook(rows), replicas := s.replicas[r := s.replicas[r].(hint := m.hint, known := m.known)])
  }

  function Chain(p: Path, q: Path): Path {
    if q.Here? then p else On(Chain(p, q.past), q.step)
  }

  lemma {:induction false} ChainFacts(s: System, p: Path, q: Path)
    requires Feasible(s, p) && Feasible(End(s, p), q)
    ensures Feasible(s, Chain(p, q)) && End(s, Chain(p, q)) == End(End(s, p), q)
  {
    if q.On? {
      ChainFacts(s, p, q.past);
    }
  }

  lemma NumbersKept(rows: Table, id: int, row: Row)
    requires id in rows && row.num == rows[id].num
    ensures Numbers(rows[id := row]) == Numbers(rows)
  {
    var after, before := Numbers(rows[id := row]), Numbers(rows);
    assert after.Keys == before.Keys;
    assert forall x :: x in before ==> after[x] == before[x];
  }

  /** The path leads to that table and that memory, and changes nothing else. */
  ghost predicate Ran(s: System, path: Path, r: nat, rows: Table, m: Memory)
    requires r < |s.replicas|
  {
    Feasible(s, path) && End(s, path) == Changed(s, r, rows, m) && Describes(End(s, path), r, rows, m)
  }

  lemma RanNowhere(s: System, r: nat, rows: Table, m: Memory)
    requires Describes(s, r, rows, m)
    ensures Ran(s, Here, r, rows, m)
  {
  }

  lemma RanOn(s: System, p: Path, q: Path, r: nat, mid: Table, m: Memory, rows: Table, told: Memory)
    requires r < |s.replicas| && Ran(s, p, r, mid, m) && r < |End(s, p).replicas| && Ran(End(s, p), q, r, rows, told)
    ensures Ran(s, Chain(p, q), r, rows, told)
  {
    ChainFacts(s, p, q);
  }

  // ---------------------------------------------------------------- one call that nobody interrupts

  lemma TwoSteps(s: System, a: Step, b: Step, s1: System, s2: System) returns (path: Path)
    requires Enabled(s, a) && s1 == Next(s, a) && Enabled(s1, b) && s2 == Next(s1, b)
    ensures Feasible(s, path) && End(s, path) == s2
  {
    path := On(On(Here, a), b);
    assert End(s, On(Here, a)) == s1;
  }

  lemma ThreeSteps(s: System, a: Step, b: Step, c: Step, s1: System, s2: System, s3: System) returns (path: Path)
    requires Enabled(s, a) && s1 == Next(s, a) && Enabled(s1, b) && s2 == Next(s1, b)
    requires Enabled(s2, c) && s3 == Next(s2, c)
    ensures Feasible(s, path) && End(s, path) == s3
  {
    path := TwoSteps(s, a, b, s1, s2);
    path := On(path, c);
  }

  /** A system in which only replica r and the book have moved on. */
  ghost function With(s: System, r: nat, book: Book, rep: Replica): System
    requires r < |s.replicas|
  {
    s.(book := book, replicas := s.replicas[r := rep])
  }

  lemma OwnStep(s: System, r: nat, rep: Replica, step: Step)
    requires r < |s.replicas| && s.replicas[r] == rep && step.Statement() && !step.Sweep? && step.at == r
    requires Enabled(s, step)
    ensures Next(s, step) == With(s, r, BookAfter(s.book, step), Reported(rep, step))
  {
  }

  lemma LocalStep(s: System, r: nat, book: Book, rep: Replica, step: Step)
    requires r < |s.replicas| && !step.Statement() && step.r == r && Due(rep, step)
    ensures Enabled(With(s, r, book, rep), step)
    ensures Next(With(s, r, book, rep), step) == With(s, r, book, Local(rep, book, s.nums, s.space, step))
  {
  }


  /** A sale, seen from the replica that made it. */
  lemma SaleSettled(rep: Replica, id: int)
    requires id !in rep.Pending()
    ensures var sold := rep.(committed := rep.committed + {id});
      && (id !in rep.known ==> Forgotten(sold, id) == rep)
      && (id in rep.known ==> var forgot := Forgotten(sold, id);
            id in forgot.marking &&
              Finished(forgot, id) == rep.(hint := MarkSold(rep.hint, rep.known[id]), known := rep.known - {id}))
  {
    var sold := rep.(committed := rep.committed + {id});
    assert sold.committed - {id} == rep.committed;
    if id in rep.known {
      assert rep.marking[id := rep.known[id]] - {id} == rep.marking;
    } else {
      assert rep.known - {id} == rep.known;
    }
  }

  /** HybridStore.Confirm: the sale, then forgetNumber, then MarkSold if the number was known. */
  lemma UninterruptedConfirm(s: System, r: nat, rows: Table, m: Memory, id: int, holder: string, now: int)
    returns (path: Path)
    requires Inv(s) && Describes(s, r, rows, m) && id in rows && RowConfirmable(rows[id], holder, now)
    ensures Ran(s, path, r, rows[id := SellRow(rows[id])], AfterSale(m, id))
  {
    var rep, after, sell := s.replicas[r], rows[id := SellRow(rows[id])], Sell(r, id, holder, now);
    NumbersKept(rows, id, SellRow(rows[id]));
    assert ViewBook(after) == BookAfter(s.book, sell);
    assert ReplicaInv(rep, s.book, s.nums, s.space);
    SaleSettled(rep, id);
    var book, sold := BookAfter(s.book, sell), Reported(rep, sell);
    OwnStep(s, r, rep, sell);
    var s1, forgot := With(s, r, book, sold), Forgotten(sold, id);
    LocalStep(s, r, book, sold, ForgetSold(r, id));
    var s2 := With(s, r, book, forgot);
    if id in m.known {
      LocalStep(s, r, book, forgot, FinishSale(r, id));
      path := ThreeSteps(s, sell, ForgetSold(r, id), FinishSale(r, id), s1, s2, With(s, r, book, Finished(forgot, id)));
    } else {
      path := TwoSteps(s, sell, ForgetSold(r, id), s1, s2);
    }
  }

  /** A release, seen from the replica that made it. */
  lemma ReleaseSettled(rep: Replica, id: int)
    ensures var back := rep.(freed := rep.freed + multiset{id});
      && (id !in rep.known ==> Unreleased(back, id) == rep)
      && (id in rep.known ==>
            var restocking := rep.restocking + multiset{rep.known[id]};
            Unreleased(back, id) == rep.(known := rep.known - {id}, restocking := restocking))
  {
    assert rep.freed + multiset{id} - multiset{id} == rep.freed;
    if id !in rep.known {
      assert rep.known - {id} == rep.known;
    }
  }

  lemma Restocked(rep: Replica, known: map<int, nat>, n: nat)
    ensures var told := rep.(known := known, restocking := rep.restocking + multiset{n});
      Local(told, map[], map[], 0, Restock(0, n)) == rep.(hint := MarkAvailable(rep.hint, n), known := known)
  {
    assert rep.restocking + multiset{n} - multiset{n} == rep.restocking;
  }

  /** HybridStore.Release: the update, then forgetNumber, then MarkAvailable if the number was known. */
  lemma UninterruptedRelease(s: System, r: nat, rows: Table, m: Memory, id: int, holder: string) returns (path: Path)
    requires Describes(s, r, rows, m) && WellKept(rows) && id in rows && RowHeldBy(rows[id], holder)
    ensures Ran(s, path, r, rows[id := FreeRow(rows[id])], AfterRelease(m, id))
  {
    var rep, after, back := s.replicas[r], rows[id := FreeRow(rows[id])], GiveBack(r, id, holder);
    NumbersKept(rows, id, FreeRow(rows[id]));
    assert ViewBook(after) == BookAfter(s.book, back);
    assert Consistent(rows[id]);
    ReleaseSettled(rep, id);
    var book, given := BookAfter(s.book, back), Reported(rep, back);
    OwnStep(s, r, rep, back);
    var s1, freed := With(s, r, book, given), Unreleased(given, id);
    LocalStep(s, r, book, given, ForgetFreed(r, id));
    var s2 := With(s, r, book, freed);
    if id in m.known {
      var n := m.known[id];
      Restocked(rep, rep.known - {id}, n);
      LocalStep(s, r, book, freed, Restock(r, n));
      path := ThreeSteps(s, back, ForgetFreed(r, id), Restock(r, n), s1, s2,
        With(s, r, book, Local(freed, book, s.nums, s.space, Restock(r, n))));
    } else {
      path := TwoSteps(s, back, ForgetFreed(r, id), s1, s2);
    }
  }

  lemma SameUnsold(rows: Table, n: nat)
    ensures UnsoldRows(rows, n) == UnsoldOf(ViewBook(rows), Numbers(rows), n)
  {
    forall id ensures id in UnsoldRows(rows, n) <==> id in UnsoldOf(ViewBook(rows), Numbers(rows), n) {
      if id in rows {
        assert id in ViewBook(rows) && id in Numbers(rows);
      }
    }
  }

  /** What loadSQL counts in the table is what the protocol's snapshot counts in the book. */
  lemma LoadedIsSnapshot(s: System, rows: Table, groups: seq<Group>, hint: Hint)
    requires OnTable(s, rows) && AnswersLoad(groups, rows)
    requires |hint| == s.space && forall n :: 0 <= n < |hint| ==> hint[n] == Loaded(groups, n)
    ensures hint == CountsOf(s.book, s.nums, s.space)
  {
    forall n: nat | n < s.space ensures hint[n] == |UnsoldOf(s.book, s.nums, n)| {
      LoadIsExact(groups, rows, n);
      SameUnsold(rows, n);
    }
  }

  lemma SnapshotSwapped(rep: Replica, token: int, snap: Snapshot)
    requires token !in rep.snapshots && snap.before == rep.Pending()
    ensures Swapped(rep.(snapshots := rep.snapshots[token := snap]), token)
         == rep.(hint := snap.counts, straddled := rep.Pending())
  {
    assert rep.snapshots[token := snap] - {token} == rep.snapshots;
    assert rep.Pending() * rep.Pending() == rep.Pending();
  }

  /** HybridStore.Refresh: load, then swap. The remembered numbers stay; own confirmations that are pending meanwhile
      are straddled. */
  lemma UninterruptedRefresh(s: System, r: nat, rows: Table, m: Memory, groups: seq<Group>, hint: Hint, token: int)
    returns (path: Path)
    requires Describes(s, r, rows, m) && AnswersLoad(groups, rows) && token !in s.replicas[r].snapshots
    requires |hint| == s.space && forall n :: 0 <= n < |hint| ==> hint[n] == Loaded(groups, n)
    ensures Feasible(s, path) && Describes(End(s, path), r, rows, Memory(hint, m.known))
    ensures End(s, path) == With(s, r, s.book, s.replicas[r].(hint := hint, straddled := s.replicas[r].Pending()))
  {
    var rep, book := s.replicas[r], s.book;
    LoadedIsSnapshot(s, rows, groups, hint);
    var snap := Snapshot(hint, rep.Pending(), book);
    SnapshotSwapped(rep, token, snap);
    var loading := rep.(snapshots := rep.snapshots[token := snap]);
    LocalStep(s, r, book, rep, TakeSnapshot(r, token));
    assert With(s, r, book, rep) == s;
    LocalStep(s, r, book, loading, SwapIn(r, token));
    path := TwoSteps(s, TakeSnapshot(r, token), SwapIn(r, token), With(s, r, book, loading),
      With(s, r, book, Swapped(loading, token)));
  }

  // ---------------------------------------------------------------- a claim that nobody interrupts

  lemma {:induction false} MarkedAlike(hint: Hint, known: map<int, nat>, picks: Ids, rows: Table, until: int)
    ensures MarkEach(hint, picks, Numbers(rows)) == MarkAll(hint, Returned(picks, rows, until))
    ensures RememberEach(known, picks, Numbers(rows)) == Remember(known, Returned(picks, rows, until))
  {
    if picks.Snoc? {
      MarkedAlike(hint, known, picks.front, rows, until);
      var batch := Returned(picks, rows, until);
      assert Front(batch) == Returned(picks.front, rows, until);
      assert batch[|batch| - 1].ticketId == picks.last;
      assert batch[|batch| - 1].number == NumberFor(Numbers(rows), picks.last);
    }
  }

  /** What a statement picks, the protocol lets the replica claim. */
  lemma PicksAllowed(rows: Table, picks: Ids, nums: seq<nat>, now: int, locked: set<int>, at: int, holder: string,
      until: int)
    requires OpenAmong(picks, rows, nums, now, locked) && picks.Distinct() && picks != Nil
    ensures Allowed(ViewBook(rows), ClaimBatch(at, picks, holder, now, until))
  {
    OpenAmongMembers(picks, rows, nums, now, locked);
    forall id | id in picks.Members() ensures ClaimableIn(ViewBook(rows), id, now) {
      assert Open(rows, id, now, locked);
    }
  }

  /** A claimed batch, seen from the replica that claimed it. */
  lemma MarkSettled(rep: Replica, batch: Ids, nums: map<int, nat>)
    ensures Local(rep.(landed := rep.landed + multiset{batch}), map[], nums, 0, MarkBatch(0, batch))
         == rep.(hint := MarkEach(rep.hint, batch, nums), raised := rep.raised + multiset{batch})
  {
    assert rep.landed + multiset{batch} - multiset{batch} == rep.landed;
  }

  lemma RememberSettled(rep: Replica, hint: Hint, batch: Ids, nums: map<int, nat>)
    ensures Local(rep.(hint := hint, raised := rep.raised + multiset{batch}), map[], nums, 0, RememberBatch(0, batch))
         == rep.(hint := hint, known := RememberEach(rep.known, batch, nums))
  {
    assert rep.raised + multiset{batch} - multiset{batch} == rep.raised;
  }

  /** One batch: the claim statement, then MarkAvailable for each ticket, then the map. */
  lemma BatchIsPath(s: System, r: nat, rows: Table, m: Memory, picks: Ids, holder: string, now: int, until: int)
    returns (path: Path)
    requires Describes(s, r, rows, m)
    requires picks != Nil ==> Allowed(s.book, ClaimBatch(r, picks, holder, now, until))
    ensures var batch := Returned(picks, rows, until);
      Ran(s, path, r, ReserveRows(rows, picks.Members(), holder, until),
        Memory(MarkAll(m.hint, batch), Remember(m.known, batch)))
  {
    ReserveIsGrant(rows, picks.Members(), holder, until);
    if picks == Nil {
      ReserveNothing(rows, holder, until);
      RanNowhere(s, r, rows, m);
      return Here;
    }
    MarkedAlike(m.hint, m.known, picks, rows, until);
    var rep, claim := s.replicas[r], ClaimBatch(r, picks, holder, now, until);
    var book, got := BookAfter(s.book, claim), Reported(rep, claim);
    MarkSettled(rep, picks, s.nums);
    RememberSettled(rep, MarkEach(rep.hint, picks, s.nums), picks, s.nums);
    OwnStep(s, r, rep, claim);
    LocalStep(s, r, book, got, MarkBatch(r, picks));
    var marked := Local(got, book, s.nums, s.space, MarkBatch(r, picks));
    LocalStep(s, r, book, marked, RememberBatch(r, picks));
    path := ThreeSteps(s, claim, MarkBatch(r, picks), RememberBatch(r, picks), With(s, r, book, got),
      With(s, r, book, marked),
                       With(s, r, book, Local(marked, book, s.nums, s.space, RememberBatch(r, picks))));
  }

  function Told(h: HybridProgress): Memory {
    Memory(h.hint, h.known)
  }

  /** Nobody else writes to the table. */
  ghost predicate Untouched(env: nat -> Moment) {
    forall i: nat, t: Table :: env(i).others(t) == t
  }

  lemma StatementReserves(c: Call, pass: Pass, nums: seq<nat>, m: Moment, h: HybridProgress, picks: Ids, until: int)
    requires m.others(h.s.rows) == h.s.rows && picks == Picks(pass, h.s.rows, nums, m, Want(c, h.s.got), c.plan)
    requires until == m.now + c.lease
    ensures var next, batch := HybridStatement(c, pass, nums, m, h), Returned(picks, h.s.rows, until);
      && next.s.rows == ReserveRows(h.s.rows, picks.Members(), c.holder, until)
      && Told(next) == Memory(MarkAll(h.hint, batch), Remember(h.known, batch))
  {
  }

  lemma StatementIsPath(c: Call, pass: Pass, nums: seq<nat>, m: Moment, h: HybridProgress, s: System, r: nat)
    returns (path: Path)
    requires ProperPlan(c.plan) && NoDuplicates(nums) && Describes(s, r, h.s.rows, Told(h)) &&
      m.others(h.s.rows) == h.s.rows
    ensures var next := HybridStatement(c, pass, nums, m, h); Ran(s, path, r, next.s.rows, Told(next))
  {
    var rows, until := h.s.rows, m.now + c.lease;
    var picks := Picks(pass, rows, nums, m, Want(c, h.s.got), c.plan);
    StatementReserves(c, pass, nums, m, h, picks, until);
    PicksSound(pass, rows, nums, m, Want(c, h.s.got), c.plan);
    if picks != Nil {
      PicksAllowed(rows, picks, nums, m.now, m.locked, r, c.holder, until);
    }
    path := BatchIsPath(s, r, rows, Told(h), picks, c.holder, m.now, until);
  }

  lemma {:induction false} PutIsPath(c: Call, pass: Pass, nums: seq<nat>, m: Moment, h: HybridProgress, s: System,
      r: nat)
    returns (path: Path)
    requires ProperPlan(c.plan) && NoDuplicates(nums) && Describes(s, r, h.s.rows, Told(h)) &&
      m.others(h.s.rows) == h.s.rows
    ensures var next := Put(c, pass, nums, m, h); Ran(s, path, r, next.s.rows, Told(next))
  {
    if nums == [] || m.fault {
      path := Here;
      RanNowhere(s, r, h.s.rows, Told(h));
    } else {
      path := StatementIsPath(c, pass, nums, m, h, s, r);
    }
  }

  lemma {:induction false} RoundIsPath(c: Call, pass: Pass, walk: seq<nat>, m: Moment, touch: Touch, h: HybridProgress,
      s: System, r: nat)
    returns (path: Path)
    requires ProperPlan(c.plan) && NoDuplicates(walk) && h.s.at <= |walk| && Describes(s, r, h.s.rows, Told(h))
    requires m.others(h.s.rows) == h.s.rows && touch(h.hint) == h.hint
    ensures var next := HybridRound(c, pass, walk, m, touch, h); Ran(s, path, r, next.s.rows, Told(next))
  {
    var to := BatchEnd(walk, h.s.at, BatchSize(c, pass, h.s.got));
    if m.cancelled || to == h.s.at {
      path := Here;
      RanNowhere(s, r, h.s.rows, Told(h));
    } else {
      BatchIsNew(walk, h.s.at, to);
      KeepMembers(walk[h.s.at..to], h.hint);
      path := PutIsPath(c, pass, Keep(walk[h.s.at..to], h.hint), m, h.(s := h.s.(at := to)), s, r);
    }
  }

  lemma AloneIsPath(c: Call, pass: Pass, walk: seq<nat>, env: nat -> Moment, i: nat, h: HybridProgress, s: System,
      r: nat, next: HybridProgress)
    returns (path: Path)
    requires ProperPlan(c.plan) && NoDuplicates(walk) && Untouched(env)
    requires h.s.at <= |walk| && Describes(s, r, h.s.rows, Told(h))
    requires next == HybridRound(c, pass, walk, env(i), Alone(i), h)
    ensures Ran(s, path, r, next.s.rows, Told(next))
  {
    assert env(i).others(h.s.rows) == h.s.rows;
    path := RoundIsPath(c, pass, walk, env(i), Alone(i), h, s, r);
  }

  lemma {:induction false} RunsArePath(c: Call, pass: Pass, walk: seq<nat>, env: nat -> Moment, i: nat,
      h: HybridProgress, s: System, r: nat, end: HybridProgress)
    returns (path: Path)
    requires ProperPlan(c.plan) && NoDuplicates(walk) && Untouched(env)
    requires h.s.at <= |walk| && Describes(s, r, h.s.rows, Told(h))
    requires end == HybridRuns(c, pass, walk, env, Alone, i, h)
    ensures Ran(s, path, r, end.s.rows, Told(end))
    decreases c.maxBatches - i
  {
    if i < c.maxBatches && !Over(c, h.s) {
      var later, next := i + 1, HybridRound(c, pass, walk, env(i), Alone(i), h);
      assert end == HybridRuns(c, pass, walk, env, Alone, later, next);
      var first := AloneIsPath(c, pass, walk, env, i, h, s, r, next);
      var rest := RunsArePath(c, pass, walk, env, later, next, End(s, first), r, end);
      path := Chain(first, rest);
      RanOn(s, first, rest, r, next.s.rows, Told(next), end.s.rows, Told(end));
    } else {
      path := Here;
      RanNowhere(s, r, h.s.rows, Told(h));
    }
  }

  /** HybridStore.Claim: both batch loops, one batch after the other. */
  lemma {:induction false} UninterruptedClaim(c: Call, walk1: seq<nat>, walk2: seq<nat>, env1: nat -> Moment,
      env2: nat -> Moment, start: HybridProgress, s: System, r: nat)
    returns (path: Path)
    requires ProperPlan(c.plan) && NoDuplicates(walk1) && NoDuplicates(walk2) && Untouched(env1) && Untouched(env2)
    requires start.s.at == 0 && Describes(s, r, start.s.rows, Told(start))
    ensures var end := HybridClaim(c, walk1, walk2, env1, env2, Alone, Alone, start);
      Ran(s, path, r, end.s.rows, Told(end))
  {
    var first := HybridRuns(c, Spread, walk1, env1, Alone, 0, start);
    path := RunsArePath(c, Spread, walk1, env1, 0, start, s, r, first);
    if NeedsTopUp(c, first.s) {
      var again := Again(first);
      var end := HybridRuns(c, TopUp, walk2, env2, Alone, 0, again);
      var more := RunsArePath(c, TopUp, walk2, env2, 0, again, End(s, path), r, end);
      RanOn(s, path, more, r, first.s.rows, Told(first), end.s.rows, Told(end));
      path := Chain(path, more);
    }
  }
}
