/** The reaper is housekeeping: sequences of statements with and without ReapExpired sweeps cannot be told apart by
    claims and confirmations (lottery-go/postgres/store.go). */
module Reaper {
  import opened Counting
  import opened Allocation
  import opened Stock
  import opened TicketTable
  import opened ClaimRounds
  import opened ClaimGuarantees
  import opened HybridRounds

  datatype Statement =
    | ClaimStmt(pass: Pass, nums: seq<nat>, holder: string, lease: int, want: nat)
    | ConfirmStmt(id: int, holder: string)
    | ReleaseStmt(id: int, holder: string)
    | ReapStmt(ids: set<int>)              // the expired rows one sweep happened to take

  /** A statement, the time it ran and the rows others had locked. */
  datatype Op = Op(stmt: Statement, now: int, locked: set<int>)

  /** Statements in the order they ran. */
  datatype Ops = NoOps | Do(past: Ops, op: Op)

  function ClaimPicks(t: Table, op: Op, plan: Planner): Ids
    requires op.stmt.ClaimStmt?
  {
    Picks(op.stmt.pass, t, op.stmt.nums, Moment(op.now, op.locked, t => t, false, false), op.stmt.want, plan)
  }

  predicate ConfirmSucceeds(t: Table, op: Op)
    requires op.stmt.ConfirmStmt?
  {
    op.stmt.id in t && RowConfirmable(t[op.stmt.id], op.stmt.holder, op.now)
  }

  predicate ReleaseSucceeds(t: Table, op: Op)
    requires op.stmt.ReleaseStmt?
  {
    op.stmt.id in t && RowHeldBy(t[op.stmt.id], op.stmt.holder)
  }

  /** The rows a sweep frees: those it took that are expired. */
  function Swept(t: Table, ids: set<int>, now: int): set<int> {
    set id | id in ids && id in t && RowExpired(t[id], now)
  }

  function Execute(t: Table, op: Op, plan: Planner): (r: Table)
    ensures r.Keys == t.Keys
  {
    match op.stmt
    case ClaimStmt(_, _, holder, lease, _) => ReserveRows(t, ClaimPicks(t, op, plan).Members(), holder, op.now + lease)
    case ConfirmStmt(id, _) => if ConfirmSucceeds(t, op) then t[id := SellRow(t[id])] else t
    case ReleaseStmt(id, _) => if ReleaseSucceeds(t, op) then t[id := FreeRow(t[id])] else t
    case ReapStmt(ids) => FreeRows(t, Swept(t, ids, op.now))
  }

  function AfterOps(t: Table, ops: Ops, plan: Planner): (r: Table)
    ensures r.Keys == t.Keys
  {
    if ops.NoOps? then t else Execute(AfterOps(t, ops.past, plan), ops.op, plan)
  }

  /** The same history without its sweeps. */
  function Unreaped(ops: Ops): Ops {
    if ops.NoOps? then ops
    else if ops.op.stmt.ReapStmt? then Unreaped(ops.past)
    else Do(Unreaped(ops.past), ops.op)
  }

  /** Time never runs backwards, up to now. */
  predicate Monotone(ops: Ops, now: int) {
    ops.NoOps? || (ops.op.now <= now && Monotone(ops.past, ops.op.now))
  }

  // ---------------------------------------------------------------- swept and unswept histories

  /** A row that sweeps may have freed, beside the row without sweeps: the same but for its version, or freed where the
      other still shows a hold that is over. */
  predicate Behind(swept: Row, unswept: Row, now: int) {
    swept.num == unswept.num && (SameButVersion(swept, unswept) || (Freed(swept) && RowExpired(unswept, now)))
  }

  predicate SameButVersion(a: Row, b: Row) {
    a.(version := 0) == b.(version := 0)
  }

  predicate Freed(row: Row) {
    row.status == Available && row.holder == None && row.leaseUntil == None
  }

  ghost predicate TableBehind(swept: Table, unswept: Table, now: int) {
    swept.Keys == unswept.Keys && forall id :: id in swept ==> Behind(swept[id], unswept[id], now)
  }

  lemma BehindLater(t: Table, u: Table, now: int, later: int)
    requires TableBehind(t, u, now) && now <= later
    ensures TableBehind(t, u, later)
  {
    forall id | id in t ensures Behind(t[id], u[id], later) {
      assert Behind(t[id], u[id], now);
    }
  }

  /** Both tables offer the same open rows, so a claim picks the same tickets. */
  lemma SameOpen(t: Table, u: Table, id: int, now: int, locked: set<int>)
    requires TableBehind(t, u, now)
    ensures Open(t, id, now, locked) <==> Open(u, id, now, locked)
  {
    if id in t {
      assert Behind(t[id], u[id], now);
    }
  }

  lemma SameEligible(t: Table, u: Table, n: nat, nums: seq<nat>, now: int, locked: set<int>)
    requires TableBehind(t, u, now)
    ensures EligibleOf(t, n, now, locked) == EligibleOf(u, n, now, locked)
    ensures EligibleAmong(t, nums, now, locked) == EligibleAmong(u, nums, now, locked)
  {
    forall id ensures id in t <==> id in u {
      assert id in t.Keys <==> id in u.Keys;
    }
    forall id | id in t ensures t[id].num == u[id].num && (Open(t, id, now, locked) <==> Open(u, id, now, locked)) {
      assert Behind(t[id], u[id], now);
      SameOpen(t, u, id, now, locked);
    }
  }

  lemma {:induction false} SameDistinctPicks(t: Table, u: Table, nums: seq<nat>, now: int, locked: set<int>, want: nat,
      plan: Planner)
    requires TableBehind(t, u, now)
    ensures DistinctPicks(t, nums, now, locked, want, plan) == DistinctPicks(u, nums, now, locked, want, plan)
  {
    if nums != [] {
      SameDistinctPicks(t, u, Front(nums), now, locked, want, plan);
      SameEligible(t, u, nums[|nums| - 1], nums, now, locked);
    }
  }

  lemma SamePicks(t: Table, u: Table, op: Op, plan: Planner)
    requires TableBehind(t, u, op.now) && op.stmt.ClaimStmt?
    ensures ClaimPicks(t, op, plan) == ClaimPicks(u, op, plan)
  {
    if op.stmt.pass == Spread {
      SameDistinctPicks(t, u, op.stmt.nums, op.now, op.locked, op.stmt.want, plan);
    } else {
      SameEligible(t, u, 0, op.stmt.nums, op.now, op.locked);
    }
  }

  lemma SameConfirm(t: Table, u: Table, op: Op)
    requires TableBehind(t, u, op.now) && op.stmt.ConfirmStmt?
    ensures ConfirmSucceeds(t, op) <==> ConfirmSucceeds(u, op)
  {
    if op.stmt.id in t {
      assert Behind(t[op.stmt.id], u[op.stmt.id], op.now);
    }
  }

  lemma ExecuteBehind(t: Table, u: Table, op: Op, plan: Planner)
    requires TableBehind(t, u, op.now) && !op.stmt.ReapStmt?
    ensures TableBehind(Execute(t, op, plan), Execute(u, op, plan), op.now)
  {
    var t', u' := Execute(t, op, plan), Execute(u, op, plan);
    if op.stmt.ClaimStmt? {
      SamePicks(t, u, op, plan);
    } else if op.stmt.ConfirmStmt? {
      SameConfirm(t, u, op);
    }
    forall id | id in t' ensures Behind(t'[id], u'[id], op.now) {
      assert Behind(t[id], u[id], op.now);
    }
  }

  lemma SweepBehind(t: Table, u: Table, op: Op, plan: Planner)
    requires TableBehind(t, u, op.now) && op.stmt.ReapStmt?
    ensures TableBehind(Execute(t, op, plan), u, op.now)
  {
    var t' := Execute(t, op, plan);
    forall id | id in t' ensures Behind(t'[id], u[id], op.now) {
      assert Behind(t[id], u[id], op.now);
    }
  }

  /** Under a monotone clock a history with sweeps stays behind the same history without them, forever. */
  lemma {:induction false} SweepsStayBehind(t: Table, ops: Ops, plan: Planner, now: int)
    requires Monotone(ops, now)
    ensures TableBehind(AfterOps(t, ops, plan), AfterOps(t, Unreaped(ops), plan), now)
  {
    if ops.Do? {
      var op := ops.op;
      SweepsStayBehind(t, ops.past, plan, op.now);
      var with, without := AfterOps(t, ops.past, plan), AfterOps(t, Unreaped(ops.past), plan);
      if op.stmt.ReapStmt? {
        SweepBehind(with, without, op, plan);
      } else {
        ExecuteBehind(with, without, op, plan);
      }
      BehindLater(AfterOps(t, ops, plan), AfterOps(t, Unreaped(ops), plan), op.now, now);
    }
  }

  /** The reaper is never needed: after any history, at any later time, the same tickets are claimable and the same are
      sold, a claim takes the same tickets, and a confirmation succeeds or fails alike. */
  lemma {:induction false} ReaperNeverNeeded(t: Table, ops: Ops, plan: Planner, next: Op)
    requires Monotone(ops, next.now)
    ensures var with, without := AfterOps(t, ops, plan), AfterOps(t, Unreaped(ops), plan);
      && (forall id :: id in t ==> (RowClaimable(with[id], next.now) <==> RowClaimable(without[id], next.now)))
      && (forall id :: id in t ==> (with[id].status == Sold <==> without[id].status == Sold))
      && (next.stmt.ClaimStmt? ==> ClaimPicks(with, next, plan) == ClaimPicks(without, next, plan))
      && (next.stmt.ConfirmStmt? ==> (ConfirmSucceeds(with, next) <==> ConfirmSucceeds(without, next)))
  {
    SweepsStayBehind(t, ops, plan, next.now);
    var with, without := AfterOps(t, ops, plan), AfterOps(t, Unreaped(ops), plan);
    forall id | id in t ensures Behind(with[id], without[id], next.now) {
      assert id in with.Keys;
    }
    if next.stmt.ClaimStmt? {
      SamePicks(with, without, next, plan);
    } else if next.stmt.ConfirmStmt? {
      SameConfirm(with, without, next);
    }
  }

  // ---------------------------------------------------------------- what a release can notice

  /** A release can notice a sweep, in one direction only: sweeps never make one succeed, and they make one fail exactly
      if the caller's hold would still be there but its row has been freed, which takes a hold whose lease is over. */
  lemma {:induction false} ReleaseNoticesSweepIff(t: Table, ops: Ops, plan: Planner, next: Op)
    requires Monotone(ops, next.now) && next.stmt.ReleaseStmt?
    ensures var with, without := AfterOps(t, ops, plan), AfterOps(t, Unreaped(ops), plan);
      var id, holder := next.stmt.id, next.stmt.holder;
      && (ReleaseSucceeds(with, next) ==> ReleaseSucceeds(without, next))
      && (ReleaseSucceeds(with, next) != ReleaseSucceeds(without, next) <==>
            id in t && without[id].status == Reserved && without[id].holder == Some(holder) &&
              with[id].status == Available)
      && (ReleaseSucceeds(with, next) != ReleaseSucceeds(without, next) ==> RowExpired(without[id], next.now))
  {
    SweepsStayBehind(t, ops, plan, next.now);
    var with, without := AfterOps(t, ops, plan), AfterOps(t, Unreaped(ops), plan);
    assert next.stmt.id in t ==> next.stmt.id in with.Keys;
    assert next.stmt.id in with ==> Behind(with[next.stmt.id], without[next.stmt.id], next.now);
  }

  /** One ticket, claimed at time 0 for 5 units, swept at time 6: the holder's release at time 7 finds nothing
      to release. */
  lemma SweepNoticed(plan: Planner)
    requires ProperPlan(plan)
    ensures var t: Table := map[0 := Row(3, Available, None, None, 0)];
      var claim, sweep := Op(ClaimStmt(TopUp, [3], "a", 5, 1), 0, {}), Op(ReapStmt({0}), 6, {});
      var ops, release := Do(Do(NoOps, claim), sweep), Op(ReleaseStmt(0, "a"), 7, {});
      && Monotone(ops, release.now)
      && ReleaseSucceeds(AfterOps(t, Unreaped(ops), plan), release) && !ReleaseSucceeds(AfterOps(t, ops, plan), release)
  {
    var t: Table := map[0 := Row(3, Available, None, None, 0)];
    var claim, sweep := Op(ClaimStmt(TopUp, [3], "a", 5, 1), 0, {}), Op(ReapStmt({0}), 6, {});
    OnlyTicketPicked(t, plan);
    var held := Execute(t, claim, plan);
    assert held[0] == Row(3, Reserved, Some("a"), Some(5), 1);
    assert AfterOps(t, Do(NoOps, claim), plan) == held;
    assert Execute(held, sweep, plan)[0].status == Available;
  }

  lemma OnlyTicketPicked(t: Table, plan: Planner)
    requires ProperPlan(plan) && t == map[0 := Row(3, Available, None, None, 0)]
    ensures PlainPicks(t, [3], 0, {}, 1, plan).Members() == {0}
  {
    var eligible := EligibleAmong(t, [3], 0, {});
    assert 0 in eligible;
    assert eligible == {0};
    assert TakesSome(plan, eligible, 1);
    var r := plan.some(eligible, 1);
    assert r.Snoc? && r.last in r.Members();
  }

  // ---------------------------------------------------------------- other users of the claim loops

  lemma ClaimPicksOpen(t: Table, op: Op, plan: Planner)
    requires ProperPlan(plan) && op.stmt.ClaimStmt?
    ensures forall id :: id in ClaimPicks(t, op, plan).Members() ==> Open(t, id, op.now, op.locked)
  {
    if op.stmt.pass == Spread {
      DistinctPicksOpen(t, op.stmt.nums, op.now, op.locked, op.stmt.want, plan);
    } else {
      assert TakesSome(plan, EligibleAmong(t, op.stmt.nums, op.now, op.locked), op.stmt.want);
    }
  }

  lemma {:induction false} OpsKeepRows(t: Table, ops: Ops, plan: Planner)
    requires WellKept(t)
    ensures WellKept(AfterOps(t, ops, plan))
  {
    if ops.Do? {
      OpsKeepRows(t, ops.past, plan);
    }
  }

  /** No statement brings back a sold ticket, adds one, or changes its number. */
  lemma {:induction false} OpsAddNoStock(t: Table, ops: Ops, plan: Planner, id: int)
    requires ProperPlan(plan) && id in AfterOps(t, ops, plan) && AfterOps(t, ops, plan)[id].status != Sold
    ensures id in t && t[id].status != Sold && t[id].num == AfterOps(t, ops, plan)[id].num
  {
    if ops.Do? {
      var before := AfterOps(t, ops.past, plan);
      assert id in before.Keys;
      if ops.op.stmt.ClaimStmt? {
        ClaimPicksOpen(before, ops.op, plan);
      }
      OpsAddNoStock(t, ops.past, plan, id);
    }
  }

  /** Statements of other holders, none of them after the given time. */
  predicate Foreign(ops: Ops, holder: string, now: int) {
    ops.NoOps? || (Foreign(ops.past, holder, now) && ops.op.now <= now
      && (ops.op.stmt.ConfirmStmt? || ops.op.stmt.ReleaseStmt? ==> ops.op.stmt.holder != holder))
  }

  /** They leave a hold alone that runs until then. */
  lemma {:induction false} OpsRespectHold(t: Table, ops: Ops, plan: Planner, id: int, holder: string, now: int)
    requires ProperPlan(plan) && Foreign(ops, holder, now) && HeldThrough(t, id, holder, now)
    ensures id in AfterOps(t, ops, plan) && AfterOps(t, ops, plan)[id] == t[id]
  {
    if ops.Do? {
      OpsRespectHold(t, ops.past, plan, id, holder, now);
      if ops.op.stmt.ClaimStmt? {
        ClaimPicksOpen(AfterOps(t, ops.past, plan), ops.op, plan);
      }
    }
  }

  /** What the theorems about Store.Claim and HybridStore.Claim ask of the other users holds of all users of the
      modelled statements: they keep reserved rows complete and create no stock, and they respect the caller's running
      holds if they act for other holders and not later than the batch. */
  lemma {:induction false} UsersQualify(m: Moment, ops: Ops, plan: Planner, holder: string)
    requires ProperPlan(plan) && forall t: Table :: m.others(t) == AfterOps(t, ops, plan)
    ensures Keeps(m) && NoNewStock(m)
    ensures Foreign(ops, holder, m.now) ==> Respects(m, holder)
  {
    forall t: Table | WellKept(t) ensures WellKept(m.others(t)) {
      OpsKeepRows(t, ops, plan);
    }
    forall t: Table, id: int | id in m.others(t) && m.others(t)[id].status != Sold
      ensures id in t && t[id].status != Sold && t[id].num == m.others(t)[id].num
    {
      OpsAddNoStock(t, ops, plan, id);
    }
    if Foreign(ops, holder, m.now) {
      forall t: Table, id: int | HeldThrough(t, id, holder, m.now)
        ensures id in m.others(t) && m.others(t)[id] == t[id]
      {
        OpsRespectHold(t, ops, plan, id, holder, m.now);
      }
    }
  }
}
