/** What Store.Claim guarantees: no ticket twice within one lease, and nothing left behind when nobody interferes. */
module ClaimGuarantees {
  import opened Counting
  import opened Allocation
  import opened Stock
  import opened TicketTable
  import opened ClaimRounds

  // ---------------------------------------------------------------- no ticket twice

  /** The row is held by this holder at least until the given time. */
  predicate HeldThrough(t: Table, id: int, holder: string, horizon: int) {
    id in t && t[id].status == Reserved && t[id].holder == Some(holder) && t[id].leaseUntil.Some? &&
      t[id].leaseUntil.value >= horizon
  }

  /** Nobody else touches a hold of this holder that is still running. */
  ghost predicate Respects(m: Moment, holder: string) {
    forall t: Table, id: int :: HeldThrough(t, id, holder, m.now) ==> id in m.others(t) && m.others(t)[id] == t[id]
  }

  /** Every batch happens within one lease of the time lo, among users who respect the caller's running holds. */
  ghost predicate Calm(env: nat -> Moment, holder: string, lo: int, lease: int) {
    forall i: nat :: Respects(env(i), holder) && lo <= env(i).now <= lo + lease
  }

  /** Every ticket received is still held. */
  ghost predicate AllHeld(got: Issued, t: Table, holder: string, horizon: int) {
    got.Nothing? || (AllHeld(got.front, t, holder, horizon) && HeldThrough(t, got.id, holder, horizon))
  }

  lemma {:induction false} HeldAmongOthers(got: Issued, t: Table, holder: string, horizon: int, m: Moment)
    requires AllHeld(got, t, holder, horizon) && Respects(m, holder) && m.now <= horizon
    ensures AllHeld(got, m.others(t), holder, horizon)
  {
    if got.Issue? {
      HeldAmongOthers(got.front, t, holder, horizon, m);
      assert HeldThrough(t, got.id, holder, m.now);
    }
  }

  /** A running hold is not open to a claim. */
  lemma {:induction false} HeldNotOpen(got: Issued, t: Table, holder: string, horizon: int, id: int, now: int,
      locked: set<int>)
    requires AllHeld(got, t, holder, horizon) && now <= horizon && Open(t, id, now, locked)
    ensures id !in got.Ids()
  {
    if got.Issue? {
      HeldNotOpen(got.front, t, holder, horizon, id, now, locked);
    }
  }

  lemma {:induction false} HeldAfterReserve(got: Issued, t: Table, holder: string, horizon: int, ids: set<int>,
      until: int)
    requires AllHeld(got, t, holder, horizon) && until >= horizon
    ensures AllHeld(got, ReserveRows(t, ids, holder, until), holder, horizon)
  {
    if got.Issue? {
      HeldAfterReserve(got.front, t, holder, horizon, ids, until);
    }
  }

  lemma {:induction false} RecordHeld(got: Issued, picks: Ids, t: Table, ids: set<int>, holder: string, horizon: int,
      now: int, until: int)
    requires AllHeld(got, ReserveRows(t, ids, holder, until), holder, horizon) && until >= horizon
    requires picks.Members() <= ids && forall id :: id in ids ==> id in t
    ensures AllHeld(Record(got, picks, t, now, until), ReserveRows(t, ids, holder, until), holder, horizon)
  {
    if picks.Snoc? {
      RecordHeld(got, picks.front, t, ids, holder, horizon, now, until);
    }
  }

  lemma {:induction false} RecordDistinctIds(got: Issued, picks: Ids, t: Table, now: int, until: int)
    requires got.DistinctIds() && picks.Distinct() && got.Ids() !! picks.Members()
    ensures Record(got, picks, t, now, until).DistinctIds()
  {
    if picks.Snoc? {
      RecordDistinctIds(got, picks.front, t, now, until);
      RecordFacts(got, picks.front, t, now, until);
    }
  }

  ghost predicate Secured(s: Progress, holder: string, horizon: int) {
    s.got.DistinctIds() && AllHeld(s.got, s.rows, holder, horizon)
  }

  lemma {:induction false} StatementSecured(c: Call, pass: Pass, nums: seq<nat>, m: Moment, s: Progress, lo: int)
    requires ProperPlan(c.plan) && NoDuplicates(nums)
    requires Respects(m, c.holder) && lo <= m.now <= lo + c.lease
    requires Secured(s, c.holder, lo + c.lease)
    ensures Secured(Statement(c, pass, nums, m, s), c.holder, lo + c.lease)
  {
    var rows, until, horizon := m.others(s.rows), m.now + c.lease, lo + c.lease;
    var picks := Picks(pass, rows, nums, m, Want(c, s.got), c.plan);
    PicksSound(pass, rows, nums, m, Want(c, s.got), c.plan);
    OpenAmongMembers(picks, rows, nums, m.now, m.locked);
    HeldAmongOthers(s.got, s.rows, c.holder, horizon, m);
    forall id | id in picks.Members() ensures id !in s.got.Ids() {
      HeldNotOpen(s.got, rows, c.holder, horizon, id, m.now, m.locked);
    }
    HeldAfterReserve(s.got, rows, c.holder, horizon, picks.Members(), until);
    RecordHeld(s.got, picks, rows, picks.Members(), c.holder, horizon, m.now, until);
    RecordDistinctIds(s.got, picks, rows, m.now, until);
  }

  lemma {:induction false} RoundsSecured(c: Call, pass: Pass, walk: seq<nat>, env: nat -> Moment, i: nat, s: Progress,
      lo: int)
    requires ProperPlan(c.plan) && NoDuplicates(walk) && Calm(env, c.holder, lo, c.lease)
    requires s.at <= |walk| && Secured(s, c.holder, lo + c.lease)
    ensures Secured(Rounds(c, pass, walk, env, i, s), c.holder, lo + c.lease)
    decreases c.maxBatches - i
  {
    if i < c.maxBatches && !Over(c, s) {
      RoundSecured(c, pass, walk, env(i), s, lo);
      RoundsSecured(c, pass, walk, env, i + 1, Round(c, pass, walk, env(i), s), lo);
    }
  }

  lemma {:induction false} RoundSecured(c: Call, pass: Pass, walk: seq<nat>, m: Moment, s: Progress, lo: int)
    requires ProperPlan(c.plan) && NoDuplicates(walk)
    requires Respects(m, c.holder) && lo <= m.now <= lo + c.lease
    requires s.at <= |walk| && Secured(s, c.holder, lo + c.lease)
    ensures Secured(Round(c, pass, walk, m, s), c.holder, lo + c.lease)
  {
    var to := BatchEnd(walk, s.at, BatchSize(c, pass, s.got));
    BatchIsNew(walk, s.at, to);
    HeldAmongOthers(s.got, s.rows, c.holder, lo + c.lease, m);
    StatementSecured(c, pass, walk[s.at..to], m, s.(at := to), lo);
  }

  /** As long as the call takes no longer than a lease and nobody else touches its running holds, no ticket comes back
      twice, and every one of them is still held when the call returns. */
  lemma {:induction false} NoTicketTwice(c: Call, walk1: seq<nat>, walk2: seq<nat>, env1: nat -> Moment,
      env2: nat -> Moment, rows: Table, lo: int)
    requires ProperPlan(c.plan) && NoDuplicates(walk1) && NoDuplicates(walk2)
    requires Calm(env1, c.holder, lo, c.lease) && Calm(env2, c.holder, lo, c.lease)
    ensures Secured(StoreClaim(c, walk1, walk2, env1, env2, rows), c.holder, lo + c.lease)
  {
    var start := Progress(rows, Nothing, 0, Going);
    RoundsSecured(c, Spread, walk1, env1, 0, start, lo);
    var first := Rounds(c, Spread, walk1, env1, 0, start);
    if NeedsTopUp(c, first) {
      RoundsSecured(c, TopUp, walk2, env2, 0, first.(at := 0, stop := Going), lo);
    }
  }

  // ---------------------------------------------------------------- the result says what the table says

  /** The row is reserved for this holder with the number and the lease that the ticket was issued with. */
  predicate RowSays(t: Table, id: int, num: nat, until: int, holder: string) {
    id in t && t[id].status == Reserved && t[id].holder == Some(holder) && t[id].num == num &&
    t[id].leaseUntil == Some(until)
  }

  ghost predicate AllSaid(got: Issued, t: Table, holder: string) {
    got.Nothing? || (AllSaid(got.front, t, holder) && RowSays(t, got.id, got.num, got.until, holder))
  }

  lemma {:induction false} SaidAmongOthers(got: Issued, t: Table, holder: string, horizon: int, m: Moment)
    requires AllSaid(got, t, holder) && AllHeld(got, t, holder, horizon) && Respects(m, holder) && m.now <= horizon
    ensures AllSaid(got, m.others(t), holder)
  {
    if got.Issue? {
      SaidAmongOthers(got.front, t, holder, horizon, m);
      assert HeldThrough(t, got.id, holder, m.now);
    }
  }

  lemma {:induction false} SaidAfterReserve(got: Issued, t: Table, holder: string, ids: set<int>, until: int)
    requires AllSaid(got, t, holder) && got.Ids() !! ids
    ensures AllSaid(got, ReserveRows(t, ids, holder, until), holder)
  {
    if got.Issue? {
      SaidAfterReserve(got.front, t, holder, ids, until);
    }
  }

  lemma {:induction false} RecordSaid(got: Issued, picks: Ids, t: Table, ids: set<int>, holder: string, now: int,
      until: int)
    requires AllSaid(got, ReserveRows(t, ids, holder, until), holder)
    requires picks.Members() <= ids && forall id :: id in ids ==> id in t
    ensures AllSaid(Record(got, picks, t, now, until), ReserveRows(t, ids, holder, until), holder)
  {
    if picks.Snoc? {
      RecordSaid(got, picks.front, t, ids, holder, now, until);
      assert picks.last in picks.Members();
    }
  }

  lemma {:induction false} StatementSaid(c: Call, pass: Pass, nums: seq<nat>, m: Moment, s: Progress, lo: int)
    requires ProperPlan(c.plan) && NoDuplicates(nums)
    requires Respects(m, c.holder) && lo <= m.now <= lo + c.lease
    requires Secured(s, c.holder, lo + c.lease) && AllSaid(s.got, s.rows, c.holder)
    ensures var r := Statement(c, pass, nums, m, s); AllSaid(r.got, r.rows, c.holder)
  {
    var rows, until, horizon := m.others(s.rows), m.now + c.lease, lo + c.lease;
    var picks := Picks(pass, rows, nums, m, Want(c, s.got), c.plan);
    PicksSound(pass, rows, nums, m, Want(c, s.got), c.plan);
    OpenAmongMembers(picks, rows, nums, m.now, m.locked);
    HeldAmongOthers(s.got, s.rows, c.holder, horizon, m);
    SaidAmongOthers(s.got, s.rows, c.holder, horizon, m);
    forall id | id in picks.Members() ensures id !in s.got.Ids() {
      HeldNotOpen(s.got, rows, c.holder, horizon, id, m.now, m.locked);
    }
    SaidAfterReserve(s.got, rows, c.holder, picks.Members(), until);
    RecordSaid(s.got, picks, rows, picks.Members(), c.holder, m.now, until);
  }

  lemma {:induction false} RoundSaid(c: Call, pass: Pass, walk: seq<nat>, m: Moment, s: Progress, lo: int)
    requires ProperPlan(c.plan) && NoDuplicates(walk)
    requires Respects(m, c.holder) && lo <= m.now <= lo + c.lease
    requires s.at <= |walk| && Secured(s, c.holder, lo + c.lease) && AllSaid(s.got, s.rows, c.holder)
    ensures var r := Round(c, pass, walk, m, s); AllSaid(r.got, r.rows, c.holder)
  {
    var to := BatchEnd(walk, s.at, BatchSize(c, pass, s.got));
    BatchIsNew(walk, s.at, to);
    SaidAmongOthers(s.got, s.rows, c.holder, lo + c.lease, m);
    StatementSaid(c, pass, walk[s.at..to], m, s.(at := to), lo);
  }

  lemma {:induction false} RoundsSaid(c: Call, pass: Pass, walk: seq<nat>, env: nat -> Moment, i: nat, s: Progress,
      lo: int)
    requires ProperPlan(c.plan) && NoDuplicates(walk) && Calm(env, c.holder, lo, c.lease)
    requires s.at <= |walk| && Secured(s, c.holder, lo + c.lease) && AllSaid(s.got, s.rows, c.holder)
    ensures var r := Rounds(c, pass, walk, env, i, s); AllSaid(r.got, r.rows, c.holder)
    decreases c.maxBatches - i
  {
    if i < c.maxBatches && !Over(c, s) {
      RoundSaid(c, pass, walk, env(i), s, lo);
      RoundSecured(c, pass, walk, env(i), s, lo);
      RoundsSaid(c, pass, walk, env, i + 1, Round(c, pass, walk, env(i), s), lo);
    }
  }

  lemma {:induction false} CallSaid(c: Call, walk1: seq<nat>, walk2: seq<nat>, env1: nat -> Moment,
      env2: nat -> Moment, rows: Table, lo: int)
    requires ProperPlan(c.plan) && NoDuplicates(walk1) && NoDuplicates(walk2)
    requires Calm(env1, c.holder, lo, c.lease) && Calm(env2, c.holder, lo, c.lease)
    ensures var r := StoreClaim(c, walk1, walk2, env1, env2, rows); AllSaid(r.got, r.rows, c.holder)
  {
    var start := Progress(rows, Nothing, 0, Going);
    RoundsSecured(c, Spread, walk1, env1, 0, start, lo);
    RoundsSaid(c, Spread, walk1, env1, 0, start, lo);
    var first := Rounds(c, Spread, walk1, env1, 0, start);
    if NeedsTopUp(c, first) {
      RoundsSaid(c, TopUp, walk2, env2, 0, first.(at := 0, stop := Going), lo);
    }
  }

  lemma {:induction false} ReportSaid(got: Issued, t: Table, holder: string)
    requires AllSaid(got, t, holder)
    ensures forall q :: 0 <= q < |got.Report()| ==>
      RowSays(t, got.Report()[q].ticketId, got.Report()[q].number, got.Report()[q].leaseUntil, holder)
  {
    if got.Issue? {
      ReportSaid(got.front, t, holder);
      var all, front := got.Report(), got.front.Report();
      forall q | 0 <= q < |all| ensures RowSays(t, all[q].ticketId, all[q].number, all[q].leaseUntil, holder) {
        assert q < |front| ==> all[q] == front[q];
      }
    }
  }

  /** As long as the call takes no longer than a lease and nobody else touches its running holds, every reservation it
      reports names a row that is reserved for the caller, with that number and that lease. */
  lemma {:induction false} ReportIsTrue(c: Call, walk1: seq<nat>, walk2: seq<nat>, env1: nat -> Moment,
      env2: nat -> Moment, rows: Table, lo: int)
    requires ProperPlan(c.plan) && NoDuplicates(walk1) && NoDuplicates(walk2)
    requires Calm(env1, c.holder, lo, c.lease) && Calm(env2, c.holder, lo, c.lease)
    ensures var r := StoreClaim(c, walk1, walk2, env1, env2, rows);
      var out := r.got.Report();
      forall q :: 0 <= q < |out| ==> RowSays(r.rows, out[q].ticketId, out[q].number, out[q].leaseUntil, c.holder)
  {
    CallSaid(c, walk1, walk2, env1, env2, rows, lo);
    var r := StoreClaim(c, walk1, walk2, env1, env2, rows);
    ReportSaid(r.got, r.rows, c.holder);
  }

  // ---------------------------------------------------------------- nothing left behind

  /** The clock stands still, nobody else is there, nothing fails. */
  ghost predicate Undisturbed(m: Moment, now: int) {
    m.now == now && m.locked == {} && !m.cancelled && !m.fault && forall t: Table :: m.others(t) == t
  }

  ghost predicate AllUndisturbed(env: nat -> Moment, now: int) {
    forall i: nat :: Undisturbed(env(i), now)
  }

  /** The claimable rows whose number is wanted. */
  ghost function OpenStock(t: Table, wanted: set<nat>, now: int): set<int> {
    set id | id in t && t[id].num in wanted && RowClaimable(t[id], now)
  }

  /** What was there to take is what was taken and what is still open. */
  ghost predicate Accounted(s: Progress, initial: set<int>, wanted: set<nat>, now: int) {
    && s.got.DistinctIds()
    && s.got.Ids() <= initial
    && OpenStock(s.rows, wanted, now) == initial - s.got.Ids()
  }

  lemma OpenStockAfterReserve(t: Table, wanted: set<nat>, now: int, ids: set<int>, holder: string, until: int)
    requires until >= now
    ensures OpenStock(ReserveRows(t, ids, holder, until), wanted, now) == OpenStock(t, wanted, now) - ids
  {
    var r := ReserveRows(t, ids, holder, until);
    forall id ensures id in OpenStock(r, wanted, now) <==> id in OpenStock(t, wanted, now) - ids {
      if id in t {
        assert r[id].num == t[id].num;
      }
    }
  }

  lemma {:induction false} StatementAccounted(c: Call, pass: Pass, nums: seq<nat>, m: Moment, s: Progress,
      initial: set<int>, wanted: set<nat>, now: int)
    requires ProperPlan(c.plan) && NoDuplicates(nums) && Undisturbed(m, now) && c.lease >= 0
    requires forall n :: n in nums ==> n in wanted
    requires Accounted(s, initial, wanted, now) && s.got.Len() <= c.k
    ensures Accounted(Statement(c, pass, nums, m, s), initial, wanted, now)
    ensures Statement(c, pass, nums, m, s).got.Len() <= c.k
  {
    var rows := m.others(s.rows);
    var picks := Picks(pass, rows, nums, m, Want(c, s.got), c.plan);
    PicksSound(pass, rows, nums, m, Want(c, s.got), c.plan);
    OpenAmongMembers(picks, rows, nums, m.now, m.locked);
    forall id | id in picks.Members() ensures id in OpenStock(rows, wanted, now) {
      assert Open(rows, id, m.now, m.locked);
    }
    RecordDistinctIds(s.got, picks, rows, m.now, m.now + c.lease);
    RecordFacts(s.got, picks, rows, m.now, m.now + c.lease);
    OpenStockAfterReserve(rows, wanted, now, picks.Members(), c.holder, m.now + c.lease);
  }

  /** Either the call has all it wants, or the numbers visited so far have nothing open left. */
  ghost predicate SweptTo(c: Call, walk: seq<nat>, s: Progress, now: int)
    requires s.at <= |walk|
  {
    s.got.Len() == c.k || OpenStock(s.rows, First(walk, s.at), now) == {}
  }

  /** A plain statement leaves an open row among its numbers only if it has filled the request. */
  lemma {:induction false} StatementSweeps(c: Call, nums: seq<nat>, m: Moment, s: Progress, now: int)
    requires ProperPlan(c.plan) && Undisturbed(m, now) && c.lease >= 0 && s.got.Len() <= c.k
    ensures var r := Statement(c, TopUp, nums, m, s);
      r.got.Len() == c.k || EligibleAmong(r.rows, nums, now, {}) == {}
  {
    var rows := m.others(s.rows);
    var eligible, picks := EligibleAmong(rows, nums, now, {}), PlainPicks(rows, nums, now, {}, Want(c, s.got), c.plan);
    assert TakesSome(c.plan, eligible, Want(c, s.got));
    RecordFacts(s.got, picks, rows, now, now + c.lease);
    if picks.Len() < Want(c, s.got) {
      DistinctSize(picks);
      SubsetSize(picks.Members(), eligible);
      assert picks.Members() == eligible;
    }
  }

  lemma {:induction false} RoundSweeps(c: Call, walk: seq<nat>, m: Moment, s: Progress, now: int)
    requires ProperPlan(c.plan) && NoDuplicates(walk) && Undisturbed(m, now) && c.lease >= 0 && s.got.Len() <= c.k
    requires s.at <= |walk| && SweptTo(c, walk, s, now) && s.got.Len() < c.k
    ensures SweptTo(c, walk, Round(c, TopUp, walk, m, s), now)
  {
    var to := BatchEnd(walk, s.at, BatchSize(c, TopUp, s.got));
    var nums, r := walk[s.at..to], Round(c, TopUp, walk, m, s);
    if to > s.at {
      StatementSweeps(c, nums, m, s.(at := to), now);
      if r.got.Len() != c.k {
        var picks := Picks(TopUp, m.others(s.rows), nums, m, Want(c, s.got), c.plan);
        OpenStockAfterReserve(m.others(s.rows), First(walk, s.at), now, picks.Members(), c.holder, now + c.lease);
        SweepExtends(walk, s.at, to, r.rows, now);
      }
    }
  }

  lemma {:induction false} SweepExtends(walk: seq<nat>, at: nat, to: nat, rows: Table, now: int)
    requires at <= to <= |walk|
    ensures OpenStock(rows, First(walk, to), now) <=
      OpenStock(rows, First(walk, at), now) + EligibleAmong(rows, walk[at..to], now, {})
  {
    FirstMembers(walk, at);
    FirstMembers(walk, to);
    forall id | id in OpenStock(rows, First(walk, to), now)
      ensures id in OpenStock(rows, First(walk, at), now) + EligibleAmong(rows, walk[at..to], now, {})
    {
      var i :| 0 <= i < to && walk[i] == rows[id].num;
      if i >= at {
        assert walk[at..to][i - at] == rows[id].num;
      }
    }
  }

  /** How far n full batches get. */
  function Reach(c: Call, n: nat, walk: seq<nat>): nat {
    Min(n * c.batchSize, |walk|)
  }

  /** Unless the request is filled first, the second pass visits as many numbers as the budget allows. */
  lemma {:induction false} TopUpReaches(c: Call, walk: seq<nat>, env: nat -> Moment, i: nat, s: Progress, now: int)
    requires i <= c.maxBatches && s.stop == Going && AllUndisturbed(env, now) && s.at == Reach(c, i, walk)
    ensures var r := Rounds(c, TopUp, walk, env, i, s); r.got.Len() < c.k ==> r.at == Reach(c, c.maxBatches, walk)
    decreases c.maxBatches - i
  {
    if i < c.maxBatches && s.got.Len() < c.k {
      var m, next := env(i), i + 1;
      assert Undisturbed(m, now);
      ReachStep(c, i, walk);
      var r := Round(c, TopUp, walk, m, s);
      if r.stop == Going {
        assert r.at == Reach(c, next, walk);
        TopUpReaches(c, walk, env, next, r, now);
      }
    }
  }

  lemma ReachStep(c: Call, i: nat, walk: seq<nat>)
    requires i < c.maxBatches
    ensures Reach(c, i + 1, walk) == Min(Reach(c, i, walk) + c.batchSize, |walk|)
    ensures Reach(c, i, walk) + c.batchSize <= |walk| || Reach(c, i + 1, walk) == |walk|
    ensures Reach(c, i + 1, walk) == Reach(c, i, walk) ==> Reach(c, c.maxBatches, walk) == Reach(c, i, walk)
  {
    var max, size := c.maxBatches, c.batchSize;
    assert (i + 1) * size == i * size + size;
    StepBound(i + 1, max, size);
    if size == 0 {
      assert i * size == 0 && max * size == 0;
    }
  }

  lemma StepBound(i: nat, max: nat, size: nat)
    requires 0 < i <= max
    ensures (i - 1) * size + size == i * size <= max * size
  {
    assert max * size == i * size + (max - i) * size;
  }

  lemma {:induction false} RoundAccounted(c: Call, pass: Pass, walk: seq<nat>, m: Moment, s: Progress,
      initial: set<int>, now: int)
    requires ProperPlan(c.plan) && NoDuplicates(walk) && Undisturbed(m, now) && c.lease >= 0
    requires s.at <= |walk| && Accounted(s, initial, ToSet(walk), now) && s.got.Len() <= c.k
    ensures var r := Round(c, pass, walk, m, s); Accounted(r, initial, ToSet(walk), now) && r.got.Len() <= c.k
    ensures s.stop == Going ==> var r := Round(c, pass, walk, m, s); r.stop == Going || r.stop == Walked
  {
    var to := BatchEnd(walk, s.at, BatchSize(c, pass, s.got));
    BatchIsNew(walk, s.at, to);
    VisitedWanted(walk, to);
    StatementAccounted(c, pass, walk[s.at..to], m, s.(at := to), initial, ToSet(walk), now);
  }

  lemma {:induction false} RoundsAccounted(c: Call, pass: Pass, walk: seq<nat>, env: nat -> Moment, i: nat,
      s: Progress, initial: set<int>, now: int)
    requires ProperPlan(c.plan) && NoDuplicates(walk) && AllUndisturbed(env, now) && c.lease >= 0
    requires s.at <= |walk| && Accounted(s, initial, ToSet(walk), now) && s.got.Len() <= c.k
    requires s.stop == Going || s.stop == Walked
    ensures var r := Rounds(c, pass, walk, env, i, s);
      Accounted(r, initial, ToSet(walk), now) && r.got.Len() <= c.k && (r.stop == Going || r.stop == Walked)
    decreases c.maxBatches - i
  {
    if i < c.maxBatches && !Over(c, s) {
      assert Undisturbed(env(i), now);
      RoundAccounted(c, pass, walk, env(i), s, initial, now);
      RoundsAccounted(c, pass, walk, env, i + 1, Round(c, pass, walk, env(i), s), initial, now);
    }
  }

  lemma {:induction false} RoundsSweep(c: Call, walk: seq<nat>, env: nat -> Moment, i: nat, s: Progress,
      initial: set<int>, now: int)
    requires ProperPlan(c.plan) && NoDuplicates(walk) && AllUndisturbed(env, now) && c.lease >= 0
    requires s.at <= |walk| && Accounted(s, initial, ToSet(walk), now) && s.got.Len() <= c.k && SweptTo(c, walk, s, now)
    ensures SweptTo(c, walk, Rounds(c, TopUp, walk, env, i, s), now)
    decreases c.maxBatches - i
  {
    if i < c.maxBatches && !Over(c, s) {
      assert Undisturbed(env(i), now);
      RoundAccounted(c, TopUp, walk, env(i), s, initial, now);
      RoundSweeps(c, walk, env(i), s, now);
      RoundsSweep(c, walk, env, i + 1, Round(c, TopUp, walk, env(i), s), initial, now);
    }
  }

  // ---------------------------------------------------------------- a wide first pass

  /** Numbers not visited yet are as they were, and every visited number that had an open row has contributed a ticket,
      unless the call already has all it wants. */
  ghost predicate Wide(c: Call, walk: seq<nat>, s: Progress, rows: Table, now: int)
    requires s.at <= |walk|
  {
    && (forall n: nat :: n !in First(walk, s.at) ==> EligibleOf(s.rows, n, now, {}) == EligibleOf(rows, n, now, {}))
    && (s.got.Len() >= c.k ||
        forall n: nat :: n in s.got.Nums() <==> n in First(walk, s.at) && EligibleOf(rows, n, now, {}) != {})
  }

  lemma EligibleElsewhere(t: Table, picks: Ids, nums: seq<nat>, n: nat, now: int, holder: string, until: int)
    requires OpenAmong(picks, t, nums, now, {}) && n !in nums
    ensures EligibleOf(ReserveRows(t, picks.Members(), holder, until), n, now, {}) == EligibleOf(t, n, now, {})
  {
    NotCarriedBy(picks, t, nums, n, now, {});
    var r := ReserveRows(t, picks.Members(), holder, until);
    forall id ensures id in EligibleOf(r, n, now, {}) <==> id in EligibleOf(t, n, now, {}) {
      if id in t {
        assert r[id].num == t[id].num;
      }
    }
  }

  lemma {:induction false} RoundWide(c: Call, walk: seq<nat>, m: Moment, s: Progress, rows: Table, now: int)
    requires ProperPlan(c.plan) && NoDuplicates(walk) && Undisturbed(m, now)
    requires s.at <= |walk| && s.got.Len() < c.k && Wide(c, walk, s, rows, now)
    ensures Wide(c, walk, Round(c, Spread, walk, m, s), rows, now)
  {
    var to := BatchEnd(walk, s.at, BatchSize(c, Spread, s.got));
    if to > s.at {
      var picks := DistinctPicks(s.rows, walk[s.at..to], now, {}, Want(c, s.got), c.plan);
      BatchWide(c, walk, s, rows, now, to, picks);
      UndisturbedSpread(c, walk[s.at..to], m, s.(at := to), now, picks);
    }
  }

  /** Nobody else there: the statement works on the table the last one left. */
  lemma UndisturbedSpread(c: Call, nums: seq<nat>, m: Moment, s: Progress, now: int, picks: Ids)
    requires Undisturbed(m, now) && picks == DistinctPicks(s.rows, nums, now, {}, Want(c, s.got), c.plan)
    ensures var until := now + c.lease;
      Statement(c, Spread, nums, m, s) == s.(rows := ReserveRows(s.rows, picks.Members(), c.holder, until),
                                            got := Record(s.got, picks, s.rows, now, until))
  {
    assert m.others(s.rows) == s.rows;
    assert Picks(Spread, s.rows, nums, m, Want(c, s.got), c.plan) == picks;
  }

  lemma {:induction false} BatchWide(c: Call, walk: seq<nat>, s: Progress, rows: Table, now: int, to: nat, picks: Ids)
    requires ProperPlan(c.plan) && NoDuplicates(walk) && s.at <= to <= |walk| && s.got.Len() < c.k &&
      Wide(c, walk, s, rows, now)
    requires picks == DistinctPicks(s.rows, walk[s.at..to], now, {}, Want(c, s.got), c.plan)
    ensures var until := now + c.lease;
      Wide(c, walk, s.(at := to, rows := ReserveRows(s.rows, picks.Members(), c.holder, until),
                       got := Record(s.got, picks, s.rows, now, until)), rows, now)
  {
    RecordFacts(s.got, picks, s.rows, now, now + c.lease);
    WideElsewhere(c, walk, s, rows, now, to, picks);
    if picks.Len() < Want(c, s.got) {
      forall n: nat {
        WideNumber(c, walk, s, rows, now, to, picks, n);
      }
    }
  }

  lemma {:induction false} WideElsewhere(c: Call, walk: seq<nat>, s: Progress, rows: Table, now: int, to: nat,
      picks: Ids)
    requires ProperPlan(c.plan) && NoDuplicates(walk) && s.at <= to <= |walk| && Wide(c, walk, s, rows, now)
    requires picks == DistinctPicks(s.rows, walk[s.at..to], now, {}, Want(c, s.got), c.plan)
    ensures var after := ReserveRows(s.rows, picks.Members(), c.holder, now + c.lease);
      forall n: nat :: n !in First(walk, to) ==> EligibleOf(after, n, now, {}) == EligibleOf(rows, n, now, {})
  {
    var nums, after := walk[s.at..to], ReserveRows(s.rows, picks.Members(), c.holder, now + c.lease);
    BatchIsNew(walk, s.at, to);
    DistinctPicksSound(s.rows, nums, now, {}, Want(c, s.got), c.plan);
    forall n: nat | n !in First(walk, to) ensures EligibleOf(after, n, now, {}) == EligibleOf(rows, n, now, {}) {
      EligibleElsewhere(s.rows, picks, nums, n, now, c.holder, now + c.lease);
    }
  }

  lemma {:induction false} BatchCovers(walk: seq<nat>, at: nat, to: nat)
    requires at <= to <= |walk|
    ensures forall n: nat :: n in First(walk, to) <==> n in First(walk, at) || n in walk[at..to]
  {
    if at < to {
      BatchCovers(walk, at, to - 1);
      assert walk[at..to] == walk[at..to - 1] + [walk[to - 1]];
    } else {
      assert walk[at..to] == [];
    }
  }

  lemma {:induction false} WideNumber(c: Call, walk: seq<nat>, s: Progress, rows: Table, now: int, to: nat, picks: Ids,
      n: nat)
    requires ProperPlan(c.plan) && NoDuplicates(walk) && s.at <= to <= |walk| && s.got.Len() < c.k &&
      Wide(c, walk, s, rows, now)
    requires picks == DistinctPicks(s.rows, walk[s.at..to], now, {}, Want(c, s.got), c.plan) &&
      picks.Len() < Want(c, s.got)
    ensures n in Record(s.got, picks, s.rows, now, now + c.lease).Nums() <==>
      n in First(walk, to) && EligibleOf(rows, n, now, {}) != {}
  {
    var nums := walk[s.at..to];
    BatchIsNew(walk, s.at, to);
    BatchCovers(walk, s.at, to);
    DistinctPicksSound(s.rows, nums, now, {}, Want(c, s.got), c.plan);
    RecordNumsExactly(s.got, picks, s.rows, nums, now, {}, now + c.lease, n);
    if Carried(picks, s.rows, n) {
      CarriedAmong(picks, s.rows, nums, n, now, {});
    } else if n in nums && EligibleOf(s.rows, n, now, {}) != {} {
      DistinctPicksWide(s.rows, nums, now, {}, Want(c, s.got), c.plan, n);
    }
  }

  /** Undisturbed, the first pass takes a ticket of every number it visits that has one to give, until it has k. */
  lemma {:induction false} QuietSpreadIsWide(c: Call, walk: seq<nat>, env: nat -> Moment, i: nat, s: Progress,
      rows: Table, now: int)
    requires ProperPlan(c.plan) && NoDuplicates(walk) && AllUndisturbed(env, now)
    requires s.at <= |walk| && Wide(c, walk, s, rows, now)
    ensures Wide(c, walk, Rounds(c, Spread, walk, env, i, s), rows, now)
    decreases c.maxBatches - i
  {
    if i < c.maxBatches && !Over(c, s) {
      assert Undisturbed(env(i), now);
      RoundWide(c, walk, env(i), s, rows, now);
      QuietSpreadIsWide(c, walk, env, i + 1, Round(c, Spread, walk, env(i), s), rows, now);
    }
  }

  /** The wanted numbers that have a claimable row. */
  ghost function OpenNumbers(t: Table, wanted: set<nat>, now: int): set<nat> {
    set id | id in OpenStock(t, wanted, now) :: t[id].num
  }

  /** The different numbers of a result. */
  ghost function NumbersIn(out: seq<Reservation>): set<nat> {
    set r | r in out :: r.number
  }

  lemma {:induction false} NumsReported(got: Issued)
    ensures NumbersIn(got.Report()) == got.Nums() && |got.Nums()| <= got.Len()
    ensures got.DistinctNums() ==> |got.Nums()| == got.Len()
  {
    if got.Issue? {
      NumsReported(got.front);
      var all, front, last := got.Report(), got.front.Report(), Reservation(got.id, got.num, got.until);
      NumbersOfMore(front, last);
      OneMoreNum(got.front.Nums(), got.num);
    }
  }

  lemma NumbersOfMore(front: seq<Reservation>, last: Reservation)
    ensures NumbersIn(front + [last]) == NumbersIn(front) + {last.number}
  {
    forall n ensures n in NumbersIn(front + [last]) <==> n in NumbersIn(front) + {last.number} {
      if n in NumbersIn(front) {
        var r :| r in front && r.number == n;
        assert r in front + [last];
      }
      assert last in front + [last];
    }
  }

  lemma OneMoreNum(nums: set<nat>, n: nat)
    ensures |nums + {n}| <= |nums| + 1 && (n !in nums ==> |nums + {n}| == |nums| + 1)
  {
    if n in nums {
      assert nums + {n} == nums;
    }
  }

  lemma {:induction false} BeginsNums(all: Issued, part: Issued)
    requires BeginsWith(all, part)
    ensures part.Nums() <= all.Nums()
  {
    if all != part {
      BeginsNums(all.front, part);
    }
  }

  /** With nobody else around, the first statement of a call already takes a ticket of every number it asks about that
      has one to give, or k tickets of different numbers. */
  lemma {:induction false} FirstBatchIsWide(c: Call, walk: seq<nat>, m: Moment, rows: Table, now: int, to: nat,
      s: Progress)
    requires ProperPlan(c.plan) && NoDuplicates(walk) && Undisturbed(m, now) && WellKept(rows) && c.k > 0
    requires to == Min(Min(4 * c.k, c.batchSize), |walk|)
    requires s == Round(c, Spread, walk, m, Progress(rows, Nothing, 0, Going))
    ensures |s.got.Nums()| >= Min(c.k, |OpenNumbers(rows, First(walk, to), now)|)
  {
    var start := Progress(rows, Nothing, 0, Going);
    assert Want(c, Nothing) == c.k;
    RoundWide(c, walk, m, start, rows, now);
    assert s.at == to;
    assert Keeps(m);
    RoundSound(c, Spread, walk, m, start, {});
    NumsReported(s.got);
    if s.got.Len() < c.k {
      OpenNumbersListed(s.got.Nums(), rows, First(walk, to), now);
    }
  }

  lemma OpenNumbersListed(nums: set<nat>, rows: Table, wanted: set<nat>, now: int)
    requires forall n: nat :: n in nums <==> n in wanted && EligibleOf(rows, n, now, {}) != {}
    ensures nums == OpenNumbers(rows, wanted, now)
  {
    forall n: nat ensures n in nums <==> n in OpenNumbers(rows, wanted, now) {
      if n in nums {
        var id :| id in EligibleOf(rows, n, now, {});
        assert id in OpenStock(rows, wanted, now);
      }
      if n in OpenNumbers(rows, wanted, now) {
        var id :| id in OpenStock(rows, wanted, now) && rows[id].num == n;
        assert id in EligibleOf(rows, n, now, {});
      }
    }
  }

  lemma {:induction false} FirstBatchStays(c: Call, walk1: seq<nat>, walk2: seq<nat>, env1: nat -> Moment,
      env2: nat -> Moment, rows: Table)
    requires c.k > 0 && c.maxBatches > 0
    ensures var s := Round(c, Spread, walk1, env1(0), Progress(rows, Nothing, 0, Going));
      s.got.Nums() <= StoreClaim(c, walk1, walk2, env1, env2, rows).got.Nums()
  {
    var start := Progress(rows, Nothing, 0, Going);
    var s := Round(c, Spread, walk1, env1(0), start);
    RoundsBegin(c, Spread, walk1, env1, 1, s, s.got);
    var first := Rounds(c, Spread, walk1, env1, 0, start);
    assert first == Rounds(c, Spread, walk1, env1, 1, s);
    if NeedsTopUp(c, first) {
      RoundsBegin(c, TopUp, walk2, env2, 0, first.(at := 0, stop := Going), s.got);
    }
    BeginsNums(StoreClaim(c, walk1, walk2, env1, env2, rows).got, s.got);
  }

  /** Undisturbed, the result carries as many different numbers, up to k, as the first min(4k, batchSize) numbers of the
      first walk have to give. So if k of them have a claimable row, all its tickets carry different numbers. */
  lemma {:induction false} ResultIsSpread(c: Call, walk1: seq<nat>, walk2: seq<nat>, env1: nat -> Moment,
      env2: nat -> Moment, rows: Table, now: int)
    requires ProperPlan(c.plan) && AllUndisturbed(env1, now) && AllUndisturbed(env2, now) && WellKept(rows)
    requires NoDuplicates(walk1) && NoDuplicates(walk2) && ToSet(walk1) == ToSet(walk2) && c.maxBatches > 0
    ensures var out := StoreClaim(c, walk1, walk2, env1, env2, rows).got.Report();
      var near := First(walk1, Min(Min(4 * c.k, c.batchSize), |walk1|));
      && |NumbersIn(out)| >= Min(c.k, |OpenNumbers(rows, near, now)|)
      && (|OpenNumbers(rows, near, now)| >= c.k ==> |NumbersIn(out)| == |out| == c.k)
  {
    var r, to := StoreClaim(c, walk1, walk2, env1, env2, rows), Min(Min(4 * c.k, c.batchSize), |walk1|);
    assert AllKeep(env1) && AllKeep(env2) by {
      assert forall i: nat :: Undisturbed(env1(i), now) && Undisturbed(env2(i), now);
    }
    CallSound(c, walk1, walk2, env1, env2, rows, ToSet(walk1));
    NumsReported(r.got);
    ReportLen(r.got);
    if c.k > 0 {
      var s := Round(c, Spread, walk1, env1(0), Progress(rows, Nothing, 0, Going));
      assert Undisturbed(env1(0), now);
      FirstBatchIsWide(c, walk1, env1(0), rows, now, to, s);
      FirstBatchStays(c, walk1, walk2, env1, env2, rows);
      SubsetSize(s.got.Nums(), r.got.Nums());
    }
  }

  lemma StatementKeepsNumbers(c: Call, pass: Pass, nums: seq<nat>, m: Moment, s: Progress)
    requires m.others(s.rows) == s.rows
    ensures Numbers(Statement(c, pass, nums, m, s).rows) == Numbers(s.rows)
  {
    var picks := Picks(pass, s.rows, nums, m, Want(c, s.got), c.plan);
    ReserveIsGrant(s.rows, picks.Members(), c.holder, m.now + c.lease);
  }

  lemma RoundKeepsNumbers(c: Call, pass: Pass, walk: seq<nat>, m: Moment, s: Progress)
    requires s.at <= |walk| && m.others(s.rows) == s.rows
    ensures Numbers(Round(c, pass, walk, m, s).rows) == Numbers(s.rows)
  {
    var to := BatchEnd(walk, s.at, BatchSize(c, pass, s.got));
    StatementKeepsNumbers(c, pass, walk[s.at..to], m, s.(at := to));
  }

  /** Undisturbed, no statement changes a number. */
  lemma {:induction false} RoundsKeepNumbers(c: Call, pass: Pass, walk: seq<nat>, env: nat -> Moment, i: nat,
      s: Progress, now: int)
    requires s.at <= |walk| && AllUndisturbed(env, now)
    ensures Numbers(Rounds(c, pass, walk, env, i, s).rows) == Numbers(s.rows)
    decreases c.maxBatches - i
  {
    if i < c.maxBatches && !Over(c, s) {
      var later, m := i + 1, env(i);
      assert Undisturbed(m, now);
      var next := Round(c, pass, walk, m, s);
      RoundKeepsNumbers(c, pass, walk, m, s);
      RoundsKeepNumbers(c, pass, walk, env, later, next, now);
    }
  }

  lemma {:induction false} NumsAreOpen(got: Issued, after: Table, before: Table, wanted: set<nat>, now: int,
    holder: string)
    requires AllSaid(got, after, holder) && Numbers(after) == Numbers(before)
    requires got.Ids() <= OpenStock(before, wanted, now)
    ensures got.Nums() <= OpenNumbers(before, wanted, now)
  {
    if got.Issue? {
      NumsAreOpen(got.front, after, before, wanted, now, holder);
      assert got.id in got.Ids() && got.id in OpenStock(before, wanted, now);
      assert before[got.id].num == Numbers(before)[got.id] == Numbers(after)[got.id] == got.num;
    }
  }

  lemma UndisturbedIsCalm(env: nat -> Moment, now: int, holder: string, lease: int)
    requires AllUndisturbed(env, now) && lease >= 0
    ensures Calm(env, holder, now, lease)
  {
    forall i: nat ensures Respects(env(i), holder) && now <= env(i).now <= now + lease {
      assert Undisturbed(env(i), now);
    }
  }

  /** What the table gave at the start is all that an undisturbed call reports. */
  lemma {:induction false} NoOtherNumbers(c: Call, walk1: seq<nat>, walk2: seq<nat>, env1: nat -> Moment,
      env2: nat -> Moment, rows: Table, now: int)
    requires ProperPlan(c.plan) && c.lease >= 0 && AllUndisturbed(env1, now) && AllUndisturbed(env2, now)
    requires NoDuplicates(walk1) && NoDuplicates(walk2) && ToSet(walk1) == ToSet(walk2)
    ensures StoreClaim(c, walk1, walk2, env1, env2, rows).got.Nums() <= OpenNumbers(rows, ToSet(walk2), now)
  {
    var initial, start := OpenStock(rows, ToSet(walk2), now), Progress(rows, Nothing, 0, Going);
    RoundsAccounted(c, Spread, walk1, env1, 0, start, initial, now);
    RoundsKeepNumbers(c, Spread, walk1, env1, 0, start, now);
    var first := Rounds(c, Spread, walk1, env1, 0, start);
    if NeedsTopUp(c, first) {
      var again := first.(at := 0, stop := Going);
      RoundsAccounted(c, TopUp, walk2, env2, 0, again, initial, now);
      RoundsKeepNumbers(c, TopUp, walk2, env2, 0, again, now);
    }
    UndisturbedIsCalm(env1, now, c.holder, c.lease);
    UndisturbedIsCalm(env2, now, c.holder, c.lease);
    CallSaid(c, walk1, walk2, env1, env2, rows, now);
    var r := StoreClaim(c, walk1, walk2, env1, env2, rows);
    NumsAreOpen(r.got, r.rows, rows, ToSet(walk2), now, c.holder);
  }

  /** If moreover the match set fits one batch, the result carries min(k, D) different numbers, where D of the matching
      numbers have a claimable row. */
  lemma {:induction false} SmallPatternIsSpread(c: Call, walk1: seq<nat>, walk2: seq<nat>, env1: nat -> Moment,
      env2: nat -> Moment, rows: Table, now: int)
    requires ProperPlan(c.plan) && c.lease >= 0 && AllUndisturbed(env1, now) && AllUndisturbed(env2, now) &&
      WellKept(rows)
    requires NoDuplicates(walk1) && NoDuplicates(walk2) && ToSet(walk1) == ToSet(walk2) && c.maxBatches > 0
    requires |walk1| <= Min(4 * c.k, c.batchSize)
    ensures |NumbersIn(StoreClaim(c, walk1, walk2, env1, env2, rows).got.Report())| ==
      Min(c.k, |OpenNumbers(rows, ToSet(walk1), now)|)
  {
    var r := StoreClaim(c, walk1, walk2, env1, env2, rows);
    ResultIsSpread(c, walk1, walk2, env1, env2, rows, now);
    WholeWalk(walk1);
    NoOtherNumbers(c, walk1, walk2, env1, env2, rows, now);
    NumsReported(r.got);
    SubsetSize(r.got.Nums(), OpenNumbers(rows, ToSet(walk2), now));
    assert forall i: nat :: Undisturbed(env1(i), now) && Undisturbed(env2(i), now);
    CallSound(c, walk1, walk2, env1, env2, rows, ToSet(walk1));
  }

  lemma {:induction false} IssuedSize(got: Issued)
    requires got.DistinctIds()
    ensures |got.Ids()| == got.Len()
  {
    if got.Issue? {
      IssuedSize(got.front);
    }
  }

  /** With nobody else around and a pattern within the batch budget, the call returns min(k, claimable matches). */
  lemma {:induction false} QuietCallFills(c: Call, walk1: seq<nat>, walk2: seq<nat>, env1: nat -> Moment,
      env2: nat -> Moment, rows: Table, now: int)
    requires ProperPlan(c.plan) && c.lease >= 0 && AllUndisturbed(env1, now) && AllUndisturbed(env2, now)
    requires NoDuplicates(walk1) && NoDuplicates(walk2) && ToSet(walk1) == ToSet(walk2)
    requires |walk2| <= c.maxBatches * c.batchSize
    ensures StoreClaim(c, walk1, walk2, env1, env2, rows).got.Len() == Min(c.k, |OpenStock(rows, ToSet(walk2), now)|)
  {
    var initial, start := OpenStock(rows, ToSet(walk2), now), Progress(rows, Nothing, 0, Going);
    RoundsAccounted(c, Spread, walk1, env1, 0, start, initial, now);
    var first := Rounds(c, Spread, walk1, env1, 0, start);
    var r := StoreClaim(c, walk1, walk2, env1, env2, rows);
    if NeedsTopUp(c, first) {
      var again := first.(at := 0, stop := Going);
      RoundsAccounted(c, TopUp, walk2, env2, 0, again, initial, now);
      assert OpenStock(again.rows, First(walk2, 0), now) == {};
      RoundsSweep(c, walk2, env2, 0, again, initial, now);
      TopUpReaches(c, walk2, env2, 0, again, now);
      if r.got.Len() < c.k {
        assert r.at == Reach(c, c.maxBatches, walk2);
        assert r.at == |walk2|;
        WholeWalk(walk2);
      }
    }
    IssuedSize(r.got);
    AllTaken(initial, r.got.Ids(), c.k);
  }

  lemma AllTaken(initial: set<int>, taken: set<int>, k: nat)
    requires taken <= initial && |taken| <= k && (|taken| < k ==> initial - taken == {})
    ensures |taken| == Min(k, |initial|)
  {
    SubsetSize(taken, initial);
    assert initial == taken + (initial - taken);
  }

  /** A single free ticket whose number comes just after the last batch is never found. */
  lemma {:induction false} BeyondBudget(c: Call, walk: seq<nat>, env1: nat -> Moment, env2: nat -> Moment, now: int)
    returns (rows: Table)
    requires ProperPlan(c.plan) && AllUndisturbed(env1, now) && AllUndisturbed(env2, now)
    requires NoDuplicates(walk) && |walk| > c.maxBatches * c.batchSize
    ensures OpenStock(rows, ToSet(walk), now) == {0}
    ensures StoreClaim(c, walk, walk, env1, env2, rows).got.Len() == 0
  {
    var n := walk[c.maxBatches * c.batchSize];
    rows := map[0 := Row(n, Available, None, None, 0)];
    var start := Progress(rows, Nothing, 0, Going);
    NothingFound(c, Spread, walk, env1, 0, start, now, n);
    NothingFound(c, TopUp, walk, env2, 0, Rounds(c, Spread, walk, env1, 0, start).(at := 0, stop := Going), now, n);
  }

  lemma {:induction false} NothingFound(c: Call, pass: Pass, walk: seq<nat>, env: nat -> Moment, i: nat, s: Progress,
      now: int, n: nat)
    requires NoDuplicates(walk) && c.maxBatches * c.batchSize < |walk| && walk[c.maxBatches * c.batchSize] == n
    requires i <= c.maxBatches && AllUndisturbed(env, now) && ProperPlan(c.plan)
    requires s.rows == map[0 := Row(n, Available, None, None, 0)] && s.got == Nothing && s.at <= i * c.batchSize &&
      s.at <= |walk|
    ensures var r := Rounds(c, pass, walk, env, i, s); r.rows == s.rows && r.got == Nothing
    decreases c.maxBatches - i
  {
    if i < c.maxBatches && !Over(c, s) {
      var m, next := env(i), i + 1;
      assert Undisturbed(m, now);
      var to := BatchEnd(walk, s.at, BatchSize(c, pass, s.got));
      StepBound(next, c.maxBatches, c.batchSize);
      assert to <= next * c.batchSize <= c.maxBatches * c.batchSize;
      NotReached(c, pass, walk, s.at, to, m, s, n);
      NothingFound(c, pass, walk, env, next, Round(c, pass, walk, m, s), now, n);
    }
  }

  /** A batch without the ticket's number picks nothing. */
  lemma {:induction false} NotReached(c: Call, pass: Pass, walk: seq<nat>, at: nat, to: nat, m: Moment, s: Progress,
      n: nat)
    requires NoDuplicates(walk) && at <= to <= c.maxBatches * c.batchSize < |walk| &&
      walk[c.maxBatches * c.batchSize] == n
    requires s.rows == map[0 := Row(n, Available, None, None, 0)] && m.others(s.rows) == s.rows && ProperPlan(c.plan)
    ensures Statement(c, pass, walk[at..to], m, s.(at := to)) == s.(at := to)
  {
    var nums := walk[at..to];
    assert n !in nums;
    var picks := Picks(pass, s.rows, nums, m, Want(c, s.got), c.plan);
    BatchIsNew(walk, at, to);
    PicksSound(pass, s.rows, nums, m, Want(c, s.got), c.plan);
    assert picks == Nil;
    ReserveNothing(s.rows, c.holder, m.now + c.lease);
  }
}
