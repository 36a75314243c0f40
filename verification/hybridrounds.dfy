/** lottery-go/postgres/hybrid.go: the claim loops behind the availability hint, as a function of the same environment
    as the plain store's. */
module HybridRounds {
  import opened Counting
  import opened Allocation
  import opened Stock
  import opened TicketTable
  import opened ClaimRounds
  import opened ClaimGuarantees
  import opened Availabilities

  // ---------------------------------------------------------------- filtering and reconciling

  /** reconcileAfterClaim: the numbers the database returned certainly have stock, and their ids are remembered. */
  function MarkAll(hint: Hint, batch: seq<Reservation>): (r: Hint)
    ensures |r| == |hint|
  {
    if batch == [] then hint else MarkAvailable(MarkAll(hint, Front(batch)), batch[|batch| - 1].number)
  }

  function Remember(known: map<int, nat>, batch: seq<Reservation>): map<int, nat> {
    if batch == [] then known
      else Remember(known, Front(batch))[batch[|batch| - 1].ticketId := batch[|batch| - 1].number]
  }

  /** Every number of the batch passes the hint, and every ticket of it is remembered with the number of its last
      reservation. */
  ghost predicate Learnt(batch: seq<Reservation>, hint: Hint, known: map<int, nat>) {
    && (forall q :: 0 <= q < |batch| && batch[q].number < |hint| ==> MaybeAvailable(hint, batch[q].number))
    && forall q :: 0 <= q < |batch| ==>
         batch[q].ticketId in known &&
         ((forall later :: q < later < |batch| ==> batch[later].ticketId != batch[q].ticketId) ==>
            known[batch[q].ticketId] == batch[q].number)
  }

  lemma {:induction false} BatchLearnt(hint: Hint, known: map<int, nat>, batch: seq<Reservation>)
    ensures Learnt(batch, MarkAll(hint, batch), Remember(known, batch))
  {
    if batch != [] {
      var front, last := Front(batch), batch[|batch| - 1];
      BatchLearnt(hint, known, front);
      forall q | 0 <= q < |batch| && batch[q].number < |hint|
        ensures MaybeAvailable(MarkAll(hint, batch), batch[q].number)
      {
        assert q < |front| ==> front[q] == batch[q];
      }
      forall q | 0 <= q < |front| ensures front[q] == batch[q] {
      }
    }
  }

  /** filterByHint: the candidates worth asking about, in their order. */
  function Keep(nums: seq<nat>, hint: Hint): seq<nat> {
    if nums == [] then []
    else
      var n, front := nums[|nums| - 1], Keep(Front(nums), hint);
      if MaybeAvailable(hint, n) then front + [n] else front
  }

  lemma {:induction false} KeepMembers(nums: seq<nat>, hint: Hint)
    ensures forall n :: n in Keep(nums, hint) <==> n in nums && MaybeAvailable(hint, n)
    ensures NoDuplicates(nums) ==> NoDuplicates(Keep(nums, hint))
  {
    if nums != [] {
      KeepMembers(Front(nums), hint);
      if NoDuplicates(nums) {
        assert nums[|nums| - 1] !in Front(nums);
      }
    }
  }

  lemma {:induction false} MarkAllKeeps(hint: Hint, batch: seq<Reservation>, n: nat)
    requires MaybeAvailable(hint, n)
    ensures MaybeAvailable(MarkAll(hint, batch), n)
  {
    if batch != [] {
      MarkAllKeeps(hint, Front(batch), n);
    }
  }

  // ---------------------------------------------------------------- the loops

  datatype HybridProgress = HybridProgress(s: Progress, hint: Hint, known: map<int, nat>)

  /** One statement on the kept candidates, and what the hint learns from it. */
  function HybridStatement(c: Call, pass: Pass, nums: seq<nat>, m: Moment, h: HybridProgress): HybridProgress {
    var rows := m.others(h.s.rows);
    var batch := Returned(Picks(pass, rows, nums, m, Want(c, h.s.got), c.plan), rows, m.now + c.lease);
    HybridProgress(Statement(c, pass, nums, m, h.s), MarkAll(h.hint, batch), Remember(h.known, batch))
  }

  /** The rest of a round, once its candidates are filtered: without any the batch is skipped. */
  function Put(c: Call, pass: Pass, nums: seq<nat>, m: Moment, h: HybridProgress): (r: HybridProgress)
    ensures r.s.at == h.s.at
  {
    if nums == [] then h.(s := h.s.(rows := m.others(h.s.rows)))
    else if m.fault then h.(s := h.s.(rows := m.others(h.s.rows), stop := Failed))
    else HybridStatement(c, pass, nums, m, h)
  }

  /** What the other calls of this replica did to the hint before a batch was filtered: sales, refreshes, anything. */
  type Touch = Hint -> Hint

  /** The number space does not change. */
  ghost predicate KeepsLength(touch: Touch) {
    forall hint: Hint :: |touch(hint)| == |hint|
  }

  ghost predicate AllKeepLength(touches: nat -> Touch) {
    forall i: nat :: KeepsLength(touches(i))
  }

  function HybridRound(c: Call, pass: Pass, walk: seq<nat>, m: Moment, touch: Touch,
      h: HybridProgress): (r: HybridProgress)
    requires h.s.at <= |walk|
    ensures r.s.at <= |walk|
  {
    var s, to := h.s, BatchEnd(walk, h.s.at, BatchSize(c, pass, h.s.got));
    if m.cancelled then h.(s := s.(stop := Cancelled))
    else if to == s.at then h.(s := s.(stop := Walked))
    else
      var hint := touch(h.hint);
      Put(c, pass, Keep(walk[s.at..to], hint), m, h.(s := s.(at := to), hint := hint))
  }

  /** A round that has filtered its batch goes on with what it kept. */
  lemma RoundPuts(c: Call, pass: Pass, walk: seq<nat>, m: Moment, touch: Touch, h: HybridProgress, to: nat,
      raw: seq<nat>, nums: seq<nat>, open: HybridProgress)
    requires NoDuplicates(walk) && h.s.at <= |walk| && to == BatchEnd(walk, h.s.at, BatchSize(c, pass, h.s.got))
    requires raw == walk[h.s.at..to] && raw != [] && !m.cancelled
    requires open == h.(s := h.s.(at := to), hint := touch(h.hint)) && nums == Keep(raw, open.hint)
    ensures NoDuplicates(nums) && HybridRound(c, pass, walk, m, touch, h) == Put(c, pass, nums, m, open)
  {
    BatchIsNew(walk, h.s.at, to);
    KeepMembers(raw, open.hint);
  }

  function HybridRuns(c: Call, pass: Pass, walk: seq<nat>, env: nat -> Moment, touches: nat -> Touch, i: nat,
      h: HybridProgress): (r: HybridProgress)
    requires h.s.at <= |walk|
    ensures r.s.at <= |walk|
    decreases c.maxBatches - i
  {
    if i >= c.maxBatches || Over(c, h.s) then h
    else HybridRuns(c, pass, walk, env, touches, i + 1, HybridRound(c, pass, walk, env(i), touches(i), h))
  }

  lemma RunsStep(c: Call, pass: Pass, walk: seq<nat>, env: nat -> Moment, touches: nat -> Touch, i: nat, next: nat,
      h: HybridProgress, r: HybridProgress)
    requires h.s.at <= |walk| && i < c.maxBatches && !Over(c, h.s) && next == i + 1
    requires r == HybridRound(c, pass, walk, env(i), touches(i), h)
    ensures HybridRuns(c, pass, walk, env, touches, next, r) == HybridRuns(c, pass, walk, env, touches, i, h)
    ensures r.s.stop != Going ==> HybridRuns(c, pass, walk, env, touches, next, r) == r
  {
  }

  /** The second pass starts over with a new walk. */
  function Again(h: HybridProgress): HybridProgress {
    h.(s := h.s.(at := 0, stop := Going))
  }

  /** The whole of HybridStore.Claim. */
  function HybridClaim(c: Call, walk1: seq<nat>, walk2: seq<nat>, env1: nat -> Moment, env2: nat -> Moment,
      touches1: nat -> Touch, touches2: nat -> Touch, start: HybridProgress): HybridProgress
    requires start.s.at == 0
  {
    var first := HybridRuns(c, Spread, walk1, env1, touches1, 0, start);
    if NeedsTopUp(c, first.s) then HybridRuns(c, TopUp, walk2, env2, touches2, 0, Again(first)) else first
  }

  /** A call begins with nothing received yet. */
  function Opening(rows: Table, hint: Hint, known: map<int, nat>): HybridProgress {
    HybridProgress(Progress(rows, Nothing, 0, Going), hint, known)
  }

  // ---------------------------------------------------------------- what a call does, seen from outside

  /** The hint may spare the database a statement. */
  function HybridRoundActs(c: Call, pass: Pass, walk: seq<nat>, m: Moment, touch: Touch, h: HybridProgress,
      acts: Acts): Acts
    requires h.s.at <= |walk|
  {
    var raw := walk[h.s.at..BatchEnd(walk, h.s.at, BatchSize(c, pass, h.s.got))];
    var nums := Keep(raw, touch(h.hint));
    if m.cancelled || nums == [] then Checked(acts, m.cancelled) else StatementActs(c, pass, nums, m, h.s, acts)
  }

  function HybridPassActs(c: Call, pass: Pass, walk: seq<nat>, env: nat -> Moment, touches: nat -> Touch, i: nat,
      h: HybridProgress, acts: Acts): Acts
    requires h.s.at <= |walk|
    decreases c.maxBatches - i
  {
    if i >= c.maxBatches || Over(c, h.s) then acts
    else
      var m, touch := env(i), touches(i);
      HybridPassActs(c, pass, walk, env, touches, i + 1, HybridRound(c, pass, walk, m, touch, h),
        HybridRoundActs(c, pass, walk, m, touch, h, acts))
  }

  /** Everything a call of HybridStore.Claim asks of its context and of the database. */
  function HybridActs(c: Call, walk1: seq<nat>, walk2: seq<nat>, env1: nat -> Moment, env2: nat -> Moment,
      touches1: nat -> Touch, touches2: nat -> Touch, start: HybridProgress): Acts
    requires start.s.at == 0
  {
    var first := HybridRuns(c, Spread, walk1, env1, touches1, 0, start);
    var acts := HybridPassActs(c, Spread, walk1, env1, touches1, 0, start, Silence);
    if NeedsTopUp(c, first.s) then HybridPassActs(c, TopUp, walk2, env2, touches2, 0, Again(first), acts) else acts
  }

  lemma HybridRoundTells(c: Call, pass: Pass, walk: seq<nat>, m: Moment, touch: Touch, h: HybridProgress, acts: Acts)
    requires h.s.at <= |walk| && Tells(h.s, acts) && h.s.stop == Going
    ensures Tells(HybridRound(c, pass, walk, m, touch, h).s, HybridRoundActs(c, pass, walk, m, touch, h, acts))
  {
    var to, hint := BatchEnd(walk, h.s.at, BatchSize(c, pass, h.s.got)), touch(h.hint);
    var nums := Keep(walk[h.s.at..to], hint);
    if !m.cancelled && nums != [] && !m.fault {
      StatementTells(c, pass, nums, m, h.s.(at := to), acts);
    }
  }

  lemma {:induction false} HybridPassTells(c: Call, pass: Pass, walk: seq<nat>, env: nat -> Moment,
      touches: nat -> Touch, i: nat, h: HybridProgress, acts: Acts)
    requires h.s.at <= |walk| && Tells(h.s, acts)
    ensures Tells(HybridRuns(c, pass, walk, env, touches, i, h).s,
      HybridPassActs(c, pass, walk, env, touches, i, h, acts))
    decreases c.maxBatches - i
  {
    if i < c.maxBatches && !Over(c, h.s) {
      var m, touch := env(i), touches(i);
      HybridRoundTells(c, pass, walk, m, touch, h, acts);
      HybridPassTells(c, pass, walk, env, touches, i + 1, HybridRound(c, pass, walk, m, touch, h),
        HybridRoundActs(c, pass, walk, m, touch, h, acts));
    }
  }

  lemma {:induction false} HybridTells(c: Call, walk1: seq<nat>, walk2: seq<nat>, env1: nat -> Moment,
      env2: nat -> Moment, touches1: nat -> Touch, touches2: nat -> Touch, start: HybridProgress)
    requires start == Opening(start.s.rows, start.hint, start.known)
    ensures Tells(HybridClaim(c, walk1, walk2, env1, env2, touches1, touches2, start).s,
                  HybridActs(c, walk1, walk2, env1, env2, touches1, touches2, start))
  {
    HybridPassTells(c, Spread, walk1, env1, touches1, 0, start, Silence);
    var first := HybridRuns(c, Spread, walk1, env1, touches1, 0, start);
    if NeedsTopUp(c, first.s) {
      var acts := HybridPassActs(c, Spread, walk1, env1, touches1, 0, start, Silence);
      HybridPassTells(c, TopUp, walk2, env2, touches2, 0, Again(first), acts);
    }
  }

  // ---------------------------------------------------------------- the hint is transparent

  /** No other call of this replica touches the hint meanwhile. */
  function Alone(i: nat): Touch {
    (hint: Hint) => hint
  }

  /** Every number with an unsold ticket passes the hint. */
  ghost predicate OverReports(hint: Hint, t: Table) {
    forall id :: id in t && t[id].status != Sold ==> MaybeAvailable(hint, t[id].num)
  }

  /** The next batch of a loop, before filtering. */
  function Upcoming(c: Call, pass: Pass, walk: seq<nat>, s: Progress): seq<nat>
    requires s.at <= |walk|
  {
    walk[s.at..BatchEnd(walk, s.at, BatchSize(c, pass, s.got))]
  }

  /** The round asks nothing, or its batch meets a hint that over-reports the table its statement finds. A statement may
      fail, but not one that the hint spares the hybrid store. */
  ghost predicate HonestRound(nums: seq<nat>, m: Moment, touch: Touch, h: HybridProgress) {
    m.cancelled || nums == [] ||
    (OverReports(touch(h.hint), m.others(h.s.rows)) && (m.fault ==> Keep(nums, touch(h.hint)) != []))
  }

  /** Throughout the loop. */
  ghost predicate Honest(c: Call, pass: Pass, walk: seq<nat>, env: nat -> Moment, touches: nat -> Touch, i: nat,
      h: HybridProgress)
    requires h.s.at <= |walk|
    decreases c.maxBatches - i
  {
    i >= c.maxBatches || Over(c, h.s) ||
    (HonestRound(Upcoming(c, pass, walk, h.s), env(i), touches(i), h) &&
     Honest(c, pass, walk, env, touches, i + 1, HybridRound(c, pass, walk, env(i), touches(i), h)))
  }

  lemma {:induction false} SameDistinctPicks(t: Table, nums: seq<nat>, hint: Hint, now: int, locked: set<int>,
      want: nat, plan: Planner)
    requires OverReports(hint, t)
    ensures DistinctPicks(t, Keep(nums, hint), now, locked, want, plan) ==
      DistinctPicks(t, nums, now, locked, want, plan)
  {
    if nums != [] {
      var n := nums[|nums| - 1];
      SameDistinctPicks(t, Front(nums), hint, now, locked, want, plan);
      if MaybeAvailable(hint, n) {
        assert Front(Keep(Front(nums), hint) + [n]) == Keep(Front(nums), hint);
      } else {
        assert EligibleOf(t, n, now, locked) == {};
      }
    }
  }

  lemma {:induction false} SamePicks(pass: Pass, t: Table, nums: seq<nat>, hint: Hint, m: Moment, want: nat,
      plan: Planner)
    requires OverReports(hint, t)
    ensures Picks(pass, t, Keep(nums, hint), m, want, plan) == Picks(pass, t, nums, m, want, plan)
  {
    if pass == Spread {
      SameDistinctPicks(t, nums, hint, m.now, m.locked, want, plan);
    } else {
      KeepMembers(nums, hint);
      assert EligibleAmong(t, Keep(nums, hint), m.now, m.locked) == EligibleAmong(t, nums, m.now, m.locked);
    }
  }

  /** A batch the hint filters out entirely would have brought nothing. */
  lemma {:induction false} NothingMissed(c: Call, pass: Pass, nums: seq<nat>, hint: Hint, m: Moment, s: Progress)
    requires ProperPlan(c.plan) && OverReports(hint, m.others(s.rows)) && Keep(nums, hint) == []
    ensures Statement(c, pass, nums, m, s) == s.(rows := m.others(s.rows))
  {
    var rows, want := m.others(s.rows), Want(c, s.got);
    SamePicks(pass, rows, nums, hint, m, want, c.plan);
    PicksSound(pass, rows, [], m, want, c.plan);
    assert Picks(pass, rows, [], m, want, c.plan) == Nil;
    ReserveNothing(rows, c.holder, m.now + c.lease);
  }

  lemma {:induction false} OverReportsAfter(c: Call, pass: Pass, nums: seq<nat>, m: Moment, h: HybridProgress)
    requires ProperPlan(c.plan) && NoDuplicates(nums) && OverReports(h.hint, m.others(h.s.rows))
    ensures var r := HybridStatement(c, pass, nums, m, h); OverReports(r.hint, r.s.rows)
  {
    var rows, r := m.others(h.s.rows), HybridStatement(c, pass, nums, m, h);
    var picks := Picks(pass, rows, nums, m, Want(c, h.s.got), c.plan);
    PicksSound(pass, rows, nums, m, Want(c, h.s.got), c.plan);
    OpenAmongMembers(picks, rows, nums, m.now, m.locked);
    forall id | id in r.s.rows && r.s.rows[id].status != Sold ensures MaybeAvailable(r.hint, r.s.rows[id].num) {
      assert rows[id].status != Sold;
      MarkAllKeeps(h.hint, Returned(picks, rows, m.now + c.lease), rows[id].num);
    }
  }

  lemma {:induction false} StatementTransparent(c: Call, pass: Pass, nums: seq<nat>, m: Moment, h: HybridProgress)
    requires ProperPlan(c.plan) && NoDuplicates(nums) && OverReports(h.hint, m.others(h.s.rows))
    ensures var r := HybridStatement(c, pass, Keep(nums, h.hint), m, h);
      r.s == Statement(c, pass, nums, m, h.s) && OverReports(r.hint, r.s.rows)
  {
    KeepMembers(nums, h.hint);
    SamePicks(pass, m.others(h.s.rows), nums, h.hint, m, Want(c, h.s.got), c.plan);
    OverReportsAfter(c, pass, Keep(nums, h.hint), m, h);
  }

  lemma {:induction false} RoundTransparent(c: Call, pass: Pass, walk: seq<nat>, m: Moment, touch: Touch,
      h: HybridProgress)
    requires ProperPlan(c.plan) && NoDuplicates(walk) && h.s.at <= |walk|
    requires HonestRound(Upcoming(c, pass, walk, h.s), m, touch, h)
    ensures HybridRound(c, pass, walk, m, touch, h).s == Round(c, pass, walk, m, h.s)
  {
    var to := BatchEnd(walk, h.s.at, BatchSize(c, pass, h.s.got));
    var nums, hint := walk[h.s.at..to], touch(h.hint);
    if m.cancelled || to == h.s.at {
      return;
    }
    if Keep(nums, hint) == [] {
      NothingMissed(c, pass, nums, hint, m, h.s.(at := to));
    } else {
      StatementTransparent(c, pass, nums, m, h.(s := h.s.(at := to), hint := hint));
    }
  }

  lemma {:induction false} RunsTransparent(c: Call, pass: Pass, walk: seq<nat>, env: nat -> Moment,
      touches: nat -> Touch, i: nat, h: HybridProgress)
    requires ProperPlan(c.plan) && NoDuplicates(walk)
    requires h.s.at <= |walk| && Honest(c, pass, walk, env, touches, i, h)
    ensures HybridRuns(c, pass, walk, env, touches, i, h).s == Rounds(c, pass, walk, env, i, h.s)
    decreases c.maxBatches - i
  {
    if i < c.maxBatches && !Over(c, h.s) {
      RoundTransparent(c, pass, walk, env(i), touches(i), h);
      RunsTransparent(c, pass, walk, env, touches, i + 1, HybridRound(c, pass, walk, env(i), touches(i), h));
    }
  }

  /** A hint that over-reports is invisible: whatever other calls do to it meanwhile, as long as every batch meets a
      hint that over-reports the table, the hybrid store returns the reservations and leaves the table of the plain
      store, for the same walks and the same environment. */
  lemma {:induction false} HintIsTransparent(c: Call, walk1: seq<nat>, walk2: seq<nat>, env1: nat -> Moment,
      env2: nat -> Moment, touches1: nat -> Touch, touches2: nat -> Touch, start: HybridProgress)
    requires ProperPlan(c.plan) && NoDuplicates(walk1) && NoDuplicates(walk2)
    requires start == Opening(start.s.rows, start.hint, start.known)
    requires Honest(c, Spread, walk1, env1, touches1, 0, start)
    requires var first := HybridRuns(c, Spread, walk1, env1, touches1, 0, start);
      NeedsTopUp(c, first.s) ==> Honest(c, TopUp, walk2, env2, touches2, 0, Again(first))
    ensures HybridClaim(c, walk1, walk2, env1, env2, touches1, touches2, start).s ==
      StoreClaim(c, walk1, walk2, env1, env2, start.s.rows)
  {
    RunsTransparent(c, Spread, walk1, env1, touches1, 0, start);
    var first := HybridRuns(c, Spread, walk1, env1, touches1, 0, start);
    if NeedsTopUp(c, first.s) {
      RunsTransparent(c, TopUp, walk2, env2, touches2, 0, Again(first));
    }
  }

  /** Nobody brings a sold ticket back, adds one, or changes its number. */
  ghost predicate NoNewStock(m: Moment) {
    forall t: Table, id: int :: id in m.others(t) && m.others(t)[id].status != Sold ==>
      id in t && t[id].status != Sold && t[id].num == m.others(t)[id].num
  }

  ghost predicate Undisturbing(env: nat -> Moment) {
    forall i: nat :: NoNewStock(env(i)) && !env(i).fault
  }

  lemma {:induction false} RoundOverReports(c: Call, pass: Pass, walk: seq<nat>, m: Moment, i: nat, h: HybridProgress)
    requires ProperPlan(c.plan) && NoDuplicates(walk) && NoNewStock(m) && !m.fault
    requires h.s.at <= |walk| && OverReports(h.hint, h.s.rows)
    ensures HonestRound(Upcoming(c, pass, walk, h.s), m, Alone(i), h)
    ensures var r := HybridRound(c, pass, walk, m, Alone(i), h); OverReports(r.hint, r.s.rows)
  {
    var to := BatchEnd(walk, h.s.at, BatchSize(c, pass, h.s.got));
    assert OverReports(h.hint, m.others(h.s.rows));
    StatementTransparent(c, pass, walk[h.s.at..to], m, h.(s := h.s.(at := to)));
  }

  lemma {:induction false} RunsOverReport(c: Call, pass: Pass, walk: seq<nat>, env: nat -> Moment, i: nat,
      h: HybridProgress)
    requires ProperPlan(c.plan) && NoDuplicates(walk) && Undisturbing(env)
    requires h.s.at <= |walk| && OverReports(h.hint, h.s.rows)
    ensures var r := HybridRuns(c, pass, walk, env, Alone, i, h); OverReports(r.hint, r.s.rows)
    decreases c.maxBatches - i
  {
    if i < c.maxBatches && !Over(c, h.s) {
      RoundOverReports(c, pass, walk, env(i), i, h);
      RunsOverReport(c, pass, walk, env, i + 1, HybridRound(c, pass, walk, env(i), Alone(i), h));
    }
  }

  lemma {:induction false} RunsHonest(c: Call, pass: Pass, walk: seq<nat>, env: nat -> Moment, i: nat,
      h: HybridProgress)
    requires ProperPlan(c.plan) && NoDuplicates(walk) && Undisturbing(env)
    requires h.s.at <= |walk| && OverReports(h.hint, h.s.rows)
    ensures Honest(c, pass, walk, env, Alone, i, h)
    decreases c.maxBatches - i
  {
    if i < c.maxBatches && !Over(c, h.s) {
      var next := HybridRound(c, pass, walk, env(i), Alone(i), h);
      RoundOverReports(c, pass, walk, env(i), i, h);
      RunsHonest(c, pass, walk, env, i + 1, next);
    }
  }

  /** In particular a hint that over-reports when the call begins is invisible while no other call touches it and nobody
      creates stock, and it over-reports when the call returns. */
  lemma {:induction false} OverReportingHintIsTransparent(c: Call, walk1: seq<nat>, walk2: seq<nat>,
      env1: nat -> Moment, env2: nat -> Moment, start: HybridProgress)
    requires ProperPlan(c.plan) && NoDuplicates(walk1) && NoDuplicates(walk2) && Undisturbing(env1) &&
      Undisturbing(env2)
    requires start == Opening(start.s.rows, start.hint, start.known) && OverReports(start.hint, start.s.rows)
    ensures var r := HybridClaim(c, walk1, walk2, env1, env2, Alone, Alone, start);
      r.s == StoreClaim(c, walk1, walk2, env1, env2, start.s.rows) && OverReports(r.hint, r.s.rows)
  {
    RunsOverReport(c, Spread, walk1, env1, 0, start);
    var first := HybridRuns(c, Spread, walk1, env1, Alone, 0, start);
    RunsOverReport(c, TopUp, walk2, env2, 0, Again(first));
    RunsHonest(c, Spread, walk1, env1, 0, start);
    RunsHonest(c, TopUp, walk2, env2, 0, Again(first));
    HintIsTransparent(c, walk1, walk2, env1, env2, Alone, Alone, start);
  }

  // ---------------------------------------------------------------- a corrupted hint is still safe

  lemma {:induction false} HybridRoundSound(c: Call, pass: Pass, walk: seq<nat>, m: Moment, touch: Touch,
      h: HybridProgress, known: set<nat>)
    requires ProperPlan(c.plan) && NoDuplicates(walk) && Keeps(m)
    requires h.s.at <= |walk| && PassState(c, walk, h.s, known) && h.s.got.Len() < c.k
    ensures PassState(c, walk, HybridRound(c, pass, walk, m, touch, h).s, known)
    ensures pass == Spread && h.s.got.DistinctNums() && known == {} ==>
      HybridRound(c, pass, walk, m, touch, h).s.got.DistinctNums()
  {
    var to := BatchEnd(walk, h.s.at, BatchSize(c, pass, h.s.got));
    var nums := Keep(walk[h.s.at..to], touch(h.hint));
    BatchIsNew(walk, h.s.at, to);
    KeepMembers(walk[h.s.at..to], touch(h.hint));
    StatementSound(c, pass, walk, h.s.at, nums, m, h.s.(at := to), known);
  }

  lemma {:induction false} HybridRunsSound(c: Call, pass: Pass, walk: seq<nat>, env: nat -> Moment,
      touches: nat -> Touch, i: nat, h: HybridProgress, known: set<nat>)
    requires ProperPlan(c.plan) && NoDuplicates(walk) && AllKeep(env)
    requires h.s.at <= |walk| && PassState(c, walk, h.s, known)
    ensures PassState(c, walk, HybridRuns(c, pass, walk, env, touches, i, h).s, known)
    ensures pass == Spread && h.s.got.DistinctNums() && known == {} ==>
      HybridRuns(c, pass, walk, env, touches, i, h).s.got.DistinctNums()
    decreases c.maxBatches - i
  {
    if i < c.maxBatches && !Over(c, h.s) {
      HybridRoundSound(c, pass, walk, env(i), touches(i), h, known);
      HybridRunsSound(c, pass, walk, env, touches, i + 1, HybridRound(c, pass, walk, env(i), touches(i), h), known);
    }
  }

  lemma {:induction false} HybridRunsSecured(c: Call, pass: Pass, walk: seq<nat>, env: nat -> Moment,
      touches: nat -> Touch, i: nat, h: HybridProgress, lo: int)
    requires ProperPlan(c.plan) && NoDuplicates(walk) && Calm(env, c.holder, lo, c.lease)
    requires h.s.at <= |walk| && Secured(h.s, c.holder, lo + c.lease)
    ensures Secured(HybridRuns(c, pass, walk, env, touches, i, h).s, c.holder, lo + c.lease)
    decreases c.maxBatches - i
  {
    if i < c.maxBatches && !Over(c, h.s) {
      HybridRoundSecured(c, pass, walk, env(i), touches(i), h, lo);
      HybridRunsSecured(c, pass, walk, env, touches, i + 1, HybridRound(c, pass, walk, env(i), touches(i), h), lo);
    }
  }

  lemma {:induction false} HybridRoundSecured(c: Call, pass: Pass, walk: seq<nat>, m: Moment, touch: Touch,
      h: HybridProgress, lo: int)
    requires ProperPlan(c.plan) && NoDuplicates(walk)
    requires Respects(m, c.holder) && lo <= m.now <= lo + c.lease
    requires h.s.at <= |walk| && Secured(h.s, c.holder, lo + c.lease)
    ensures Secured(HybridRound(c, pass, walk, m, touch, h).s, c.holder, lo + c.lease)
  {
    var to := BatchEnd(walk, h.s.at, BatchSize(c, pass, h.s.got));
    var nums := Keep(walk[h.s.at..to], touch(h.hint));
    BatchIsNew(walk, h.s.at, to);
    KeepMembers(walk[h.s.at..to], touch(h.hint));
    HeldAmongOthers(h.s.got, h.s.rows, c.holder, lo + c.lease, m);
    StatementSecured(c, pass, nums, m, h.s.(at := to), lo);
  }

  /** Whatever the hint says and whatever other calls do to it: at most k tickets, all of them claimable when taken and
      carrying matching numbers; within one lease and among users who respect running holds, none of them twice. */
  lemma {:induction false} AnyHintIsSafe(c: Call, walk1: seq<nat>, walk2: seq<nat>, env1: nat -> Moment,
      env2: nat -> Moment, touches1: nat -> Touch, touches2: nat -> Touch, start: HybridProgress, wanted: set<nat>,
      lo: int)
    requires ProperPlan(c.plan) && AllKeep(env1) && AllKeep(env2) && WellKept(start.s.rows)
    requires NoDuplicates(walk1) && NoDuplicates(walk2) && ToSet(walk1) == wanted == ToSet(walk2)
    requires start == Opening(start.s.rows, start.hint, start.known)
    ensures var r := HybridClaim(c, walk1, walk2, env1, env2, touches1, touches2, start).s;
      && r.got.Len() <= c.k && r.got.AllClaimable(c.lease) && r.got.Nums() <= wanted
      && (Calm(env1, c.holder, lo, c.lease) && Calm(env2, c.holder, lo, c.lease) ==> r.got.DistinctIds())
  {
    var first := HybridRuns(c, Spread, walk1, env1, touches1, 0, start);
    HybridRunsSound(c, Spread, walk1, env1, touches1, 0, start, {});
    VisitedWanted(walk1, first.s.at);
    if NeedsTopUp(c, first.s) {
      HybridRunsSound(c, TopUp, walk2, env2, touches2, 0, Again(first), wanted);
      VisitedWanted(walk2, HybridRuns(c, TopUp, walk2, env2, touches2, 0, Again(first)).s.at);
    }
    if Calm(env1, c.holder, lo, c.lease) && Calm(env2, c.holder, lo, c.lease) {
      HybridRunsSecured(c, Spread, walk1, env1, touches1, 0, start, lo);
      HybridRunsSecured(c, TopUp, walk2, env2, touches2, 0, Again(first), lo);
    }
  }

  lemma {:induction false} HybridRoundSaid(c: Call, pass: Pass, walk: seq<nat>, m: Moment, touch: Touch,
      h: HybridProgress, lo: int)
    requires ProperPlan(c.plan) && NoDuplicates(walk)
    requires Respects(m, c.holder) && lo <= m.now <= lo + c.lease
    requires h.s.at <= |walk| && Secured(h.s, c.holder, lo + c.lease) && AllSaid(h.s.got, h.s.rows, c.holder)
    ensures var r := HybridRound(c, pass, walk, m, touch, h).s; AllSaid(r.got, r.rows, c.holder)
  {
    var to := BatchEnd(walk, h.s.at, BatchSize(c, pass, h.s.got));
    var nums := Keep(walk[h.s.at..to], touch(h.hint));
    BatchIsNew(walk, h.s.at, to);
    KeepMembers(walk[h.s.at..to], touch(h.hint));
    SaidAmongOthers(h.s.got, h.s.rows, c.holder, lo + c.lease, m);
    StatementSaid(c, pass, nums, m, h.s.(at := to), lo);
  }

  lemma {:induction false} HybridRunsSaid(c: Call, pass: Pass, walk: seq<nat>, env: nat -> Moment,
      touches: nat -> Touch, i: nat, h: HybridProgress, lo: int)
    requires ProperPlan(c.plan) && NoDuplicates(walk) && Calm(env, c.holder, lo, c.lease)
    requires h.s.at <= |walk| && Secured(h.s, c.holder, lo + c.lease) && AllSaid(h.s.got, h.s.rows, c.holder)
    ensures var r := HybridRuns(c, pass, walk, env, touches, i, h).s; AllSaid(r.got, r.rows, c.holder)
    decreases c.maxBatches - i
  {
    if i < c.maxBatches && !Over(c, h.s) {
      HybridRoundSaid(c, pass, walk, env(i), touches(i), h, lo);
      HybridRoundSecured(c, pass, walk, env(i), touches(i), h, lo);
      HybridRunsSaid(c, pass, walk, env, touches, i + 1, HybridRound(c, pass, walk, env(i), touches(i), h), lo);
    }
  }

  /** Whatever the hint says, within one lease and among users who respect running holds every reservation reported
      names a row that is reserved for the caller, with that number and that lease. */
  lemma {:induction false} HybridReportIsTrue(c: Call, walk1: seq<nat>, walk2: seq<nat>, env1: nat -> Moment,
      env2: nat -> Moment, touches1: nat -> Touch, touches2: nat -> Touch, start: HybridProgress, lo: int)
    requires ProperPlan(c.plan) && NoDuplicates(walk1) && NoDuplicates(walk2)
    requires Calm(env1, c.holder, lo, c.lease) && Calm(env2, c.holder, lo, c.lease)
    requires start == Opening(start.s.rows, start.hint, start.known)
    ensures var r := HybridClaim(c, walk1, walk2, env1, env2, touches1, touches2, start).s;
      var out := r.got.Report();
      forall q :: 0 <= q < |out| ==> RowSays(r.rows, out[q].ticketId, out[q].number, out[q].leaseUntil, c.holder)
  {
    HybridRunsSaid(c, Spread, walk1, env1, touches1, 0, start, lo);
    var first := HybridRuns(c, Spread, walk1, env1, touches1, 0, start);
    if NeedsTopUp(c, first.s) {
      HybridRunsSecured(c, Spread, walk1, env1, touches1, 0, start, lo);
      HybridRunsSaid(c, TopUp, walk2, env2, touches2, 0, Again(first), lo);
    }
    var r := HybridClaim(c, walk1, walk2, env1, env2, touches1, touches2, start).s;
    ReportSaid(r.got, r.rows, c.holder);
  }
}
