/** A hybrid claim with everything else running beside it: other users' statements, other replicas, and the other calls
    and refreshes of its own replica (lottery-go/postgres/hybrid.go). */
module ConcurrentClaims {
  import opened Counting
  import opened Allocation
  import opened Stock
  import opened TicketTable
  import opened ClaimRounds
  import opened Availabilities
  import opened HybridRounds
  import opened Drift
  import opened HybridProtocol

  // ---------------------------------------------------------------- stock only shrinks

  lemma {:induction false} PathReaches(s: System, path: Path)
    requires Reachable(s) && Feasible(s, path)
    ensures Reachable(End(s, path))
  {
    if path.On? {
      PathReaches(s, path.past);
      ReachableOn(End(s, path.past), path.step);
    }
  }

  lemma StepUnsold(s: System, step: Step, id: int)
    requires Inv(s) && Enabled(s, step)
    ensures Next(s, step).nums == s.nums && |Next(s, step).replicas| == |s.replicas|
    ensures id in Next(s, step).book && !Next(s, step).book[id].Taken? ==> id in s.book && !s.book[id].Taken?
  {
    if step.Statement() {
      UnsoldAfter(s.book, s.nums, step, 0);
      assert id in s.book.Keys <==> id in BookAfter(s.book, step).Keys;
      if id in s.book && s.book[id].Taken? {
        TakenStays(s.book, step, id);
      }
    }
  }

  /** Whatever happens, a ticket that is unsold now was unsold before, and carries the number it carried. */
  lemma {:induction false} PathUnsold(s: System, path: Path, id: int)
    requires Inv(s) && Feasible(s, path)
    ensures End(s, path).nums == s.nums && |End(s, path).replicas| == |s.replicas|
    ensures id in End(s, path).book && !End(s, path).book[id].Taken? ==> id in s.book && !s.book[id].Taken?
  {
    if path.On? {
      PathUnsold(s, path.past, id);
      PathKeeps(s, path.past);
      StepUnsold(End(s, path.past), path.step, id);
    }
  }

  // ---------------------------------------------------------------- one batch among other steps

  /** What happens around one batch: before its candidates are filtered, and between that and its statement. The steps
      before include what the claim itself still has to do after its last statement, at any point. */
  datatype Gap = Gap(before: Path, during: Path)

  /** The state whose hint filters the candidates. */
  ghost function Filtering(s: System, gap: Gap): System {
    End(s, gap.before)
  }

  /** The state that the statement meets. */
  ghost function Asking(s: System, gap: Gap): System {
    End(Filtering(s, gap), gap.during)
  }

  /** The steps can happen; filter and statement meet the hint and the table they lead to. No confirmation is straddled
      by a refresh when the batch is filtered. */
  ghost predicate Meets(s: System, r: nat, gap: Gap, m: Moment, touch: Touch, h: HybridProgress) {
    && Feasible(s, gap.before) && Feasible(Filtering(s, gap), gap.during)
    && r < |Filtering(s, gap).replicas|
    && Filtering(s, gap).replicas[r].hint == touch(h.hint)
    && Filtering(s, gap).replicas[r].straddled == {}
    && OnTable(Asking(s, gap), m.others(h.s.rows))
  }

  /** The claim statement as a step; one that picks nothing changes nothing. */
  ghost function Received(s: System, r: nat, picks: Ids, holder: string, now: int, until: int): System {
    var step := ClaimBatch(r, picks, holder, now, until);
    if Enabled(s, step) then Next(s, step) else s
  }

  /** The round has candidates to filter. */
  predicate Asks(c: Call, pass: Pass, walk: seq<nat>, m: Moment, s: Progress)
    requires s.at <= |walk|
  {
    !m.cancelled && Upcoming(c, pass, walk, s) != []
  }

  /** Where the statement on these candidates, if there is one, leaves the protocol. */
  ghost function Placed(c: Call, pass: Pass, nums: seq<nat>, r: nat, m: Moment, h: HybridProgress, s: System): System {
    if nums == [] || m.fault then s
    else Received(s, r, Picks(pass, m.others(h.s.rows), nums, m, Want(c, h.s.got), c.plan), c.holder, m.now,
      m.now + c.lease)
  }

  /** Where one round leaves the protocol. */
  ghost function Passed(c: Call, pass: Pass, walk: seq<nat>, r: nat, gap: Gap, m: Moment, touch: Touch,
      h: HybridProgress, s: System): System
    requires h.s.at <= |walk|
  {
    if !Asks(c, pass, walk, m, h.s) then s
    else Placed(c, pass, Keep(Upcoming(c, pass, walk, h.s), touch(h.hint)), r, m, h, Asking(s, gap))
  }

  /** Where a batch loop leaves the protocol, from its i-th round on. */
  ghost function PassedAll(c: Call, pass: Pass, walk: seq<nat>, r: nat, gaps: nat -> Gap, env: nat -> Moment,
      touches: nat -> Touch, i: nat, h: HybridProgress, s: System): System
    requires h.s.at <= |walk|
    decreases c.maxBatches - i
  {
    if i >= c.maxBatches || Over(c, h.s) then s
    else
      PassedAll(c, pass, walk, r, gaps, env, touches, i + 1, HybridRound(c, pass, walk, env(i), touches(i), h),
                Passed(c, pass, walk, r, gaps(i), env(i), touches(i), h, s))
  }

  /** The loop runs inside one run of the protocol. A statement that is going to fail is not spared by the hint. */
  ghost predicate Woven(c: Call, pass: Pass, walk: seq<nat>, r: nat, gaps: nat -> Gap, env: nat -> Moment,
      touches: nat -> Touch, i: nat, h: HybridProgress, s: System)
    requires h.s.at <= |walk|
    decreases c.maxBatches - i
  {
    i >= c.maxBatches || Over(c, h.s) ||
    ((Asks(c, pass, walk, env(i), h.s) ==>
        && Meets(s, r, gaps(i), env(i), touches(i), h)
        && (env(i).fault ==> Keep(Upcoming(c, pass, walk, h.s), touches(i)(h.hint)) != [])) &&
     Woven(c, pass, walk, r, gaps, env, touches, i + 1, HybridRound(c, pass, walk, env(i), touches(i), h),
           Passed(c, pass, walk, r, gaps(i), env(i), touches(i), h, s)))
  }

  /** The statement is a step of the protocol and leaves its book in the table. */
  lemma ReceivedOnTable(s: System, r: nat, rows: Table, picks: Ids, nums: seq<nat>, now: int, locked: set<int>,
      holder: string, until: int)
    requires Reachable(s) && OnTable(s, rows) && OpenAmong(picks, rows, nums, now, locked) && picks.Distinct()
    ensures var next := Received(s, r, picks, holder, now, until);
      Reachable(next) && OnTable(next, ReserveRows(rows, picks.Members(), holder, until))
  {
    var step := ClaimBatch(r, picks, holder, now, until);
    ReserveIsGrant(rows, picks.Members(), holder, until);
    if picks == Nil {
      ReserveNothing(rows, holder, until);
    } else {
      PicksAllowed(rows, picks, nums, now, locked, r, holder, until);
      ReachableOn(s, step);
    }
  }

  /** The hint of the filter over-reports the table of the statement: nothing has become unsold in between. */
  lemma MetHintOverReports(s: System, r: nat, gap: Gap, m: Moment, touch: Touch, h: HybridProgress)
    requires Reachable(s) && Meets(s, r, gap, m, touch, h)
    ensures Reachable(Asking(s, gap)) && OverReports(touch(h.hint), m.others(h.s.rows))
  {
    var filtering, asking, rows := Filtering(s, gap), Asking(s, gap), m.others(h.s.rows);
    PathReaches(s, gap.before);
    PathReaches(filtering, gap.during);
    ReachableInv(filtering);
    forall id | id in rows && rows[id].status != Sold ensures MaybeAvailable(touch(h.hint), rows[id].num) {
      assert id in asking.book && !asking.book[id].Taken?;
      PathUnsold(filtering, gap.during, id);
      assert Of({}, filtering.nums, filtering.nums[id]) == {};
      NeverHidden(filtering, r, id);
    }
  }

  lemma PlacedOnTable(c: Call, pass: Pass, nums: seq<nat>, r: nat, m: Moment, h: HybridProgress, s: System,
      begun: HybridProgress)
    requires ProperPlan(c.plan) && NoDuplicates(nums) && Reachable(s) && OnTable(s, m.others(h.s.rows))
    requires begun.s.rows == h.s.rows && begun.s.got == h.s.got
    ensures var next := Placed(c, pass, nums, r, m, h, s);
      Reachable(next) && OnTable(next, Put(c, pass, nums, m, begun).s.rows)
  {
    if nums != [] && !m.fault {
      var rows := m.others(h.s.rows);
      var picks := Picks(pass, rows, nums, m, Want(c, h.s.got), c.plan);
      PicksSound(pass, rows, nums, m, Want(c, h.s.got), c.plan);
      ReceivedOnTable(s, r, rows, picks, nums, m.now, m.locked, c.holder, m.now + c.lease);
    }
  }

  lemma {:induction false} RoundWoven(c: Call, pass: Pass, walk: seq<nat>, r: nat, gap: Gap, m: Moment, touch: Touch,
      h: HybridProgress, s: System)
    requires ProperPlan(c.plan) && NoDuplicates(walk) && h.s.at <= |walk|
    requires Reachable(s) && OnTable(s, h.s.rows) && Asks(c, pass, walk, m, h.s) && Meets(s, r, gap, m, touch, h)
    ensures var next := Passed(c, pass, walk, r, gap, m, touch, h, s);
      Reachable(next) && OnTable(next, HybridRound(c, pass, walk, m, touch, h).s.rows)
  {
    var to, hint := BatchEnd(walk, h.s.at, BatchSize(c, pass, h.s.got)), touch(h.hint);
    MetHintOverReports(s, r, gap, m, touch, h);
    BatchIsNew(walk, h.s.at, to);
    KeepMembers(walk[h.s.at..to], hint);
    PlacedOnTable(c, pass, Keep(walk[h.s.at..to], hint), r, m, h, Asking(s, gap),
      h.(s := h.s.(at := to), hint := hint));
  }

  lemma {:induction false} RunsWoven(c: Call, pass: Pass, walk: seq<nat>, r: nat, gaps: nat -> Gap, env: nat -> Moment,
      touches: nat -> Touch, i: nat, h: HybridProgress, s: System)
    requires ProperPlan(c.plan) && NoDuplicates(walk) && h.s.at <= |walk|
    requires Reachable(s) && OnTable(s, h.s.rows) && Woven(c, pass, walk, r, gaps, env, touches, i, h, s)
    ensures Honest(c, pass, walk, env, touches, i, h)
    ensures var end := PassedAll(c, pass, walk, r, gaps, env, touches, i, h, s);
      Reachable(end) && OnTable(end, HybridRuns(c, pass, walk, env, touches, i, h).s.rows)
    decreases c.maxBatches - i
  {
    if i < c.maxBatches && !Over(c, h.s) {
      if Asks(c, pass, walk, env(i), h.s) {
        RoundWoven(c, pass, walk, r, gaps(i), env(i), touches(i), h, s);
        MetHintOverReports(s, r, gaps(i), env(i), touches(i), h);
      }
      RunsWoven(c, pass, walk, r, gaps, env, touches, i + 1, HybridRound(c, pass, walk, env(i), touches(i), h),
                Passed(c, pass, walk, r, gaps(i), env(i), touches(i), h, s));
    }
  }

  /** Both passes run inside one run of the protocol that starts in s. */
  ghost predicate WovenClaim(c: Call, walk1: seq<nat>, walk2: seq<nat>, r: nat, gaps1: nat -> Gap, gaps2: nat -> Gap,
      env1: nat -> Moment, env2: nat -> Moment, touches1: nat -> Touch, touches2: nat -> Touch, start: HybridProgress,
      s: System)
    requires start.s.at == 0
  {
    var first := HybridRuns(c, Spread, walk1, env1, touches1, 0, start);
    && Woven(c, Spread, walk1, r, gaps1, env1, touches1, 0, start, s)
    && (NeedsTopUp(c, first.s) ==>
          Woven(c, TopUp, walk2, r, gaps2, env2, touches2, 0, Again(first),
                PassedAll(c, Spread, walk1, r, gaps1, env1, touches1, 0, start, s)))
  }

  /** A claim of a replica, with any steps of the protocol between its batches, between filter and statement, and
      between statement and hint update: as long as no refresh straddles a confirmation of the replica, it gives its
      caller exactly what the store without a hint would have given in the same environment, and it leaves the table of
      a reachable state. */
  lemma {:induction false} ConcurrentClaimIsPlain(c: Call, walk1: seq<nat>, walk2: seq<nat>, r: nat, gaps1: nat -> Gap,
      gaps2: nat -> Gap, env1: nat -> Moment, env2: nat -> Moment, touches1: nat -> Touch, touches2: nat -> Touch,
      start: HybridProgress, s: System)
    returns (end: System)
    requires ProperPlan(c.plan) && NoDuplicates(walk1) && NoDuplicates(walk2)
    requires start == Opening(start.s.rows, start.hint, start.known) && Reachable(s) && OnTable(s, start.s.rows)
    requires WovenClaim(c, walk1, walk2, r, gaps1, gaps2, env1, env2, touches1, touches2, start, s)
    ensures var result := HybridClaim(c, walk1, walk2, env1, env2, touches1, touches2, start).s;
      result == StoreClaim(c, walk1, walk2, env1, env2, start.s.rows) && Reachable(end) && OnTable(end, result.rows)
  {
    RunsWoven(c, Spread, walk1, r, gaps1, env1, touches1, 0, start, s);
    var first := HybridRuns(c, Spread, walk1, env1, touches1, 0, start);
    end := PassedAll(c, Spread, walk1, r, gaps1, env1, touches1, 0, start, s);
    if NeedsTopUp(c, first.s) {
      RunsWoven(c, TopUp, walk2, r, gaps2, env2, touches2, 0, Again(first), end);
      end := PassedAll(c, TopUp, walk2, r, gaps2, env2, touches2, 0, Again(first), end);
    }
    HintIsTransparent(c, walk1, walk2, env1, env2, touches1, touches2, start);
  }

  // ---------------------------------------------------------------- a replica with no other call running

  /** A reachable replica without straddled confirmations over-reports its table. */
  lemma ReachableOverReports(s: System, r: nat, rows: Table)
    requires Reachable(s) && r < |s.replicas| && s.replicas[r].straddled == {} && OnTable(s, rows)
    ensures OverReports(s.replicas[r].hint, rows)
  {
    forall id | id in rows && rows[id].status != Sold ensures MaybeAvailable(s.replicas[r].hint, rows[id].num) {
      assert id in s.book && !s.book[id].Taken?;
      assert Of({}, s.nums, s.nums[id]) == {};
      NeverHidden(s, r, id);
    }
  }

  /** From such a state, and while the replica runs no other call, a claim is that of the plain store whatever other
      users do, as long as they create no stock and no statement fails. */
  lemma ReachableClaimIsPlain(c: Call, walk1: seq<nat>, walk2: seq<nat>, env1: nat -> Moment, env2: nat -> Moment,
      s: System, r: nat, rows: Table)
    requires ProperPlan(c.plan) && NoDuplicates(walk1) && NoDuplicates(walk2) && Undisturbing(env1) &&
      Undisturbing(env2)
    requires Reachable(s) && r < |s.replicas| && s.replicas[r].straddled == {} && OnTable(s, rows)
    ensures var rep := s.replicas[r];
      HybridClaim(c, walk1, walk2, env1, env2, Alone, Alone, Opening(rows, rep.hint, rep.known)).s
        == StoreClaim(c, walk1, walk2, env1, env2, rows)
  {
    var rep := s.replicas[r];
    ReachableOverReports(s, r, rows);
    OverReportingHintIsTransparent(c, walk1, walk2, env1, env2, Opening(rows, rep.hint, rep.known));
  }
}
