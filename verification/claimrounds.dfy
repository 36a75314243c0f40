/** lottery-go/postgres/store.go: the two batch loops of Store.Claim, as a function of what the database and its other
    users do between statements. */
module ClaimRounds {
  import opened Counting
  import opened Ledger
  import opened Allocation
  import opened Stock
  import opened TicketTable

  /** Candidate numbers requested per ticket still wanted. */
  const OVER_FETCH: nat := 4

  /** One call: what is asked for, the knobs of the store and the query plan. */
  datatype Call = Call(k: nat, holder: string, lease: int, batchSize: nat, maxBatches: nat, plan: Planner)

  /** What a batch meets: the clock, rows locked by other transactions, what others wrote since the last batch, whether
      the caller has given up and whether the statement fails. */
  datatype Moment = Moment(now: int, locked: set<int>, others: Table -> Table, cancelled: bool, fault: bool)

  datatype Pass = Spread | TopUp

  datatype Stop = Going | Walked | Cancelled | Failed

  /** The tickets a call has received, each with the slot it had when it was taken. */
  datatype Issued = Nothing | Issue(front: Issued, id: int, num: nat, now: int, until: int, before: Slot) {

    function Len(): nat {
      if Nothing? then 0 else front.Len() + 1
    }

    function Ids(): set<int> {
      if Nothing? then {} else front.Ids() + {id}
    }

    function Nums(): set<nat> {
      if Nothing? then {} else front.Nums() + {num}
    }

    /** What the caller sees. */
    function Report(): seq<Reservation> {
      if Nothing? then [] else front.Report() + [Reservation(id, num, until)]
    }

    predicate DistinctIds() {
      Nothing? || (front.DistinctIds() && id !in front.Ids())
    }

    predicate DistinctNums() {
      Nothing? || (front.DistinctNums() && num !in front.Nums())
    }

    /** Every ticket was claimable when it was taken, and is held for the time asked. */
    predicate AllClaimable(lease: int) {
      Nothing? || (front.AllClaimable(lease) && Claimable(before, now) && until == now + lease)
    }
  }

  datatype Progress = Progress(rows: Table, got: Issued, at: nat, stop: Stop)

  /** How many candidate numbers the next batch asks for. */
  function BatchSize(c: Call, pass: Pass, got: Issued): nat {
    match pass
    case Spread => if got.Len() < c.k then Min((c.k - got.Len()) * OVER_FETCH, c.batchSize) else 0
    case TopUp => c.batchSize
  }

  function Want(c: Call, got: Issued): nat {
    if got.Len() < c.k then c.k - got.Len() else 0
  }

  /** Where the next batch ends on the walk. */
  function BatchEnd(walk: seq<nat>, at: nat, size: nat): (to: nat)
    requires at <= |walk|
    ensures at <= to <= |walk|
  {
    Min(at + size, |walk|)
  }

  function Picks(pass: Pass, t: Table, nums: seq<nat>, m: Moment, want: nat, plan: Planner): Ids {
    match pass
    case Spread => DistinctPicks(t, nums, m.now, m.locked, want, plan)
    case TopUp => PlainPicks(t, nums, m.now, m.locked, want, plan)
  }

  function Record(got: Issued, picks: Ids, t: Table, now: int, until: int): Issued {
    if picks.Nil? then got
    else
      var id := picks.last;
      var before := Record(got, picks.front, t, now, until);
      if id in t then Issue(before, id, t[id].num, now, until, View(t[id])) else Issue(before, id, 0, now, until, Free)
  }

  /** The RETURNING clause. */
  function Returned(picks: Ids, t: Table, until: int): seq<Reservation> {
    if picks.Nil? then []
    else
      var number := if picks.last in t then t[picks.last].num else 0;
      Returned(picks.front, t, until) + [Reservation(picks.last, number, until)]
  }

  /** One claim statement on the table as others left it. */
  function Statement(c: Call, pass: Pass, nums: seq<nat>, m: Moment, s: Progress): Progress {
    var rows := m.others(s.rows);
    var picks := Picks(pass, rows, nums, m, Want(c, s.got), c.plan);
    s.(rows := ReserveRows(rows, picks.Members(), c.holder, m.now + c.lease),
       got := Record(s.got, picks, rows, m.now, m.now + c.lease))
  }

  /** One round of a batch loop. */
  function Round(c: Call, pass: Pass, walk: seq<nat>, m: Moment, s: Progress): (r: Progress)
    requires s.at <= |walk|
    ensures r.at <= |walk|
  {
    var to := BatchEnd(walk, s.at, BatchSize(c, pass, s.got));
    if m.cancelled then s.(stop := Cancelled)
    else if to == s.at then s.(stop := Walked)
    else if m.fault then s.(rows := m.others(s.rows), at := to, stop := Failed)
    else Statement(c, pass, walk[s.at..to], m, s.(at := to))
  }

  /** The loop has been left, or its guard fails for want of nothing. */
  predicate Over(c: Call, s: Progress) {
    s.stop != Going || s.got.Len() >= c.k
  }

  /** A batch loop from its i-th round on. */
  function Rounds(c: Call, pass: Pass, walk: seq<nat>, env: nat -> Moment, i: nat, s: Progress): (r: Progress)
    requires s.at <= |walk|
    ensures r.at <= |walk|
    decreases c.maxBatches - i
  {
    if i >= c.maxBatches || Over(c, s) then s else Rounds(c, pass, walk, env, i + 1, Round(c, pass, walk, env(i), s))
  }

  /** Whether the call goes on to the second pass. */
  predicate NeedsTopUp(c: Call, s: Progress) {
    s.got.Len() < c.k && (s.stop == Going || s.stop == Walked)
  }

  /** The whole of Store.Claim. */
  function StoreClaim(c: Call, walk1: seq<nat>, walk2: seq<nat>, env1: nat -> Moment, env2: nat -> Moment,
      rows: Table): Progress {
    var first := Rounds(c, Spread, walk1, env1, 0, Progress(rows, Nothing, 0, Going));
    if NeedsTopUp(c, first) then Rounds(c, TopUp, walk2, env2, 0, first.(at := 0, stop := Going)) else first
  }

  // ---------------------------------------------------------------- what a call does, seen from outside

  /** Checks of the context and statements, in order: what each check found, what each statement asked about, whether it
      failed and which tickets it brought. */
  datatype Acts =
    | Silence
    | Checked(past: Acts, ended: bool)
    | Asked(past: Acts, nums: seq<nat>, failed: bool, batch: seq<Reservation>)
  {
    predicate FoundEnded() {
      !Silence? && (past.FoundEnded() || (Checked? && ended))
    }

    predicate SawFailure() {
      !Silence? && (past.SawFailure() || (Asked? && failed))
    }

    /** Nothing happens after a check that finds the context ended, or after a statement that fails. */
    predicate StopsInTime() {
      Silence? || (!past.FoundEnded() && !past.SawFailure())
    }

    /** The tickets of all statements. */
    function Taken(): seq<Reservation> {
      match this
      case Silence => []
      case Checked(past, _) => past.Taken()
      case Asked(past, _, _, batch) => past.Taken() + batch
    }
  }

  /** A statement on these candidates, after a check that found the context live. */
  function StatementActs(c: Call, pass: Pass, nums: seq<nat>, m: Moment, s: Progress, acts: Acts): Acts {
    var rows := m.others(s.rows);
    var picks := Picks(pass, rows, nums, m, Want(c, s.got), c.plan);
    Asked(Checked(acts, false), nums, m.fault, if m.fault then [] else Returned(picks, rows, m.now + c.lease))
  }

  function RoundActs(c: Call, pass: Pass, walk: seq<nat>, m: Moment, s: Progress, acts: Acts): Acts
    requires s.at <= |walk|
  {
    var nums := walk[s.at..BatchEnd(walk, s.at, BatchSize(c, pass, s.got))];
    if m.cancelled || nums == [] then Checked(acts, m.cancelled) else StatementActs(c, pass, nums, m, s, acts)
  }

  function PassActs(c: Call, pass: Pass, walk: seq<nat>, env: nat -> Moment, i: nat, s: Progress, acts: Acts): Acts
    requires s.at <= |walk|
    decreases c.maxBatches - i
  {
    if i >= c.maxBatches || Over(c, s) then acts
    else
      var m := env(i);
      PassActs(c, pass, walk, env, i + 1, Round(c, pass, walk, m, s), RoundActs(c, pass, walk, m, s, acts))
  }

  /** Everything a call of Store.Claim does. */
  function CallActs(c: Call, walk1: seq<nat>, walk2: seq<nat>, env1: nat -> Moment, env2: nat -> Moment,
      rows: Table): Acts {
    var start := Progress(rows, Nothing, 0, Going);
    var first := Rounds(c, Spread, walk1, env1, 0, start);
    var acts := PassActs(c, Spread, walk1, env1, 0, start, Silence);
    if NeedsTopUp(c, first) then PassActs(c, TopUp, walk2, env2, 0, first.(at := 0, stop := Going), acts) else acts
  }

  /** A round puts candidates to the database unless its context has ended or the walk has: in pass 1 four candidates
      for every ticket still wanted, at most a batch; in pass 2 a batch; what is left of the walk if that is less. */
  lemma AsksFor(c: Call, pass: Pass, walk: seq<nat>, m: Moment, s: Progress, acts: Acts)
    requires s.at <= |walk| && s.got.Len() < c.k
    ensures var asked := RoundActs(c, pass, walk, m, s, acts);
      var size := if pass == Spread then Min(4 * (c.k - s.got.Len()), c.batchSize) else c.batchSize;
      && (asked.Asked? <==> !m.cancelled && s.at < |walk| && c.batchSize > 0)
      && (asked.Asked? ==> asked.nums == walk[s.at..Min(s.at + size, |walk|)])
  {
  }

  /** Progress says what the acts say: the same tickets, and where it has stopped, the reason is their last act. */
  ghost predicate Tells(s: Progress, acts: Acts) {
    && s.got.Report() == acts.Taken() && acts.StopsInTime()
    && (s.stop == Cancelled <==> acts.FoundEnded()) && (s.stop == Failed <==> acts.SawFailure())
  }

  lemma {:induction false} ReportOfRecord(got: Issued, picks: Ids, t: Table, now: int, until: int)
    ensures Record(got, picks, t, now, until).Report() == got.Report() + Returned(picks, t, until)
  {
    if picks.Snoc? {
      ReportOfRecord(got, picks.front, t, now, until);
    }
  }

  lemma {:induction false} ReportLen(got: Issued)
    ensures |got.Report()| == got.Len()
  {
    if got.Issue? {
      ReportLen(got.front);
    }
  }

  lemma StatementTells(c: Call, pass: Pass, nums: seq<nat>, m: Moment, s: Progress, acts: Acts)
    requires Tells(s, acts) && s.stop == Going && !m.fault
    ensures Tells(Statement(c, pass, nums, m, s), StatementActs(c, pass, nums, m, s, acts))
  {
    var rows := m.others(s.rows);
    ReportOfRecord(s.got, Picks(pass, rows, nums, m, Want(c, s.got), c.plan), rows, m.now, m.now + c.lease);
  }

  lemma RoundTells(c: Call, pass: Pass, walk: seq<nat>, m: Moment, s: Progress, acts: Acts)
    requires s.at <= |walk| && Tells(s, acts) && s.stop == Going
    ensures Tells(Round(c, pass, walk, m, s), RoundActs(c, pass, walk, m, s, acts))
  {
    var to := BatchEnd(walk, s.at, BatchSize(c, pass, s.got));
    if !m.cancelled && to != s.at && !m.fault {
      StatementTells(c, pass, walk[s.at..to], m, s.(at := to), acts);
    }
  }

  lemma {:induction false} PassTells(c: Call, pass: Pass, walk: seq<nat>, env: nat -> Moment, i: nat, s: Progress,
      acts: Acts)
    requires s.at <= |walk| && Tells(s, acts)
    ensures Tells(Rounds(c, pass, walk, env, i, s), PassActs(c, pass, walk, env, i, s, acts))
    decreases c.maxBatches - i
  {
    if i < c.maxBatches && !Over(c, s) {
      var m := env(i);
      RoundTells(c, pass, walk, m, s, acts);
      PassTells(c, pass, walk, env, i + 1, Round(c, pass, walk, m, s), RoundActs(c, pass, walk, m, s, acts));
    }
  }

  lemma {:induction false} CallTells(c: Call, walk1: seq<nat>, walk2: seq<nat>, env1: nat -> Moment,
      env2: nat -> Moment, rows: Table)
    ensures Tells(StoreClaim(c, walk1, walk2, env1, env2, rows), CallActs(c, walk1, walk2, env1, env2, rows))
  {
    var start := Progress(rows, Nothing, 0, Going);
    PassTells(c, Spread, walk1, env1, 0, start, Silence);
    var first := Rounds(c, Spread, walk1, env1, 0, start);
    if NeedsTopUp(c, first) {
      var acts := PassActs(c, Spread, walk1, env1, 0, start, Silence);
      PassTells(c, TopUp, walk2, env2, 0, first.(at := 0, stop := Going), acts);
    }
  }

  // ---------------------------------------------------------------- what every call guarantees

  lemma {:induction false} RecordFacts(got: Issued, picks: Ids, t: Table, now: int, until: int)
    ensures var r := Record(got, picks, t, now, until);
      r.Len() == got.Len() + picks.Len() && r.Ids() == got.Ids() + picks.Members()
  {
    if picks.Snoc? {
      RecordFacts(got, picks.front, t, now, until);
    }
  }

  lemma {:induction false} RecordClaimable(got: Issued, picks: Ids, t: Table, nums: seq<nat>, now: int,
      locked: set<int>, lease: int)
    requires got.AllClaimable(lease) && OpenAmong(picks, t, nums, now, locked) && WellKept(t)
    ensures Record(got, picks, t, now, now + lease).AllClaimable(lease)
  {
    if picks.Snoc? {
      RecordClaimable(got, picks.front, t, nums, now, locked, lease);
    }
  }

  lemma {:induction false} RecordNums(got: Issued, picks: Ids, t: Table, nums: seq<nat>, now: int, locked: set<int>,
      until: int)
    requires OpenAmong(picks, t, nums, now, locked)
    ensures forall n :: n in Record(got, picks, t, now, until).Nums() ==> n in got.Nums() || n in nums
  {
    if picks.Snoc? {
      RecordNums(got, picks.front, t, nums, now, locked, until);
    }
  }

  lemma {:induction false} RecordNumsExactly(got: Issued, picks: Ids, t: Table, nums: seq<nat>, now: int,
      locked: set<int>, until: int, n: nat)
    requires OpenAmong(picks, t, nums, now, locked)
    ensures n in Record(got, picks, t, now, until).Nums() <==> n in got.Nums() || Carried(picks, t, n)
  {
    if picks.Snoc? {
      RecordNumsExactly(got, picks.front, t, nums, now, locked, until, n);
    }
  }

  /** all begins with the tickets of part. */
  predicate BeginsWith(all: Issued, part: Issued) {
    all == part || (all.Issue? && BeginsWith(all.front, part))
  }

  lemma {:induction false} RecordBegins(got: Issued, picks: Ids, t: Table, now: int, until: int, part: Issued)
    requires BeginsWith(got, part)
    ensures BeginsWith(Record(got, picks, t, now, until), part)
  {
    if picks.Snoc? {
      RecordBegins(got, picks.front, t, now, until, part);
    }
  }

  lemma {:induction false} RoundsBegin(c: Call, pass: Pass, walk: seq<nat>, env: nat -> Moment, i: nat, s: Progress,
      part: Issued)
    requires s.at <= |walk| && BeginsWith(s.got, part)
    ensures BeginsWith(Rounds(c, pass, walk, env, i, s).got, part)
    decreases c.maxBatches - i
  {
    if i < c.maxBatches && !Over(c, s) {
      var m, to := env(i), BatchEnd(walk, s.at, BatchSize(c, pass, s.got));
      var rows := m.others(s.rows);
      RecordBegins(s.got, Picks(pass, rows, walk[s.at..to], m, Want(c, s.got), c.plan), rows, m.now, m.now + c.lease,
        part);
      RoundsBegin(c, pass, walk, env, i + 1, Round(c, pass, walk, m, s), part);
    }
  }

  lemma {:induction false} RecordDistinctNums(got: Issued, picks: Ids, t: Table, nums: seq<nat>, now: int,
      locked: set<int>, until: int)
    requires got.DistinctNums() && OpenAmong(picks, t, nums, now, locked) && OnePerNumber(picks, t)
    requires forall n :: n in nums ==> n !in got.Nums()
    ensures Record(got, picks, t, now, until).DistinctNums()
  {
    if picks.Snoc? {
      RecordDistinctNums(got, picks.front, t, nums, now, locked, until);
      OpenAmongMembers(picks.front, t, nums, now, locked);
      RecordNotCarried(got, picks.front, t, t[picks.last].num, now, until);
    }
  }

  lemma {:induction false} RecordNotCarried(got: Issued, picks: Ids, t: Table, n: nat, now: int, until: int)
    requires n !in got.Nums() && NotCarried(picks, t, n) && forall id :: id in picks.Members() ==> id in t
    ensures n !in Record(got, picks, t, now, until).Nums()
  {
    if picks.Snoc? {
      RecordNotCarried(got, picks.front, t, n, now, until);
    }
  }

  /** Other users keep every reserved row complete. */
  ghost predicate Keeps(m: Moment) {
    forall t: Table :: WellKept(t) ==> WellKept(m.others(t))
  }

  ghost predicate AllKeep(env: nat -> Moment) {
    forall i: nat :: Keeps(env(i))
  }

  /** A batch lists numbers the walk has not produced before, each once. */
  lemma {:induction false} BatchIsNew(walk: seq<nat>, at: nat, to: nat)
    requires NoDuplicates(walk) && at <= to <= |walk|
    ensures NoDuplicates(walk[at..to])
    ensures forall n :: n in walk[at..to] ==> n in First(walk, to) && n !in First(walk, at)
    ensures First(walk, at) <= First(walk, to)
  {
    FirstMembers(walk, at);
    FirstMembers(walk, to);
    forall n | n in walk[at..to] ensures n in First(walk, to) && n !in First(walk, at) {
      var j :| at <= j < to && walk[j] == n;
    }
  }

  /** What the picks of either statement have in common. */
  lemma {:induction false} PicksSound(pass: Pass, t: Table, nums: seq<nat>, m: Moment, want: nat, plan: Planner)
    requires ProperPlan(plan) && NoDuplicates(nums)
    ensures var r := Picks(pass, t, nums, m, want, plan);
      && OpenAmong(r, t, nums, m.now, m.locked) && r.Distinct() && r.Len() <= want
      && (pass == Spread ==> OnePerNumber(r, t))
  {
    if pass == Spread {
      DistinctPicksSound(t, nums, m.now, m.locked, want, plan);
    } else {
      PlainPicksSound(t, nums, m.now, m.locked, want, plan);
    }
  }

  /** The state of a pass: at most k claimable tickets so far, from numbers in `known` or already visited. */
  ghost predicate PassState(c: Call, walk: seq<nat>, s: Progress, known: set<nat>)
    requires s.at <= |walk|
  {
    && WellKept(s.rows) && s.got.Len() <= c.k && s.got.AllClaimable(c.lease)
    && s.got.Nums() <= known + First(walk, s.at)
  }

  /** Candidates a round may put to the database: different numbers of the walk between two positions. */
  ghost predicate Fresh(nums: seq<nat>, walk: seq<nat>, at: nat, to: nat)
    requires at <= |walk| && to <= |walk|
  {
    NoDuplicates(nums) && forall n :: n in nums ==> n in First(walk, to) && n !in First(walk, at)
  }

  lemma {:induction false} StatementSound(c: Call, pass: Pass, walk: seq<nat>, at: nat, nums: seq<nat>, m: Moment,
      s: Progress, known: set<nat>)
    requires ProperPlan(c.plan) && at <= s.at <= |walk| && s.got.Len() < c.k && Keeps(m) && Fresh(nums, walk, at, s.at)
    requires WellKept(s.rows) && s.got.AllClaimable(c.lease)
    requires s.got.Nums() <= known + First(walk, at) && First(walk, at) <= First(walk, s.at)
    ensures PassState(c, walk, Statement(c, pass, nums, m, s), known)
    ensures pass == Spread && s.got.DistinctNums() && known == {} ==> Statement(c, pass, nums, m, s).got.DistinctNums()
  {
    var rows, until := m.others(s.rows), m.now + c.lease;
    var picks := Picks(pass, rows, nums, m, Want(c, s.got), c.plan);
    PicksSound(pass, rows, nums, m, Want(c, s.got), c.plan);
    ReserveKeeps(rows, picks.Members(), c.holder, until);
    RecordFacts(s.got, picks, rows, m.now, until);
    RecordClaimable(s.got, picks, rows, nums, m.now, m.locked, c.lease);
    StatementNums(s.got, picks, rows, nums, m, until, known, First(walk, at), First(walk, s.at));
    if pass == Spread && s.got.DistinctNums() && known == {} {
      RecordDistinctNums(s.got, picks, rows, nums, m.now, m.locked, until);
    }
  }

  lemma {:induction false} StatementNums(got: Issued, picks: Ids, rows: Table, nums: seq<nat>, m: Moment, until: int,
      known: set<nat>, before: set<nat>, after: set<nat>)
    requires OpenAmong(picks, rows, nums, m.now, m.locked) && got.Nums() <= known + before
    requires before <= after && forall n :: n in nums ==> n in after
    ensures Record(got, picks, rows, m.now, until).Nums() <= known + after
  {
    RecordNums(got, picks, rows, nums, m.now, m.locked, until);
  }

  lemma {:induction false} RoundsSound(c: Call, pass: Pass, walk: seq<nat>, env: nat -> Moment, i: nat, s: Progress,
      known: set<nat>)
    requires ProperPlan(c.plan) && NoDuplicates(walk) && AllKeep(env)
    requires s.at <= |walk| && PassState(c, walk, s, known)
    ensures PassState(c, walk, Rounds(c, pass, walk, env, i, s), known)
    ensures pass == Spread && s.got.DistinctNums() && known == {} ==>
      Rounds(c, pass, walk, env, i, s).got.DistinctNums()
    decreases c.maxBatches - i
  {
    if i < c.maxBatches && !Over(c, s) {
      RoundSound(c, pass, walk, env(i), s, known);
      RoundsSound(c, pass, walk, env, i + 1, Round(c, pass, walk, env(i), s), known);
    }
  }

  lemma {:induction false} RoundSound(c: Call, pass: Pass, walk: seq<nat>, m: Moment, s: Progress, known: set<nat>)
    requires ProperPlan(c.plan) && NoDuplicates(walk) && Keeps(m)
    requires s.at <= |walk| && PassState(c, walk, s, known) && s.got.Len() < c.k
    ensures PassState(c, walk, Round(c, pass, walk, m, s), known)
    ensures pass == Spread && s.got.DistinctNums() && known == {} ==> Round(c, pass, walk, m, s).got.DistinctNums()
  {
    var to := BatchEnd(walk, s.at, BatchSize(c, pass, s.got));
    BatchIsNew(walk, s.at, to);
    StatementSound(c, pass, walk, s.at, walk[s.at..to], m, s.(at := to), known);
  }

  /** Whatever other users do between statements, and wherever the call is cut short: at most k tickets come back, each
      of them was claimable when its statement took it, carries a matching number, and is held for exactly the time
      asked; the tickets of the first pass carry pairwise different numbers. */
  lemma {:induction false} CallSound(c: Call, walk1: seq<nat>, walk2: seq<nat>, env1: nat -> Moment,
      env2: nat -> Moment, rows: Table, wanted: set<nat>)
    requires ProperPlan(c.plan) && AllKeep(env1) && AllKeep(env2) && WellKept(rows)
    requires NoDuplicates(walk1) && NoDuplicates(walk2) && ToSet(walk1) == wanted == ToSet(walk2)
    ensures var r := StoreClaim(c, walk1, walk2, env1, env2, rows);
      r.got.Len() <= c.k && r.got.AllClaimable(c.lease) && r.got.Nums() <= wanted && WellKept(r.rows)
    ensures var first := Rounds(c, Spread, walk1, env1, 0, Progress(rows, Nothing, 0, Going)).got;
      first.DistinctNums() && BeginsWith(StoreClaim(c, walk1, walk2, env1, env2, rows).got, first)
  {
    var start := Progress(rows, Nothing, 0, Going);
    var first := Rounds(c, Spread, walk1, env1, 0, start);
    RoundsSound(c, Spread, walk1, env1, 0, start, {});
    VisitedWanted(walk1, first.at);
    if NeedsTopUp(c, first) {
      var again := first.(at := 0, stop := Going);
      RoundsSound(c, TopUp, walk2, env2, 0, again, wanted);
      RoundsBegin(c, TopUp, walk2, env2, 0, again, first.got);
      VisitedWanted(walk2, Rounds(c, TopUp, walk2, env2, 0, again).at);
    }
  }

  lemma {:induction false} VisitedWanted(walk: seq<nat>, m: nat)
    requires m <= |walk|
    ensures First(walk, m) <= ToSet(walk)
  {
    FirstMembers(walk, m);
  }
}
