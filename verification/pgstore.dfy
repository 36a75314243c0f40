/** lottery-go/postgres/store.go: the database-backed store. */
module PostgresStores {
  import opened Counting
  import opened Decimal
  import opened Patterns
  import opened Walkers
  import opened CandidateStream
  import opened Ledger
  import opened Allocation
  import opened Stock
  import opened TicketTable
  import opened ClaimRounds
  import opened ClaimGuarantees

  const DEFAULT_BATCH_SIZE: nat := 256
  const DEFAULT_MAX_BATCHES: nat := 16

  datatype Problem = NoProblem | ContextDone | DatabaseError

  function ProblemOf(stop: Stop): Problem {
    match stop
    case Going => NoProblem
    case Walked => NoProblem
    case Cancelled => ContextDone
    case Failed => DatabaseError
  }

  /** The caller gets the tickets of all statements, those before an error included; a database error exactly if a
      statement failed, the context's error exactly if a check found it ended; and after either the call does
      nothing more. */
  ghost predicate Answers(out: seq<Reservation>, problem: Problem, acts: Acts) {
    && out == acts.Taken() && acts.StopsInTime()
    && (problem == DatabaseError <==> acts.SawFailure()) && (problem == ContextDone <==> acts.FoundEnded())
  }

  /** What explainFailure answers. Its last answer covers a row that somebody changed in the meantime. */
  function Explained(t: Table, id: int, holder: string, now: int): (v: Verdict)
    ensures v == TicketNotFound <==> id !in t
    ensures v == LeaseExpired <==> id in t && RowHeldBy(t[id], holder) && RowExpired(t[id], now)
    ensures v != Success
  {
    if id !in t then TicketNotFound
    else if t[id].status != Reserved || t[id].holder != Some(holder) then NotHeld
    else if t[id].leaseUntil.Some? && t[id].leaseUntil.value < now then LeaseExpired
    else NotHeld
  }

  /** If the row has not changed since, the explanation of a failed confirmation is the verdict of the
      in-memory store. */
  lemma ExplainedConfirm(t: Table, id: int, holder: string, now: int)
    requires WellKept(t)
    ensures id in t && RowConfirmable(t[id], holder, now) <==> ConfirmVerdict(ViewBook(t), id, holder, now) == Success
    ensures !(id in t && RowConfirmable(t[id], holder, now)) ==>
      Explained(t, id, holder, now) == ConfirmVerdict(ViewBook(t), id, holder, now)
  {
    if id in t {
      assert Consistent(t[id]);
    }
  }

  lemma ExplainedRelease(t: Table, id: int, holder: string, now: int)
    requires WellKept(t)
    ensures id in t && RowHeldBy(t[id], holder) <==> ReleaseVerdict(ViewBook(t), id, holder) == Success
    ensures !(id in t && RowHeldBy(t[id], holder)) ==>
      Explained(t, id, holder, now) == ReleaseVerdict(ViewBook(t), id, holder)
  {
    if id in t {
      assert Consistent(t[id]);
    }
  }

  lemma ViewOfUpdate(t: Table, id: int, row: Row)
    requires id in t
    ensures ViewBook(t[id := row]) == ViewBook(t)[id := View(row)]
  {
  }

  /** Where the database fails a confirmation or release: at its update, at the read that explains a failure,
      or nowhere. */
  datatype Trouble = Smooth | UpdateFails | ReadFails

  datatype Reply = Says(verdict: Verdict) | NoAnswer

  class Database {
    var rows: Table

    constructor (rows: Table)
      ensures this.rows == rows
    {
      this.rows := rows;
    }

    /** Everything other users wrote since our last statement. */
    method Others(others: Table -> Table)
      modifies this
      ensures rows == others(old(rows))
    {
      rows := others(rows);
    }

    /** One claim statement: choose open rows, then update them one by one. */
    method ClaimRows(pass: Pass, nums: seq<nat>, holder: string, lease: int, want: nat, m: Moment, plan: Planner)
      returns (batch: seq<Reservation>)
      requires ProperPlan(plan) && NoDuplicates(nums)
      modifies this
      ensures var picks := Picks(pass, old(rows), nums, m, want, plan);
        && rows == ReserveRows(old(rows), picks.Members(), holder, m.now + lease)
        && batch == Returned(picks, old(rows), m.now + lease)
    {
      var until := m.now + lease;
      var picks := Picks(pass, rows, nums, m, want, plan);
      PicksSound(pass, rows, nums, m, want, plan);
      OpenAmongMembers(picks, rows, nums, m.now, m.locked);
      batch := Returned(picks, rows, until);
      ReserveNothing(rows, holder, until);
      var rest := picks;
      while rest.Snoc?
        invariant rest.Distinct() && rest.Members() <= picks.Members()
        invariant rows == ReserveRows(old(rows), picks.Members() - rest.Members(), holder, until)
        decreases rest
      {
        var id := rest.last;
        assert id in picks.Members() && id in old(rows);
        ReserveOneMore(old(rows), picks.Members() - rest.Members(), id, holder, until);
        rows := rows[id := ReserveRow(rows[id], holder, until)];
        assert picks.Members() - rest.Members() + {id} == picks.Members() - rest.front.Members();
        rest := rest.front;
      }
      assert picks.Members() - rest.Members() == picks.Members();
    }

    method Update(id: int, row: Row)
      requires id in rows
      modifies this
      ensures rows == old(rows)[id := row]
    {
      rows := rows[id := row];
    }
  }

  class Store {
    const db: Database
    const batchSize: nat
    const maxBatches: nat

    constructor (db: Database)
      ensures this.db == db && batchSize == 256 && maxBatches == 16
    {
      this.db := db;
      batchSize := DEFAULT_BATCH_SIZE;
      maxBatches := DEFAULT_MAX_BATCHES;
    }

    /** The statement of a round, on the table as others left it. */
    method Ask(c: Call, pass: Pass, nums: seq<nat>, m: Moment, want: nat, out: seq<Reservation>, ghost s: Progress)
      returns (all: seq<Reservation>, ghost r: Progress)
      requires ProperPlan(c.plan) && NoDuplicates(nums) && want == Want(c, s.got)
      requires db.rows == m.others(s.rows) && out == s.got.Report()
      modifies db
      ensures r == Statement(c, pass, nums, m, s) && db.rows == r.rows && all == r.got.Report()
    {
      ghost var rows, picks := db.rows, Picks(pass, db.rows, nums, m, want, c.plan);
      r := Statement(c, pass, nums, m, s);
      var batch := db.ClaimRows(pass, nums, c.holder, c.lease, want, m, c.plan);
      ReportOfRecord(s.got, picks, rows, m.now, m.now + c.lease);
      all := out + batch;
    }

    /** The body of a batch loop, once its guard holds. */
    method RunRound(c: Call, pass: Pass, cands: Candidates, m: Moment, out: seq<Reservation>, ghost s: Progress)
      returns (all: seq<Reservation>, ghost r: Progress, stop: Stop)
      requires ProperPlan(c.plan) && cands.Valid() && NoDuplicates(cands.Stream()) && cands.w.i == s.at
      requires s.stop == Going && s.rows == db.rows && out == s.got.Report() && |out| == s.got.Len() < c.k
      modifies db, cands.w`i
      ensures cands.Valid() && s.at <= |cands.Stream()| && r == Round(c, pass, cands.Stream(), m, s)
      ensures db.rows == r.rows && all == r.got.Report() && stop == r.stop
      ensures stop == Going ==> cands.w.i == r.at
    {
      ghost var walk := cands.Stream();
      all := out;
      r := Round(c, pass, walk, m, s);
      if m.cancelled {
        return all, r, Cancelled;
      }
      var want := c.k - |out|;
      var size := if pass == Spread then Min(want * OVER_FETCH, c.batchSize) else c.batchSize;
      assert want == Want(c, s.got) && size == BatchSize(c, pass, s.got);
      var nums := cands.NextBatch(size);
      ghost var to := cands.w.i;
      assert to == BatchEnd(walk, s.at, size);
      if |nums| == 0 {
        return all, r, Walked;
      }
      db.Others(m.others);
      if m.fault {
        return all, r, Failed;
      }
      BatchIsNew(walk, s.at, to);
      ghost var after;
      all, after := Ask(c, pass, nums, m, want, out, s.(at := to));
      stop := Going;
    }

    /** One batch loop of Claim. `r` is where the specification of the loop ends. */
    method RunPass(c: Call, pass: Pass, cands: Candidates, env: nat -> Moment, out: seq<Reservation>, ghost s: Progress)
      returns (all: seq<Reservation>, stop: Stop, ghost r: Progress)
      requires ProperPlan(c.plan) && cands.Valid() && NoDuplicates(cands.Stream()) && cands.w.i == 0
      requires s == Progress(db.rows, s.got, 0, Going) && out == s.got.Report()
      modifies db, cands.w`i
      ensures r == Rounds(c, pass, old(cands.Stream()), env, 0, s)
      ensures db.rows == r.rows && all == r.got.Report() && stop == r.stop
    {
      ghost var walk := cands.Stream();
      var batches := 0;
      all, stop, r := out, Going, s;
      ReportLen(r.got);
      while |all| < c.k && batches < c.maxBatches
        invariant cands.Valid() && cands.Stream() == walk && cands.w.i == r.at <= |walk|
        invariant Rounds(c, pass, walk, env, batches, r) == Rounds(c, pass, walk, env, 0, s)
        invariant stop == r.stop == Going && db.rows == r.rows && all == r.got.Report() && |all| == r.got.Len()
        decreases c.maxBatches - batches
      {
        all, r, stop := RunRound(c, pass, cands, env(batches), all, r);
        batches := batches + 1;
        if stop != Going {
          return;
        }
        ReportLen(r.got);
      }
    }

    /** Asking for less than one ticket asks the database nothing. */
    method Claim(digits: nat, p: Pattern, k: int, holder: string, lease: int, seed1: Seed, seed2: Seed,
        env1: nat -> Moment, env2: nat -> Moment, plan: Planner)
      returns (out: seq<Reservation>, problem: Problem, ghost r: Progress)
      requires ProperPlan(plan) && IsParsed(digits, p) && InRange(digits, p)
      requires SeedFor(MatchCount(p), seed1) && SeedFor(MatchCount(p), seed2)
      modifies db
      ensures k < 1 ==> db.rows == old(db.rows) && out == [] && problem == NoProblem
      ensures k >= 1 ==>
        r == StoreClaim(Call(k, holder, lease, batchSize, maxBatches, plan), NumberWalk(digits, p, seed1),
                        NumberWalk(digits, p, seed2), env1, env2, old(db.rows))
      ensures k >= 1 ==> db.rows == r.rows && out == r.got.Report() && problem == ProblemOf(r.stop)
      ensures k >= 1 ==>
        Answers(out, problem,
          CallActs(Call(k, holder, lease, batchSize, maxBatches, plan), NumberWalk(digits, p, seed1),
                                       NumberWalk(digits, p, seed2), env1, env2, old(db.rows)))
    {
      r := Progress(db.rows, Nothing, 0, Going);
      if k < 1 {
        return [], NoProblem, r;
      }
      var c := Call(k, holder, lease, batchSize, maxBatches, plan);
      CallTells(c, NumberWalk(digits, p, seed1), NumberWalk(digits, p, seed2), env1, env2, db.rows);
      NumberWalkIsMatchSet(digits, p, seed1);
      var cands := new Candidates(digits, p, seed1);
      var stop;
      out, stop, r := RunPass(c, Spread, cands, env1, [], r);
      if stop == Cancelled || stop == Failed {
        return out, ProblemOf(stop), r;
      }
      ReportLen(r.got);
      if |out| < k {
        NumberWalkIsMatchSet(digits, p, seed2);
        cands := new Candidates(digits, p, seed2);
        out, stop, r := RunPass(c, TopUp, cands, env2, out, r.(at := 0, stop := Going));
      }
      problem := ProblemOf(stop);
    }

    /** One conditional update; if it matches no row, a later read explains why. */
    method Confirm(id: int, holder: string, now: int, others: Table -> Table, later: int, trouble: Trouble)
      returns (r: Reply)
      requires WellKept(db.rows)
      modifies db
      ensures trouble == UpdateFails ==> r == NoAnswer && db.rows == old(db.rows)
      ensures trouble != UpdateFails ==>
        (r == Says(Success) <==> ConfirmVerdict(ViewBook(old(db.rows)), id, holder, now) == Success)
      ensures r == Says(Success) ==> id in old(db.rows) && db.rows == old(db.rows)[id := SellRow(old(db.rows)[id])]
      ensures r == Says(Success) ==>
        var was := old(db.rows)[id]; db.rows[id] == Row(was.num, Sold, Some(holder), was.leaseUntil, was.version + 1)
      ensures r == Says(Success) ==> ViewBook(db.rows) == ViewBook(old(db.rows))[id := Taken]
      ensures trouble != UpdateFails && r != Says(Success) ==> db.rows == others(old(db.rows))
      ensures trouble != UpdateFails && r != Says(Success) ==>
        r == if trouble == ReadFails then NoAnswer else Says(Explained(db.rows, id, holder, later))
      ensures trouble == Smooth && others(old(db.rows)) == old(db.rows) && later == now ==>
        r == Says(ConfirmVerdict(ViewBook(old(db.rows)), id, holder, now))
    {
      if trouble == UpdateFails {
        return NoAnswer;
      }
      ExplainedConfirm(db.rows, id, holder, now);
      if id in db.rows && RowConfirmable(db.rows[id], holder, now) {
        ViewOfUpdate(db.rows, id, SellRow(db.rows[id]));
        db.Update(id, SellRow(db.rows[id]));
        return Says(Success);
      }
      r := Explain(id, holder, others, later, trouble);
    }

    /** explainFailure: others may have written since the update. */
    method Explain(id: int, holder: string, others: Table -> Table, later: int, trouble: Trouble) returns (r: Reply)
      modifies db
      ensures db.rows == others(old(db.rows))
      ensures r == if trouble == ReadFails then NoAnswer else Says(Explained(db.rows, id, holder, later))
    {
      db.Others(others);
      r := if trouble == ReadFails then NoAnswer else Says(Explained(db.rows, id, holder, later));
    }

    method Release(id: int, holder: string, others: Table -> Table, later: int, trouble: Trouble) returns (r: Reply)
      requires WellKept(db.rows)
      modifies db
      ensures trouble == UpdateFails ==> r == NoAnswer && db.rows == old(db.rows)
      ensures trouble != UpdateFails ==>
        (r == Says(Success) <==> ReleaseVerdict(ViewBook(old(db.rows)), id, holder) == Success)
      ensures r == Says(Success) ==> id in old(db.rows) && db.rows == old(db.rows)[id := FreeRow(old(db.rows)[id])]
      ensures r == Says(Success) ==>
        var was := old(db.rows)[id]; db.rows[id] == Row(was.num, Available, None, None, was.version + 1)
      ensures r == Says(Success) ==> ViewBook(db.rows) == ViewBook(old(db.rows))[id := Free]
      ensures trouble != UpdateFails && r != Says(Success) ==> db.rows == others(old(db.rows))
      ensures trouble != UpdateFails && r != Says(Success) ==>
        r == if trouble == ReadFails then NoAnswer else Says(Explained(db.rows, id, holder, later))
      ensures trouble == Smooth && others(old(db.rows)) == old(db.rows) ==>
        r == Says(ReleaseVerdict(ViewBook(old(db.rows)), id, holder))
    {
      if trouble == UpdateFails {
        return NoAnswer;
      }
      ExplainedRelease(db.rows, id, holder, later);
      if id in db.rows && RowHeldBy(db.rows[id], holder) {
        ViewOfUpdate(db.rows, id, FreeRow(db.rows[id]));
        db.Update(id, FreeRow(db.rows[id]));
        return Says(Success);
      }
      r := Explain(id, holder, others, later, trouble);
    }

    /** Frees up to `limit` expired reservations nobody else has locked and counts them. */
    method ReapExpired(limit: nat, now: int, locked: set<int>, plan: Planner, fails: bool)
      returns (count: nat, problem: Problem)
      requires ProperPlan(plan)
      modifies db
      ensures fails ==> count == 0 && problem == DatabaseError && db.rows == old(db.rows)
      ensures !fails ==> problem == NoProblem
      ensures !fails ==> var expired := ExpiredRows(old(db.rows), now, locked);
        && count == Min(limit, |expired|)
        && plan.some(expired, limit).Members() <= expired
        && db.rows == FreeRows(old(db.rows), plan.some(expired, limit).Members())
        && forall id :: id in plan.some(expired, limit).Members() ==>
             id in db.rows && db.rows[id] ==
               Row(old(db.rows)[id].num, Available, None, None, old(db.rows)[id].version + 1)
    {
      if fails {
        return 0, DatabaseError;
      }
      problem := NoProblem;
      var expired := ExpiredRows(db.rows, now, locked);
      var picks := plan.some(expired, limit);
      assert TakesSome(plan, expired, limit);
      assert FreeRows(db.rows, {}) == db.rows;
      var rest := picks;
      count := 0;
      while rest.Snoc?
        invariant rest.Distinct() && rest.Members() <= picks.Members() && count + rest.Len() == picks.Len()
        invariant db.rows == FreeRows(old(db.rows), picks.Members() - rest.Members())
        decreases rest
      {
        var id := rest.last;
        assert id in expired && id in old(db.rows);
        FreeOneMore(old(db.rows), picks.Members() - rest.Members(), id);
        db.Update(id, FreeRow(db.rows[id]));
        assert picks.Members() - rest.Members() + {id} == picks.Members() - rest.front.Members();
        rest := rest.front;
        count := count + 1;
      }
      assert picks.Members() - rest.Members() == picks.Members();
    }
  }

  /** The rows the reaper may free. */
  function ExpiredRows(t: Table, now: int, locked: set<int>): set<int> {
    set id | id in t && RowExpired(t[id], now) && id !in locked
  }

  // ---------------------------------------------------------------- the batch budget

  /** Undisturbed, the claim finds min(k, claimable matches) whatever is in the table and whatever the seeds. */
  ghost predicate AlwaysFills(digits: nat, p: Pattern, c: Call, env1: nat -> Moment, env2: nat -> Moment, now: int)
    requires InRange(digits, p)
  {
    forall rows: Table, seed1: Seed, seed2: Seed | SeedFor(MatchCount(p), seed1) && SeedFor(MatchCount(p), seed2) ::
      StoreClaim(c, NumberWalk(digits, p, seed1), NumberWalk(digits, p, seed2), env1, env2, rows).got.Len()
        == Min(c.k, |OpenStock(rows, Matching(digits, p), now)|)
  }

  /** That is so exactly when the match set fits the batch budget. */
  lemma FillsIffWithinBudget(digits: nat, p: Pattern, c: Call, env1: nat -> Moment, env2: nat -> Moment, now: int)
    requires IsParsed(digits, p) && InRange(digits, p) && ProperPlan(c.plan) && c.lease >= 0 && c.k >= 1
    requires AllUndisturbed(env1, now) && AllUndisturbed(env2, now)
    ensures AlwaysFills(digits, p, c, env1, env2, now) <==> MatchCount(p) <= c.maxBatches * c.batchSize
  {
    if MatchCount(p) <= c.maxBatches * c.batchSize {
      forall rows: Table, seed1: Seed, seed2: Seed | SeedFor(MatchCount(p), seed1) && SeedFor(MatchCount(p), seed2)
        ensures StoreClaim(c, NumberWalk(digits, p, seed1), NumberWalk(digits, p, seed2), env1, env2, rows).got.Len()
             == Min(c.k, |OpenStock(rows, Matching(digits, p), now)|)
      {
        SeededClaimFills(digits, p, c, seed1, seed2, env1, env2, rows, now);
      }
    } else {
      SomeSeedMisses(digits, p, c, env1, env2, now);
    }
  }

  lemma SeededClaimFills(digits: nat, p: Pattern, c: Call, seed1: Seed, seed2: Seed, env1: nat -> Moment,
      env2: nat -> Moment, rows: Table, now: int)
    requires IsParsed(digits, p) && InRange(digits, p) && SeedFor(MatchCount(p), seed1) && SeedFor(MatchCount(p), seed2)
    requires ProperPlan(c.plan) && c.lease >= 0 && AllUndisturbed(env1, now) && AllUndisturbed(env2, now)
    requires MatchCount(p) <= c.maxBatches * c.batchSize
    ensures StoreClaim(c, NumberWalk(digits, p, seed1), NumberWalk(digits, p, seed2), env1, env2, rows).got.Len()
         == Min(c.k, |OpenStock(rows, Matching(digits, p), now)|)
  {
    WalkIsMatching(digits, p, seed1);
    WalkIsMatching(digits, p, seed2);
    QuietCallFills(c, NumberWalk(digits, p, seed1), NumberWalk(digits, p, seed2), env1, env2, rows, now);
  }

  /** When both passes draw the multiplier 1, they stop short of the same numbers. */
  lemma SomeSeedMisses(digits: nat, p: Pattern, c: Call, env1: nat -> Moment, env2: nat -> Moment, now: int)
    requires IsParsed(digits, p) && InRange(digits, p) && ProperPlan(c.plan) && c.k >= 1
    requires AllUndisturbed(env1, now) && AllUndisturbed(env2, now) && MatchCount(p) > c.maxBatches * c.batchSize
    ensures !AlwaysFills(digits, p, c, env1, env2, now)
  {
    var seed := Seed(1, 0);
    OneIsCoprime(MatchCount(p));
    WalkIsMatching(digits, p, seed);
    var rows := BeyondBudget(c, NumberWalk(digits, p, seed), env1, env2, now);
    assert |OpenStock(rows, Matching(digits, p), now)| == 1;
  }

  /** With the default knobs the budget covers a pattern exactly up to three wildcards. */
  lemma {:induction false} DefaultBudget(p: Pattern)
    ensures MatchCount(p) <= DEFAULT_MAX_BATCHES * DEFAULT_BATCH_SIZE <==> |p.wildcards| <= 3
  {
    var w := |p.wildcards|;
    assert Pow10(0) == 1 && Pow10(1) == 10 && Pow10(2) == 100 && Pow10(3) == 1000 && Pow10(4) == 10000;
    if w > 4 {
      Pow10Grows(4, w);
    }
  }

  lemma {:induction false} Pow10Grows(a: nat, b: nat)
    requires a < b
    ensures Pow10(a) < Pow10(b)
  {
    if a + 1 < b {
      Pow10Grows(a, b - 1);
    }
  }

  // ---------------------------------------------------------------- a spread of numbers

  /** Undisturbed, whatever the seeds: if k of the first min(4k, batchSize) candidates of the first pass have a
      claimable row, the caller gets k tickets of k different numbers. */
  lemma SeededClaimSpreads(digits: nat, p: Pattern, c: Call, seed1: Seed, seed2: Seed, env1: nat -> Moment,
      env2: nat -> Moment, rows: Table, now: int)
    requires IsParsed(digits, p) && InRange(digits, p) && SeedFor(MatchCount(p), seed1) && SeedFor(MatchCount(p), seed2)
    requires ProperPlan(c.plan) && WellKept(rows) && AllUndisturbed(env1, now) && AllUndisturbed(env2, now)
    requires c.maxBatches > 0
    ensures var walk1 := NumberWalk(digits, p, seed1);
      var out := StoreClaim(c, walk1, NumberWalk(digits, p, seed2), env1, env2, rows).got.Report();
      var stocked := OpenNumbers(rows, First(walk1, Min(Min(4 * c.k, c.batchSize), MatchCount(p))), now);
      |NumbersIn(out)| >= Min(c.k, |stocked|) && (|stocked| >= c.k ==> |NumbersIn(out)| == |out| == c.k)
  {
    WalkIsMatching(digits, p, seed1);
    WalkIsMatching(digits, p, seed2);
    ResultIsSpread(c, NumberWalk(digits, p, seed1), NumberWalk(digits, p, seed2), env1, env2, rows, now);
  }

  /** A pattern that fits one batch gets min(k, D) different numbers, D of its matches having a claimable row. */
  lemma SmallPatternSpreads(digits: nat, p: Pattern, c: Call, seed1: Seed, seed2: Seed, env1: nat -> Moment,
      env2: nat -> Moment, rows: Table, now: int)
    requires IsParsed(digits, p) && InRange(digits, p) && SeedFor(MatchCount(p), seed1) && SeedFor(MatchCount(p), seed2)
    requires ProperPlan(c.plan) && c.lease >= 0 && WellKept(rows)
    requires AllUndisturbed(env1, now) && AllUndisturbed(env2, now) && c.maxBatches > 0
    requires MatchCount(p) <= Min(4 * c.k, c.batchSize)
    ensures var r := StoreClaim(c, NumberWalk(digits, p, seed1), NumberWalk(digits, p, seed2), env1, env2, rows);
      |NumbersIn(r.got.Report())| == Min(c.k, |OpenNumbers(rows, Matching(digits, p), now)|)
  {
    WalkIsMatching(digits, p, seed1);
    WalkIsMatching(digits, p, seed2);
    SmallPatternIsSpread(c, NumberWalk(digits, p, seed1), NumberWalk(digits, p, seed2), env1, env2, rows, now);
  }
}
