/** lottery-go/postgres/hybrid.go: the database-backed store behind an in-memory availability hint. */
module HybridStores {
  import opened Counting
  import opened Patterns
  import opened Walkers
  import opened CandidateStream
  import opened Ledger
  import opened Stock
  import opened TicketTable
  import opened ClaimRounds
  import opened Availabilities
  import opened HybridRounds
  import opened PostgresStores

  class HybridStore {
    const db: Database
    const batchSize: nat
    const maxBatches: nat
    var avail: Availability
    var numberOf: map<int, nat>

    ghost predicate Valid()
      reads this, avail, avail.counts, avail.nonZero.words
    {
      avail.Valid()
    }

    ghost function Hint(): Hint
      reads this, avail, avail.counts
    {
      avail.View()
    }

    ghost function State(): Memory
      reads this, avail, avail.counts
    {
      Memory(avail.View(), numberOf)
    }

    /** The hint is loaded before the first request is served; `hint` has been loaded successfully. */
    constructor (db: Database, hint: Availability)
      requires hint.Valid()
      ensures Valid() && avail == hint && this.db == db && numberOf == map[]
      ensures batchSize == 256 && maxBatches == 16
    {
      this.db := db;
      avail := hint;
      numberOf := map[];
      batchSize := DEFAULT_BATCH_SIZE;
      maxBatches := DEFAULT_MAX_BATCHES;
    }

    /** NewHybrid: no store if the hint cannot be loaded. */
    static method Open(db: Database, space: nat, groups: seq<Group>, breaks: Option<nat>)
      returns (s: Option<HybridStore>)
      requires Grouped(groups)
      ensures s.Some? <==> breaks == None
      ensures s.Some? ==> fresh(s.value) && fresh(s.value.avail.Parts()) && s.value.Valid() && s.value.db == db
      ensures s.Some? ==> s.value.numberOf == map[] && |s.value.Hint()| == space
      ensures s.Some? ==> forall n :: 0 <= n < space ==> s.value.Hint()[n] == Loaded(groups, n)
    {
      var hint := new Availability(space);
      var ok := hint.Load(groups, breaks);
      if !ok {
        return None;
      }
      var store := new HybridStore(db, hint);
      s := Some(store);
    }

    /** What other calls of this replica did to the hint meanwhile. */
    method OtherCalls(touch: Touch)
      requires Valid() && |touch(Hint())| == |Hint()|
      modifies avail
      ensures Valid() && fresh(avail.Parts() - {avail}) && Hint() == touch(old(Hint()))
    {
      avail.Overwrite(touch(avail.counts[..]));
    }

    /** Drops the candidates the hint believes sold out; adds none. */
    method FilterByHint(raw: seq<nat>) returns (nums: seq<nat>)
      requires Valid()
      ensures nums == Keep(raw, Hint())
    {
      nums := [];
      for i := 0 to |raw|
        invariant nums == Keep(raw[..i], Hint())
      {
        assert Front(raw[..i + 1]) == raw[..i];
        var worth := avail.MaybeAvailableNow(raw[i]);
        if worth {
          nums := nums + [raw[i]];
        }
      }
      assert raw[..|raw|] == raw;
    }

    method ReconcileAfterClaim(batch: seq<Reservation>)
      requires Valid()
      modifies this`numberOf, avail.counts, avail.nonZero.words
      ensures Valid() && Hint() == MarkAll(old(Hint()), batch) && numberOf == Remember(old(numberOf), batch)
    {
      for i := 0 to |batch|
        invariant Valid() && Hint() == MarkAll(old(Hint()), batch[..i]) && numberOf == old(numberOf)
      {
        assert Front(batch[..i + 1]) == batch[..i];
        avail.Restocked(batch[i].number);
      }
      assert batch[..|batch|] == batch;
      for i := 0 to |batch|
        invariant Valid() && Hint() == MarkAll(old(Hint()), batch) && numberOf == Remember(old(numberOf), batch[..i])
      {
        assert Front(batch[..i + 1]) == batch[..i];
        numberOf := numberOf[batch[i].ticketId := batch[i].number];
      }
    }

    /** Table, hint and remembered numbers, as the loop specification sees them. */
    ghost predicate At(h: HybridProgress)
      reads this, db, avail, avail.counts
    {
      h.s.rows == db.rows && h.hint == Hint() && h.known == numberOf
    }

    /** Phases 3 and 4 of a round: the statement on the kept candidates, then what the hint learns from it. */
    method Ask(c: Call, pass: Pass, nums: seq<nat>, m: Moment, want: nat, out: seq<Reservation>,
        ghost h: HybridProgress)
      returns (all: seq<Reservation>, ghost r: HybridProgress)
      requires Valid() && ProperPlan(c.plan) && NoDuplicates(nums) && want == Want(c, h.s.got)
      requires db.rows == m.others(h.s.rows) && h.hint == Hint() && h.known == numberOf && out == h.s.got.Report()
      modifies db, this`numberOf, avail.counts, avail.nonZero.words
      ensures Valid() && r == HybridStatement(c, pass, nums, m, h)
      ensures At(r) && all == r.s.got.Report()
    {
      ghost var rows, picks := db.rows, Picks(pass, db.rows, nums, m, want, c.plan);
      r := HybridStatement(c, pass, nums, m, h);
      var batch := db.ClaimRows(pass, nums, c.holder, c.lease, want, m, c.plan);
      ReportOfRecord(h.s.got, picks, rows, m.now, m.now + c.lease);
      ReconcileAfterClaim(batch);
      all := out + batch;
    }

    /** Phases 1 and 2 of a round: generate a batch, then keep what the hint of that moment lets pass. */
    method Propose(cands: Candidates, size: nat, touch: Touch) returns (raw: seq<nat>, nums: seq<nat>)
      requires Valid() && cands.Valid() && KeepsLength(touch)
      modifies cands.w`i, avail.Parts()
      ensures Valid() && fresh(avail.Parts() - old(avail.Parts())) && cands.Valid()
      ensures cands.w.i == BatchEnd(cands.Stream(), old(cands.w.i), size)
      ensures raw == cands.Stream()[old(cands.w.i)..cands.w.i]
      ensures raw == [] ==> Hint() == old(Hint())
      ensures raw != [] ==> Hint() == touch(old(Hint())) && nums == Keep(raw, Hint())
    {
      raw := cands.NextBatch(size);
      nums := [];
      if |raw| > 0 {
        OtherCalls(touch);
        nums := FilterByHint(raw);
      }
    }

    /** The rest of a round, once its candidates are filtered. */
    method Settle(c: Call, pass: Pass, nums: seq<nat>, m: Moment, want: nat, out: seq<Reservation>,
        ghost h: HybridProgress)
      returns (all: seq<Reservation>, ghost r: HybridProgress, stop: Stop)
      requires Valid() && ProperPlan(c.plan) && NoDuplicates(nums) && want == Want(c, h.s.got)
      requires At(h) && h.s.stop == Going && out == h.s.got.Report()
      modifies db, this`numberOf, avail.counts, avail.nonZero.words
      ensures Valid() && r == Put(c, pass, nums, m, h)
      ensures At(r) && all == r.s.got.Report() && stop == r.s.stop
    {
      r := Put(c, pass, nums, m, h);
      all := out;
      db.Others(m.others);
      if |nums| == 0 {
        return all, r, Going;
      }
      if m.fault {
        return all, r, Failed;
      }
      ghost var after;
      all, after := Ask(c, pass, nums, m, want, out, h);
      stop := Going;
    }

    /** The body of a batch loop, once its guard holds. */
    method RunRound(c: Call, pass: Pass, cands: Candidates, m: Moment, touch: Touch, out: seq<Reservation>,
        ghost h: HybridProgress)
      returns (all: seq<Reservation>, ghost r: HybridProgress, stop: Stop)
      requires Valid() && ProperPlan(c.plan) && cands.Valid() && NoDuplicates(cands.Stream()) && cands.w.i == h.s.at
      requires At(h) && h.s.stop == Going && out == h.s.got.Report() && |out| == h.s.got.Len() < c.k
      requires KeepsLength(touch)
      modifies db, cands.w`i, this`numberOf, avail.Parts()
      ensures Valid() && fresh(avail.Parts() - old(avail.Parts())) && cands.Valid()
      ensures h.s.at <= |cands.Stream()| && r == HybridRound(c, pass, cands.Stream(), m, touch, h)
      ensures At(r) && all == r.s.got.Report() && stop == r.s.stop
      ensures stop == Going ==> cands.w.i == r.s.at
    {
      ghost var walk := cands.Stream();
      all := out;
      r := HybridRound(c, pass, walk, m, touch, h);
      if m.cancelled {
        return all, r, Cancelled;
      }
      var want := c.k - |out|;
      var size := if pass == Spread then Min(want * OVER_FETCH, c.batchSize) else c.batchSize;
      assert want == Want(c, h.s.got) && size == BatchSize(c, pass, h.s.got);
      var raw, nums := Propose(cands, size, touch);
      ghost var to := cands.w.i;
      if |raw| == 0 {
        return all, r, Walked;
      }
      ghost var open := h.(s := h.s.(at := to), hint := touch(h.hint));
      RoundPuts(c, pass, walk, m, touch, h, to, raw, nums, open);
      all, r, stop := Settle(c, pass, nums, m, want, out, open);
    }

    /** The round with index i of a loop that is going to end in `goal`. */
    method RunNext(c: Call, pass: Pass, cands: Candidates, env: nat -> Moment, touches: nat -> Touch, i: nat,
        ghost next: nat, out: seq<Reservation>, ghost h: HybridProgress, ghost goal: HybridProgress)
      returns (all: seq<Reservation>, ghost r: HybridProgress, stop: Stop)
      requires Valid() && ProperPlan(c.plan) && cands.Valid() && NoDuplicates(cands.Stream()) && cands.w.i == h.s.at
      requires At(h) && h.s.stop == Going && out == h.s.got.Report() && |out| == h.s.got.Len() < c.k
      requires AllKeepLength(touches) && i < c.maxBatches && next == i + 1 && h.s.at <= |cands.Stream()|
      requires HybridRuns(c, pass, cands.Stream(), env, touches, i, h) == goal
      modifies db, cands.w`i, this`numberOf, avail.Parts()
      ensures Valid() && fresh(avail.Parts() - old(avail.Parts())) && cands.Valid()
      ensures At(r) && all == r.s.got.Report() && stop == r.s.stop && |all| == r.s.got.Len()
      ensures stop == Going ==> cands.w.i == r.s.at <= |cands.Stream()|
      ensures stop == Going ==> HybridRuns(c, pass, cands.Stream(), env, touches, next, r) == goal
      ensures stop != Going ==> r == goal
    {
      all, r, stop := RunRound(c, pass, cands, env(i), touches(i), out, h);
      RunsStep(c, pass, cands.Stream(), env, touches, i, next, h, r);
      ReportLen(r.s.got);
    }

    method RunPass(c: Call, pass: Pass, cands: Candidates, env: nat -> Moment, touches: nat -> Touch,
        out: seq<Reservation>, ghost h: HybridProgress)
      returns (all: seq<Reservation>, stop: Stop, ghost r: HybridProgress)
      requires Valid() && ProperPlan(c.plan) && cands.Valid() && NoDuplicates(cands.Stream()) &&
        cands.w.i == 0 == h.s.at
      requires At(h) && h.s.stop == Going && out == h.s.got.Report() && AllKeepLength(touches)
      modifies db, cands.w`i, this`numberOf, avail.Parts()
      ensures Valid() && fresh(avail.Parts() - old(avail.Parts()))
      ensures r == HybridRuns(c, pass, old(cands.Stream()), env, touches, 0, h)
      ensures At(r) && all == r.s.got.Report() && stop == r.s.stop
    {
      ghost var walk := cands.Stream();
      ghost var goal := HybridRuns(c, pass, walk, env, touches, 0, h);
      var batches := 0;
      all, stop, r := out, Going, h;
      ReportLen(r.s.got);
      while |all| < c.k && batches < c.maxBatches
        invariant Valid() && fresh(avail.Parts() - old(avail.Parts()))
        invariant cands.Valid() && cands.Stream() == walk && cands.w.i == r.s.at <= |walk|
        invariant HybridRuns(c, pass, walk, env, touches, batches, r) == goal
        invariant At(r) && stop == r.s.stop == Going && all == r.s.got.Report() && |all| == r.s.got.Len()
        decreases c.maxBatches - batches
      {
        var next := batches + 1;
        all, r, stop := RunNext(c, pass, cands, env, touches, batches, next, all, r, goal);
        batches := next;
        if stop != Going {
          return;
        }
      }
    }

    method BothPasses(c: Call, digits: nat, p: Pattern, seed1: Seed, seed2: Seed, env1: nat -> Moment,
        env2: nat -> Moment, touches1: nat -> Touch, touches2: nat -> Touch, ghost start: HybridProgress)
      returns (out: seq<Reservation>, stop: Stop, ghost r: HybridProgress)
      requires Valid() && ProperPlan(c.plan) && IsParsed(digits, p) && InRange(digits, p) && c.k >= 1
      requires SeedFor(MatchCount(p), seed1) && SeedFor(MatchCount(p), seed2)
      requires AllKeepLength(touches1) && AllKeepLength(touches2) && start == Opening(db.rows, Hint(), numberOf)
      modifies db, this`numberOf, avail.Parts()
      ensures Valid() && fresh(avail.Parts() - old(avail.Parts())) && At(r)
      ensures r == HybridClaim(c, NumberWalk(digits, p, seed1), NumberWalk(digits, p, seed2), env1, env2, touches1,
                               touches2, start)
      ensures out == r.s.got.Report() && stop == r.s.stop
    {
      ghost var walk1, walk2 := NumberWalk(digits, p, seed1), NumberWalk(digits, p, seed2);
      NumberWalkIsMatchSet(digits, p, seed1);
      var cands := new Candidates(digits, p, seed1);
      assert cands.Stream() == walk1;
      out, stop, r := RunPass(c, Spread, cands, env1, touches1, [], start);
      if stop == Cancelled || stop == Failed {
        return;
      }
      ReportLen(r.s.got);
      if |out| < c.k {
        assert NeedsTopUp(c, r.s);
        NumberWalkIsMatchSet(digits, p, seed2);
        cands := new Candidates(digits, p, seed2);
        assert cands.Stream() == walk2;
        out, stop, r := RunPass(c, TopUp, cands, env2, touches2, out, Again(r));
      }
    }

    method Claim(digits: nat, p: Pattern, k: int, holder: string, lease: int, seed1: Seed, seed2: Seed,
        env1: nat -> Moment, env2: nat -> Moment, touches1: nat -> Touch, touches2: nat -> Touch, plan: Planner)
      returns (out: seq<Reservation>, problem: Problem, ghost r: HybridProgress)
      requires Valid() && ProperPlan(plan) && IsParsed(digits, p) && InRange(digits, p)
      requires SeedFor(MatchCount(p), seed1) && SeedFor(MatchCount(p), seed2)
      requires AllKeepLength(touches1) && AllKeepLength(touches2)
      modifies db, this`numberOf, avail.Parts()
      ensures Valid() && fresh(avail.Parts() - old(avail.Parts())) && At(r)
      ensures k < 1 ==> db.rows == old(db.rows) && State() == old(State())
      ensures k < 1 ==> out == [] && problem == NoProblem
      ensures k >= 1 ==>
        var c, start := Call(k, holder, lease, batchSize, maxBatches, plan),
          Opening(old(db.rows), old(Hint()), old(numberOf));
        var walk1, walk2 := NumberWalk(digits, p, seed1), NumberWalk(digits, p, seed2);
        && r == HybridClaim(c, walk1, walk2, env1, env2, touches1, touches2, start)
        && out == r.s.got.Report() && problem == ProblemOf(r.s.stop)
        && Answers(out, problem, HybridActs(c, walk1, walk2, env1, env2, touches1, touches2, start))
    {
      r := Opening(db.rows, Hint(), numberOf);
      if k < 1 {
        return [], NoProblem, r;
      }
      var c := Call(k, holder, lease, batchSize, maxBatches, plan);
      HybridTells(c, NumberWalk(digits, p, seed1), NumberWalk(digits, p, seed2), env1, env2, touches1, touches2, r);
      var stop;
      out, stop, r := BothPasses(c, digits, p, seed1, seed2, env1, env2, touches1, touches2, r);
      problem := ProblemOf(stop);
    }

    method ForgetNumber(id: int) returns (n: Option<nat>)
      modifies this`numberOf
      ensures n == if id in old(numberOf) then Some(old(numberOf)[id]) else None
      ensures numberOf == old(numberOf) - {id}
    {
      n := None;
      if id in numberOf {
        n := Some(numberOf[id]);
        numberOf := numberOf - {id};
      }
    }

    /** A sale takes one off the count of the ticket's number, if this replica knows it. */
    method Confirm(id: int, holder: string, now: int, others: Table -> Table, later: int, trouble: Trouble)
      returns (r: Reply)
      requires Valid() && WellKept(db.rows)
      modifies db, this`numberOf, avail.counts, avail.nonZero.words
      ensures Valid()
      ensures trouble == UpdateFails ==> r == NoAnswer && db.rows == old(db.rows)
      ensures trouble != UpdateFails ==>
        (r == Says(Success) <==> ConfirmVerdict(ViewBook(old(db.rows)), id, holder, now) == Success)
      ensures r == Says(Success) ==> id in old(db.rows) && db.rows == old(db.rows)[id := SellRow(old(db.rows)[id])]
      ensures r == Says(Success) ==>
        var was := old(db.rows)[id]; db.rows[id] == Row(was.num, Sold, Some(holder), was.leaseUntil, was.version + 1)
      ensures trouble != UpdateFails && r != Says(Success) ==> db.rows == others(old(db.rows))
      ensures trouble != UpdateFails && r != Says(Success) ==>
        r == if trouble == ReadFails then NoAnswer else Says(Explained(db.rows, id, holder, later))
      ensures State() == if r == Says(Success) then AfterSale(old(State()), id) else old(State())
      ensures r == Says(Success) ==> numberOf == old(numberOf) - {id}
      ensures r == Says(Success) && id in old(numberOf) && old(numberOf)[id] < |Hint()| ==>
        var n := old(numberOf)[id]; Hint() == old(Hint())[n := if old(Hint())[n] == 0 then 0 else old(Hint())[n] - 1]
    {
      if trouble == UpdateFails {
        return NoAnswer;
      }
      ExplainedConfirm(db.rows, id, holder, now);
      if id in db.rows && RowConfirmable(db.rows[id], holder, now) {
        db.Update(id, SellRow(db.rows[id]));
        var n := ForgetNumber(id);
        if n.Some? {
          avail.Sold(n.value);
        }
        return Says(Success);
      }
      db.Others(others);
      r := if trouble == ReadFails then NoAnswer else Says(Explained(db.rows, id, holder, later));
    }

    /** A release moves no count, but re-asserts that the number has stock. */
    method Release(id: int, holder: string, others: Table -> Table, later: int, trouble: Trouble) returns (r: Reply)
      requires Valid() && WellKept(db.rows)
      modifies db, this`numberOf, avail.counts, avail.nonZero.words
      ensures Valid()
      ensures trouble == UpdateFails ==> r == NoAnswer && db.rows == old(db.rows)
      ensures trouble != UpdateFails ==>
        (r == Says(Success) <==> ReleaseVerdict(ViewBook(old(db.rows)), id, holder) == Success)
      ensures r == Says(Success) ==> id in old(db.rows) && db.rows == old(db.rows)[id := FreeRow(old(db.rows)[id])]
      ensures r == Says(Success) ==>
        var was := old(db.rows)[id]; db.rows[id] == Row(was.num, Available, None, None, was.version + 1)
      ensures trouble != UpdateFails && r != Says(Success) ==> db.rows == others(old(db.rows))
      ensures trouble != UpdateFails && r != Says(Success) ==>
        r == if trouble == ReadFails then NoAnswer else Says(Explained(db.rows, id, holder, later))
      ensures State() == if r == Says(Success) then AfterRelease(old(State()), id) else old(State())
      ensures r == Says(Success) ==> numberOf == old(numberOf) - {id}
      ensures r == Says(Success) && id in old(numberOf) && old(numberOf)[id] < |Hint()| ==>
        var n := old(numberOf)[id]; Hint() == old(Hint())[n := if old(Hint())[n] == 0 then 1 else old(Hint())[n]]
    {
      if trouble == UpdateFails {
        return NoAnswer;
      }
      ExplainedRelease(db.rows, id, holder, later);
      if id in db.rows && RowHeldBy(db.rows[id], holder) {
        db.Update(id, FreeRow(db.rows[id]));
        var n := ForgetNumber(id);
        if n.Some? {
          avail.Restocked(n.value);
        }
        return Says(Success);
      }
      db.Others(others);
      r := if trouble == ReadFails then NoAnswer else Says(Explained(db.rows, id, holder, later));
    }

    /** Loads a fresh hint beside the old one, then swaps; the remembered numbers stay. If the load fails, so
        does everything. */
    method Refresh(groups: seq<Group>, breaks: Option<nat>) returns (ok: bool)
      requires Valid() && Grouped(groups)
      modifies this`avail
      ensures Valid() && numberOf == old(numberOf) && (ok <==> breaks == None)
      ensures !ok ==> avail == old(avail)
      ensures ok ==> fresh(avail.Parts()) && |Hint()| == old(avail.space)
      ensures ok ==> forall n :: 0 <= n < |Hint()| ==> Hint()[n] == Loaded(groups, n)
    {
      var latest := new Availability(avail.space);
      ok := latest.Load(groups, breaks);
      if ok {
        avail := latest;
      }
    }
  }

  /** Right after a refresh that nobody overtook, every number with unsold stock passes the hint. */
  lemma {:induction false} FreshHintOverReports(groups: seq<Group>, t: Table, hint: Hint)
    requires AnswersLoad(groups, t)
    requires forall n :: 0 <= n < |hint| ==> hint[n] == Loaded(groups, n)
    requires forall id :: id in t ==> t[id].num < |hint|
    ensures OverReports(hint, t)
  {
    forall id | id in t && t[id].status != Sold ensures MaybeAvailable(hint, t[id].num) {
      LoadIsExact(groups, t, t[id].num);
      assert id in UnsoldRows(t, t[id].num);
    }
  }
}
