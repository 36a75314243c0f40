/** lottery-go/postgres/store.go and schema.sql: the tickets table and what each SQL statement does to it. */
module TicketTable {
  import opened Counting
  import opened Ledger
  import opened Allocation
  import opened Stock

  datatype Option<T> = None | Some(value: T) {

    function Or(default: T): T {
      if Some? then value else default
    }
  }

  /** One row of the tickets table; holder and lease_until are nullable. */
  datatype Row = Row(num: nat, status: Status, holder: Option<string>, leaseUntil: Option<int>, version: nat)

  type Table = map<int, Row>

  /** A reserved row names its holder and its lease. */
  predicate Consistent(row: Row) {
    row.status == Reserved ==> row.holder.Some? && row.leaseUntil.Some?
  }

  ghost predicate WellKept(t: Table) {
    forall id :: id in t ==> Consistent(t[id])
  }

  function View(row: Row): Slot {
    match row.status
    case Available => Free
    case Reserved => Held(row.holder.Or(""), row.leaseUntil.Or(0))
    case Sold => Taken
  }

  /** The table as a book. */
  function ViewBook(t: Table): (book: Book)
    ensures book.Keys == t.Keys
  {
    map id | id in t :: View(t[id])
  }

  ghost function Numbers(t: Table): map<int, nat> {
    map id | id in t :: t[id].num
  }

  // ---------------------------------------------------------------- WHERE clauses

  /** status = 0 OR (status = 1 AND lease_until < now()); a null lease compares to nothing. */
  predicate RowClaimable(row: Row, now: int) {
    row.status == Available || RowExpired(row, now)
  }

  predicate RowExpired(row: Row, now: int) {
    row.status == Reserved && row.leaseUntil.Some? && row.leaseUntil.value < now
  }

  predicate RowHeldBy(row: Row, holder: string) {
    row.status == Reserved && row.holder == Some(holder)
  }

  predicate RowConfirmable(row: Row, holder: string, now: int) {
    RowHeldBy(row, holder) && row.leaseUntil.Some? && row.leaseUntil.value >= now
  }

  /** On consistent rows the WHERE clauses are the conditions of the shared ledger. */
  lemma ClausesAreLegality(row: Row, id: int, holder: string, now: int, until: int)
    requires Consistent(row)
    ensures RowClaimable(row, now) <==> Legal(Claimed(id, holder, now, until), View(row))
    ensures RowExpired(row, now) <==> Legal(Reaped(id, now), View(row))
    ensures RowHeldBy(row, holder) <==> Legal(Released(id, holder), View(row))
    ensures RowConfirmable(row, holder, now) <==> Legal(Confirmed(id, holder, now), View(row))
  {
  }

  // ---------------------------------------------------------------- SET clauses

  function ReserveRow(row: Row, holder: string, until: int): Row {
    row.(status := Reserved, holder := Some(holder), leaseUntil := Some(until), version := row.version + 1)
  }

  /** A sale leaves holder and lease in place. */
  function SellRow(row: Row): Row {
    row.(status := Sold, version := row.version + 1)
  }

  function FreeRow(row: Row): Row {
    row.(status := Available, holder := None, leaseUntil := None, version := row.version + 1)
  }

  function ReserveRows(t: Table, ids: set<int>, holder: string, until: int): (r: Table)
    ensures r.Keys == t.Keys
  {
    map id | id in t :: if id in ids then ReserveRow(t[id], holder, until) else t[id]
  }

  function FreeRows(t: Table, ids: set<int>): (r: Table)
    ensures r.Keys == t.Keys
  {
    map id | id in t :: if id in ids then FreeRow(t[id]) else t[id]
  }

  lemma ReserveKeeps(t: Table, ids: set<int>, holder: string, until: int)
    requires WellKept(t)
    ensures WellKept(ReserveRows(t, ids, holder, until))
  {
  }

  /** Reserving rows is a grant in the book, and no row changes its number. */
  lemma ReserveIsGrant(t: Table, ids: set<int>, holder: string, until: int)
    ensures ViewBook(ReserveRows(t, ids, holder, until)) == Grant(ViewBook(t), ids, holder, until)
    ensures Numbers(ReserveRows(t, ids, holder, until)) == Numbers(t)
  {
    var r := ReserveRows(t, ids, holder, until);
    var numbers, same := Numbers(r), Numbers(t);
    assert forall id :: id in numbers <==> id in same;
    assert forall id :: id in numbers ==> numbers[id] == same[id];
    assert numbers == same;
    var after, grant := ViewBook(r), Grant(ViewBook(t), ids, holder, until);
    assert forall id :: id in after <==> id in grant;
    assert forall id :: id in after ==> after[id] == grant[id];
    assert after == grant;
  }

  lemma ReserveNothing(t: Table, holder: string, until: int)
    ensures ReserveRows(t, {}, holder, until) == t
  {
  }

  lemma ReserveOneMore(t: Table, ids: set<int>, id: int, holder: string, until: int)
    requires id in t && id !in ids
    ensures var r := ReserveRows(t, ids, holder, until);
      id in r && r[id := ReserveRow(r[id], holder, until)] == ReserveRows(t, ids + {id}, holder, until)
  {
  }

  lemma FreeOneMore(t: Table, ids: set<int>, id: int)
    requires id in t && id !in ids
    ensures var r := FreeRows(t, ids); id in r && r[id := FreeRow(r[id])] == FreeRows(t, ids + {id})
  {
  }

  // ---------------------------------------------------------------- which rows a statement takes

  /** Which of the eligible rows a statement takes is up to the query plan, as a function of the eligible rows. */
  datatype Planner = Planner(some: (set<int>, nat) -> Ids, one: set<int> -> int)

  /** LIMIT k takes k different eligible rows, or all of them if there are fewer. */
  ghost predicate TakesSome(plan: Planner, eligible: set<int>, k: nat) {
    var r := plan.some(eligible, k);
    r.Distinct() && r.Members() <= eligible && r.Len() == Min(k, |eligible|)
  }

  ghost predicate TakesOne(plan: Planner, eligible: set<int>) {
    eligible != {} ==> plan.one(eligible) in eligible
  }

  ghost predicate ProperPlan(plan: Planner) {
    && (forall eligible: set<int>, k: nat :: TakesSome(plan, eligible, k))
    && (forall eligible: set<int> :: TakesOne(plan, eligible))
  }

  ghost function AnyOf(s: set<int>, k: nat): Ids {
    if k > 0 && exists id :: id in s then var id :| id in s; Snoc(AnyOf(s - {id}, k - 1), id) else Nil
  }

  lemma {:induction false} AnyOfTakes(s: set<int>, k: nat)
    ensures var r := AnyOf(s, k); r.Distinct() && r.Members() <= s && r.Len() == Min(k, |s|)
  {
    if k > 0 && exists id :: id in s {
      var r := AnyOf(s, k);
      assert r.Snoc? && r.last in s && r.front == AnyOf(s - {r.last}, k - 1);
      AnyOfTakes(s - {r.last}, k - 1);
    }
  }

  ghost function AnyId(s: set<int>): int {
    if exists id :: id in s then var id :| id in s; id else 0
  }

  /** There is a proper plan. */
  lemma SomePlanIsProper()
    ensures exists plan: Planner :: ProperPlan(plan)
  {
    var plan := Planner((s: set<int>, k: nat) => AnyOf(s, k), (s: set<int>) => AnyId(s));
    forall s: set<int>, k: nat ensures TakesSome(plan, s, k) {
      AnyOfTakes(s, k);
    }
    forall eligible: set<int> ensures TakesOne(plan, eligible) {
      assert (exists id :: id in eligible) || eligible == {};
    }
    assert ProperPlan(plan);
  }

  /** A claimable row nobody else has locked: SKIP LOCKED steps over the others. */
  predicate Open(t: Table, id: int, now: int, locked: set<int>) {
    id in t && RowClaimable(t[id], now) && id !in locked
  }

  function EligibleOf(t: Table, n: nat, now: int, locked: set<int>): set<int> {
    set id | id in t && t[id].num == n && Open(t, id, now, locked)
  }

  function EligibleAmong(t: Table, nums: seq<nat>, now: int, locked: set<int>): set<int> {
    set id | id in t && t[id].num in nums && Open(t, id, now, locked)
  }

  /** distinctClaimSQL: the candidates in their given order, one open row of each, the first `want` of those. */
  function DistinctPicks(t: Table, nums: seq<nat>, now: int, locked: set<int>, want: nat, plan: Planner): Ids {
    if nums == [] then Nil
    else AddOne(EligibleOf(t, nums[|nums| - 1], now, locked), want, plan,
      DistinctPicks(t, Front(nums), now, locked, want, plan))
  }

  function AddOne(eligible: set<int>, want: nat, plan: Planner, before: Ids): Ids {
    if before.Len() < want && eligible != {} then Snoc(before, plan.one(eligible)) else before
  }

  /** claimSQL: any `want` open rows of the candidate numbers. */
  function PlainPicks(t: Table, nums: seq<nat>, now: int, locked: set<int>, want: nat, plan: Planner): Ids {
    plan.some(EligibleAmong(t, nums, now, locked), want)
  }

  /** Every id is open and carries one of these numbers. */
  ghost predicate OpenAmong(ids: Ids, t: Table, nums: seq<nat>, now: int, locked: set<int>) {
    ids.Nil? || (OpenAmong(ids.front, t, nums, now, locked) && Open(t, ids.last, now, locked) &&
      t[ids.last].num in nums)
  }

  lemma {:induction false} OpenAmongWider(ids: Ids, t: Table, nums: seq<nat>, more: seq<nat>, now: int,
      locked: set<int>)
    requires OpenAmong(ids, t, nums, now, locked) && forall n :: n in nums ==> n in more
    ensures OpenAmong(ids, t, more, now, locked)
  {
    if ids.Snoc? {
      OpenAmongWider(ids.front, t, nums, more, now, locked);
    }
  }

  lemma {:induction false} OpenAmongMembers(ids: Ids, t: Table, nums: seq<nat>, now: int, locked: set<int>)
    ensures OpenAmong(ids, t, nums, now, locked) <==>
      forall id :: id in ids.Members() ==> Open(t, id, now, locked) && t[id].num in nums
  {
    if ids.Snoc? {
      OpenAmongMembers(ids.front, t, nums, now, locked);
      if !OpenAmong(ids, t, nums, now, locked) && OpenAmong(ids.front, t, nums, now, locked) {
        assert ids.last in ids.Members();
      }
    }
  }

  /** No two of these tickets carry the same number. */
  ghost predicate OnePerNumber(ids: Ids, t: Table) {
    ids.Nil? || (OnePerNumber(ids.front, t) && NotCarried(ids.front, t, if ids.last in t then t[ids.last].num else 0))
  }

  ghost predicate NotCarried(ids: Ids, t: Table, n: nat) {
    ids.Nil? || (NotCarried(ids.front, t, n) && (ids.last in t ==> t[ids.last].num != n))
  }

  lemma {:induction false} NotCarriedBy(ids: Ids, t: Table, nums: seq<nat>, n: nat, now: int, locked: set<int>)
    requires OpenAmong(ids, t, nums, now, locked) && n !in nums
    ensures NotCarried(ids, t, n)
    ensures forall id :: id in ids.Members() ==> id in t && t[id].num != n
  {
    if ids.Snoc? {
      NotCarriedBy(ids.front, t, nums, n, now, locked);
    }
  }

  /** One ticket per candidate number at most: all open, all different, no number twice. */
  lemma {:induction false} DistinctPicksSound(t: Table, nums: seq<nat>, now: int, locked: set<int>, want: nat,
      plan: Planner)
    requires ProperPlan(plan) && NoDuplicates(nums)
    ensures var r := DistinctPicks(t, nums, now, locked, want, plan);
      OpenAmong(r, t, nums, now, locked) && r.Distinct() && OnePerNumber(r, t) && r.Len() <= want
  {
    if nums != [] {
      var front, n := Front(nums), nums[|nums| - 1];
      DistinctPicksSound(t, front, now, locked, want, plan);
      var before, eligible := DistinctPicks(t, front, now, locked, want, plan), EligibleOf(t, n, now, locked);
      assert n !in front;
      assert TakesOne(plan, eligible);
      NotCarriedBy(before, t, front, n, now, locked);
      OpenAmongWider(before, t, front, nums, now, locked);
    }
  }

  /** Whatever the candidates, only open rows are picked. */
  lemma {:induction false} DistinctPicksOpen(t: Table, nums: seq<nat>, now: int, locked: set<int>, want: nat,
      plan: Planner)
    requires ProperPlan(plan)
    ensures forall id :: id in DistinctPicks(t, nums, now, locked, want, plan).Members() ==> Open(t, id, now, locked)
  {
    if nums != [] {
      DistinctPicksOpen(t, Front(nums), now, locked, want, plan);
      assert TakesOne(plan, EligibleOf(t, nums[|nums| - 1], now, locked));
    }
  }

  /** Some picked row carries number n. */
  ghost predicate Carried(ids: Ids, t: Table, n: nat) {
    ids.Snoc? && (Carried(ids.front, t, n) || (ids.last in t && t[ids.last].num == n))
  }

  /** Unless the limit is reached, every candidate number with an open row contributes one. */
  lemma {:induction false} DistinctPicksWide(t: Table, nums: seq<nat>, now: int, locked: set<int>, want: nat,
      plan: Planner, n: nat)
    requires ProperPlan(plan) && n in nums && EligibleOf(t, n, now, locked) != {}
    requires DistinctPicks(t, nums, now, locked, want, plan).Len() < want
    ensures Carried(DistinctPicks(t, nums, now, locked, want, plan), t, n)
  {
    var front, last := Front(nums), nums[|nums| - 1];
    var before, eligible := DistinctPicks(t, front, now, locked, want, plan), EligibleOf(t, last, now, locked);
    assert TakesOne(plan, eligible);
    if n != last {
      assert n in front;
      DistinctPicksWide(t, front, now, locked, want, plan, n);
    }
  }

  lemma {:induction false} CarriedAmong(ids: Ids, t: Table, nums: seq<nat>, n: nat, now: int, locked: set<int>)
    requires OpenAmong(ids, t, nums, now, locked) && Carried(ids, t, n)
    ensures n in nums && EligibleOf(t, n, now, locked) != {}
  {
    if ids.last in t && t[ids.last].num == n {
      assert ids.last in EligibleOf(t, n, now, locked);
    } else {
      CarriedAmong(ids.front, t, nums, n, now, locked);
    }
  }

  /** Under the limit the candidates earliest in the batch win: one that contributes has none before it that could have
      contributed and did not. */
  lemma {:induction false} EarliestCandidatesWin(t: Table, nums: seq<nat>, now: int, locked: set<int>, want: nat,
      plan: Planner, i: nat, j: nat)
    requires ProperPlan(plan) && NoDuplicates(nums) && i < j < |nums|
    requires Carried(DistinctPicks(t, nums, now, locked, want, plan), t, nums[j])
    requires EligibleOf(t, nums[i], now, locked) != {}
    ensures Carried(DistinctPicks(t, nums, now, locked, want, plan), t, nums[i])
  {
    var front, last := Front(nums), nums[|nums| - 1];
    var before, eligible := DistinctPicks(t, front, now, locked, want, plan), EligibleOf(t, last, now, locked);
    assert nums[i] == front[i] && front[i] in front;
    assert TakesOne(plan, eligible);
    DistinctPicksSound(t, front, now, locked, want, plan);
    if before.Len() < want {
      DistinctPicksWide(t, front, now, locked, want, plan, front[i]);
    } else if j < |front| {
      EarliestCandidatesWin(t, front, now, locked, want, plan, i, j);
    } else {
      CarriedAmong(before, t, front, nums[j], now, locked);
    }
  }

  lemma {:induction false} PlainPicksSound(t: Table, nums: seq<nat>, now: int, locked: set<int>, want: nat,
      plan: Planner)
    requires ProperPlan(plan)
    ensures var r := PlainPicks(t, nums, now, locked, want, plan);
      OpenAmong(r, t, nums, now, locked) && r.Distinct() && r.Len() == Min(want, |EligibleAmong(t, nums, now, locked)|)
  {
    var eligible := EligibleAmong(t, nums, now, locked);
    assert TakesSome(plan, eligible, want);
    OpenAmongMembers(plan.some(eligible, want), t, nums, now, locked);
  }
}
