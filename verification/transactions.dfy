/** Concurrent transactions on the tickets table: row locks, FOR UPDATE SKIP LOCKED, commit and rollback
    (lottery-go/postgres/store.go). Assumed of the database: a statement sees committed rows only, a row is locked by
    one transaction at a time, a WHERE clause is checked on the row under its lock, and locks last until the
    transaction ends. */
module Transactions {
  import opened Ledger
  import opened Allocation
  import opened Stock
  import opened TicketTable

  /** The statement a transaction runs. */
  datatype Work =
    | ClaimFor(holder: string, lease: int)
    | ConfirmBy(id: int, holder: string)
    | ReleaseBy(id: int, holder: string)
    | Reaping

  /** now() is fixed when the transaction begins. `locks` are the rows it holds, `writes` the ones it has updated
      so far. */
  datatype Tx = Tx(work: Work, now: int, locks: set<int>, writes: Ids)

  /** Committed rows, running transactions, and the committed changes in commit order. */
  datatype Server = Server(rows: Table, txs: map<int, Tx>, log: History)

  datatype Action =
    | Start(t: int, work: Work, now: int)
    | Lock(t: int, id: int)
    | Write(t: int, id: int)
    | Commit(t: int)
    | Rollback(t: int)

  /** The WHERE clause. */
  predicate Passes(w: Work, id: int, row: Row, now: int) {
    match w
    case ClaimFor(_, _) => RowClaimable(row, now)
    case ConfirmBy(target, holder) => id == target && RowConfirmable(row, holder, now)
    case ReleaseBy(target, holder) => id == target && RowHeldBy(row, holder)
    case Reaping => RowExpired(row, now)
  }

  /** The SET clause. */
  function Updated(w: Work, row: Row, now: int): Row {
    match w
    case ClaimFor(holder, lease) => ReserveRow(row, holder, now + lease)
    case ConfirmBy(_, _) => SellRow(row)
    case ReleaseBy(_, _) => FreeRow(row)
    case Reaping => FreeRow(row)
  }

  function EventOf(w: Work, id: int, now: int): Event {
    match w
    case ClaimFor(holder, lease) => Claimed(id, holder, now, now + lease)
    case ConfirmBy(_, holder) => Confirmed(id, holder, now)
    case ReleaseBy(_, holder) => Released(id, holder)
    case Reaping => Reaped(id, now)
  }

  lemma UpdateIsEvent(w: Work, id: int, row: Row, now: int)
    requires Consistent(row) && Passes(w, id, row, now)
    ensures Legal(EventOf(w, id, now), View(row)) && View(Updated(w, row, now)) == After(EventOf(w, id, now))
    ensures Consistent(Updated(w, row, now)) && Updated(w, row, now).version == row.version + 1
  {
  }

  function Rewritten(rows: Table, w: Work, now: int, writes: Ids): (r: Table)
    ensures r.Keys == rows.Keys
  {
    if writes.Nil? then rows
    else
      var before := Rewritten(rows, w, now, writes.front);
      if writes.last in before then before[writes.last := Updated(w, before[writes.last], now)] else before
  }

  function Logged(log: History, w: Work, now: int, writes: Ids): History {
    if writes.Nil? then log else Then(Logged(log, w, now, writes.front), EventOf(w, writes.last, now))
  }

  /** SKIP LOCKED: a row somebody else has locked is not there. */
  ghost predicate LockedByOther(txs: map<int, Tx>, t: int, id: int) {
    exists other :: other in txs && other != t && id in txs[other].locks
  }

  ghost predicate Enabled(d: Server, a: Action) {
    match a
    case Start(t, _, _) => t !in d.txs
    case Lock(t, id) =>
      t in d.txs && id in d.rows && !LockedByOther(d.txs, t, id) && Passes(d.txs[t].work, id, d.rows[id], d.txs[t].now)
    case Write(t, id) => t in d.txs && id in d.txs[t].locks && id !in d.txs[t].writes.Members()
    case Commit(t) => t in d.txs
    case Rollback(t) => t in d.txs
  }

  ghost function Next(d: Server, a: Action): Server
    requires Enabled(d, a)
  {
    match a
    case Start(t, work, now) => d.(txs := d.txs[t := Tx(work, now, {}, Nil)])
    case Lock(t, id) => d.(txs := d.txs[t := d.txs[t].(locks := d.txs[t].locks + {id})])
    case Write(t, id) => d.(txs := d.txs[t := d.txs[t].(writes := Snoc(d.txs[t].writes, id))])
    case Commit(t) =>
      var tx := d.txs[t];
      Server(Rewritten(d.rows, tx.work, tx.now, tx.writes), d.txs - {t}, Logged(d.log, tx.work, tx.now, tx.writes))
    case Rollback(t) => d.(txs := d.txs - {t})
  }

  // ---------------------------------------------------------------- the invariant

  /** No row is locked twice. */
  ghost predicate LocksDisjoint(txs: map<int, Tx>) {
    forall t, u :: t in txs && u in txs && t != u ==> txs[t].locks !! txs[u].locks
  }

  /** A transaction writes rows it has locked, each once, and every row it has locked still passes its WHERE clause. */
  ghost predicate TxInv(tx: Tx, rows: Table) {
    && tx.writes.Distinct() && tx.writes.Members() <= tx.locks
    && forall id :: id in tx.locks ==> id in rows && Passes(tx.work, id, rows[id], tx.now)
  }

  /** How often a ticket changed. */
  function Changes(log: History, id: int): nat {
    if log.NoEvents? then 0 else Changes(log.past, id) + if log.last.id == id then 1 else 0
  }

  /** The log explains the table, row by row, down to the version numbers. */
  ghost predicate Explains(log: History, rows: Table) {
    && Lawful(rows.Keys, log)
    && (forall id :: id in rows ==>
       Current(rows.Keys, log)[id] == View(rows[id]) && rows[id].version == Changes(log, id))
  }

  ghost predicate Inv(d: Server) {
    && WellKept(d.rows)
    && LocksDisjoint(d.txs)
    && (forall t :: t in d.txs ==> TxInv(d.txs[t], d.rows))
    && Explains(d.log, d.rows)
  }

  lemma {:induction false} RewrittenElsewhere(rows: Table, w: Work, now: int, writes: Ids, id: int)
    requires id in rows && id !in writes.Members()
    ensures Rewritten(rows, w, now, writes)[id] == rows[id]
  {
    if writes.Snoc? {
      RewrittenElsewhere(rows, w, now, writes.front, id);
    }
  }

  /** Committing the writes of one transaction appends a legal event for each of them. */
  lemma {:induction false} CommitExplains(rows: Table, log: History, tx: Tx, writes: Ids)
    requires WellKept(rows) && Explains(log, rows)
    requires writes.Distinct() && forall id :: id in writes.Members() ==>
      id in rows && Passes(tx.work, id, rows[id], tx.now)
    ensures WellKept(Rewritten(rows, tx.work, tx.now, writes))
    ensures Explains(Logged(log, tx.work, tx.now, writes), Rewritten(rows, tx.work, tx.now, writes))
  {
    if writes.Snoc? {
      CommitExplains(rows, log, tx, writes.front);
      RewrittenElsewhere(rows, tx.work, tx.now, writes.front, writes.last);
      assert writes.last in writes.Members();
      var before, soFar := Rewritten(rows, tx.work, tx.now, writes.front), Logged(log, tx.work, tx.now, writes.front);
      WriteExplains(before, soFar, tx.work, tx.now, writes.last);
    }
  }

  lemma {:induction false} WriteExplains(rows: Table, log: History, w: Work, now: int, id: int)
    requires WellKept(rows) && Explains(log, rows) && id in rows && Passes(w, id, rows[id], now)
    ensures WellKept(rows[id := Updated(w, rows[id], now)])
    ensures Explains(Then(log, EventOf(w, id, now)), rows[id := Updated(w, rows[id], now)])
  {
    UpdateIsEvent(w, id, rows[id], now);
    var after, longer := rows[id := Updated(w, rows[id], now)], Then(log, EventOf(w, id, now));
    assert after.Keys == rows.Keys;
    forall x | x in after
      ensures Current(after.Keys, longer)[x] == View(after[x]) && after[x].version == Changes(longer, x)
    {
      assert Current(rows.Keys, log)[x] == View(rows[x]);
    }
  }

  lemma OthersUndisturbed(d: Server, t: int, u: int)
    requires Inv(d) && t in d.txs && u in d.txs && u != t
    ensures TxInv(d.txs[u], Rewritten(d.rows, d.txs[t].work, d.txs[t].now, d.txs[t].writes))
  {
    var tx, other := d.txs[t], d.txs[u];
    assert TxInv(tx, d.rows) && TxInv(other, d.rows);
    forall id | id in other.locks
      ensures id in d.rows && Passes(other.work, id, Rewritten(d.rows, tx.work, tx.now, tx.writes)[id], other.now)
    {
      assert id !in tx.writes.Members();
      RewrittenElsewhere(d.rows, tx.work, tx.now, tx.writes, id);
    }
  }

  lemma CommitKeeps(d: Server, t: int)
    requires Inv(d) && t in d.txs
    ensures Inv(Next(d, Commit(t)))
  {
    var tx, next := d.txs[t], Next(d, Commit(t));
    assert TxInv(tx, d.rows);
    CommitExplains(d.rows, d.log, tx, tx.writes);
    forall u | u in next.txs ensures TxInv(next.txs[u], next.rows) {
      OthersUndisturbed(d, t, u);
    }
  }

  lemma StepKeeps(d: Server, a: Action)
    requires Inv(d) && Enabled(d, a)
    ensures Inv(Next(d, a))
  {
    match a
    case Start(t, work, now) => TxChanged(d, t, Tx(work, now, {}, Nil));
    case Lock(t, id) =>
      assert TxInv(d.txs[t], d.rows);
      TxChanged(d, t, d.txs[t].(locks := d.txs[t].locks + {id}));
    case Write(t, id) =>
      assert TxInv(d.txs[t], d.rows);
      TxChanged(d, t, d.txs[t].(writes := Snoc(d.txs[t].writes, id)));
    case Commit(t) => CommitKeeps(d, t);
    case Rollback(t) =>
  }

  /** One transaction moves on without touching rows or the locks of others. */
  lemma TxChanged(d: Server, t: int, tx: Tx)
    requires Inv(d) && TxInv(tx, d.rows)
    requires forall id :: id in tx.locks ==> !LockedByOther(d.txs, t, id)
    ensures Inv(d.(txs := d.txs[t := tx]))
  {
    var next := d.txs[t := tx];
    forall u, v | u in next && v in next && u != v ensures next[u].locks !! next[v].locks {
      if u == t || v == t {
        var other := if u == t then v else u;
        forall id | id in tx.locks ensures id !in d.txs[other].locks {
          assert !LockedByOther(d.txs, t, id);
        }
      }
    }
  }

  // ---------------------------------------------------------------- runs

  datatype Run = Begin(rows: Table) | More(past: Run, a: Action)

  ghost function Final(run: Run): Server {
    match run
    case Begin(rows) => Server(rows, map[], NoEvents)
    case More(past, a) => if Enabled(Final(past), a) then Next(Final(past), a) else Final(past)
  }

  /** The table starts with every ticket available, never changed. */
  ghost predicate Possible(run: Run) {
    match run
    case Begin(rows) => forall id :: id in rows ==> rows[id].status == Available && rows[id].version == 0
    case More(past, a) => Possible(past) && Enabled(Final(past), a)
  }

  lemma {:induction false} RunKeeps(run: Run)
    requires Possible(run)
    ensures Inv(Final(run))
  {
    match run
    case Begin(rows) =>
    case More(past, a) =>
      RunKeeps(past);
      StepKeeps(Final(past), a);
  }

  /** In every reachable state no row is locked by two transactions, and every locked row still meets the condition its
      transaction locked it for. */
  lemma {:induction false} LocksAreExclusive(run: Run, t: int, u: int, id: int)
    requires Possible(run)
    requires var txs := Final(run).txs; t in txs && u in txs && id in txs[t].locks && id in txs[u].locks
    ensures t == u && id in Final(run).rows &&
      Passes(Final(run).txs[t].work, id, Final(run).rows[id], Final(run).txs[t].now)
  {
    RunKeeps(run);
  }

  /** The committed changes of every run form a legal log whose replay is the table. */
  lemma {:induction false} CommittedLogIsLegal(run: Run)
    requires Possible(run)
    ensures var d := Final(run); var events := d.log.Events();
      LegalLog(d.rows.Keys, events) && Replay(d.rows.Keys, events) == ViewBook(d.rows)
  {
    RunKeeps(run);
    var d := Final(run);
    HistoryIsLog(d.rows.Keys, d.log);
    var replay, book := Replay(d.rows.Keys, d.log.Events()), ViewBook(d.rows);
    assert forall id :: id in book ==> replay[id] == book[id];
    assert replay == book;
  }

  /** Hence, whatever the interleaving: two committed claims of one ticket are separated by a release by the first
      holder or by the strict expiry of the first lease, a sold ticket never changes again, and only the holder of a
      live claim gets to confirm. */
  lemma {:induction false} Exclusive(run: Run, i: nat, j: nat)
    requires Possible(run)
    requires var events := Final(run).log.Events(); i < j < |events| && events[j].id == events[i].id
    ensures var events := Final(run).log.Events();
      && (events[i].Claimed? && events[j].Claimed? ==> exists m :: i < m <= j && EndsClaim(events, i, m))
      && !events[i].Confirmed?
      && (events[j].Confirmed? ==>
         exists m: nat :: m < j && LiveClaim(events, m, j, events[j].id, events[j].holder, events[j].now))
  {
    CommittedLogIsLegal(run);
    var ids, events := Final(run).rows.Keys, Final(run).log.Events();
    if events[i].Claimed? && events[j].Claimed? {
      ClaimsAreSeparated(ids, events, i, j);
    }
    if events[i].Confirmed? {
      SoldIsAbsorbing(ids, events, i, j);
    }
    if events[j].Confirmed? {
      ConfirmFollowsLiveClaim(ids, events, j);
    }
  }

  /** A row's version counts exactly the committed changes of its ticket. */
  lemma {:induction false} VersionCountsChanges(run: Run, id: int)
    requires Possible(run) && id in Final(run).rows
    ensures Final(run).rows[id].version == Changes(Final(run).log, id)
  {
    RunKeeps(run);
  }

  // ---------------------------------------------------------------- every statement is such a transaction

  /** The rows a statement picks: there, eligible, and not locked by anybody else. */
  ghost predicate Pickable(d: Server, t: int, work: Work, now: int, ids: Ids) {
    forall id :: id in ids.Members() ==>
      id in d.rows && Passes(work, id, d.rows[id], now) && !LockedByOther(d.txs, t, id)
  }

  lemma {:induction false} LockAll(run: Run, t: int, ids: Ids) returns (after: Run)
    requires Possible(run) && t in Final(run).txs
    requires Pickable(Final(run), t, Final(run).txs[t].work, Final(run).txs[t].now, ids)
    ensures Possible(after)
    ensures var d := Final(run);
      Final(after) == d.(txs := d.txs[t := d.txs[t].(locks := d.txs[t].locks + ids.Members())])
  {
    var d := Final(run);
    if ids.Nil? {
      after := run;
      assert d.txs[t].(locks := d.txs[t].locks + {}) == d.txs[t];
      assert d.txs[t := d.txs[t]] == d.txs;
    } else {
      after := LockAll(run, t, ids.front);
      var mid, id, tx := Final(after), ids.last, d.txs[t];
      assert id in ids.Members();
      assert !LockedByOther(mid.txs, t, id) by {
        assert !LockedByOther(d.txs, t, id);
      }
      after := More(after, Lock(t, id));
      assert tx.locks + ids.front.Members() + {id} == tx.locks + ids.Members();
      assert Final(after).txs == d.txs[t := tx.(locks := tx.locks + ids.Members())];
    }
  }

  lemma {:induction false} WriteAll(run: Run, t: int, ids: Ids) returns (after: Run)
    requires Possible(run) && t in Final(run).txs && Final(run).txs[t].writes == Nil
    requires ids.Distinct() && ids.Members() <= Final(run).txs[t].locks
    ensures var d := Final(run); Possible(after) && Final(after) == d.(txs := d.txs[t := d.txs[t].(writes := ids)])
  {
    var d := Final(run);
    if ids.Nil? {
      after := run;
      assert d.txs[t := d.txs[t]] == d.txs;
    } else {
      after := WriteAll(run, t, ids.front);
      after := More(after, Write(t, ids.last));
      assert Final(after).txs == d.txs[t := d.txs[t].(writes := ids)];
    }
  }

  /** Whatever the statement, from any reachable state a transaction can start, lock exactly the rows the statement
      picks, write them and commit, and no other transaction notices but in the table. */
  lemma {:induction false} StatementIsTransaction(run: Run, t: int, work: Work, now: int, picks: Ids)
    returns (after: Run)
    requires Possible(run) && t !in Final(run).txs && picks.Distinct() && Pickable(Final(run), t, work, now, picks)
    ensures Possible(after) && Final(after).txs == Final(run).txs
    ensures Final(after).rows == Rewritten(Final(run).rows, work, now, picks)
  {
    var d := Final(run);
    after := More(run, Start(t, work, now));
    var begun := Final(after);
    forall id | id in picks.Members() ensures !LockedByOther(begun.txs, t, id) {
      StartLocksNothing(d, t, work, now, id);
    }
    after := LockAll(after, t, picks);
    assert {} + picks.Members() == picks.Members();
    after := WriteAll(after, t, picks);
    assert Final(after).txs[t] == Tx(work, now, picks.Members(), picks);
    after := More(after, Commit(t));
    assert Final(after).txs == d.txs;
  }

  lemma StartLocksNothing(d: Server, t: int, work: Work, now: int, id: int)
    requires t !in d.txs && !LockedByOther(d.txs, t, id)
    ensures !LockedByOther(Next(d, Start(t, work, now)).txs, t, id)
  {
    var begun := Next(d, Start(t, work, now));
    forall other | other in begun.txs && other != t ensures id !in begun.txs[other].locks {
      assert other in d.txs;
    }
  }

  lemma {:induction false} RewrittenClaim(rows: Table, holder: string, lease: int, now: int, writes: Ids)
    requires writes.Distinct() && forall id :: id in writes.Members() ==> id in rows
    ensures Rewritten(rows, ClaimFor(holder, lease), now, writes) ==
      ReserveRows(rows, writes.Members(), holder, now + lease)
  {
    if writes.Nil? {
      ReserveNothing(rows, holder, now + lease);
    } else {
      RewrittenClaim(rows, holder, lease, now, writes.front);
      assert writes.last in writes.Members();
      ReserveOneMore(rows, writes.front.Members(), writes.last, holder, now + lease);
    }
  }

  lemma {:induction false} RewrittenSweep(rows: Table, now: int, writes: Ids)
    requires writes.Distinct() && forall id :: id in writes.Members() ==> id in rows
    ensures Rewritten(rows, Reaping, now, writes) == FreeRows(rows, writes.Members())
  {
    if writes.Nil? {
      assert FreeRows(rows, {}) == rows;
    } else {
      RewrittenSweep(rows, now, writes.front);
      assert writes.last in writes.Members();
      FreeOneMore(rows, writes.front.Members(), writes.last);
    }
  }

  /** The claim statement of the batch loops, on rows picked past everything others have locked. */
  lemma {:induction false} ClaimIsTransaction(run: Run, t: int, holder: string, lease: int, now: int, picks: Ids,
      nums: seq<nat>, locked: set<int>)
    returns (after: Run)
    requires Possible(run) && t !in Final(run).txs && picks.Distinct()
    requires OpenAmong(picks, Final(run).rows, nums, now, locked)
    requires forall id :: LockedByOther(Final(run).txs, t, id) ==> id in locked
    ensures Possible(after) && Final(after).txs == Final(run).txs
    ensures Final(after).rows == ReserveRows(Final(run).rows, picks.Members(), holder, now + lease)
  {
    OpenAmongMembers(picks, Final(run).rows, nums, now, locked);
    after := StatementIsTransaction(run, t, ClaimFor(holder, lease), now, picks);
    RewrittenClaim(Final(run).rows, holder, lease, now, picks);
  }

  /** The sweep, on expired rows picked past everything others have locked. */
  lemma {:induction false} SweepIsTransaction(run: Run, t: int, now: int, picks: Ids) returns (after: Run)
    requires Possible(run) && t !in Final(run).txs && picks.Distinct()
    requires forall id :: id in picks.Members() ==>
      id in Final(run).rows && RowExpired(Final(run).rows[id], now) && !LockedByOther(Final(run).txs, t, id)
    ensures Possible(after) && Final(after).txs == Final(run).txs
    ensures Final(after).rows == FreeRows(Final(run).rows, picks.Members())
  {
    after := StatementIsTransaction(run, t, Reaping, now, picks);
    RewrittenSweep(Final(run).rows, now, picks);
  }

  /** A confirmation or release whose row passes and is not locked by anybody else. */
  lemma {:induction false} UpdateIsTransaction(run: Run, t: int, work: Work, id: int, now: int) returns (after: Run)
    requires Possible(run) && t !in Final(run).txs && id in Final(run).rows && !LockedByOther(Final(run).txs, t, id)
    requires (work.ConfirmBy? || work.ReleaseBy?) && Passes(work, id, Final(run).rows[id], now)
    ensures Possible(after) && Final(after).txs == Final(run).txs
    ensures var row := Final(run).rows[id];
      Final(after).rows == Final(run).rows[id := if work.ConfirmBy? then SellRow(row) else FreeRow(row)]
  {
    var one := Snoc(Nil, id);
    assert one.Members() == {id};
    after := StatementIsTransaction(run, t, work, now, one);
    assert Rewritten(Final(run).rows, work, now, Nil) == Final(run).rows;
  }
}
