/** The life of a ticket, shared by every backend: which moves are legal and what a log of them implies. */
module Ledger {
  import opened Counting

  /** Free, held by someone until a moment, or sold for good. */
  datatype Slot = Free | Held(holder: string, until: int) | Taken

  type Book = map<int, Slot>

  datatype Verdict = Success | TicketNotFound | NotHeld | LeaseExpired

  datatype Event =
    | Claimed(id: int, holder: string, now: int, until: int)
    | Confirmed(id: int, holder: string, now: int)
    | Released(id: int, holder: string)
    | Reaped(id: int, now: int)

  /** Free, or held with a lease that is strictly over. */
  predicate Claimable(s: Slot, now: int) {
    s.Free? || (s.Held? && now > s.until)
  }

  /** A known ticket that a claim at this moment may take. */
  predicate ClaimableIn(book: Book, id: int, now: int) {
    id in book && Claimable(book[id], now)
  }

  predicate Legal(e: Event, s: Slot) {
    match e
    case Claimed(_, _, now, _) => Claimable(s, now)
    case Confirmed(_, holder, now) => s.Held? && s.holder == holder && now <= s.until
    case Released(_, holder) => s.Held? && s.holder == holder
    case Reaped(_, now) => s.Held? && now > s.until
  }

  function After(e: Event): Slot {
    match e
    case Claimed(_, holder, _, until) => Held(holder, until)
    case Confirmed(_, _, _) => Taken
    case Released(_, _) => Free
    case Reaped(_, _) => Free
  }

  function ConfirmVerdict(book: Book, id: int, holder: string, now: int): Verdict {
    if id !in book then TicketNotFound
    else if !book[id].Held? || book[id].holder != holder then NotHeld
    else if now > book[id].until then LeaseExpired
    else Success
  }

  function ReleaseVerdict(book: Book, id: int, holder: string): Verdict {
    if id !in book then TicketNotFound
    else if !book[id].Held? || book[id].holder != holder then NotHeld
    else Success
  }

  ghost function FreeIn(book: Book): set<int> {
    set id | id in book && book[id].Free?
  }

  ghost function HeldIn(book: Book): set<int> {
    set id | id in book && book[id].Held?
  }

  ghost function TakenIn(book: Book): set<int> {
    set id | id in book && book[id].Taken?
  }

  lemma Conservation(book: Book)
    ensures |FreeIn(book)| + |HeldIn(book)| + |TakenIn(book)| == |book.Keys|
  {
    assert book.Keys == FreeIn(book) + HeldIn(book) + TakenIn(book);
  }

  /** The book after a log, starting from every ticket free. */
  function Replay(ids: set<int>, log: seq<Event>): (book: Book)
    ensures book.Keys == ids
  {
    if log == [] then map id | id in ids :: Free
    else Apply(Replay(ids, Front(log)), log[|log| - 1])
  }

  function Apply(book: Book, e: Event): (r: Book)
    ensures r.Keys == book.Keys
  {
    if e.id in book then book[e.id := After(e)] else book
  }

  /** Every event was legal when it happened. */
  ghost predicate LegalLog(ids: set<int>, log: seq<Event>) {
    log == [] || (LegalLog(ids, Front(log)) && LegalAt(ids, log, |log| - 1))
  }

  ghost predicate LegalAt(ids: set<int>, log: seq<Event>, i: nat)
    requires i < |log|
  {
    log[i].id in ids && Legal(log[i], Replay(ids, log[..i])[log[i].id])
  }

  lemma {:induction false} EveryEventLegal(ids: set<int>, log: seq<Event>)
    requires LegalLog(ids, log)
    ensures forall i :: 0 <= i < |log| ==> LegalAt(ids, log, i)
  {
    if log != [] {
      EveryEventLegal(ids, Front(log));
      forall i | 0 <= i < |log| ensures LegalAt(ids, log, i) {
        if i < |log| - 1 {
          assert LegalAt(ids, Front(log), i);
          assert Front(log)[..i] == log[..i];
        }
      }
    }
  }

  /** One more legal event keeps the log legal and moves exactly one slot. */
  lemma {:induction false} Append(ids: set<int>, log: seq<Event>, e: Event)
    requires LegalLog(ids, log) && e.id in ids && Legal(e, Replay(ids, log)[e.id])
    ensures LegalLog(ids, log + [e])
    ensures Replay(ids, log + [e]) == Replay(ids, log)[e.id := After(e)]
  {
    var longer := log + [e];
    assert Front(longer) == log == longer[..|longer| - 1];
  }

  /** A log grown one event at a time. */
  datatype History = NoEvents | Then(past: History, last: Event) {

    function Events(): seq<Event> {
      if NoEvents? then [] else past.Events() + [last]
    }
  }

  function Current(ids: set<int>, h: History): (book: Book)
    ensures book.Keys == ids
  {
    if h.NoEvents? then map id | id in ids :: Free else Apply(Current(ids, h.past), h.last)
  }

  predicate Lawful(ids: set<int>, h: History) {
    h.NoEvents? || (Lawful(ids, h.past) && h.last.id in ids && Legal(h.last, Current(ids, h.past)[h.last.id]))
  }

  lemma {:induction false} HistoryIsLog(ids: set<int>, h: History)
    requires Lawful(ids, h)
    ensures LegalLog(ids, h.Events()) && Replay(ids, h.Events()) == Current(ids, h)
  {
    if h.Then? {
      HistoryIsLog(ids, h.past);
      Append(ids, h.past.Events(), h.last);
    }
  }

  ghost predicate Quiet(log: seq<Event>, from: int, to: int, id: int)
    requires 0 <= from && to <= |log|
  {
    forall i :: from <= i < to ==> log[i].id != id
  }

  /** A slot stays as its last event left it. */
  lemma {:induction false} SlotSince(ids: set<int>, log: seq<Event>, i: nat, j: nat)
    requires i < j <= |log| && log[i].id in ids
    requires Quiet(log, i + 1, j, log[i].id)
    ensures Replay(ids, log[..j])[log[i].id] == After(log[i])
  {
    assert Front(log[..j]) == log[..j - 1];
    if i + 1 < j {
      SlotSince(ids, log, i, j - 1);
    }
  }

  lemma {:induction false} SlotUntouched(ids: set<int>, log: seq<Event>, id: int, j: nat)
    requires j <= |log| && id in ids && Quiet(log, 0, j, id)
    ensures Replay(ids, log[..j])[id] == Free
  {
    if j > 0 {
      assert Front(log[..j]) == log[..j - 1];
      SlotUntouched(ids, log, id, j - 1);
    }
  }

  /** The last event on id before position j, if there was one. */
  lemma {:induction false} LastEvent(log: seq<Event>, id: int, j: nat) returns (i: int)
    requires j <= |log|
    ensures -1 <= i < j && Quiet(log, i + 1, j, id)
    ensures i >= 0 ==> log[i].id == id
  {
    if j == 0 {
      i := -1;
    } else if log[j - 1].id == id {
      i := j - 1;
    } else {
      i := LastEvent(log, id, j - 1);
    }
  }

  /** The first event on id after position i, up to j. */
  lemma {:induction false} NextEvent(log: seq<Event>, id: int, i: nat, j: nat) returns (m: nat)
    requires i < j < |log| && log[j].id == id
    ensures i < m <= j && log[m].id == id && Quiet(log, i + 1, m, id)
  {
    m := LeastEvent(log, id, i + 1, j);
  }

  lemma {:induction false} LeastEvent(log: seq<Event>, id: int, from: nat, j: nat) returns (m: nat)
    requires from <= j < |log| && log[j].id == id
    ensures from <= m <= j && log[m].id == id && Quiet(log, from, m, id)
    decreases j - from
  {
    if log[from].id == id {
      m := from;
    } else {
      m := LeastEvent(log, id, from + 1, j);
    }
  }

  // --------------------------------------------------- what every legal log guarantees

  /** Sold is absorbing: nothing happens to a ticket after its confirmation, so it is confirmed at most once. */
  lemma {:induction false} SoldIsAbsorbing(ids: set<int>, log: seq<Event>, i: nat, j: nat)
    requires LegalLog(ids, log) && i < j < |log|
    requires log[i].Confirmed?
    ensures log[j].id != log[i].id
  {
    EveryEventLegal(ids, log);
    if log[j].id == log[i].id {
      assert LegalAt(ids, log, i);
      var m := NextEvent(log, log[i].id, i, j);
      NothingLegalAfterSale(ids, log, i, m);
    }
  }

  lemma {:induction false} NothingLegalAfterSale(ids: set<int>, log: seq<Event>, i: nat, m: nat)
    requires i < m < |log| && log[i].id in ids
    requires log[i].Confirmed? && log[m].id == log[i].id && Quiet(log, i + 1, m, log[i].id)
    ensures !LegalAt(ids, log, m)
  {
    SlotSince(ids, log, i, m);
  }

  /** The event that ended the claim at position i: a release by its holder, or something at a time strictly past
      its lease. */
  ghost predicate EndsClaim(log: seq<Event>, i: nat, m: nat)
    requires i < m < |log| && log[i].Claimed?
  {
    && log[m].id == log[i].id
    && Quiet(log, i + 1, m, log[i].id)
    && match log[m]
       case Released(_, holder) => holder == log[i].holder
       case Claimed(_, _, now, _) => now > log[i].until
       case Reaped(_, now) => now > log[i].until
       case Confirmed(_, _, _) => false
  }

  /** Two claims of one ticket are separated by a release by the first holder or by the strict expiry of the
      first lease. */
  lemma {:induction false} ClaimsAreSeparated(ids: set<int>, log: seq<Event>, i: nat, j: nat)
    requires LegalLog(ids, log) && i < j < |log|
    requires log[i].Claimed? && log[j].Claimed? && log[j].id == log[i].id
    ensures exists m :: i < m <= j && EndsClaim(log, i, m)
  {
    EveryEventLegal(ids, log);
    var m := NextEvent(log, log[i].id, i, j);
    assert LegalAt(ids, log, i) && LegalAt(ids, log, m);
    SlotSince(ids, log, i, m);
    if log[m].Confirmed? {
      assert m < j;
      SoldIsAbsorbing(ids, log, m, j);
    }
    assert EndsClaim(log, i, m);
  }

  /** Position i is the latest move of the ticket before j: a claim by the given holder whose lease still runs
      at now. */
  ghost predicate LiveClaim(log: seq<Event>, i: nat, j: nat, id: int, holder: string, now: int)
    requires i < j <= |log|
  {
    && log[i].Claimed?
    && log[i].id == id
    && log[i].holder == holder
    && now <= log[i].until
    && Quiet(log, i + 1, j, id)
  }

  /** A confirmation succeeds only for the holder of the latest claim, unreleased and within its lease. */
  lemma {:induction false} ConfirmFollowsLiveClaim(ids: set<int>, log: seq<Event>, j: nat)
    requires LegalLog(ids, log) && j < |log| && log[j].Confirmed?
    ensures exists i: nat :: i < j && LiveClaim(log, i, j, log[j].id, log[j].holder, log[j].now)
  {
    EveryEventLegal(ids, log);
    assert LegalAt(ids, log, j);
    var i := LastEvent(log, log[j].id, j);
    if i < 0 {
      SlotUntouched(ids, log, log[j].id, j);
    } else {
      assert LegalAt(ids, log, i);
      SlotSince(ids, log, i, j);
      assert LiveClaim(log, i, j, log[j].id, log[j].holder, log[j].now);
    }
  }

  /** Conversely the next confirmation attempt succeeds exactly when such a claim stands. */
  lemma {:induction false} ConfirmSucceedsIffLiveClaim(ids: set<int>, log: seq<Event>, id: int, holder: string,
      now: int)
    requires LegalLog(ids, log) && id in ids
    ensures ConfirmVerdict(Replay(ids, log), id, holder, now) == Success
       <==> exists i: nat :: i < |log| && LiveClaim(log, i, |log|, id, holder, now)
  {
    assert log[..|log|] == log;
    var i := LastEvent(log, id, |log|);
    if i < 0 {
      SlotUntouched(ids, log, id, |log|);
    } else {
      SlotSince(ids, log, i, |log|);
      if ConfirmVerdict(Replay(ids, log), id, holder, now) == Success {
        assert LiveClaim(log, i, |log|, id, holder, now);
      }
    }
  }
}
