/** lottery-go/postgres/load.go: the in-memory hint, how many tickets of each number may still be unsold. */
module Availabilities {
  import opened Stock
  import opened TicketTable
  import opened Bitmaps

  // ---------------------------------------------------------------- the hint as a value

  /** counts[n] tickets of number n are believed unsold. */
  type Hint = seq<nat>

  predicate MaybeAvailable(hint: Hint, n: int) {
    0 <= n < |hint| && hint[n] > 0
  }

  /** One sale; the count never goes below zero. */
  function SoldOnce(count: nat): nat {
    if count > 0 then count - 1 else 0
  }

  /** The number certainly has stock. */
  function Raised(count: nat): nat {
    if count == 0 then 1 else count
  }

  function MarkSold(hint: Hint, n: int): (r: Hint)
    ensures |r| == |hint|
  {
    if 0 <= n < |hint| then hint[n := SoldOnce(hint[n])] else hint
  }

  function MarkAvailable(hint: Hint, n: int): (r: Hint)
    ensures |r| == |hint|
  {
    if 0 <= n < |hint| then hint[n := Raised(hint[n])] else hint
  }

  /** What a replica keeps in memory: its hint, and the numbers of the reservations it handed out. */
  datatype Memory = Memory(hint: Hint, known: map<int, nat>)

  /** After a sale the count of the ticket's number goes down, if the replica knows it; otherwise the hint stays one
      too high. */
  function AfterSale(m: Memory, id: int): Memory {
    if id in m.known then Memory(MarkSold(m.hint, m.known[id]), m.known - {id}) else m
  }

  /** After a release no count moves, but a known number is marked available. */
  function AfterRelease(m: Memory, id: int): Memory {
    if id in m.known then Memory(MarkAvailable(m.hint, m.known[id]), m.known - {id}) else m
  }

  // ---------------------------------------------------------------- loading

  /** One row of SELECT num, count(*) ... GROUP BY num. */
  datatype Group = Group(num: int, count: nat)

  function UnsoldRows(t: Table, n: int): set<int> {
    set id | id in t && t[id].num == n && t[id].status != Sold
  }

  /** GROUP BY: no number has two rows. */
  ghost predicate Grouped(groups: seq<Group>) {
    forall i, j :: 0 <= i < j < |groups| ==> groups[i].num != groups[j].num
  }

  /** groups answers loadSQL on table t: one row for each number with an unsold ticket. */
  ghost predicate AnswersLoad(groups: seq<Group>, t: Table) {
    && Grouped(groups)
    && (forall i :: 0 <= i < |groups| ==> groups[i].count == |UnsoldRows(t, groups[i].num)|)
    && (forall n :: UnsoldRows(t, n) != {} ==> exists i :: 0 <= i < |groups| && groups[i].num == n)
  }

  /** What the loading loop leaves in counts[n] after these rows. */
  function Loaded(groups: seq<Group>, n: int): nat {
    if groups == [] then 0
    else if groups[|groups| - 1].num == n then groups[|groups| - 1].count
    else Loaded(groups[..|groups| - 1], n)
  }

  lemma {:induction false} LoadedRow(groups: seq<Group>, n: int)
    ensures Loaded(groups, n) != 0 ==>
      exists i :: 0 <= i < |groups| && groups[i].num == n && groups[i].count == Loaded(groups, n)
    ensures Grouped(groups) ==> forall i :: 0 <= i < |groups| && groups[i].num == n ==>
      groups[i].count == Loaded(groups, n)
  {
    if groups != [] {
      var front := groups[..|groups| - 1];
      LoadedRow(front, n);
      if groups[|groups| - 1].num != n && Loaded(groups, n) != 0 {
        var i :| 0 <= i < |front| && front[i].num == n && front[i].count == Loaded(front, n);
        assert groups[i] == front[i];
      }
    }
  }

  lemma {:induction false} NextRowIsNew(groups: seq<Group>, i: nat)
    requires Grouped(groups) && i < |groups|
    ensures Loaded(groups[..i], groups[i].num) == 0
    ensures forall n ::
      Loaded(groups[..i + 1], n) == if n == groups[i].num then groups[i].count else Loaded(groups[..i], n)
  {
    LoadedRow(groups[..i], groups[i].num);
    assert groups[..i + 1][..i] == groups[..i];
  }

  /** From a correct answer the loop loads exactly the number of unsold tickets of every number. */
  lemma {:induction false} LoadIsExact(groups: seq<Group>, t: Table, n: int)
    requires AnswersLoad(groups, t)
    ensures Loaded(groups, n) == |UnsoldRows(t, n)|
  {
    LoadedRow(groups, n);
    if UnsoldRows(t, n) != {} {
      var i :| 0 <= i < |groups| && groups[i].num == n;
      assert groups[i].count == |UnsoldRows(t, n)|;
    }
  }

  method BitsOf(hint: Hint) returns (bits: Bitmap)
    ensures fresh(bits) && fresh(bits.words) && bits.Valid() && bits.size == |hint|
    ensures forall n: nat :: n in bits.Members() <==> n < |hint| && hint[n] > 0
  {
    bits := new Bitmap(|hint|);
    for i := 0 to |hint|
      invariant bits.Valid() && fresh(bits.words)
      invariant forall n: nat :: n in bits.Members() <==> n < i && hint[n] > 0
    {
      if hint[i] > 0 {
        bits.Set(i);
      }
    }
  }

  class Availability {
    const space: nat
    var counts: array<nat>
    var nonZero: Bitmap

    ghost predicate Valid()
      reads this, counts, nonZero.words
    {
      && counts.Length == space == nonZero.size && nonZero.Valid()
      && counts as object != nonZero.words
      && forall n: nat :: n < space ==> (n in nonZero.Members() <==> counts[n] > 0)
    }

    /** The objects this hint is made of. */
    ghost function Parts(): set<object>
      reads this
    {
      {this, counts, nonZero.words}
    }

    ghost function View(): (h: Hint)
      reads this, counts
    {
      counts[..]
    }

    /** Nothing is available until Load. */
    constructor (space: nat)
      ensures Valid() && fresh(Parts()) && this.space == space
      ensures |View()| == space && forall n :: 0 <= n < space ==> View()[n] == 0
    {
      this.space := space;
      counts := new nat[space](_ => 0);
      nonZero := new Bitmap(space);
    }

    /** Builds scratch space and swaps it in at the end; a number outside the number space is skipped. If the query or a
        row fails, the old hint stays: `breaks` is how many rows arrive before that. */
    method Load(groups: seq<Group>, breaks: Option<nat>) returns (ok: bool)
      requires Valid() && Grouped(groups)
      modifies this
      ensures Valid() && (ok <==> breaks == None)
      ensures !ok ==> counts == old(counts) && nonZero == old(nonZero)
      ensures ok ==> fresh(Parts() - {this}) && |View()| == space && forall n :: 0 <= n < space ==>
        View()[n] == Loaded(groups, n)
    {
      var scratch := new nat[space](_ => 0);
      var bits := new Bitmap(space);
      for i := 0 to |groups|
        invariant counts == old(counts) && nonZero == old(nonZero) && Valid()
        invariant bits.Valid() && fresh(bits.words) && fresh(scratch)
        invariant forall n :: 0 <= n < space ==> scratch[n] == Loaded(groups[..i], n)
        invariant forall n: nat :: n < space ==> (n in bits.Members() <==> scratch[n] > 0)
      {
        if breaks == Some(i) {
          return false;
        }
        NextRowIsNew(groups, i);
        LoadRow(groups[i], scratch, bits);
      }
      if breaks.Some? {
        return false;
      }
      assert groups[..|groups|] == groups;
      counts, nonZero := scratch, bits;
      ok := true;
    }

    /** One row of the answer, the first for its number. */
    method LoadRow(g: Group, scratch: array<nat>, bits: Bitmap)
      requires bits.Valid() && scratch.Length == space == bits.size && scratch as object != bits.words
      requires 0 <= g.num < space ==> scratch[g.num] == 0
      requires forall n: nat :: n < space ==> (n in bits.Members() <==> scratch[n] > 0)
      modifies scratch, bits.words
      ensures bits.Valid() && forall n :: 0 <= n < space ==>
        scratch[n] == if n == g.num then g.count else old(scratch[n])
      ensures forall n: nat :: n < space ==> (n in bits.Members() <==> scratch[n] > 0)
    {
      if 0 <= g.num < space {
        scratch[g.num] := g.count;
        if g.count > 0 {
          bits.Set(g.num);
        }
      }
    }

    /** Leaves these counts behind, in place: the work of other calls of the replica. */
    method Overwrite(hint: Hint)
      requires Valid() && |hint| == space
      modifies this
      ensures Valid() && fresh(Parts() - {this}) && View() == hint
    {
      nonZero := BitsOf(hint);
      counts := new nat[space](i requires 0 <= i < space => hint[i]);
      assert View() == hint;
    }

    method MaybeAvailableNow(n: int) returns (r: bool)
      requires Valid()
      ensures r <==> MaybeAvailable(View(), n)
    {
      if n < 0 || n >= space {
        return false;
      }
      r := nonZero.Test(n);
    }

    method Sold(n: int)
      requires Valid()
      modifies counts, nonZero.words
      ensures Valid() && View() == MarkSold(old(View()), n)
      ensures 0 <= n < space ==> View() == old(View())[n := if old(View())[n] == 0 then 0 else old(View())[n] - 1]
      ensures !(0 <= n < space) ==> View() == old(View())
    {
      if n < 0 || n >= space {
        return;
      }
      if counts[n] > 0 {
        counts[n] := counts[n] - 1;
      }
      if counts[n] == 0 {
        nonZero.Clear(n);
      }
    }

    method Restocked(n: int)
      requires Valid()
      modifies counts, nonZero.words
      ensures Valid() && View() == MarkAvailable(old(View()), n)
      ensures 0 <= n < space ==> View() == old(View())[n := if old(View())[n] == 0 then 1 else old(View())[n]]
      ensures !(0 <= n < space) ==> View() == old(View())
    {
      if n < 0 || n >= space {
        return;
      }
      if counts[n] == 0 {
        counts[n] := 1;
      }
      nonZero.Set(n);
    }

    /** The least number at or after `from` that may have stock; -1 if there is none. */
    method NextAvailableFrom(from: int) returns (m: int)
      requires Valid()
      ensures m == -1 || (from <= m && MaybeAvailable(View(), m))
      ensures forall n :: from <= n && MaybeAvailable(View(), n) ==> m != -1 && m <= n
    {
      m := nonZero.NextSet(from);
      forall n | from <= n && MaybeAvailable(View(), n) ensures m != -1 && m <= n {
        assert n in nonZero.Members();
      }
      if m < 0 {
        return -1;
      }
    }
  }
}
