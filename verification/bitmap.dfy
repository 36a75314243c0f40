/** Go's unsigned bit operators, written out on binary numerals. */
module Bits {

  function Pow2(k: nat): (r: nat)
    ensures r > 0
  {
    if k == 0 then 1 else 2 * Pow2(k - 1)
  }

  /** uint64 */
  type Word = w: nat | w < Pow2(64) witness 0

  /** Bit k of w. */
  predicate Bit(w: nat, k: nat) {
    if k == 0 then w % 2 == 1 else Bit(w / 2, k - 1)
  }

  /** a | b */
  function Or(a: nat, b: nat): nat {
    if a == 0 then b else 2 * Or(a / 2, b / 2) + (if a % 2 == 1 || b % 2 == 1 then 1 else 0)
  }

  /** a & b */
  function And(a: nat, b: nat): nat {
    if a == 0 then 0 else 2 * And(a / 2, b / 2) + (if a % 2 == 1 && b % 2 == 1 then 1 else 0)
  }

  /** a &^ b */
  function AndNot(a: nat, b: nat): nat {
    if a == 0 then 0 else 2 * AndNot(a / 2, b / 2) + (if a % 2 == 1 && b % 2 == 0 then 1 else 0)
  }

  lemma {:induction false} BitOfZero(k: nat)
    ensures !Bit(0, k)
  {
    if k > 0 {
      BitOfZero(k - 1);
    }
  }

  lemma {:induction false} BitOfOr(a: nat, b: nat, k: nat)
    ensures Bit(Or(a, b), k) <==> Bit(a, k) || Bit(b, k)
  {
    BitOfZero(k);
    if a > 0 && k > 0 {
      BitOfOr(a / 2, b / 2, k - 1);
    }
  }

  lemma {:induction false} BitOfAnd(a: nat, b: nat, k: nat)
    ensures Bit(And(a, b), k) <==> Bit(a, k) && Bit(b, k)
  {
    BitOfZero(k);
    if a > 0 && k > 0 {
      BitOfAnd(a / 2, b / 2, k - 1);
    }
  }

  lemma {:induction false} BitOfAndNot(a: nat, b: nat, k: nat)
    ensures Bit(AndNot(a, b), k) <==> Bit(a, k) && !Bit(b, k)
  {
    BitOfZero(k);
    if a > 0 && k > 0 {
      BitOfAndNot(a / 2, b / 2, k - 1);
    }
  }

  lemma {:induction false} BitOfShift(i: nat, k: nat)
    ensures Bit(Pow2(i), k) <==> i == k
  {
    if k == 0 {
    } else if i == 0 {
      BitOfZero(k - 1);
    } else {
      BitOfShift(i - 1, k - 1);
    }
  }

  /** (1 << i) - 1 holds exactly the bits below i. */
  lemma {:induction false} BitOfLowMask(i: nat, k: nat)
    ensures Bit(Pow2(i) - 1, k) <==> k < i
  {
    if i == 0 {
      BitOfZero(k);
    } else if k > 0 {
      BitOfLowMask(i - 1, k - 1);
    }
  }

  lemma {:induction false} NonzeroHasBit(w: nat)
    requires w != 0
    ensures exists k: nat :: Bit(w, k)
  {
    if w % 2 == 1 {
      assert Bit(w, 0);
    } else {
      NonzeroHasBit(w / 2);
      var k: nat :| Bit(w / 2, k);
      assert Bit(w, k + 1);
    }
  }

  /** w & (1 << k) is nonzero exactly when bit k is set. */
  lemma {:induction false} TestMask(w: nat, k: nat)
    ensures And(w, Pow2(k)) != 0 <==> Bit(w, k)
  {
    BitOfAnd(w, Pow2(k), k);
    BitOfShift(k, k);
    BitOfZero(k);
    if And(w, Pow2(k)) != 0 {
      NonzeroHasBit(And(w, Pow2(k)));
      var j: nat :| Bit(And(w, Pow2(k)), j);
      BitOfAnd(w, Pow2(k), j);
      BitOfShift(k, j);
    }
  }

  lemma {:induction false} OrBound(a: nat, b: nat, n: nat)
    requires a < Pow2(n) && b < Pow2(n)
    ensures Or(a, b) < Pow2(n)
  {
    if a > 0 {
      OrBound(a / 2, b / 2, n - 1);
    }
  }

  lemma {:induction false} AndNotBound(a: nat, b: nat)
    ensures AndNot(a, b) <= a
  {
    if a > 0 {
      AndNotBound(a / 2, b / 2);
    }
  }

  lemma {:induction false} Pow2Monotone(i: nat, n: nat)
    requires i < n
    ensures Pow2(i) < Pow2(n)
  {
    if i + 1 < n {
      Pow2Monotone(i, n - 1);
    }
  }

  lemma {:induction false} BitWithinWidth(w: nat, k: nat, n: nat)
    requires w < Pow2(n) && Bit(w, k)
    ensures k < n
  {
    if n == 0 {
      BitOfZero(k);
    } else if k > 0 {
      BitWithinWidth(w / 2, k - 1, n - 1);
    }
  }

  /** math/bits.TrailingZeros64 on a nonzero word: the position of its lowest bit. */
  function TrailingZeros(w: nat): (k: nat)
    requires w != 0
    ensures Bit(w, k)
    ensures forall j: nat :: j < k ==> !Bit(w, j)
  {
    if w % 2 == 1 then 0 else 1 + TrailingZeros(w / 2)
  }
}

/** lottery-go/bitmap.go: a fixed-size set of non-negative integers, one bit per member. */
module Bitmaps {
  import opened Bits

  class Bitmap {
    const words: array<Word>
    const size: nat

    ghost predicate Valid() {
      words.Length == (size + 63) / 64
    }

    predicate Has(n: nat)
      reads words
      requires n < 64 * words.Length
    {
      Bit(words[n / 64], n % 64)
    }

    /** The set held in the words, slack bits of the last word included. */
    ghost function Members(): set<nat>
      reads words
    {
      set n: nat | n < 64 * words.Length && Has(n)
    }

    constructor (size: nat)
      ensures Valid() && this.size == size && fresh(words)
      ensures Members() == {}
    {
      this.size := size;
      words := new Word[(size + 63) / 64](_ => 0);
      new;
      forall n: nat | n < 64 * words.Length ensures !Has(n) {
        BitOfZero(n % 64);
      }
    }

    method Set(n: nat)
      requires n < 64 * words.Length
      modifies words
      ensures Members() == old(Members()) + {n}
    {
      var w, i := words[n / 64], n % 64;
      Pow2Monotone(i, 64);
      OrBound(w, Pow2(i), 64);
      words[n / 64] := Or(w, Pow2(i));
      forall m: nat | m < 64 * words.Length
        ensures Has(m) <==> m == n || old(Has(m))
      {
        BitOfOr(w, Pow2(i), m % 64);
        BitOfShift(i, m % 64);
      }
    }

    method Clear(n: nat)
      requires n < 64 * words.Length
      modifies words
      ensures Members() == old(Members()) - {n}
    {
      var w, i := words[n / 64], n % 64;
      AndNotBound(w, Pow2(i));
      words[n / 64] := AndNot(w, Pow2(i));
      forall m: nat | m < 64 * words.Length
        ensures Has(m) <==> m != n && old(Has(m))
      {
        BitOfAndNot(w, Pow2(i), m % 64);
        BitOfShift(i, m % 64);
      }
    }

    method Test(n: nat) returns (r: bool)
      requires n < 64 * words.Length
      ensures r <==> n in Members()
    {
      TestMask(words[n / 64], n % 64);
      r := And(words[n / 64], Pow2(n % 64)) != 0;
    }

    /** word holds exactly the members of word w that are at or after start. */
    ghost predicate Holds(word: nat, w: nat, start: nat)
      reads words
    {
      && w < words.Length
      && word < Pow2(64)
      && forall x: nat :: x / 64 == w ==> (Bit(word, x % 64) <==> start <= x && x in Members())
    }

    lemma {:induction false} FirstWord(start: nat)
      requires start < 64 * words.Length
      ensures Holds(AndNot(words[start / 64], Pow2(start % 64) - 1), start / 64, start)
    {
      var w, low := words[start / 64], Pow2(start % 64) - 1;
      AndNotBound(w, low);
      forall x: nat | x / 64 == start / 64
        ensures Bit(AndNot(w, low), x % 64) <==> start <= x && x in Members()
      {
        BitOfAndNot(w, low, x % 64);
        BitOfLowMask(start % 64, x % 64);
      }
    }

    lemma {:induction false} LaterWord(w: nat, start: nat)
      requires start / 64 < w < words.Length
      ensures Holds(words[w], w, start)
    {
      forall x: nat | x / 64 == w ensures start <= x {
      }
    }

    lemma {:induction false} LowestOfWord(word: nat, w: nat, start: nat)
      requires Holds(word, w, start) && word != 0
      requires forall x: nat :: x in Members() && start <= x ==> w <= x / 64
      ensures var m := w * 64 + TrailingZeros(word);
        && start <= m && m in Members()
        && forall x: nat :: x in Members() && start <= x ==> m <= x
    {
      var low := TrailingZeros(word);
      BitWithinWidth(word, low, 64);
      assert (w * 64 + low) / 64 == w && (w * 64 + low) % 64 == low;
    }

    lemma {:induction false} EmptyWord(word: nat, w: nat, start: nat)
      requires Holds(word, w, start) && word == 0
      requires forall x: nat :: x in Members() && start <= x ==> w <= x / 64
      ensures forall x: nat :: x in Members() && start <= x ==> w + 1 <= x / 64
    {
      forall x: nat | x in Members() && start <= x ensures w + 1 <= x / 64 {
        BitOfZero(x % 64);
      }
    }

    /** The least member at or after `from`, whatever the slack bits hold; -1 when there is none below size. */
    method NextSet(from: int) returns (m: int)
      requires Valid()
      ensures m == -1 || (from <= m && 0 <= m < size && m in Members())
      ensures m == -1 ==> forall x: nat :: x in Members() && from <= x ==> x >= size
      ensures m >= 0 ==> forall x: nat :: x in Members() && from <= x ==> m <= x
    {
      var start: nat := if from < 0 then 0 else from;
      if start >= size {
        return -1;
      }
      var w: nat := start / 64;
      var word: nat := AndNot(words[w], Pow2(start % 64) - 1);
      FirstWord(start);
      while true
        invariant Holds(word, w, start)
        invariant forall x: nat :: x in Members() && start <= x ==> w <= x / 64
        decreases words.Length - w
      {
        if word != 0 {
          LowestOfWord(word, w, start);
          m := w * 64 + TrailingZeros(word);
          if m >= size {
            return -1;
          }
          return m;
        }
        EmptyWord(word, w, start);
        w := w + 1;
        if w >= words.Length {
          return -1;
        }
        word := words[w];
        LaterWord(w, start);
      }
    }
  }
}
