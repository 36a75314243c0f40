/** Powers of ten and Go's truncating integer operators. */
module Decimal {

  function Pow10(k: nat): (r: nat)
    ensures r > 0
  {
    if k == 0 then 1 else 10 * Pow10(k - 1)
  }

  /** Go's `/`: truncates toward zero. */
  function Quot(a: int, b: int): int
    requires b > 0
  {
    if a >= 0 then a / b else -((-a) / b)
  }

  /** Go's `%`: the sign follows the dividend. */
  function Rem(a: int, b: int): int
    requires b > 0
  {
    a - b * Quot(a, b)
  }

  /** Digit of a number at a place value, as Go computes (n / place) % 10. */
  function PlaceDigit(n: int, place: nat): int
    requires place > 0
  {
    Rem(Quot(n, place), 10)
  }

  lemma PlaceDigitNegated(n: int, place: nat)
    requires n >= 0 && place > 0
    ensures PlaceDigit(-n, place) == -PlaceDigit(n, place)
    ensures 0 <= PlaceDigit(n, place) == (n / place) % 10 < 10
  {
    assert Quot(-n, place) == -(n / place);
  }

  lemma DivideTwice(n: nat, q: nat)
    requires q > 0
    ensures n / (10 * q) == (n / 10) / q
  {
    var m, a := n / 10, (n / 10) / q;
    assert n == 10 * m + n % 10;
    assert m == q * a + m % q;
    var rest := 10 * (m % q) + n % 10;
    assert n == (10 * q) * a + rest;
    assert 0 <= rest < 10 * q;
    QuotientUnique(n, 10 * q, a, rest);
  }

  lemma QuotientUnique(n: int, d: int, a: int, rest: int)
    requires d > 0 && n == d * a + rest && 0 <= rest < d
    ensures n / d == a && n % d == rest
  {
    var q := n / d;
    MultipleIsFar(d, q - a);
    assert d * (q - a) == d * q - d * a;
  }

  lemma MultipleIsFar(d: int, k: int)
    requires d > 0
    ensures k >= 1 ==> d * k >= d
    ensures k <= -1 ==> d * k <= -d
  {
    if k >= 1 {
      assert d * k == d + d * (k - 1);
    } else if k <= -1 {
      assert d * k == -d - d * (-1 - k);
    }
  }

  /** The decimal digits of n, zero-padded on the left to `digits` characters. */
  function ZeroPadded(digits: nat, n: nat): (s: string)
    ensures |s| == digits
    ensures forall i :: 0 <= i < digits ==> '0' <= s[i] <= '9'
  {
    if digits == 0 then "" else ZeroPadded(digits - 1, n / 10) + ['0' + (n % 10) as char]
  }
}

/** lottery-go/pattern.go: wildcard patterns and the odometer over their matches. */
module Patterns {
  import opened Decimal
  import opened Counting

  /** base is the value of the fixed digits, wildcards the '*' positions counted from the left. */
  datatype Pattern = Pattern(base: nat, wildcards: seq<nat>)

  datatype ParseResult = Parsed(pattern: Pattern) | BadPattern

  predicate PatternChar(c: char) {
    c == '*' || '0' <= c <= '9'
  }

  predicate WellFormed(digits: nat, s: string) {
    |s| == digits && forall i :: 0 <= i < |s| ==> PatternChar(s[i])
  }

  /** What one character contributes to base: a wildcard contributes nothing. */
  function Face(c: char): (r: nat)
    requires PatternChar(c)
    ensures r < 10
  {
    if c == '*' then 0 else (c - '0') as nat
  }

  function BaseOf(s: string): nat
    requires WellFormed(|s|, s)
  {
    if s == [] then 0 else 10 * BaseOf(Front(s)) + Face(s[|s| - 1])
  }

  function StarsOf(s: string): (r: seq<nat>)
    ensures forall i :: 0 <= i < |r| ==> r[i] < |s|
    ensures |r| <= |s|
  {
    if s == [] then []
    else if s[|s| - 1] == '*' then StarsOf(Front(s)) + [|s| - 1]
    else StarsOf(Front(s))
  }

  function PatternOf(s: string): Pattern
    requires WellFormed(|s|, s)
  {
    Pattern(BaseOf(s), StarsOf(s))
  }

  predicate InRange(digits: nat, p: Pattern) {
    forall i :: 0 <= i < |p.wildcards| ==> p.wildcards[i] < digits
  }

  /** The patterns ParsePattern can return. */
  ghost predicate IsParsed(digits: nat, p: Pattern) {
    exists s: string :: WellFormed(digits, s) && p == PatternOf(s)
  }

  /** What a pattern means: n has at most |s| digits, and its zero-padded form shows every fixed character of s. */
  ghost predicate Agrees(s: string, n: nat) {
    && n < Pow10(|s|)
    && forall i :: 0 <= i < |s| && s[i] != '*' ==> ZeroPadded(|s|, n)[i] == s[i]
  }

  lemma AgreesStep(s: string, n: nat)
    requires s != []
    ensures Agrees(s, n) <==> Agrees(Front(s), n / 10) && (s[|s| - 1] == '*' || s[|s| - 1] == '0' + (n % 10) as char)
  {
    var z, y := ZeroPadded(|s|, n), ZeroPadded(|s| - 1, n / 10);
    assert z == y + ['0' + (n % 10) as char];
    assert forall i :: 0 <= i < |s| - 1 ==> z[i] == y[i] && Front(s)[i] == s[i];
  }

  // ---------------------------------------------------------------- parsing

  method ParsePattern(digits: nat, s: string) returns (r: ParseResult)
    ensures r.Parsed? <==> WellFormed(digits, s)
    ensures r.Parsed? ==> r.pattern == PatternOf(s)
  {
    if |s| != digits {
      return BadPattern;
    }
    var base, wildcards := 0, [];
    for i := 0 to digits
      invariant WellFormed(i, s[..i])
      invariant base == BaseOf(s[..i]) * Pow10(digits - i)
      invariant wildcards == StarsOf(s[..i])
    {
      var c := s[i];
      assert Front(s[..i + 1]) == s[..i];
      assert Pow10(digits - i) == 10 * Pow10(digits - 1 - i);
      ScaleStep(BaseOf(s[..i]), Pow10(digits - 1 - i), if '0' <= c <= '9' then Face(c) else 0);
      if c == '*' {
        wildcards := wildcards + [i];
      } else if '0' <= c <= '9' {
        base := base + (c - '0') as nat * Pow10(digits - 1 - i);
      } else {
        return BadPattern;
      }
    }
    assert s[..digits] == s;
    r := Parsed(Pattern(base, wildcards));
  }

  lemma ScaleStep(b: nat, q: nat, f: nat)
    ensures b * (10 * q) + f * q == (10 * b + f) * q
  {
  }

  lemma StarIsListed(s: string, t: string)
    requires s != [] && |s| == |t| && s[|s| - 1] == '*' && t[|t| - 1] != '*'
    ensures StarsOf(s) != StarsOf(t)
  {
    var ss := StarsOf(Front(s));
    assert StarsOf(s)[|ss|] == |s| - 1;
  }

  /** Different strings are different patterns, so a parsed pattern determines its text. */
  lemma {:induction false} PatternDeterminesText(s: string, t: string)
    requires WellFormed(|s|, s) && WellFormed(|s|, t)
    requires PatternOf(s) == PatternOf(t)
    ensures s == t
  {
    if s != [] {
      var n := |s| - 1;
      var ss, tt := StarsOf(Front(s)), StarsOf(Front(t));
      if s[n] == '*' && t[n] != '*' {
        StarIsListed(s, t);
      }
      if s[n] != '*' && t[n] == '*' {
        StarIsListed(t, s);
      }
      if s[n] == '*' {
        assert ss == StarsOf(s)[..|StarsOf(s)| - 1] == tt;
      }
      PatternDeterminesText(Front(s), Front(t));
      assert s == Front(s) + [s[n]] && t == Front(t) + [t[n]];
    }
  }

  // ---------------------------------------------------------------- matching

  /** number with its digits at the wildcard positions removed, as the loop of Matches leaves it. */
  function Strip(digits: nat, wildcards: seq<nat>, number: int): int
    requires forall i :: 0 <= i < |wildcards| ==> wildcards[i] < digits
  {
    if wildcards == [] then number
    else
      var last := |wildcards| - 1;
      var place := Pow10(digits - 1 - wildcards[last]);
      Strip(digits, wildcards[..last], number) - PlaceDigit(number, place) * place
  }

  predicate MatchesNumber(digits: nat, p: Pattern, number: int)
    requires InRange(digits, p)
  {
    Strip(digits, p.wildcards, number) == p.base
  }

  method Matches(digits: nat, p: Pattern, number: int) returns (r: bool)
    requires InRange(digits, p)
    ensures r <==> MatchesNumber(digits, p, number)
  {
    var rest := number;
    for i := 0 to |p.wildcards|
      invariant rest == Strip(digits, p.wildcards[..i], number)
    {
      var place := Pow10(digits - 1 - p.wildcards[i]);
      rest := rest - PlaceDigit(number, place) * place;
      assert p.wildcards[..i + 1][..i] == p.wildcards[..i];
    }
    assert p.wildcards[..|p.wildcards|] == p.wildcards;
    r := rest == p.base;
  }

  lemma PlaceDigitShift(n: nat, place: nat)
    requires place > 0
    ensures PlaceDigit(n, 10 * place) * (10 * place) == 10 * (PlaceDigit(n / 10, place) * place)
  {
    DivideTwice(n, place);
  }

  lemma {:induction false} StripShift(digits: nat, w: seq<nat>, n: nat)
    requires forall i :: 0 <= i < |w| ==> w[i] < digits
    ensures Strip(digits + 1, w, n) == 10 * Strip(digits, w, n / 10) + n % 10
  {
    if w != [] {
      var last := |w| - 1;
      StripShift(digits, w[..last], n);
      PlaceDigitShift(n, Pow10(digits - 1 - w[last]));
    }
  }

  lemma {:induction false} StripNegated(digits: nat, w: seq<nat>, n: nat, number: int)
    requires number + n == 0 && forall i :: 0 <= i < |w| ==> w[i] < digits
    ensures Strip(digits, w, number) == -Strip(digits, w, n)
  {
    if w != [] {
      var last := |w| - 1;
      StripNegated(digits, w[..last], n, number);
      var place := Pow10(digits - 1 - w[last]);
      PlaceDigitNegated(n, place);
      var d := PlaceDigit(n, place);
      assert (-d) * place == -(d * place);
    }
  }

  /** Stripping the stars of s peels the last digit off, unless it sits under a star. */
  lemma StripLast(s: string, n: nat)
    requires s != []
    ensures Strip(|s|, StarsOf(s), n)
         == 10 * Strip(|s| - 1, StarsOf(Front(s)), n / 10) + if s[|s| - 1] == '*' then 0 else n % 10
  {
    var w := StarsOf(Front(s));
    StripShift(|s| - 1, w, n);
    if s[|s| - 1] == '*' {
      assert StarsOf(s)[..|w|] == w;
      PlaceDigitNegated(n, 1);
    }
  }

  lemma FaceIsDigit(c: char, d: nat)
    requires PatternChar(c) && c != '*' && d < 10
    ensures Face(c) == d <==> c == '0' + d as char
  {
  }

  /** Stripping the stars of s from n leaves base exactly when n fits the text. */
  lemma {:induction false} StripOfText(s: string, n: nat)
    requires WellFormed(|s|, s)
    ensures Strip(|s|, StarsOf(s), n) >= 0
    ensures Strip(|s|, StarsOf(s), n) == BaseOf(s) <==> Agrees(s, n)
  {
    if s != [] {
      var c := s[|s| - 1];
      StripOfText(Front(s), n / 10);
      AgreesStep(s, n);
      StripLast(s, n);
      if c != '*' {
        FaceIsDigit(c, n % 10);
      }
    }
  }

  lemma MatchesNatural(s: string, number: int, n: nat)
    requires WellFormed(|s|, s) && number == n
    ensures MatchesNumber(|s|, PatternOf(s), number) <==> Agrees(s, n)
  {
    StripOfText(s, n);
  }

  lemma MatchesNegative(s: string, number: int, n: nat)
    requires WellFormed(|s|, s) && number + n == 0
    ensures MatchesNumber(|s|, PatternOf(s), number) <==> BaseOf(s) == 0 && Agrees(s, n)
  {
    StripOfText(s, n);
    StripNegated(|s|, StarsOf(s), n, number);
  }

  /** Matches, for every integer: exactly the numbers whose zero-padded form fits the text, plus,
      when no fixed digit contributes, the negatives of those. */
  lemma MatchesMeaning(s: string, number: int)
    requires WellFormed(|s|, s)
    ensures number >= 0 ==> (MatchesNumber(|s|, PatternOf(s), number) <==> Agrees(s, number))
    ensures number < 0 ==> (MatchesNumber(|s|, PatternOf(s), number) <==> BaseOf(s) == 0 && Agrees(s, -number))
  {
    if number >= 0 {
      MatchesNatural(s, number, number);
    } else {
      MatchesNegative(s, number, -number);
    }
  }

  // ---------------------------------------------------------------- the odometer

  function MatchCount(p: Pattern): nat {
    Pow10(|p.wildcards|)
  }

  /** What the wildcard dials add for index j, rightmost dial fastest. */
  function Spin(digits: nat, wildcards: seq<nat>, j: nat): nat
    requires forall i :: 0 <= i < |wildcards| ==> wildcards[i] < digits
  {
    if wildcards == [] then 0
    else
      var last := |wildcards| - 1;
      j % 10 * Pow10(digits - 1 - wildcards[last]) + Spin(digits, wildcards[..last], j / 10)
  }

  function NumberOf(digits: nat, p: Pattern, j: nat): nat
    requires InRange(digits, p)
  {
    p.base + Spin(digits, p.wildcards, j)
  }

  method NumberAt(digits: nat, p: Pattern, j: nat) returns (n: nat)
    requires InRange(digits, p)
    ensures n == NumberOf(digits, p, j)
  {
    n := p.base;
    var rest, i := j, |p.wildcards|;
    assert p.wildcards[..i] == p.wildcards;
    while i > 0
      invariant 0 <= i <= |p.wildcards|
      invariant n + Spin(digits, p.wildcards[..i], rest) == NumberOf(digits, p, j)
    {
      i := i - 1;
      assert p.wildcards[..i + 1][..i] == p.wildcards[..i];
      var d := rest % 10;
      rest := rest / 10;
      n := n + d * Pow10(digits - 1 - p.wildcards[i]);
    }
  }

  /** The j-th way of filling the stars of s, read as a number. */
  function Fill(s: string, j: nat): nat
    requires WellFormed(|s|, s)
  {
    if s == [] then 0
    else if s[|s| - 1] == '*' then 10 * Fill(Front(s), j / 10) + j % 10
    else 10 * Fill(Front(s), j) + Face(s[|s| - 1])
  }

  /** Inverse of Fill: the digits of n under the stars, read as an index. */
  function Rank(s: string, n: nat): nat {
    if s == [] then 0
    else if s[|s| - 1] == '*' then 10 * Rank(Front(s), n / 10) + n % 10
    else Rank(Front(s), n / 10)
  }

  lemma {:induction false} SpinShift(digits: nat, w: seq<nat>, j: nat)
    requires forall i :: 0 <= i < |w| ==> w[i] < digits
    ensures Spin(digits + 1, w, j) == 10 * Spin(digits, w, j)
  {
    if w != [] {
      var last := |w| - 1;
      SpinShift(digits, w[..last], j / 10);
      var place := Pow10(digits - 1 - w[last]);
      assert Pow10(digits - w[last]) == 10 * place;
      assert j % 10 * (10 * place) == 10 * (j % 10 * place);
    }
  }

  lemma {:induction false} NumberOfText(s: string, j: nat)
    requires WellFormed(|s|, s)
    ensures NumberOf(|s|, PatternOf(s), j) == Fill(s, j)
  {
    if s != [] {
      var w := StarsOf(Front(s));
      if s[|s| - 1] == '*' {
        assert StarsOf(s)[..|w|] == w;
        SpinShift(|s| - 1, w, j / 10);
        NumberOfText(Front(s), j / 10);
      } else {
        SpinShift(|s| - 1, w, j);
        NumberOfText(Front(s), j);
      }
    }
  }

  lemma {:induction false} FillMonotone(s: string, i: nat, j: nat)
    requires WellFormed(|s|, s) && i < j < MatchCount(PatternOf(s))
    ensures Fill(s, i) < Fill(s, j)
  {
    if s != [] {
      if s[|s| - 1] == '*' {
        if i / 10 < j / 10 {
          FillMonotone(Front(s), i / 10, j / 10);
        }
      } else {
        FillMonotone(Front(s), i, j);
      }
    }
  }

  lemma {:induction false} FillAgrees(s: string, j: nat)
    requires WellFormed(|s|, s) && j < MatchCount(PatternOf(s))
    ensures Agrees(s, Fill(s, j))
  {
    if s != [] {
      AgreesStep(s, Fill(s, j));
      FillAgrees(Front(s), if s[|s| - 1] == '*' then j / 10 else j);
    }
  }

  lemma {:induction false} RankFills(s: string, n: nat)
    requires WellFormed(|s|, s) && Agrees(s, n)
    ensures Rank(s, n) < MatchCount(PatternOf(s)) && Fill(s, Rank(s, n)) == n
  {
    if s != [] {
      AgreesStep(s, n);
      RankFills(Front(s), n / 10);
    }
  }

  lemma {:induction false} OdometerRises(digits: nat, p: Pattern, i: nat, j: nat)
    requires IsParsed(digits, p) && InRange(digits, p) && i < j < MatchCount(p)
    ensures NumberOf(digits, p, i) < NumberOf(digits, p, j)
  {
    var s: string :| WellFormed(digits, s) && p == PatternOf(s);
    FillMonotone(s, i, j);
    NumberOfText(s, i);
    NumberOfText(s, j);
  }

  lemma {:induction false} OdometerMatches(digits: nat, p: Pattern, j: nat)
    requires IsParsed(digits, p) && InRange(digits, p) && j < MatchCount(p)
    ensures NumberOf(digits, p, j) < Pow10(digits) && MatchesNumber(digits, p, NumberOf(digits, p, j))
  {
    var s: string :| WellFormed(digits, s) && p == PatternOf(s);
    FillAgrees(s, j);
    NumberOfText(s, j);
    MatchesMeaning(s, NumberOf(digits, p, j));
  }

  lemma {:induction false} OdometerReaches(digits: nat, p: Pattern, n: nat) returns (j: nat)
    requires IsParsed(digits, p) && InRange(digits, p) && MatchesNumber(digits, p, n)
    ensures j < MatchCount(p) && NumberOf(digits, p, j) == n
  {
    var s: string :| WellFormed(digits, s) && p == PatternOf(s);
    MatchesMeaning(s, n);
    RankFills(s, n);
    j := Rank(s, n);
    NumberOfText(s, j);
  }

  lemma ParsedInRange(digits: nat, p: Pattern)
    requires IsParsed(digits, p)
    ensures InRange(digits, p)
  {
  }

  /** NumberAt is an order isomorphism from [0, MatchCount) onto the numbers that Matches accepts. */
  lemma OdometerIsomorphism(digits: nat, p: Pattern)
    requires IsParsed(digits, p)
    ensures InRange(digits, p)
    ensures forall i: nat, j: nat :: i < j < MatchCount(p) ==> NumberOf(digits, p, i) < NumberOf(digits, p, j)
    ensures forall j: nat :: j < MatchCount(p) ==>
      NumberOf(digits, p, j) < Pow10(digits) && MatchesNumber(digits, p, NumberOf(digits, p, j))
    ensures forall n: nat :: MatchesNumber(digits, p, n) ==>
      exists j: nat :: j < MatchCount(p) && NumberOf(digits, p, j) == n
  {
    ParsedInRange(digits, p);
    forall i: nat, j: nat | i < j < MatchCount(p) ensures NumberOf(digits, p, i) < NumberOf(digits, p, j) {
      OdometerRises(digits, p, i, j);
    }
    forall j: nat | j < MatchCount(p)
      ensures NumberOf(digits, p, j) < Pow10(digits) && MatchesNumber(digits, p, NumberOf(digits, p, j))
    {
      OdometerMatches(digits, p, j);
    }
    forall n: nat | MatchesNumber(digits, p, n)
      ensures exists j: nat :: j < MatchCount(p) && NumberOf(digits, p, j) == n
    {
      var j := OdometerReaches(digits, p, n);
    }
  }

  /** NumberAt(j) is the j-th smallest match: exactly j matches lie below it. */
  lemma NumberAtIsJthSmallest(digits: nat, p: Pattern, j: nat)
    requires IsParsed(digits, p) && j < MatchCount(p)
    ensures InRange(digits, p)
    ensures |set m: nat | m < NumberOf(digits, p, j) && MatchesNumber(digits, p, m)| == j
  {
    OdometerIsomorphism(digits, p);
    var f := (i: nat) => NumberOf(digits, p, i);
    InjectiveImageSize(f, j);
    var below := set m: nat | m < NumberOf(digits, p, j) && MatchesNumber(digits, p, m);
    forall m | m in below ensures m in Image(f, j) {
      var i: nat :| i < MatchCount(p) && NumberOf(digits, p, i) == m;
      assert f(i) == m && i < j;
    }
    forall m | m in Image(f, j) ensures m in below {
      var i: nat :| i < j && f(i) == m;
    }
    assert below == Image(f, j);
  }
}
