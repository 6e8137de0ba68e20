/**
 Integers written in decimal, as the format verb %d and strconv.Itoa write them, and texts joined
 around a separator.
 */
module Decimal {
  function Digit(d: nat): (c: char)
    requires d < 10
    ensures '0' <= c <= '9' && c as int - '0' as int == d
  {
    ('0' as int + d) as char
  }

  function Digits(n: nat): (s: string)
    ensures s != [] && forall i :: 0 <= i < |s| ==> '0' <= s[i] <= '9'
  {
    if n < 10 then [Digit(n)] else Digits(n / 10) + [Digit(n % 10)]
  }

  function Dec(n: int): (s: string)
    ensures '|' !in s && s != []
  {
    if n < 0 then "-" + Digits(-n) else Digits(n)
  }

  function Value(s: string): int
    requires forall i :: 0 <= i < |s| ==> '0' <= s[i] <= '9'
  {
    if s == [] then 0 else 10 * Value(s[..|s| - 1]) + (s[|s| - 1] as int - '0' as int)
  }

  lemma {:induction false} DigitsReadBack(n: nat)
    ensures Value(Digits(n)) == n
  {
    var s := Digits(n);
    if n < 10 {
      assert s[..0] == [];
    } else {
      DigitsReadBack(n / 10);
      assert s[..|s| - 1] == Digits(n / 10);
    }
  }

  lemma {:induction false} NoLeadingZero(n: nat)
    ensures Digits(n)[0] == '0' ==> n == 0
  {
    if n >= 10 {
      NoLeadingZero(n / 10);
    }
  }

  /** A number is written as its decimal digits, the highest first and without leading zeros, behind a
      minus sign if it is negative. */
  lemma DecReadsBack(n: int)
    requires n >= 0
    ensures (forall i :: 0 <= i < |Dec(n)| ==> '0' <= Dec(n)[i] <= '9') && Value(Dec(n)) == n
    ensures Dec(n)[0] == '0' ==> n == 0
    ensures n > 0 ==> Dec(-n) == "-" + Dec(n)
  {
    DigitsReadBack(n);
    NoLeadingZero(n);
  }

  /** Different numbers are written differently. */
  lemma DecInjective(a: int, b: int)
    requires Dec(a) == Dec(b)
    ensures a == b
  {
    DigitsReadBack(if a < 0 then -a else a);
    DigitsReadBack(if b < 0 then -b else b);
    if a < 0 {
      assert Dec(b)[0] == '-';
      assert Dec(a)[1..] == Digits(-a) && Dec(b)[1..] == Digits(-b);
    } else {
      assert Dec(a)[0] != '-';
    }
  }

  lemma DigitsOnly(n: nat)
    ensures '-' !in Dec(n)
  {
  }

  // --- Joined texts -------------------------------------------------------------------------------

  ghost predicate IsFirstAt(c: char, s: string, p: nat) {
    p < |s| && s[p] == c && forall i :: 0 <= i < p ==> s[i] != c
  }

  ghost predicate IsLastAt(c: char, s: string, p: nat) {
    p < |s| && s[p] == c && forall i :: p < i < |s| ==> s[i] != c
  }

  // Two texts joined around one separator split in one way once its place is known.
  lemma SplitAt(c: char, a: string, x: string, b: string, y: string)
    requires |a| == |b| && a + [c] + x == b + [c] + y
    ensures a == b && x == y
  {
    var s, t := a + [c] + x, b + [c] + y;
    assert s[..|a|] == a && t[..|b|] == b;
    assert s[|a| + 1..] == x && t[|b| + 1..] == y;
  }

  lemma SplitAtFirst(c: char, a: string, x: string, b: string, y: string)
    requires c !in a && c !in b && a + [c] + x == b + [c] + y
    ensures a == b && x == y
  {
    assert IsFirstAt(c, a + [c] + x, |a|) && IsFirstAt(c, b + [c] + y, |b|);
    SplitAt(c, a, x, b, y);
  }

  lemma SplitAtLast(c: char, a: string, x: string, b: string, y: string)
    requires c !in x && c !in y && a + [c] + x == b + [c] + y
    ensures a == b && x == y
  {
    assert IsLastAt(c, a + [c] + x, |a|) && IsLastAt(c, b + [c] + y, |b|);
    SplitAt(c, a, x, b, y);
  }
}
