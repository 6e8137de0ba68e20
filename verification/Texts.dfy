/** The text helpers in use: lower case of ASCII letters, trimming, and cutting at a separator. */
module Texts {
  import opened Wrappers

  function LowerChar(c: char): char { if 'A' <= c <= 'Z' then (c as int + 32) as char else c }

  function Lower(s: string): (r: string)
    ensures |r| == |s|
  {
    seq(|s|, i requires 0 <= i < |s| => LowerChar(s[i]))
  }

  predicate IsSpace(c: char) {
    var n := c as int;
    9 <= n <= 13 || n == 32 || n == 0x85 || n == 0xA0 || n == 0x1680 || 0x2000 <= n <= 0x200A ||
    n == 0x2028 || n == 0x2029 || n == 0x202F || n == 0x205F || n == 0x3000
  }

  function TrimLeft(s: string): string { if s != [] && IsSpace(s[0]) then TrimLeft(s[1..]) else s }

  function TrimRight(s: string): string { if s != [] && IsSpace(s[|s| - 1]) then TrimRight(s[..|s| - 1]) else s }

  function TrimSpace(s: string): string { TrimRight(TrimLeft(s)) }

  // The text before and after the first separator, if there is one.
  function Cut(s: string, sep: char): Option<(string, string)> {
    if s == [] then None
    else if s[0] == sep then Some(([], s[1..]))
    else match Cut(s[1..], sep)
      case None => None
      case Some(p) => Some(([s[0]] + p.0, p.1))
  }

  /** The cut is at the first separator and loses nothing but it. */
  lemma {:induction false} CutIsFirst(s: string, sep: char)
    ensures Cut(s, sep).None? <==> sep !in s
    ensures Cut(s, sep).Some? ==> var (a, b) := Cut(s, sep).value; sep !in a && s == a + [sep] + b
  {
    if s != [] && s[0] != sep {
      CutIsFirst(s[1..], sep);
      assert s == [s[0]] + s[1..];
    }
  }

  predicate AllSpace(s: string) { forall i :: 0 <= i < |s| ==> IsSpace(s[i]) }

  lemma {:induction false} TrimLeftIs(s: string) returns (before: string)
    ensures s == before + TrimLeft(s) && AllSpace(before)
    ensures TrimLeft(s) != [] ==> !IsSpace(TrimLeft(s)[0])
    decreases |s|
  {
    before := [];
    if s != [] && IsSpace(s[0]) {
      var rest := TrimLeftIs(s[1..]);
      before := [s[0]] + rest;
      assert s == [s[0]] + s[1..];
    }
  }

  lemma {:induction false} TrimRightIs(s: string) returns (after: string)
    ensures s == TrimRight(s) + after && AllSpace(after)
    ensures TrimRight(s) != [] ==> !IsSpace(TrimRight(s)[|TrimRight(s)| - 1])
    decreases |s|
  {
    after := [];
    if s != [] && IsSpace(s[|s| - 1]) {
      var rest := TrimRightIs(s[..|s| - 1]);
      after := rest + [s[|s| - 1]];
      assert s == s[..|s| - 1] + [s[|s| - 1]];
    }
  }

  // A text between white space, neither starting nor ending with any.
  predicate IsTrimmed(s: string, before: string, r: string, after: string) {
    && s == before + r + after && AllSpace(before) && AllSpace(after)
    && (r != [] ==> !IsSpace(r[0]) && !IsSpace(r[|r| - 1]))
  }

  /** Trimming takes white space off both ends until the text neither starts nor ends with any. */
  lemma TrimSpaceIs(s: string)
    ensures exists before, after :: IsTrimmed(s, before, TrimSpace(s), after)
  {
    var before := TrimLeftIs(s);
    var after := TrimRightIs(TrimLeft(s));
    assert IsTrimmed(s, before, TrimSpace(s), after);
  }

  /** Lower case changes the ASCII capitals into their small letters and nothing else. */
  lemma LowerIs(s: string, i: nat)
    requires i < |s|
    ensures 'A' <= s[i] <= 'Z' ==> 'a' <= Lower(s)[i] <= 'z' && Lower(s)[i] as int == s[i] as int + 32
    ensures !('A' <= s[i] <= 'Z') ==> Lower(s)[i] == s[i]
  {
  }
}
