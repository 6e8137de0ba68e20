/**
 The comment and trailing-comma stripper of common/json5/json5.go.

 `Prep` is the in-place scanner over the buffer; `Cleaned` says what it computes on the text
 that is still ahead of the cursor. Characters stand for bytes: the scanner only compares them.
 */
module Json5 {

  predicate IsNL(c: char) { c == '\n' || c == '\r' }

  predicate IsWS(c: char) { c == ' ' || c == '\t' || IsNL(c) }

  function Spaces(n: nat): (r: string)
    ensures |r| == n && forall i :: 0 <= i < n ==> r[i] == ' '
  {
    seq(n, _ => ' ')
  }

  // --- The scanner on the text ahead of the cursor -----------------------------------------

  // The rest of a line, blanked.
  function LineOut(t: string): (r: string)
    ensures |r| <= |t|
  {
    if t == [] || IsNL(t[0]) then [] else " " + LineOut(t[1..])
  }

  // What follows the opening of a block comment, up to and including its terminator. A lone
  // star makes the scanner step over the next character without looking at it.
  function BlockOut(t: string): (r: string)
    ensures |r| <= |t|
  {
    if t == [] then []
    else if t[0] != '*' then " " + BlockOut(t[1..])
    else if |t| == 1 then " "
    else if t[1] == '/' then "  "
    else " " + [t[1]] + BlockOut(t[2..])
  }

  // A comment, or the single slash that opens none.
  function CommentOut(t: string): (r: string)
    requires t != [] && t[0] == '/'
    ensures 1 <= |r| <= |t|
  {
    if |t| >= 2 && t[1] == '/' then " " + LineOut(t[1..])
    else if |t| >= 2 && t[1] == '*' then "  " + BlockOut(t[2..])
    else "/"
  }

  // Length of a string literal after its opening quote, closing quote included.
  function StringLen(t: string): (n: nat)
    ensures n <= |t|
  {
    if t == [] then 0
    else if t[0] == '"' then 1
    else if t[0] == '\\' then if |t| == 1 then 1 else 2 + StringLen(t[2..])
    else 1 + StringLen(t[1..])
  }

  datatype Look = Look(closes: bool, out: string) {
    function After(c: string): Look { Look(closes, c + out) }
  }

  // What a comma sees ahead of it: comments are blanked on the way, a single slash makes the
  // scanner step over the character behind it.
  function LookAhead(t: string): (l: Look)
    ensures |l.out| <= |t|
    decreases |t|
  {
    if t == [] then Look(false, [])
    else if t[0] == '}' || t[0] == ']' then Look(true, [])
    else if t[0] == '/' then
      var c := CommentOut(t);
      if |c| > 1 then LookAhead(t[|c|..]).After(c)
      else if |t| == 1 then Look(false, t)
      else LookAhead(t[2..]).After(t[..2])
    else if IsWS(t[0]) then LookAhead(t[1..]).After([t[0]])
    else Look(false, [])
  }

  // What is written over the token the text begins with: a literal, a comment, a comma together
  // with everything its look-ahead covers, or a single character.
  function Head(t: string): (r: string)
    requires t != []
    ensures 1 <= |r| <= |t|
  {
    if t[0] == '"' then t[..1 + StringLen(t[1..])]
    else if t[0] == '/' then CommentOut(t)
    else if t[0] == ',' then CommaOut(LookAhead(t[1..]))
    else [t[0]]
  }

  function CommaOut(l: Look): string { [if l.closes then ' ' else ','] + l.out }

  function Cleaned(t: string): (r: string)
    ensures |r| == |t|
    decreases |t|
  {
    if t == [] then [] else Head(t) + Cleaned(t[|Head(t)|..])
  }

  // --- The scanner on the whole buffer -------------------------------------------------------

  datatype Scan = Scan(buf: string, i: nat)

  function LineScan(s: string, i: nat): (r: Scan)
    requires i <= |s|
    ensures |r.buf| == |s| && i <= r.i <= |s|
    decreases |s| - i
  {
    if i < |s| && !IsNL(s[i]) then LineScan(s[i := ' '], i + 1) else Scan(s, i)
  }

  function BlockScan(s: string, i: nat): (r: Scan)
    requires i <= |s| + 1
    ensures |r.buf| == |s| && i <= r.i
    decreases |s| + 1 - i
  {
    if i >= |s| then Scan(s, i)
    else if s[i] != '*' then BlockScan(s[i := ' '], i + 1)
    else if i + 1 < |s| && s[i + 1] == '/' then Scan(s[i := ' '][i + 1 := ' '], i + 1)
    else BlockScan(s[i := ' '], i + 2)
  }

  function CommentScan(s: string, i: nat): (r: Scan)
    requires 1 <= i <= |s|
    ensures |r.buf| == |s| && i <= r.i
  {
    if i < |s| && s[i] == '/' then LineScan(s[i - 1 := ' '], i)
    else if i < |s| && s[i] == '*' then BlockScan(s[i - 1 := ' '][i := ' '], i)
    else Scan(s, i)
  }

  function StringScan(s: string, i: nat): (r: nat)
    ensures i <= r
    decreases |s| - i
  {
    if i >= |s| then i
    else if s[i] == '"' then i + 1
    else if s[i] == '\\' then StringScan(s, i + 2)
    else StringScan(s, i + 1)
  }

  function CommaScan(s: string, j: nat, i: nat): (r: Scan)
    requires j < |s|
    ensures |r.buf| == |s| && i < r.i
    decreases |s| - i
  {
    var k := i + 1;
    if k >= |s| then Scan(s, k)
    else if s[k] == '}' || s[k] == ']' then Scan(s[j := ' '], k)
    else if s[k] == '/' then
      var c := CommentScan(s, k + 1);
      CommaScan(c.buf, j, c.i)
    else if !IsWS(s[k]) then Scan(s, k)
    else CommaScan(s, j, k)
  }

  function PrepScan(s: string, i: nat): string
    decreases |s| - i
  {
    if i >= |s| then s
    else if s[i] == '"' then PrepScan(s, StringScan(s, i + 1))
    else if s[i] == '/' then var c := CommentScan(s, i + 1); PrepScan(c.buf, c.i)
    else if s[i] == ',' then var c := CommaScan(s, i, i); PrepScan(c.buf, c.i)
    else PrepScan(s, i + 1)
  }

  // `out` written over `s` from position k, character by character.
  function Over(s: string, k: nat, out: string): (r: string)
    requires k + |out| <= |s|
    ensures |r| == |s|
    decreases |out|
  {
    if out == [] then s else Over(s[k := out[0]], k + 1, out[1..])
  }

  lemma {:induction false} OverAt(s: string, k: nat, out: string)
    requires k + |out| <= |s|
    ensures var r := Over(s, k, out);
      && r[..k] == s[..k] && r[k + |out|..] == s[k + |out|..]
      && r[..k + |out|] == s[..k] + out
    decreases |out|
  {
    if out != [] {
      var s1 := s[k := out[0]];
      OverAt(s1, k + 1, out[1..]);
      assert s1[..k + 1] == s[..k] + [out[0]];
      assert out == [out[0]] + out[1..];
      var r := Over(s, k, out);
      assert r[..k] == r[..k + 1][..k];
      assert r[k + |out|..] == s1[k + |out|..];
    }
  }

  lemma {:induction false} OverOver(s: string, k: nat, a: string, b: string)
    requires k + |a| + |b| <= |s|
    ensures Over(Over(s, k, a), k + |a|, b) == Over(s, k, a + b)
    decreases |a|
  {
    if a == [] {
      assert a + b == b;
    } else {
      OverOver(s[k := a[0]], k + 1, a[1..], b);
      assert (a + b)[1..] == a[1..] + b;
    }
  }

  lemma OverOne(s: string, k: nat, c: char)
    requires k < |s|
    ensures s[k := c] == Over(s, k, [c])
  {
    assert [c][1..] == [];
  }

  lemma {:induction false} OverSame(s: string, k: nat, n: nat)
    requires k + n <= |s|
    ensures Over(s, k, s[k..k + n]) == s
    decreases n
  {
    if n > 0 {
      assert s[k..k + n][1..] == s[k + 1..k + n];
      assert s[k := s[k]] == s;
      OverSame(s, k + 1, n - 1);
    }
  }

  lemma {:induction false} LineScanIs(s: string, k: nat)
    requires k <= |s|
    ensures var out := LineOut(s[k..]); var r := LineScan(s, k);
      && r == Scan(Over(s, k, out), k + |out|)
      && (r.i < |s| ==> IsNL(s[r.i]))
    decreases |s| - k
  {
    if k < |s| && !IsNL(s[k]) {
      OverOne(s, k, ' ');
      LineScanIs(s[k := ' '], k + 1);
      OverOver(s, k, " ", LineOut(s[k + 1..]));
      assert s[k..][1..] == s[k + 1..];
    }
  }

  // The cursor behind a block comment: on the blanked slash of the terminator, or at or past
  // the end of the buffer when there is none.
  ghost predicate BlockEnds(r: Scan, k: nat, n: nat) {
    (r.i + 1 == n <= |r.buf| && k <= r.i && r.buf[r.i] == ' ') || (r.i >= n == |r.buf|)
  }

  lemma {:induction false} BlockScanIs(s: string, k: nat)
    requires k <= |s|
    ensures var out := BlockOut(s[k..]); var r := BlockScan(s, k);
      r.buf == Over(s, k, out) && BlockEnds(r, k, k + |out|)
    decreases |s| - k
  {
    if k < |s| {
      assert s[k..][1..] == s[k + 1..];
      var s1 := s[k := ' '];
      OverOne(s, k, ' ');
      if s[k] != '*' {
        BlockScanIs(s1, k + 1);
        OverOver(s, k, " ", BlockOut(s[k + 1..]));
      } else if k + 1 < |s| {
        assert s[k..][2..] == s[k + 2..];
        if s[k + 1] == '/' {
          OverOne(s1, k + 1, ' ');
          OverOver(s, k, " ", " ");
          assert " " + " " == "  ";
        } else {
          BlockScanIs(s1, k + 2);
          assert s1[k + 1 := s[k + 1]] == s1 && s1[k + 2..] == s[k + 2..];
          OverOne(s1, k + 1, s[k + 1]);
          OverOver(s, k, " ", [s[k + 1]]);
          OverOver(s, k, " " + [s[k + 1]], BlockOut(s[k + 2..]));
        }
      }
    }
  }

  // The cursor behind a comment or a single slash.
  ghost predicate CommentEnds(r: Scan, s: string, k: nat, out: string)
    requires k < |s|
  {
    var n := k + |out|;
    && n <= |s| == |r.buf|
    && (|out| == 1 ==> r.i == n)
    && (|out| > 1 && r.i == n < |s| ==> IsNL(s[n]))
    && (r.i == n || (r.i + 1 == n && k < r.i && r.buf[r.i] == ' ') || r.i > n == |s|)
  }

  lemma CommentScanIs(s: string, k: nat)
    requires k < |s| && s[k] == '/'
    ensures var out := CommentOut(s[k..]); var r := CommentScan(s, k + 1);
      r.buf == Over(s, k, out) && CommentEnds(r, s, k, out)
  {
    assert s[k..][1..] == s[k + 1..];
    if k + 1 < |s| && s[k + 1] == '/' {
      LineCommentScan(s, k, LineOut(s[k + 1..]));
    } else if k + 1 < |s| && s[k + 1] == '*' {
      assert s[k..][2..] == s[k + 2..];
      BlockCommentScan(s, k, BlockOut(s[k + 2..]));
    } else {
      OverSame(s, k, 1);
      assert s[k..k + 1] == "/";
    }
  }

  lemma LineCommentScan(s: string, k: nat, out: string)
    requires k + 1 < |s| && s[k + 1] == '/' && out == LineOut(s[k + 1..])
    ensures CommentScan(s, k + 1) == Scan(Over(s, k, " " + out), k + 1 + |out|)
    ensures k + 1 + |out| < |s| ==> IsNL(s[k + 1 + |out|])
    ensures |out| > 0
  {
    OverOne(s, k, ' ');
    LineScanIs(s[k := ' '], k + 1);
    OverOver(s, k, " ", out);
  }

  lemma BlockCommentScan(s: string, k: nat, out: string)
    requires k + 1 < |s| && s[k + 1] == '*' && out == BlockOut(s[k + 2..])
    ensures var r := CommentScan(s, k + 1);
      r.buf == Over(s, k, "  " + out) && BlockEnds(r, k + 2, k + 2 + |out|)
  {
    var s2 := s[k := ' '][k + 1 := ' '];
    assert Over(s, k, "  ") == s2 by {
      assert "  "[1..] == " ";
      OverOne(s[k := ' '], k + 1, ' ');
    }
    assert s2[k + 1 := ' '] == s2;
    BlockScanIs(s2, k + 2);
    OverOver(s, k, "  ", out);
  }

  lemma {:induction false} StringScanIs(s: string, k: nat)
    requires k <= |s|
    ensures var i := StringScan(s, k); var n := k + StringLen(s[k..]);
      i == n || i > n == |s|
    decreases |s| - k
  {
    if k < |s| {
      assert s[k..][1..] == s[k + 1..];
      if s[k] == '\\' && k + 1 < |s| {
        assert s[k..][2..] == s[k + 2..];
        StringScanIs(s, k + 2);
      } else if s[k] != '"' && s[k] != '\\' {
        StringScanIs(s, k + 1);
      }
    }
  }

  // What a comma at position j leaves behind when the look-ahead from k is `l`.
  ghost predicate CommaDone(r: Scan, s: string, j: nat, k: nat, l: Look)
    requires j < k && k + |l.out| <= |s|
  {
    && r.buf == Over(s, k, l.out)[j := if l.closes then ' ' else s[j]]
    && (r.i == k + |l.out| || r.i > k + |l.out| == |s|)
  }

  // The look-ahead goes on behind what has been written over at k.
  lemma CommaJoin(r: Scan, s: string, j: nat, k: nat, out: string, buf: string, l: Look)
    requires j < k && k + |out| + |l.out| <= |s| && buf == Over(s, k, out)
    requires CommaDone(r, buf, j, k + |out|, l)
    ensures CommaDone(r, s, j, k, l.After(out))
  {
    OverOver(s, k, out, l.out);
    OverAt(s, k, out);
    assert buf[j] == buf[..k][j];
  }

  lemma {:induction false} CommaScanIs(s: string, j: nat, k: nat)
    requires j < k <= |s|
    ensures CommaDone(CommaScan(s, j, k - 1), s, j, k, LookAhead(s[k..]))
    decreases |s| - k, 2
  {
    if k < |s| && s[k] == '/' {
      CommentScanIs(s, k);
      CommaPastComment(s, j, k, CommentScan(s, k + 1));
    } else if k < |s| && IsWS(s[k]) {
      CommaScanIs(s, j, k + 1);
      CommaJoinSame(CommaScan(s, j, k), s, j, k, LookAhead(s[k + 1..]));
      assert s[k..][1..] == s[k + 1..];
    } else {
      CommaStops(s, j, k);
    }
  }

  lemma CommaStops(s: string, j: nat, k: nat)
    requires j < k <= |s| && (k < |s| ==> s[k] != '/' && !IsWS(s[k]))
    ensures CommaDone(CommaScan(s, j, k - 1), s, j, k, LookAhead(s[k..]))
  {
    assert s[j := s[j]] == s;
  }

  // One more character is skipped unchanged.
  lemma CommaJoinSame(r: Scan, s: string, j: nat, k: nat, l: Look)
    requires j < k < |s| && k + 1 + |l.out| <= |s|
    requires CommaDone(r, s, j, k + 1, l)
    ensures CommaDone(r, s, j, k, l.After([s[k]]))
  {
    OverOne(s, k, s[k]);
    assert s[k := s[k]] == s;
    CommaJoin(r, s, j, k, [s[k]], s, l);
  }

  lemma CommaPastComment(s: string, j: nat, k: nat, r: Scan)
    requires j < k < |s| && s[k] == '/'
    requires r.buf == Over(s, k, CommentOut(s[k..])) && CommentEnds(r, s, k, CommentOut(s[k..]))
    ensures CommaDone(CommaScan(r.buf, j, r.i), s, j, k, LookAhead(s[k..]))
    decreases |s| - k, 1
  {
    var out := CommentOut(s[k..]);
    var n := k + |out|;
    if r.i + 1 == n {
      LookPastBlock(s, k, out);
      CommaPastBlock(s, j, k, out, r, s[n..]);
    } else if n == |s| {
      LookPastEnd(s, k, out);
      CommaPastEnd(s, j, k, out, r);
    } else {
      LookPastSkipped(s, k, out);
      CommaPastSkipped(s, j, k, out, r);
    }
  }

  lemma CommaPastBlock(s: string, j: nat, k: nat, out: string, r: Scan, tail: string)
    requires j < k < k + |out| <= |s| && r.buf == Over(s, k, out) && r.i + 1 == k + |out|
    requires tail == s[k + |out|..]
    ensures CommaDone(CommaScan(r.buf, j, r.i), s, j, k, LookAhead(tail).After(out))
    decreases |s| - k, 0
  {
    OverAt(s, k, out);
    assert r.buf[k + |out|..] == tail;
    CommaScanIs(r.buf, j, k + |out|);
    CommaJoin(CommaScan(r.buf, j, r.i), s, j, k, out, r.buf, LookAhead(tail));
  }

  lemma CommaPastEnd(s: string, j: nat, k: nat, out: string, r: Scan)
    requires j < k < k + |out| == |s| && r.buf == Over(s, k, out) && r.i >= |s|
    ensures CommaDone(CommaScan(r.buf, j, r.i), s, j, k, Look(false, []).After(out))
  {
    assert r.buf[j := r.buf[j]] == r.buf;
    CommaJoin(CommaScan(r.buf, j, r.i), s, j, k, out, r.buf, Look(false, []));
  }

  lemma CommaPastSkipped(s: string, j: nat, k: nat, out: string, r: Scan)
    requires j < k < k + |out| < |s| && r.buf == Over(s, k, out) && r.i == k + |out|
    ensures CommaDone(CommaScan(r.buf, j, r.i), s, j, k,
                      LookAhead(s[k + |out| + 1..]).After([s[k + |out|]]).After(out))
    decreases |s| - k, 0
  {
    var n := k + |out|;
    OverAt(s, k, out);
    assert r.buf[n] == r.buf[n..][0] == s[n] && r.buf[n + 1..] == r.buf[n..][1..] == s[n + 1..];
    CommaScanIs(r.buf, j, n + 1);
    var r', l := CommaScan(r.buf, j, r.i), LookAhead(s[n + 1..]);
    CommaJoinSame(r', r.buf, j, n, l);
    CommaJoin(r', s, j, k, out, r.buf, l.After([s[n]]));
  }

  lemma LookPastBlock(s: string, k: nat, out: string)
    requires k < |s| && s[k] == '/' && out == CommentOut(s[k..]) && |out| > 1
    ensures LookAhead(s[k..]) == LookAhead(s[k + |out|..]).After(out)
  {
    assert s[k..][|out|..] == s[k + |out|..];
  }

  lemma LookPastEnd(s: string, k: nat, out: string)
    requires k < |s| && s[k] == '/' && out == CommentOut(s[k..]) && k + |out| == |s|
    ensures LookAhead(s[k..]) == Look(false, []).After(out)
  {
    assert s[k..][|out|..] == [] && out + [] == out;
  }

  // Behind a single slash the next character is skipped, behind a line comment the newline.
  lemma LookPastSkipped(s: string, k: nat, out: string)
    requires k < |s| && s[k] == '/' && out == CommentOut(s[k..]) && k + |out| < |s|
    requires |out| > 1 ==> IsNL(s[k + |out|])
    ensures var l := LookAhead(s[k + |out| + 1..]);
      LookAhead(s[k..]) == l.After([s[k + |out|]]).After(out)
  {
    var c, rest := s[k + |out|], s[k + |out| + 1..];
    assert s[k..][|out|..] == [c] + rest;
    if |out| == 1 {
      LookPastSlash(s[k..], c, rest);
    } else {
      LookPastLine(s[k..], out, c, rest);
    }
  }

  lemma LookPastSlash(t: string, c: char, rest: string)
    requires t != [] && t[0] == '/' && |CommentOut(t)| == 1 && t[1..] == [c] + rest
    ensures LookAhead(t) == LookAhead(rest).After([c]).After(CommentOut(t))
  {
    assert t[2..] == t[1..][1..] == rest;
    assert t[..2] == CommentOut(t) + [c];
    Assoc(CommentOut(t), [c], LookAhead(rest).out);
  }

  lemma LookPastLine(t: string, out: string, c: char, rest: string)
    requires t != [] && t[0] == '/' && out == CommentOut(t) && |out| > 1
    requires t[|out|..] == [c] + rest && IsNL(c)
    ensures LookAhead(t) == LookAhead(rest).After([c]).After(out)
  {
    assert LookAhead(t) == LookAhead([c] + rest).After(out);
    assert ([c] + rest)[1..] == rest;
  }

  /** The scanner that writes over the buffer computes what `Cleaned` says. */
  lemma {:induction false} PrepIsCleaned(s: string, k: nat)
    requires k <= |s|
    ensures PrepScan(s, k) == s[..k] + Cleaned(s[k..])
    decreases |s| - k, 3
  {
    if k == |s| {
      assert s[k..] == [] && s[..k] == s;
    } else if s[k] == '"' {
      PrepString(s, k);
    } else if s[k] == '/' {
      PrepComment(s, k);
    } else if s[k] == ',' {
      PrepComma(s, k);
    } else {
      PrepIsCleaned(s, k + 1);
      Moved(s, k, [s[k]], s, Cleaned(s[k + 1..]));
    }
  }

  // `out` has been written at k, what comes of the text behind it is `rest`.
  lemma Moved(s: string, k: nat, out: string, buf: string, rest: string)
    requires k + |out| <= |s| == |buf|
    requires buf[..k + |out|] == s[..k] + out
    ensures buf[..k + |out|] + rest == s[..k] + (out + rest)
  {
  }

  lemma {:induction false} PrepString(s: string, k: nat)
    requires k < |s| && s[k] == '"'
    ensures PrepScan(s, k) == s[..k] + Cleaned(s[k..])
    decreases |s| - k, 2
  {
    StringScanIs(s, k + 1);
    var t := s[k..];
    assert t[1..] == s[k + 1..];
    var n := 1 + StringLen(t[1..]);
    assert s[..k + n] == s[..k] + t[..n];
    assert t[n..] == s[k + n..];
    PrepPast(s, k, t[..n], s, StringScan(s, k + 1), t[n..]);
  }

  // The cursor may rest on a blank the scanner wrote, or beyond the end.
  ghost predicate RestsAt(buf: string, i: nat, n: nat) {
    n <= |buf| && (i == n || (i + 1 == n && buf[i] == ' ') || i > n == |buf|)
  }

  lemma ScanFromRest(buf: string, i: nat, n: nat)
    requires RestsAt(buf, i, n)
    ensures PrepScan(buf, i) == PrepScan(buf, n)
  {
  }

  lemma {:induction false} PrepRest(buf: string, i: nat, n: nat, tail: string)
    requires RestsAt(buf, i, n) && tail == buf[n..]
    ensures PrepScan(buf, i) == buf[..n] + Cleaned(tail)
    decreases |buf| - n, 4
  {
    ScanFromRest(buf, i, n);
    PrepIsCleaned(buf, n);
  }

  // A comment or a comma with its look-ahead has been written over the buffer.
  lemma {:induction false} PrepPast(s: string, k: nat, out: string, buf: string, i: nat, tail: string)
    requires k < k + |out| <= |s| == |buf| && RestsAt(buf, i, k + |out|)
    requires buf[..k + |out|] == s[..k] + out && buf[k + |out|..] == tail
    ensures PrepScan(buf, i) == s[..k] + (out + Cleaned(tail))
    decreases |s| - k, 0
  {
    PrepRest(buf, i, k + |out|, tail);
    Moved(s, k, out, buf, Cleaned(tail));
  }

  lemma {:induction false} PrepComment(s: string, k: nat)
    requires k < |s| && s[k] == '/'
    ensures PrepScan(s, k) == s[..k] + Cleaned(s[k..])
    decreases |s| - k, 2
  {
    CommentScanIs(s, k);
    OverAt(s, k, CommentOut(s[k..]));
    var r := CommentScan(s, k + 1);
    assert s[k..][|CommentOut(s[k..])|..] == s[k + |CommentOut(s[k..])|..];
    PrepPast(s, k, CommentOut(s[k..]), r.buf, r.i, s[k..][|CommentOut(s[k..])|..]);
  }

  lemma ScanTakesComma(s: string, k: nat)
    requires k < |s| && s[k] == ','
    ensures PrepScan(s, k) == PrepScan(CommaScan(s, k, k).buf, CommaScan(s, k, k).i)
  {
  }

  lemma CleanTakesComma(t: string, rest: string, l: Look)
    requires t != [] && t[0] == ',' && rest == t[1..] && l == LookAhead(rest)
    ensures |CommaOut(l)| == 1 + |l.out| <= |t|
    ensures Cleaned(t) == CommaOut(l) + Cleaned(t[1 + |l.out|..])
  {
    assert Head(t) == CommaOut(l) && |CommaOut(l)| == 1 + |l.out|;
  }

  // The scan goes on behind what has been written over, and so does the cleaning.
  lemma {:induction false} PrepGoesOn(
      s: string, k: nat, out: string, buf: string, i: nat, tail: string, scanned: string, cleaned: string)
    requires k < k + |out| <= |s| == |buf| && RestsAt(buf, i, k + |out|)
    requires buf[..k + |out|] == s[..k] + out && buf[k + |out|..] == tail
    requires scanned == PrepScan(buf, i) && cleaned == out + Cleaned(tail)
    ensures scanned == s[..k] + cleaned
    decreases |s| - k, 1
  {
    PrepPast(s, k, out, buf, i, tail);
  }

  lemma {:induction false} PrepComma(s: string, k: nat)
    requires k < |s| && s[k] == ','
    ensures PrepScan(s, k) == s[..k] + Cleaned(s[k..])
    decreases |s| - k, 2
  {
    var l := LookAhead(s[k + 1..]);
    var r := CommaScan(s, k, k);
    ScanTakesComma(s, k);
    CleanTakesComma(s[k..], s[k + 1..], l);
    CommaWritten(s, k, r, l, if l.closes then ' ' else ',');
    PrepGoesOn(s, k, CommaOut(l), r.buf, r.i, s[k..][1 + |l.out|..], PrepScan(s, k), Cleaned(s[k..]));
  }

  lemma CommaWritten(s: string, k: nat, r: Scan, l: Look, mark: char)
    requires k < |s| && s[k] == ',' && r == CommaScan(s, k, k) && l == LookAhead(s[k + 1..])
    requires mark == if l.closes then ' ' else ','
    ensures var n := k + 1 + |l.out|;
      && r.buf[..n] == s[..k] + ([mark] + l.out) && r.buf[n..] == s[n..] && RestsAt(r.buf, r.i, n)
  {
    CommaScanIs(s, k, k + 1);
    OverAt(s, k + 1, l.out);
    MarkSet(s, k, l.out, Over(s, k + 1, l.out), mark);
  }

  lemma MarkSet(s: string, k: nat, out: string, o: string, mark: char)
    requires k + 1 + |out| <= |s| == |o|
    requires o[..k + 1 + |out|] == s[..k + 1] + out
    ensures o[k := mark][..k + 1 + |out|] == s[..k] + ([mark] + out)
    ensures o[k := mark][k + 1 + |out|..] == o[k + 1 + |out|..]
  {
    var n := k + 1 + |out|;
    assert o[k := mark][..n] == o[..n][k := mark];
    assert (s[..k + 1] + out)[k := mark] == s[..k] + ([mark] + out);
  }

  // --- The in-place scanner -------------------------------------------------------------------

  method ConsumeComment(s: array<char>, start: nat) returns (i: nat)
    requires 1 <= start <= s.Length
    modifies s
    ensures Scan(s[..], i) == CommentScan(old(s[..]), start)
  {
    i := start;
    if i < s.Length && s[i] == '/' {
      s[i - 1] := ' ';
      ghost var goal := LineScan(s[..], i);
      while i < s.Length && !IsNL(s[i])
        invariant i <= s.Length && LineScan(s[..], i) == goal
      {
        s[i] := ' ';
        i := i + 1;
      }
      assert goal == Scan(s[..], i);
    }
    if i < s.Length && s[i] == '*' {
      s[i - 1] := ' ';
      s[i] := ' ';
      ghost var goal := BlockScan(s[..], i);
      while i < s.Length
        invariant i <= s.Length + 1 && BlockScan(s[..], i) == goal
      {
        if s[i] != '*' {
          s[i] := ' ';
        } else {
          s[i] := ' ';
          i := i + 1;
          if i < s.Length {
            if s[i] == '/' {
              s[i] := ' ';
              break;
            }
          }
        }
        i := i + 1;
      }
    }
  }

  lemma WholeBuffer(s: string)
    ensures PrepScan(s, 0) == Cleaned(s)
  {
    PrepIsCleaned(s, 0);
    assert s[0..] == s && s[..0] + Cleaned(s) == Cleaned(s);
  }

  method Prep(s: array<char>)
    modifies s
    ensures s[..] == Cleaned(old(s[..]))
  {
    ghost var goal := PrepScan(s[..], 0);
    WholeBuffer(s[..]);
    var i := 0;
    while i < s.Length
      invariant PrepScan(s[..], i) == goal
    {
      if s[i] == '"' {
        i := i + 1;
        ghost var end := StringScan(s[..], i);
        while i < s.Length
          invariant StringScan(s[..], i) == end
        {
          if s[i] == '"' {
            i := i + 1;
            break;
          } else if s[i] == '\\' {
            i := i + 1;
          }
          i := i + 1;
        }
        assert i == end;
      } else if s[i] == '/' {
        i := ConsumeComment(s, i + 1);
      } else if s[i] == ',' {
        i := CommaAhead(s, i);
      } else {
        i := i + 1;
      }
    }
  }

  // The loop behind a comma at position j, which looks for the closing bracket.
  method CommaAhead(s: array<char>, j: nat) returns (i: nat)
    requires j < s.Length
    modifies s
    ensures Scan(s[..], i) == CommaScan(old(s[..]), j, j)
  {
    i := j;
    while true
      invariant CommaScan(s[..], j, i) == CommaScan(old(s[..]), j, j)
      decreases s.Length - i
    {
      i := i + 1;
      if i >= s.Length {
        break;
      } else if s[i] == '}' || s[i] == ']' {
        s[j] := ' ';
        break;
      } else if s[i] == '/' {
        i := ConsumeComment(s, i + 1);
      } else if !IsWS(s[i]) {
        break;
      }
    }
  }

  // --- Nothing but blanking ---------------------------------------------------------------------

  // Every character is kept or replaced by a space.
  predicate OnlyBlanks(t: string, out: string) {
    |out| <= |t| && forall i :: 0 <= i < |out| ==> out[i] == t[i] || out[i] == ' '
  }

  lemma OnlyBlanksJoin(t: string, a: string, b: string)
    requires OnlyBlanks(t, a) && OnlyBlanks(t[|a|..], b)
    ensures OnlyBlanks(t, a + b)
  {
    forall i | |a| <= i < |a + b| ensures (a + b)[i] == t[i] || (a + b)[i] == ' ' {
      assert (a + b)[i] == b[i - |a|] && t[|a|..][i - |a|] == t[i];
    }
  }

  lemma {:induction false} LineOutBlanks(t: string)
    ensures OnlyBlanks(t, LineOut(t))
    decreases |t|
  {
    if t != [] && !IsNL(t[0]) {
      LineOutBlanks(t[1..]);
      OnlyBlanksJoin(t, " ", LineOut(t[1..]));
    }
  }

  lemma {:induction false} BlockOutBlanks(t: string)
    ensures OnlyBlanks(t, BlockOut(t))
    decreases |t|
  {
    if t != [] {
      if t[0] != '*' {
        BlockOutBlanks(t[1..]);
        OnlyBlanksJoin(t, " ", BlockOut(t[1..]));
      } else if |t| > 1 && t[1] != '/' {
        BlockOutBlanks(t[2..]);
        OnlyBlanksJoin(t, " " + [t[1]], BlockOut(t[2..]));
      }
    }
  }

  lemma CommentOutBlanks(t: string)
    requires t != [] && t[0] == '/'
    ensures OnlyBlanks(t, CommentOut(t))
  {
    if |t| >= 2 && t[1] == '/' {
      LineOutBlanks(t[1..]);
      OnlyBlanksJoin(t, " ", LineOut(t[1..]));
    } else if |t| >= 2 && t[1] == '*' {
      BlockOutBlanks(t[2..]);
      OnlyBlanksJoin(t, "  ", BlockOut(t[2..]));
    }
  }

  lemma {:induction false} LookAheadBlanks(t: string)
    ensures OnlyBlanks(t, LookAhead(t).out)
    decreases |t|
  {
    if t != [] && t[0] == '/' {
      var c := CommentOut(t);
      CommentOutBlanks(t);
      if |c| > 1 {
        LookAheadBlanks(t[|c|..]);
        OnlyBlanksJoin(t, c, LookAhead(t[|c|..]).out);
      } else if |t| > 1 {
        LookAheadBlanks(t[2..]);
        OnlyBlanksJoin(t, t[..2], LookAhead(t[2..]).out);
      }
    } else if t != [] && IsWS(t[0]) {
      LookAheadBlanks(t[1..]);
      OnlyBlanksJoin(t, [t[0]], LookAhead(t[1..]).out);
    }
  }

  lemma HeadBlanks(t: string)
    requires t != []
    ensures OnlyBlanks(t, Head(t))
  {
    if t[0] == '/' {
      CommentOutBlanks(t);
    } else if t[0] == ',' {
      var l := LookAhead(t[1..]);
      LookAheadBlanks(t[1..]);
      OnlyBlanksJoin(t, [if l.closes then ' ' else ','], l.out);
    }
  }

  /** On every text whatsoever the stripper keeps each character or replaces it by a space. */
  lemma {:induction false} CleanedOnlyBlanks(t: string)
    ensures OnlyBlanks(t, Cleaned(t))
    decreases |t|
  {
    if t != [] {
      HeadBlanks(t);
      CleanedOnlyBlanks(t[|Head(t)|..]);
      OnlyBlanksJoin(t, Head(t), Cleaned(t[|Head(t)|..]));
    }
  }

  // --- Block comments: exactly which ones are blanked ------------------------------------------------

  ghost predicate Blank(s: string) { forall i :: 0 <= i < |s| ==> IsWS(s[i]) }

  // Every star of the body is followed by white space, inside the body.
  predicate StarsSpaced(b: string) {
    forall i :: 0 <= i < |b| && b[i] == '*' ==> i + 1 < |b| && IsWS(b[i + 1])
  }

  predicate ContainsEnd(b: string) {
    exists i :: 0 <= i < |b| - 1 && b[i] == '*' && b[i + 1] == '/'
  }

  // The body of such a comment, blanked; only the white space behind a star is kept as it is.
  function BlankBody(b: string): (r: string)
    ensures |r| == |b|
  {
    if b == [] then []
    else if b[0] == '*' && |b| > 1 then " " + [b[1]] + BlankBody(b[2..])
    else " " + BlankBody(b[1..])
  }

  lemma {:induction false} BlankBodyAt(b: string, i: nat)
    requires i < |b|
    ensures BlankBody(b)[i] == ' ' || (i > 0 && b[i - 1] == '*' && BlankBody(b)[i] == b[i])
    decreases |b|
  {
    if b[0] == '*' && |b| > 1 {
      if i >= 2 {
        BlankBodyAt(b[2..], i - 2);
        assert BlankBody(b)[i] == BlankBody(b[2..])[i - 2];
      }
    } else if i >= 1 {
      BlankBodyAt(b[1..], i - 1);
      assert BlankBody(b)[i] == BlankBody(b[1..])[i - 1];
    }
  }

  lemma BlankBodyIsBlank(b: string)
    requires StarsSpaced(b)
    ensures Blank(BlankBody(b))
  {
    forall i | 0 <= i < |b| ensures IsWS(BlankBody(b)[i]) {
      BlankBodyAt(b, i);
    }
  }

  lemma SpacedTail(b: string, n: nat)
    requires StarsSpaced(b) && n <= |b|
    ensures StarsSpaced(b[n..])
  {
    forall i | 0 <= i < |b[n..]| && b[n..][i] == '*' ensures i + 1 < |b[n..]| && IsWS(b[n..][i + 1]) {
      assert b[i + n] == '*';
    }
  }

  lemma {:induction false} BlockBlanked(b: string, rest: string)
    requires StarsSpaced(b)
    ensures BlockOut(b + "*/" + rest) == BlankBody(b) + "  "
    decreases |b|
  {
    var t := b + "*/" + rest;
    if b == [] {
      assert t[0] == '*' && t[1] == '/';
    } else if b[0] != '*' {
      assert t[0] == b[0] && t[1..] == b[1..] + "*/" + rest;
      SpacedTail(b, 1);
      BlockBlanked(b[1..], rest);
    } else {
      assert t[0] == '*' && t[1] == b[1] && IsWS(b[1]) && t[2..] == b[2..] + "*/" + rest;
      SpacedTail(b, 2);
      BlockBlanked(b[2..], rest);
      assert BlockOut(t) == " " + [b[1]] + BlockOut(t[2..]);
    }
  }

  lemma NoEndInTail(b: string, n: nat)
    requires !ContainsEnd(b) && n <= |b|
    ensures !ContainsEnd(b[n..])
  {
    forall i | 0 <= i < |b[n..]| - 1 ensures !(b[n..][i] == '*' && b[n..][i + 1] == '/') {
      assert b[n..][i] == b[i + n] && b[n..][i + 1] == b[i + n + 1];
    }
  }

  lemma {:induction false} BlankedHasSpacedStars(b: string, rest: string)
    requires !ContainsEnd(b)
    requires var out := BlockOut(b + "*/" + rest); |out| == |b| + 2 && Blank(out)
    ensures StarsSpaced(b)
    decreases |b|
  {
    var t := b + "*/" + rest;
    if b != [] {
      var n := if b[0] != '*' then 1 else 2;
      if n == 2 {
        assert t[1] == if |b| > 1 then b[1] else '*';
        assert t[1] != '/';
        assert BlockOut(t)[1] == t[1];
      }
      assert t[n..] == b[n..] + "*/" + rest;
      assert BlockOut(t[n..]) == BlockOut(t)[n..];
      NoEndInTail(b, n);
      BlankedHasSpacedStars(b[n..], rest);
      forall i | 0 <= i < |b| && b[i] == '*' ensures i + 1 < |b| && IsWS(b[i + 1]) {
        if i >= n {
          assert b[n..][i - n] == '*';
        }
      }
    }
  }

  /** A block comment ends at its terminator and leaves nothing but white space, whatever follows it,
      if and only if every star in its body is followed by white space: a lone star makes the scanner
      skip the next character, which stays, and may be the star of the terminator. */
  lemma BlockCommentBlankedIff(b: string, rest: string)
    requires !ContainsEnd(b)
    ensures var out := CommentOut("/*" + b + "*/" + rest);
      |out| == |b| + 4 && Blank(out) <==> StarsSpaced(b)
  {
    var t := "/*" + b + "*/" + rest;
    assert t[2..] == b + "*/" + rest;
    var out := CommentOut(t);
    if StarsSpaced(b) {
      BlockBlanked(b, rest);
      BlankBodyIsBlank(b);
    }
    if |out| == |b| + 4 && Blank(out) {
      assert BlockOut(t[2..]) == out[2..];
      BlankedHasSpacedStars(b, rest);
    }
  }

  /** The doc-comment style breaks: the comment does not end and takes the value with it. */
  lemma DoubleStarSwallowsTheText()
    ensures Cleaned("/***/1") == "   *  "
  {
    var t := "/***/1";
    assert t[2..] == "**/1" && t[2..][2..] == "/1" && "/1"[1..] == "1" && "1"[1..] == [];
    assert BlockOut("1") == " " && BlockOut("/1") == "  ";
    assert BlockOut("**/1") == " " + "*" + "  ";
    assert CommentOut(t) == "   *  ";
    assert t[6..] == [];
  }

  // --- Segments ------------------------------------------------------------------------------------------

  datatype Segment =
    | Str(body: string)        // a string literal without its quotes
    | Line(body: string)       // a line comment without the two slashes
    | Block(body: string)      // a block comment without its delimiters
    | Comma
    | Plain(c: char)

  // The characters between the quotes: escapes are pairs, no bare quote.
  predicate LiteralBody(b: string) {
    b == [] ||
    if b[0] == '\\' then |b| >= 2 && LiteralBody(b[2..]) else b[0] != '"' && LiteralBody(b[1..])
  }

  predicate WellFormed(seg: Segment) {
    match seg
    case Str(b) => LiteralBody(b)
    case Line(b) => '\n' !in b && '\r' !in b
    case Block(b) => StarsSpaced(b)
    case Comma => true
    case Plain(c) => c != '"' && c != '/' && c != ','
  }

  // A line comment runs to a line break or to the end of the text.
  predicate WellFormedText(segs: seq<Segment>) {
    && (forall seg :: seg in segs ==> WellFormed(seg))
    && (forall i :: 0 <= i < |segs| - 1 && segs[i].Line? ==> segs[i + 1] in {Plain('\n'), Plain('\r')})
  }

  function Text(seg: Segment): (r: string)
    ensures r != []
  {
    match seg
    case Str(b) => "\"" + b + "\""
    case Line(b) => "//" + b
    case Block(b) => "/*" + b + "*/"
    case Comma => ","
    case Plain(c) => [c]
  }

  function Render(segs: seq<Segment>): string {
    if segs == [] then [] else Text(segs[0]) + Render(segs[1..])
  }

  predicate Insignificant(seg: Segment) {
    seg.Line? || seg.Block? || seg in {Plain(' '), Plain('\t'), Plain('\n'), Plain('\r')}
  }

  // The next segment that is neither white space nor a comment closes an object or an array.
  predicate ClosesNext(segs: seq<Segment>) {
    segs != [] &&
    if Insignificant(segs[0]) then ClosesNext(segs[1..])
    else segs[0] == Plain('}') || segs[0] == Plain(']')
  }

  // What the stripper promises for the first segment of a text.
  function StrippedHead(segs: seq<Segment>): (r: string)
    requires segs != []
  {
    match segs[0]
    case Line(_) => Spaces(|Text(segs[0])|)
    case Block(b) => "  " + BlankBody(b) + "  "
    case Comma => if ClosesNext(segs[1..]) then " " else ","
    case _ => Text(segs[0])
  }

  function Stripped(segs: seq<Segment>): string {
    if segs == [] then [] else StrippedHead(segs) + Stripped(segs[1..])
  }

  lemma {:induction false} LiteralEnds(b: string, rest: string)
    requires LiteralBody(b)
    ensures StringLen(b + "\"" + rest) == |b| + 1
    decreases |b|
  {
    var t := b + "\"" + rest;
    if b == [] {
      assert t[0] == '"';
    } else if b[0] == '\\' {
      assert t[0] == b[0] && t[2..] == b[2..] + "\"" + rest;
      LiteralEnds(b[2..], rest);
    } else {
      assert t[0] == b[0] && t[1..] == b[1..] + "\"" + rest;
      LiteralEnds(b[1..], rest);
    }
  }

  lemma {:induction false} LineBlanked(b: string, rest: string)
    requires (forall c :: c in b ==> !IsNL(c)) && (rest == [] || IsNL(rest[0]))
    ensures LineOut(b + rest) == Spaces(|b|)
    decreases |b|
  {
    if b == [] {
      assert b + rest == rest;
    } else {
      assert (b + rest)[0] == b[0] && b[0] in b && (b + rest)[1..] == b[1..] + rest;
      LineBlanked(b[1..], rest);
    }
  }

  lemma LineHead(b: string, rest: string)
    requires (forall c :: c in b ==> !IsNL(c)) && (rest == [] || IsNL(rest[0]))
    ensures CommentOut("//" + b + rest) == Spaces(|b| + 2)
  {
    assert ("//" + b + rest)[1..] == ("/" + b) + rest;
    LineBlanked("/" + b, rest);
  }

  lemma BlockHead(b: string, rest: string)
    requires StarsSpaced(b)
    ensures CommentOut("/*" + b + "*/" + rest) == "  " + BlankBody(b) + "  "
  {
    assert ("/*" + b + "*/" + rest)[2..] == b + "*/" + rest;
    BlockBlanked(b, rest);
  }

  // The comment at the head of a well-formed text is recognised and blanked.
  lemma CommentHead(segs: seq<Segment>)
    requires WellFormedText(segs) && segs != [] && (segs[0].Line? || segs[0].Block?)
    ensures var t := Render(segs); var n := |Text(segs[0])|;
      t[0] == '/' && CommentOut(t) == StrippedHead(segs) && |StrippedHead(segs)| == n > 1 && t[n..] == Render(segs[1..])
  {
    assert WellFormed(segs[0]);
    if segs[0].Line? {
      assert |segs| > 1 ==> WellFormed(segs[1]) && Text(segs[1])[0] == segs[1].c;
      LineHead(segs[0].body, Render(segs[1..]));
    } else {
      BlockHead(segs[0].body, Render(segs[1..]));
    }
  }

  lemma TailWellFormed(segs: seq<Segment>)
    requires WellFormedText(segs) && segs != []
    ensures WellFormedText(segs[1..])
  {
    forall i | 0 <= i < |segs[1..]| - 1 && segs[1..][i].Line?
      ensures segs[1..][i + 1].Plain? && IsNL(segs[1..][i + 1].c)
    {
      assert segs[i + 1].Line?;
    }
  }

  lemma TextHead(segs: seq<Segment>)
    requires segs != []
    ensures var t := Render(segs); var n := |Text(segs[0])|;
      t != [] && t[0] == Text(segs[0])[0] && t[..n] == Text(segs[0]) && t[n..] == Render(segs[1..])
  {
  }

  lemma LookPastInsignificant(segs: seq<Segment>)
    requires WellFormedText(segs) && segs != [] && Insignificant(segs[0])
    ensures LookAhead(Render(segs)) == LookAhead(Render(segs[1..])).After(StrippedHead(segs))
    ensures Render(segs)[|StrippedHead(segs)|..] == Render(segs[1..])
  {
    if segs[0].Plain? {
      TextHead(segs);
    } else {
      CommentHead(segs);
    }
  }

  // The look-ahead of a comma decides as `ClosesNext` does, and what it writes over together
  // with the cleaned rest is the stripped text.
  lemma {:induction false} LookAheadStrips(segs: seq<Segment>)
    requires WellFormedText(segs)
    ensures var l := LookAhead(Render(segs));
      l.closes == ClosesNext(segs) && l.out + Cleaned(Render(segs)[|l.out|..]) == Stripped(segs)
    decreases |segs|, 1
  {
    if segs == [] {
    } else if Insignificant(segs[0]) {
      TailWellFormed(segs);
      LookPastInsignificant(segs);
      LookAheadStrips(segs[1..]);
      var l, rest := LookAhead(Render(segs[1..])), Render(segs[1..]);
      LookJoins(Render(segs), StrippedHead(segs), rest, l, rest[|l.out|..]);
    } else {
      LookStopsAtSignificant(segs);
      StripsSegments(segs);
      assert Render(segs)[0..] == Render(segs);
    }
  }

  lemma LookStopsAtSignificant(segs: seq<Segment>)
    requires WellFormedText(segs) && segs != [] && !Insignificant(segs[0])
    ensures LookAhead(Render(segs)) == Look(ClosesNext(segs), [])
  {
    TextHead(segs);
    assert WellFormed(segs[0]);
  }

  lemma LookJoins(t: string, head: string, rest: string, l: Look, tail: string)
    requires |head| <= |t| && t[|head|..] == rest && |l.out| <= |rest| && tail == rest[|l.out|..]
    ensures var l' := l.After(head);
      t[|l'.out|..] == tail && l'.out + Cleaned(tail) == head + (l.out + Cleaned(tail))
  {
    Assoc(head, l.out, Cleaned(tail));
  }

  lemma HeadLiteral(b: string, rest: string)
    requires LiteralBody(b)
    ensures Head("\"" + b + "\"" + rest) == "\"" + b + "\""
  {
    var t := "\"" + b + "\"" + rest;
    assert t[1..] == b + "\"" + rest;
    LiteralEnds(b, rest);
    assert t[..|b| + 2] == "\"" + b + "\"";
  }

  lemma CleanedHead(t: string, out: string, rest: string)
    requires t != [] && Head(t) == out && t[|out|..] == rest
    ensures Cleaned(t) == out + Cleaned(rest)
  {
  }

  lemma Assoc(a: string, b: string, c: string)
    ensures (a + b) + c == a + (b + c)
  {
  }

  lemma StripsComma(t: string, l: Look, rest: string, tail: string)
    requires t != [] && t[0] == ',' && t[1..] == rest && l == LookAhead(rest) && tail == rest[|l.out|..]
    ensures Cleaned(t) == [if l.closes then ' ' else ','] + (l.out + Cleaned(tail))
  {
    assert t[|CommaOut(l)|..] == tail;
    CleanedHead(t, CommaOut(l), tail);
    Assoc([if l.closes then ' ' else ','], l.out, Cleaned(tail));
  }

  /** For every text made of string literals, comments whose stars are spaced, commas and other
      characters, the stripper returns the text of the same length in which literals are kept
      verbatim, comments are white space and a comma is blank exactly when a closing bracket follows. */
  lemma {:induction false} StripsSegments(segs: seq<Segment>)
    requires WellFormedText(segs)
    ensures Cleaned(Render(segs)) == Stripped(segs)
    decreases |segs|, 0
  {
    if segs != [] {
      var t, rest := Render(segs), Render(segs[1..]);
      TailWellFormed(segs);
      TextHead(segs);
      assert WellFormed(segs[0]);
      if segs[0].Comma? {
        LookAheadStrips(segs[1..]);
        var l := LookAhead(rest);
        StripsComma(t, l, rest, rest[|l.out|..]);
      } else {
        StripsSegments(segs[1..]);
        if segs[0].Str? {
          HeadLiteral(segs[0].body, rest);
        } else if !segs[0].Plain? {
          CommentHead(segs);
        }
        CleanedHead(t, StrippedHead(segs), rest);
      }
    }
  }
}
