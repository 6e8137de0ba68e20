/**
 The reader that sniffs a connection without consuming it
 (core/xray/app/dispatcher/default.go:36-94). A read of the source takes the next bytes of the
 stream or fails without taking any; how many bytes it takes is a parameter of the call.
 */
module CachedReaders {
  import opened Wrappers

  type byte = bv8

  // --- The stream on values ---------------------------------------------------------------------

  // What the reader's callers got, what it holds back, and what is still in the source.
  datatype State = State(delivered: seq<byte>, cached: seq<byte>, rest: seq<byte>)

  // A read of the source: Some(n) takes n bytes, or what is left; None fails.
  function Taken(rest: seq<byte>, n: Option<nat>): (t: seq<byte>)
    ensures t <= rest
  {
    match n
    case None => []
    case Some(k) => if k <= |rest| then rest[..k] else rest
  }

  function AfterCache(s: State, n: Option<nat>): State {
    var t := Taken(s.rest, n);
    State(s.delivered, s.cached + t, s.rest[|t|..])
  }

  function AfterRead(s: State, n: Option<nat>): State {
    if s.cached != [] then State(s.delivered + s.cached, [], s.rest)
    else
      var t := Taken(s.rest, n);
      State(s.delivered + t, [], s.rest[|t|..])
  }

  datatype Event = Cache(n: Option<nat>) | Read(n: Option<nat>)

  function After(s: State, run: seq<Event>): State
    decreases |run|
  {
    if run == [] then s
    else After(match run[0] case Cache(n) => AfterCache(s, n) case Read(n) => AfterRead(s, n), run[1..])
  }

  function Stream(s: State): seq<byte> { s.delivered + s.cached + s.rest }

  lemma StepKeepsStream(s: State, n: Option<nat>)
    ensures Stream(AfterCache(s, n)) == Stream(s) && Stream(AfterRead(s, n)) == Stream(s)
  {
    var t := Taken(s.rest, n);
    assert s.rest == t + s.rest[|t|..];
    assert s.delivered + (s.cached + t) + s.rest[|t|..] == s.delivered + s.cached + (t + s.rest[|t|..]);
    assert s.delivered + s.cached + [] == s.delivered + s.cached;
    if s.cached == [] {
      assert s.delivered + t + [] + s.rest[|t|..] == s.delivered + (t + s.rest[|t|..]);
      assert s.delivered + [] == s.delivered;
    }
  }

  /** Sniffing is transparent: over every run of cache and read calls, what was delivered, what is
      cached and what is left in the source are together the original stream, in order. */
  lemma {:induction false} SniffingIsTransparent(s: State, run: seq<Event>)
    ensures Stream(After(s, run)) == Stream(s)
    ensures s.delivered <= After(s, run).delivered
    decreases |run|
  {
    if run != [] {
      var s1 := match run[0] case Cache(n) => AfterCache(s, n) case Read(n) => AfterRead(s, n);
      StepKeepsStream(s, run[0].n);
      SniffingIsTransparent(s1, run[1..]);
    }
  }

  /** Reading on until nothing is held back or left delivers exactly the stream. */
  lemma DrainedMeansDelivered(stream: seq<byte>, run: seq<Event>)
    requires var s := After(State([], [], stream), run); s.cached == [] && s.rest == []
    ensures After(State([], [], stream), run).delivered == stream
  {
    var start := State([], [], stream);
    SniffingIsTransparent(start, run);
    assert Stream(start) == stream;
    assert Stream(After(start, run)) == After(start, run).delivered;
  }

  function Least(a: nat, b: nat): nat { if a <= b then a else b }

  /** A read delivers all that is held back; with nothing held back it delivers the next bytes of the
      source, as many as the source gives. A cache call adds those to what is held back. A source that
      fails changes nothing of what is held back or left. */
  lemma EveryCallMovesOn(s: State, n: nat)
    ensures var taken := s.rest[..Least(n, |s.rest|)]; var left := s.rest[Least(n, |s.rest|)..];
      && AfterCache(s, Some(n)) == State(s.delivered, s.cached + taken, left)
      && (s.cached == [] ==> AfterRead(s, Some(n)) == State(s.delivered + taken, [], left))
    ensures s.cached != [] ==> forall m :: AfterRead(s, m) == State(s.delivered + s.cached, [], s.rest)
    ensures AfterCache(s, None) == s
    ensures s.cached == [] ==> AfterRead(s, None) == s
  {
    assert s.cached + [] == s.cached && s.delivered + [] == s.delivered && s.rest[0..] == s.rest;
    if n >= |s.rest| {
      assert s.rest[..|s.rest|] == s.rest;
    }
  }

  /** Reading on gets everything: one successful read for what is held back and at most one for each
      byte left deliver the whole stream. */
  lemma {:induction false} ReadingOnDelivers(s: State, run: seq<Event>)
    requires forall i :: 0 <= i < |run| ==> run[i].Read? && run[i].n.Some? && run[i].n.value > 0
    requires |run| >= |s.rest| + if s.cached == [] then 0 else 1
    ensures After(s, run).delivered == s.delivered + s.cached + s.rest
    decreases |run|
  {
    if run != [] {
      var s1 := AfterRead(s, run[0].n);
      EveryCallMovesOn(s, run[0].n.value);
      StepKeepsStream(s, run[0].n);
      ReadingOnDelivers(s1, run[1..]);
    }
  }

  /** While nothing is delivered, every sniffer sees a prefix of the stream that only grows. */
  lemma {:induction false} SniffedPrefixGrows(s: State, run: seq<Event>)
    requires s.delivered == [] && forall i :: 0 <= i < |run| ==> run[i].Cache?
    ensures After(s, run).delivered == [] && s.cached <= After(s, run).cached <= Stream(s)
    decreases |run|
  {
    if run == [] {
      assert Stream(s) == s.cached + s.rest;
    } else {
      var s1 := AfterCache(s, run[0].n);
      StepKeepsStream(s, run[0].n);
      SniffedPrefixGrows(s1, run[1..]);
      Prefixes(s.cached, s1.cached, After(s, run).cached);
    }
  }

  lemma Prefixes(a: seq<byte>, b: seq<byte>, c: seq<byte>)
    requires a <= b <= c
    ensures a <= c
  {
  }

  // --- The reader --------------------------------------------------------------------------------------

  /** The payload buffer of the sniffers: its bytes are v[..end]. */
  class Buffer {
    var v: array<byte>
    var end: nat

    ghost predicate Valid()
      reads this
    {
      end <= v.Length
    }

    ghost function Bytes(): seq<byte>
      reads this, v
      requires Valid()
    {
      v[..end]
    }

    constructor (capacity: nat)
      ensures Valid() && fresh(v) && v.Length == capacity && Bytes() == []
    {
      v := new byte[capacity];
      end := 0;
    }
  }

  /** The reader with the bytes it holds back; `delivered` records what its callers got. */
  class CachedReader {
    var rest: seq<byte>  // of the source
    var cache: seq<byte>
    ghost var delivered: seq<byte>

    ghost function View(): State
      reads this
    {
      State(delivered, cache, rest)
    }

    constructor (stream: seq<byte>)
      ensures View() == State([], [], stream)
    {
      rest, cache, delivered := stream, [], [];
    }

    method ReadSource(n: Option<nat>) returns (mb: seq<byte>, ok: bool)
      modifies this`rest
      ensures ok == n.Some? && mb == Taken(old(rest), n) && rest == old(rest)[|mb|..]
    {
      if n.None? {
        return [], false;
      }
      mb := if n.value <= |rest| then rest[..n.value] else rest;
      rest := rest[|mb|..];
      return mb, true;
    }

    /** A successful call leaves the whole cached, undelivered prefix in the payload buffer, however
        small the buffer was; a failed one changes nothing. */
    method Cache(b: Buffer, n: Option<nat>) returns (ok: bool)
      requires b.Valid()
      modifies this, b, b.v
      ensures b.Valid() && ok == n.Some?
      ensures View() == AfterCache(old(View()), n)
      ensures if ok then b.Bytes() == cache else b.v == old(b.v) && b.Bytes() == old(b.Bytes())
    {
      var mb, read := ReadSource(n);
      if !read {
        assert cache + [] == cache;
        return false;
      }
      if mb != [] {
        cache := cache + mb;
      }
      assert cache == old(cache) + mb;
      if |cache| <= b.v.Length {
        b.end := 0;
      } else {
        b.v := new byte[|cache|];
        b.end := 0;
      }
      var i := 0;
      while i < |cache|
        invariant 0 <= i <= |cache| <= b.v.Length && (b.v == old(b.v) || fresh(b.v))
        invariant b.v[..i] == cache[..i]
        modifies b.v
      {
        b.v[i] := cache[i];
        i := i + 1;
      }
      b.end := |cache|;
      assert cache[..|cache|] == cache;
      return true;
    }

    method ReadInternal() returns (mb: seq<byte>)
      modifies this`cache, this`delivered
      ensures mb == old(cache) && cache == [] && delivered == old(delivered) + mb
    {
      mb := cache;
      cache := [];
      delivered := delivered + mb;
    }

    // Both kinds of reads, with and without a timeout.
    method ReadMultiBuffer(n: Option<nat>) returns (mb: seq<byte>, ok: bool)
      modifies this
      ensures View() == AfterRead(old(View()), n) && delivered == old(delivered) + mb
      ensures ok == (old(cache) != [] || n.Some?)
    {
      mb := ReadInternal();
      if mb != [] {
        return mb, true;
      }
      mb, ok := ReadSource(n);
      delivered := delivered + mb;
      assert old(delivered) + [] == old(delivered);
    }
  }
}
