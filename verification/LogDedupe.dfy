/**
 The log deduper of common/loghook/loghook.go. Keys stand for the level, message and fields an
 entry is identified by; the clock is a parameter that never goes back.
 */
module LogDedupe {
  import opened Wrappers

  type Key = nat
  type Time = int

  datatype Record = Record(first: Time, last: Time, suppressed: nat)

  datatype Memory = Memory(entries: map<Key, Record>, lastPrune: Option<Time>)

  datatype Params = Params(window: int, retention: int, minLevel: int)

  datatype Entry = Entry(key: Key, level: int, now: Time)

  datatype Outcome =
    | Unfiltered               // below the deduplicated levels
    | Written(reported: nat)   // with the number of repeats it mentions
    | Suppressed

  const Init := Memory(map[], None)

  function Pruned(p: Params, m: Memory, now: Time): Memory {
    if m.lastPrune.Some? && now - m.lastPrune.value < p.window then m
    else Memory(map k | k in m.entries && now - m.entries[k].last < p.retention :: m.entries[k], Some(now))
  }

  function Handle(p: Params, m: Memory, e: Entry): (Memory, Outcome) {
    if e.level > p.minLevel then (m, Unfiltered)
    else
      var q := Pruned(p, m, e.now);
      if e.key !in q.entries then (q.(entries := q.entries[e.key := Record(e.now, e.now, 0)]), Written(0))
      else
        var r := q.entries[e.key];
        if e.now - r.first < p.window then
          (q.(entries := q.entries[e.key := r.(last := e.now, suppressed := r.suppressed + 1)]), Suppressed)
        else (q.(entries := q.entries[e.key := Record(e.now, e.now, 0)]), Written(r.suppressed))
  }

  /** The deduper object. */
  class Deduper {
    const p: Params
    var entries: map<Key, Record>
    var lastPrune: Option<Time>

    ghost function View(): Memory
      reads this
    {
      Memory(entries, lastPrune)
    }

    constructor (window: int, retention: int, minLevel: int, defaultWindow: int)
      ensures p == Params(if window <= 0 then defaultWindow else window, retention, minLevel) && View() == Init
    {
      p := Params(if window <= 0 then defaultWindow else window, retention, minLevel);
      entries, lastPrune := map[], None;
    }

    method Prune(now: Time)
      modifies this
      ensures View() == Pruned(p, old(View()), now)
    {
      if lastPrune.Some? && now - lastPrune.value < p.window {
        return;
      }
      lastPrune := Some(now);
      ghost var before := entries;
      var keys := entries.Keys;
      while keys != {}
        invariant keys <= before.Keys && lastPrune == Some(now)
        invariant entries == map k | k in before && (k in keys || now - before[k].last < p.retention) :: before[k]
        decreases |keys|
      {
        var k :| k in keys;
        keys := keys - {k};
        if now - entries[k].last >= p.retention {
          entries := entries - {k};
        }
      }
    }

    method Suppress(e: Entry) returns (suppress: bool, ghost o: Outcome)
      modifies this
      ensures (View(), o) == Handle(p, old(View()), e)
      ensures suppress == o.Suppressed?
    {
      if e.level > p.minLevel {
        return false, Unfiltered;
      }
      Prune(e.now);
      if e.key !in entries {
        entries := entries[e.key := Record(e.now, e.now, 0)];
        return false, Written(0);
      }
      var r := entries[e.key];
      if e.now - r.first < p.window {
        entries := entries[e.key := r.(last := e.now, suppressed := r.suppressed + 1)];
        return true, Suppressed;
      }
      entries := entries[e.key := Record(e.now, e.now, 0)];
      return false, Written(r.suppressed);
    }
  }

  // --- Runs ---------------------------------------------------------------------------------

  predicate Timed(es: seq<Entry>) {
    forall i, j :: 0 <= i < j < |es| ==> es[i].now <= es[j].now
  }

  function After(p: Params, es: seq<Entry>): Memory {
    if es == [] then Init else Handle(p, After(p, es[..|es| - 1]), es[|es| - 1]).0
  }

  // What happens to the entry at position i of the log.
  function At(p: Params, es: seq<Entry>, i: nat): Outcome
    requires i < |es|
  {
    Handle(p, After(p, es[..i]), es[i]).1
  }

  // The time at which the key was last written, and how often it was suppressed since.
  function LastWrite(p: Params, es: seq<Entry>, k: Key): Option<Time> {
    if es == [] then None
    else
      var n := |es| - 1;
      if es[n].key == k && At(p, es, n).Written? then Some(es[n].now) else LastWrite(p, es[..n], k)
  }

  function Since(p: Params, es: seq<Entry>, k: Key): nat {
    if es == [] then 0
    else
      var n := |es| - 1;
      if es[n].key == k && At(p, es, n).Written? then 0
      else Since(p, es[..n], k) + if es[n].key == k && At(p, es, n).Suppressed? then 1 else 0
  }

  ghost predicate Knows(p: Params, es: seq<Entry>, k: Key) {
    var m := After(p, es);
    var w := LastWrite(p, es, k);
    if k in m.entries then
      && w == Some(m.entries[k].first) && Since(p, es, k) == m.entries[k].suppressed
      && m.entries[k].first <= m.entries[k].last
      && (m.lastPrune.Some? ==> m.lastPrune.value - m.entries[k].last < p.retention)
    else w.Some? ==> m.lastPrune.Some? && w.value + p.retention <= m.lastPrune.value
  }

  ghost predicate PrunedBefore(p: Params, es: seq<Entry>) {
    var m := After(p, es);
    es != [] && m.lastPrune.Some? ==> m.lastPrune.value <= es[|es| - 1].now
  }

  lemma {:induction false} KnowsAll(p: Params, es: seq<Entry>, k: Key)
    requires Timed(es) && p.window > 0 && p.retention > 0
    ensures Knows(p, es, k) && PrunedBefore(p, es)
    ensures k in After(p, es).entries && es != [] ==> After(p, es).entries[k].last <= es[|es| - 1].now
    decreases |es|
  {
    if es != [] {
      var n := |es| - 1;
      KnowsAll(p, es[..n], k);
      assert n > 0 ==> es[n - 1].now <= es[n].now && es[..n][n - 1] == es[n - 1];
      StepKnows(p, es, k);
    }
  }

  lemma StepKnows(p: Params, es: seq<Entry>, k: Key)
    requires es != [] && p.window > 0 && p.retention > 0
    requires var front := es[..|es| - 1]; var m := After(p, front); var now := es[|es| - 1].now;
      && Knows(p, front, k)
      && (m.lastPrune.Some? ==> m.lastPrune.value <= now)
      && (k in m.entries ==> m.entries[k].last <= now)
    ensures var m' := After(p, es); var now := es[|es| - 1].now;
      && Knows(p, es, k)
      && (m'.lastPrune.Some? ==> m'.lastPrune.value <= now)
      && (k in m'.entries ==> m'.entries[k].last <= now)
  {
    var n := |es| - 1;
    assert At(p, es, n) == Handle(p, After(p, es[..n]), es[n]).1;
  }

  lemma {:induction false} LastWriteIsLatest(p: Params, es: seq<Entry>, i: nat)
    requires Timed(es) && i < |es| && At(p, es, i).Written?
    ensures var w := LastWrite(p, es, es[i].key); w.Some? && w.value >= es[i].now
    decreases |es|
  {
    var n := |es| - 1;
    if i < n {
      assert es[..n][..i] == es[..i] && es[..n][i] == es[i];
      LastWriteIsLatest(p, es[..n], i);
    }
  }

  lemma {:induction false} LastWriteIsAWrite(p: Params, es: seq<Entry>, k: Key) returns (i: nat)
    requires LastWrite(p, es, k).Some?
    ensures i < |es| && es[i].key == k && At(p, es, i).Written? && es[i].now == LastWrite(p, es, k).value
    decreases |es|
  {
    var n := |es| - 1;
    if es[n].key == k && At(p, es, n).Written? {
      i := n;
    } else {
      i := LastWriteIsAWrite(p, es[..n], k);
      assert es[..n][..i] == es[..i] && es[..n][i] == es[i];
    }
  }

  lemma KnowsBefore(p: Params, es: seq<Entry>, j: nat)
    requires Timed(es) && p.window > 0 && p.retention > 0 && j < |es|
    ensures Knows(p, es[..j], es[j].key)
    ensures After(p, es[..j]).lastPrune.Some? ==> After(p, es[..j]).lastPrune.value <= es[j].now
    ensures es[j].key in After(p, es[..j]).entries ==> After(p, es[..j]).entries[es[j].key].last <= es[j].now
  {
    KnowsAll(p, es[..j], es[j].key);
    if j > 0 {
      assert es[..j][j - 1] == es[j - 1] && es[j - 1].now <= es[j].now;
    }
  }

  /** Two written entries of one key are at least a window apart, however often the memory is
      pruned in between, as long as a key is remembered for at least a window. */
  lemma WrittenEntriesAreApart(p: Params, es: seq<Entry>, i: nat, j: nat)
    requires Timed(es) && 0 < p.window <= p.retention && i < j < |es|
    requires es[i].key == es[j].key && At(p, es, i).Written? && At(p, es, j).Written?
    ensures es[j].now - es[i].now >= p.window
  {
    KnowsBefore(p, es, j);
    assert es[..j][..i] == es[..i] && es[..j][i] == es[i];
    LastWriteIsLatest(p, es[..j], i);
  }

  /** Nothing is dropped without a trace: a suppressed entry repeats one that was written less
      than a window before it. */
  lemma SuppressedRepeatsAWrittenOne(p: Params, es: seq<Entry>, j: nat) returns (i: nat)
    requires Timed(es) && p.window > 0 && p.retention > 0 && j < |es| && At(p, es, j).Suppressed?
    ensures i < j && es[i].key == es[j].key && At(p, es, i).Written? && es[j].now - es[i].now < p.window
  {
    KnowsBefore(p, es, j);
    i := LastWriteIsAWrite(p, es[..j], es[j].key);
    assert es[..j][..i] == es[..i] && es[..j][i] == es[i];
  }

  // The memory still holds the key when this entry is handled.
  predicate Remembered(p: Params, es: seq<Entry>, j: nat)
    requires j < |es|
  {
    es[j].key in Pruned(p, After(p, es[..j]), es[j].now).entries
  }

  /** A written entry mentions exactly the repeats suppressed since its key was last written,
      unless the key has been forgotten in the meantime. */
  lemma ReportsWhatWasSuppressed(p: Params, es: seq<Entry>, j: nat)
    requires Timed(es) && p.window > 0 && p.retention > 0 && j < |es| && At(p, es, j).Written?
    ensures At(p, es, j).reported == if Remembered(p, es, j) then Since(p, es[..j], es[j].key) else 0
  {
    KnowsBefore(p, es, j);
  }

  // The entry belongs to a level that is deduplicated.
  predicate Filtered(p: Params, e: Entry) { e.level <= p.minLevel }

  lemma {:induction false} SeenIsRemembered(p: Params, es: seq<Entry>, i: nat)
    requires Timed(es) && p.window > 0 && i < |es| && Filtered(p, es[i])
    requires es[|es| - 1].now - es[i].now < p.retention
    ensures es[i].key in After(p, es).entries && After(p, es).entries[es[i].key].last >= es[i].now
    decreases |es|
  {
    var n := |es| - 1;
    if i < n {
      var front := es[..n];
      assert front[i] == es[i] && front[n - 1] == es[n - 1] && es[n - 1].now <= es[n].now;
      SeenIsRemembered(p, front, i);
      assert es[i].now <= es[n].now;
    }
  }

  /** A key whose entry was handled, written or suppressed, less than the retention ago is remembered. */
  lemma RecentKeyIsRemembered(p: Params, es: seq<Entry>, i: nat, j: nat)
    requires Timed(es) && p.window > 0 && i < j < |es| && Filtered(p, es[i]) && es[i].key == es[j].key
    requires es[j].now - es[i].now < p.retention
    ensures Remembered(p, es, j)
  {
    var front := es[..j];
    assert front[i] == es[i] && front[j - 1] == es[j - 1] && es[j - 1].now <= es[j].now;
    SeenIsRemembered(p, front, i);
  }

  /** With a window within the retention, an entry of a deduplicated level is suppressed exactly when
      one with its key was written less than a window before. */
  lemma SuppressedIff(p: Params, es: seq<Entry>, j: nat)
    requires Timed(es) && 0 < p.window <= p.retention && j < |es| && Filtered(p, es[j])
    ensures At(p, es, j).Suppressed? <==>
            exists i :: 0 <= i < j && WrittenBefore(p, es, i, j)
  {
    if At(p, es, j).Suppressed? {
      var i := SuppressedRepeatsAWrittenOne(p, es, j);
      assert WrittenBefore(p, es, i, j);
    }
    if exists i :: 0 <= i < j && WrittenBefore(p, es, i, j) {
      var i :| 0 <= i < j && WrittenBefore(p, es, i, j);
      RecentKeyIsRemembered(p, es, i, j);
      KnowsBefore(p, es, j);
      assert es[..j][..i] == es[..i] && es[..j][i] == es[i];
      LastWriteIsLatest(p, es[..j], i);
    }
  }

  predicate WrittenBefore(p: Params, es: seq<Entry>, i: nat, j: nat)
    requires i < j < |es|
  {
    es[i].key == es[j].key && At(p, es, i).Written? && es[j].now - es[i].now < p.window
  }

  /** The memory stays bounded: right after an entry is handled everything it remembers was
      seen within the retention and one window. */
  lemma MemoryIsRecent(p: Params, es: seq<Entry>, k: Key)
    requires Timed(es) && p.window > 0 && p.retention > 0 && es != []
    requires es[|es| - 1].level <= p.minLevel && k in After(p, es).entries
    ensures es[|es| - 1].now - After(p, es).entries[k].last < p.retention + p.window
  {
    KnowsAll(p, es, k);
  }

  // --- The window guarantee needs the retention ------------------------------------------------

  ghost predicate Apart(p: Params, es: seq<Entry>) {
    forall i, j :: 0 <= i < j < |es| && es[i].key == es[j].key && At(p, es, i).Written? && At(p, es, j).Written? ==>
      es[j].now - es[i].now >= p.window
  }

  ghost predicate AlwaysApart(p: Params) {
    forall es: seq<Entry> :: Timed(es) ==> Apart(p, es)
  }

  // With a longer window the prune of the next window forgets a key it should still silence.
  lemma ForgetsTooEarly(p: Params)
    requires p.window > p.retention > 0
    ensures !AlwaysApart(p)
  {
    var a, b, c := Entry(0, p.minLevel, 0), Entry(1, p.minLevel, 1), Entry(1, p.minLevel, p.window);
    var es := [a, b, c];
    assert es[..1] == [a] && es[..2] == [a, b] && [a, b][..1] == [a] && [a][..0] == [];
    assert After(p, [a]) == Memory(map[0 := Record(0, 0, 0)], Some(0));
    assert After(p, [a, b]) == Memory(map[0 := Record(0, 0, 0), 1 := Record(1, 1, 0)], Some(0));
    assert Pruned(p, After(p, [a, b]), p.window).entries == map[];
    assert At(p, es, 1).Written? && At(p, es, 2).Written? && es[1].key == es[2].key;
    assert Timed(es);
  }

  /** The guarantee holds on every log if and only if the window does not exceed the retention. */
  lemma WindowGuaranteeIff(p: Params)
    requires p.window > 0 && p.retention > 0
    ensures AlwaysApart(p) <==> p.window <= p.retention
  {
    if p.window <= p.retention {
      forall es: seq<Entry> | Timed(es) ensures Apart(p, es) {
        forall i, j | 0 <= i < j < |es| && es[i].key == es[j].key && At(p, es, i).Written? && At(p, es, j).Written?
          ensures es[j].now - es[i].now >= p.window
        {
          WrittenEntriesAreApart(p, es, i, j);
        }
      }
    } else {
      ForgetsTooEarly(p);
    }
  }
}
