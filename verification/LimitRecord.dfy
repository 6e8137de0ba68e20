/**
 The copy-on-write record of one user's limits (limiter/limiter.go:158-223): any number of
 goroutines load the record, build a changed copy and swap it in by compare-and-swap, which
 compares the identity of the record and not its contents.
 */
module LimitRecord {
  import opened Wrappers

  type RecordId = nat
  type Gid = nat

  datatype UserLimitInfo = UserLimitInfo(
    uid: int, speedLimit: int, deviceLimit: int, dynamicSpeedLimit: int, expireTime: int, overLimit: bool)

  // The callers of the swap loop, by what they write into the copy.
  datatype Mutation =
    | SetOverLimit(over: bool)
    | SetDynamic(limit: int, expire: int)
    | DropDynamic
    | ConsumeOverLimit

  function Mutate(m: Mutation, u: UserLimitInfo): UserLimitInfo {
    match m
    case SetOverLimit(over) => u.(overLimit := over)
    case SetDynamic(limit, expire) => u.(dynamicSpeedLimit := limit, expireTime := expire)
    case DropDynamic => u.(dynamicSpeedLimit := 0, expireTime := 0)
    case ConsumeOverLimit => u.(overLimit := false)
  }

  // The consuming loop gives up on a record that is not flagged, the others always swap.
  predicate Swaps(m: Mutation, u: UserLimitInfo) {
    m.ConsumeOverLimit? ==> u.overLimit
  }

  datatype Ptr = Ptr(id: RecordId, info: UserLimitInfo)

  // The map slot of one user; every stored record gets an identity of its own.
  datatype Cell = Cell(current: Option<Ptr>, nextId: RecordId)

  function Put(c: Cell, info: UserLimitInfo): Cell {
    Cell(Some(Ptr(c.nextId, info)), c.nextId + 1)
  }

  predicate Matches(c: Cell, seen: Ptr) {
    c.current.Some? && c.current.value.id == seen.id
  }

  function Drop(c: Cell): Cell { c.(current := None) }

  /** The slot as the goroutines share it: each method is one atomic map operation. */
  class Slot {
    var current: Option<Ptr>
    var nextId: RecordId

    ghost function View(): Cell
      reads this
    {
      Cell(current, nextId)
    }

    constructor ()
      ensures View() == Cell(None, 0)
    {
      current, nextId := None, 0;
    }

    method Load() returns (r: Option<Ptr>)
      ensures r == View().current
    {
      return current;
    }

    method Store(info: UserLimitInfo)
      modifies this
      ensures View() == Put(old(View()), info)
    {
      current := Some(Ptr(nextId, info));
      nextId := nextId + 1;
    }

    method CompareAndSwap(seen: Ptr, updated: UserLimitInfo) returns (swapped: bool)
      modifies this
      ensures swapped == Matches(old(View()), seen)
      ensures View() == if swapped then Put(old(View()), updated) else old(View())
    {
      swapped := current.Some? && current.value.id == seen.id;
      if swapped {
        current := Some(Ptr(nextId, updated));
        nextId := nextId + 1;
      }
    }

    method Delete()
      modifies this
      ensures View() == Drop(old(View()))
    {
      current := None;
    }
  }

  // --- The interleavings ------------------------------------------------------------------

  // A goroutine between its load and its swap.
  datatype Pending = Pending(m: Mutation, seen: Ptr)

  // `base` is the record last stored as a whole and `swaps` what was swapped in since then.
  datatype State = State(
    cell: Cell, procs: map<Gid, Pending>, base: Option<UserLimitInfo>, swaps: seq<Mutation>)

  const Init := State(Cell(None, 0), map[], None, [])

  datatype Event =
    | LoadBy(g: Gid, m: Mutation)
    | SwapBy(g: Gid)
    | StoreNew(info: UserLimitInfo)
    | DeleteAll

  datatype Observation =
    | Nothing
    | Swapped(m: Mutation)   // the swap succeeded
    | Retry                  // the swap failed, the goroutine loads again
    | GaveUp                 // no record, or nothing to consume
    | Replaced(over: bool)   // a whole new record
    | Removed

  predicate Enabled(s: State, e: Event) {
    match e
    case LoadBy(g, _) => g !in s.procs
    case SwapBy(g) => g in s.procs
    // The panel stores new users with a clear flag.
    case StoreNew(info) => !info.overLimit
    case DeleteAll => true
  }

  function Apply(s: State, e: Event): (State, Observation)
    requires Enabled(s, e)
  {
    match e
    case LoadBy(g, m) =>
      var current := s.cell.current;
      if current.None? || !Swaps(m, current.value.info) then (s, GaveUp)
      else (s.(procs := s.procs[g := Pending(m, current.value)]), Nothing)
    case SwapBy(g) =>
      var p := s.procs[g];
      var s' := s.(procs := s.procs - {g});
      if Matches(s.cell, p.seen) then
        (s'.(cell := Put(s.cell, Mutate(p.m, p.seen.info)), swaps := s.swaps + [p.m]), Swapped(p.m))
      else (s', Retry)
    case StoreNew(info) =>
      (s.(cell := Put(s.cell, info), base := Some(info), swaps := []), Replaced(info.overLimit))
    case DeleteAll => (s.(cell := Drop(s.cell), base := None, swaps := []), Removed)
  }

  function Fold(u: UserLimitInfo, ms: seq<Mutation>): UserLimitInfo {
    if ms == [] then u else Mutate(ms[|ms| - 1], Fold(u, ms[..|ms| - 1]))
  }

  predicate IsRun(s: State, es: seq<Event>)
    decreases |es|
  {
    es == [] || (Enabled(s, es[0]) && IsRun(Apply(s, es[0]).0, es[1..]))
  }

  function After(s: State, es: seq<Event>): State
    requires IsRun(s, es)
    decreases |es|
  {
    if es == [] then s else After(Apply(s, es[0]).0, es[1..])
  }

  function Trace(s: State, es: seq<Event>): (obs: seq<Observation>)
    requires IsRun(s, es)
    ensures |obs| == |es|
    decreases |es|
  {
    if es == [] then [] else [Apply(s, es[0]).1] + Trace(Apply(s, es[0]).0, es[1..])
  }

  // Identities are never reused, so a goroutine whose identity still matches has seen exactly
  // the record that is there.
  ghost predicate Inv(s: State) {
    && (s.cell.current.Some? ==>
          && s.cell.current.value.id < s.cell.nextId && s.base.Some?
          && s.cell.current.value.info == Fold(s.base.value, s.swaps))
    && (forall g :: g in s.procs ==>
          && s.procs[g].seen.id < s.cell.nextId
          && Swaps(s.procs[g].m, s.procs[g].seen.info)
          && (Matches(s.cell, s.procs[g].seen) ==> s.procs[g].seen == s.cell.current.value))
  }

  lemma InvKept(s: State, e: Event)
    requires Inv(s) && Enabled(s, e)
    ensures Inv(Apply(s, e).0)
  {
    if e.SwapBy? {
      assert (s.swaps + [s.procs[e.g].m])[..|s.swaps|] == s.swaps;
    }
  }

  lemma {:induction false} InvAfter(s: State, es: seq<Event>)
    requires Inv(s) && IsRun(s, es)
    ensures Inv(After(s, es))
    decreases |es|
  {
    if es != [] {
      InvKept(s, es[0]);
      InvAfter(Apply(s, es[0]).0, es[1..]);
    }
  }

  lemma {:induction false} FoldKeepsIdentity(u: UserLimitInfo, ms: seq<Mutation>)
    ensures var v := Fold(u, ms); v.uid == u.uid && v.speedLimit == u.speedLimit && v.deviceLimit == u.deviceLimit
    decreases |ms|
  {
    if ms != [] {
      FoldKeepsIdentity(u, ms[..|ms| - 1]);
    }
  }

  // What a run has swapped in since the record was last stored or deleted.
  function SwapsOf(obs: seq<Observation>): seq<Mutation> {
    if obs == [] then []
    else
      var last := obs[|obs| - 1];
      var before := SwapsOf(obs[..|obs| - 1]);
      match last
      case Swapped(m) => before + [m]
      case Replaced(_) => []
      case Removed => []
      case _ => before
  }

  lemma {:induction false} SwapsObserved(s: State, es: seq<Event>, was: seq<Observation>)
    requires IsRun(s, es) && SwapsOf(was) == s.swaps
    ensures SwapsOf(was + Trace(s, es)) == After(s, es).swaps
    decreases |es|
  {
    if es == [] {
      assert was + [] == was;
    } else {
      var o := Apply(s, es[0]).1;
      assert (was + [o])[..|was|] == was;
      SwapsObserved(Apply(s, es[0]).0, es[1..], was + [o]);
      assert was + Trace(s, es) == (was + [o]) + Trace(Apply(s, es[0]).0, es[1..]);
    }
  }

  /** No update is lost in any interleaving: the record is the last stored one with every
      mutation whose swap succeeded since then applied in swap order, and no swap ever touches
      the uid, the static speed limit or the device limit. */
  lemma NoUpdateIsLost(es: seq<Event>)
    requires IsRun(Init, es) && After(Init, es).cell.current.Some?
    ensures var s := After(Init, es); var info := s.cell.current.value.info;
      && s.base.Some?
      && info == Fold(s.base.value, SwapsOf(Trace(Init, es)))
      && info.uid == s.base.value.uid && info.speedLimit == s.base.value.speedLimit
      && info.deviceLimit == s.base.value.deviceLimit
  {
    InvAfter(Init, es);
    SwapsObserved(Init, es, []);
    assert [] + Trace(Init, es) == Trace(Init, es);
    FoldKeepsIdentity(After(Init, es).base.value, SwapsOf(Trace(Init, es)));
  }

  // --- What a swap writes -----------------------------------------------------------------------

  predicate SameIdentity(a: UserLimitInfo, b: UserLimitInfo) {
    a.uid == b.uid && a.speedLimit == b.speedLimit && a.deviceLimit == b.deviceLimit
  }

  predicate SameDynamic(a: UserLimitInfo, b: UserLimitInfo) {
    a.dynamicSpeedLimit == b.dynamicSpeedLimit && a.expireTime == b.expireTime
  }

  /** A load and the swap behind it put into the record what the caller asked for and nothing else: the
      flag, the dynamic limit with its expiry, no dynamic limit, or a cleared flag where it was up. */
  lemma SwapWritesExactly(s: State, g: Gid, m: Mutation)
    requires s.cell.current.Some? && g !in s.procs && Swaps(m, s.cell.current.value.info)
    ensures var s1 := Apply(s, LoadBy(g, m)).0; Enabled(s1, SwapBy(g))
    ensures var s2 := Apply(Apply(s, LoadBy(g, m)).0, SwapBy(g)).0;
      && s2.cell.current.Some?
      && var was, new' := s.cell.current.value.info, s2.cell.current.value.info;
         && SameIdentity(was, new')
         && match m
            case SetOverLimit(over) => SameDynamic(was, new') && new'.overLimit == over
            case SetDynamic(limit, expire) =>
              new'.dynamicSpeedLimit == limit && new'.expireTime == expire && new'.overLimit == was.overLimit
            case DropDynamic =>
              new'.dynamicSpeedLimit == 0 && new'.expireTime == 0 && new'.overLimit == was.overLimit
            case ConsumeOverLimit => SameDynamic(was, new') && was.overLimit && !new'.overLimit
  {
  }

  predicate WritesDynamic(m: Mutation) { m.SetDynamic? || m.DropDynamic? }

  predicate WritesFlag(m: Mutation) { m.SetOverLimit? || m.ConsumeOverLimit? }

  /** After any sequence of swaps the dynamic limit and its expiry are those of the last swap that
      wrote them, at position i; those of the stored record if none did, which is i == -1. */
  lemma {:induction false} LastDynamicWins(u: UserLimitInfo, ms: seq<Mutation>, i: int)
    requires -1 <= i < |ms| && (i >= 0 ==> WritesDynamic(ms[i])) && forall j :: i < j < |ms| ==> !WritesDynamic(ms[j])
    ensures i == -1 ==> SameDynamic(Fold(u, ms), u)
    ensures i >= 0 ==>
              && Fold(u, ms).dynamicSpeedLimit == (if ms[i].SetDynamic? then ms[i].limit else 0)
              && Fold(u, ms).expireTime == if ms[i].SetDynamic? then ms[i].expire else 0
    decreases |ms|
  {
    if i < |ms| - 1 {
      LastDynamicWins(u, ms[..|ms| - 1], i);
    }
  }

  /** The flag is the one the last swap of the flag wrote. */
  lemma {:induction false} LastFlagWins(u: UserLimitInfo, ms: seq<Mutation>, i: int)
    requires -1 <= i < |ms| && (i >= 0 ==> WritesFlag(ms[i])) && forall j :: i < j < |ms| ==> !WritesFlag(ms[j])
    ensures i == -1 ==> Fold(u, ms).overLimit == u.overLimit
    ensures i >= 0 ==> Fold(u, ms).overLimit == (ms[i].SetOverLimit? && ms[i].over)
    decreases |ms|
  {
    if i < |ms| - 1 {
      LastFlagWins(u, ms[..|ms| - 1], i);
    }
  }

  // --- The over-limit flag is consumed once ----------------------------------------------------

  predicate Consumed(o: Observation) { o == Swapped(ConsumeOverLimit) }

  predicate Raised(o: Observation) { o == Swapped(SetOverLimit(true)) }

  // Raised before j, and not consumed in between.
  ghost predicate RaisedFor(obs: seq<Observation>, j: int)
    requires 0 <= j <= |obs|
  {
    exists k :: 0 <= k < j && Raised(obs[k]) && QuietBetween(obs, k, j)
  }

  ghost predicate QuietBetween(obs: seq<Observation>, k: int, j: int)
    requires 0 <= k <= j <= |obs|
  {
    forall i :: k < i < j ==> !Consumed(obs[i])
  }

  // The flag can only be up if it was raised since the last time it was consumed.
  ghost predicate FlagExplained(s: State, obs: seq<Observation>) {
    s.cell.current.Some? && s.cell.current.value.info.overLimit ==> RaisedFor(obs, |obs|)
  }

  ghost predicate EachConsumeExplained(obs: seq<Observation>) {
    forall j :: 0 <= j < |obs| && Consumed(obs[j]) ==> RaisedFor(obs, j)
  }

  lemma RaisedForKept(obs: seq<Observation>, o: Observation, j: int)
    requires 0 <= j <= |obs| && RaisedFor(obs, j)
    ensures RaisedFor(obs + [o], j)
    ensures j == |obs| && !Consumed(o) ==> RaisedFor(obs + [o], j + 1)
  {
    var k :| 0 <= k < j && Raised(obs[k]) && QuietBetween(obs, k, j);
    assert Raised((obs + [o])[k]) && QuietBetween(obs + [o], k, j);
    assert j == |obs| && !Consumed(o) ==> QuietBetween(obs + [o], k, j + 1);
  }

  lemma FlagStep(s: State, e: Event, obs: seq<Observation>)
    requires Inv(s) && Enabled(s, e) && FlagExplained(s, obs) && EachConsumeExplained(obs)
    ensures var (s', o) := Apply(s, e);
      FlagExplained(s', obs + [o]) && EachConsumeExplained(obs + [o])
  {
    var (s', o) := Apply(s, e);
    if Raised(o) {
      assert Raised((obs + [o])[|obs|]) && QuietBetween(obs + [o], |obs|, |obs| + 1);
    } else if RaisedFor(obs, |obs|) {
      RaisedForKept(obs, o, |obs|);
    }
    forall j | 0 <= j < |obs| && Consumed(obs[j])
      ensures RaisedFor(obs + [o], j)
    {
      RaisedForKept(obs, o, j);
    }
  }

  lemma {:induction false} FlagRun(s: State, es: seq<Event>, obs: seq<Observation>)
    requires Inv(s) && IsRun(s, es) && FlagExplained(s, obs) && EachConsumeExplained(obs)
    ensures EachConsumeExplained(obs + Trace(s, es))
    decreases |es|
  {
    if es == [] {
      assert obs + [] == obs;
    } else {
      var (s', o) := Apply(s, es[0]);
      FlagStep(s, es[0], obs);
      InvKept(s, es[0]);
      FlagRun(s', es[1..], obs + [o]);
      assert obs + Trace(s, es) == (obs + [o]) + Trace(s', es[1..]);
    }
  }

  /** Whatever the interleaving, two connections never skip the traffic log for the same
      rejection: between two successful consumptions the flag was raised again. */
  lemma FlagConsumedOnce(es: seq<Event>, i: int, j: int)
    requires IsRun(Init, es) && 0 <= i < j < |es|
    requires Consumed(Trace(Init, es)[i]) && Consumed(Trace(Init, es)[j])
    ensures exists k :: i < k < j && Raised(Trace(Init, es)[k])
  {
    FlagRun(Init, es, []);
    var obs := Trace(Init, es);
    assert [] + obs == obs;
    assert RaisedFor(obs, j);
    var k :| 0 <= k < j && Raised(obs[k]) && QuietBetween(obs, k, j);
  }
}
