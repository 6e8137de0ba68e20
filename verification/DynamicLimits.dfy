/**
 Dynamic speed limits between goroutines: the admission check loads a user's record, finds its
 dynamic limit expired, and drops it in a second operation (limiter/limiter.go:290-311);
 `AddDynamicSpeedLimit` finds no record and stores one in a second operation
 (limiter/dynamic.go:15-30). The panel and other goroutines may act in between. A swap loop counts as
 the one operation in which its swap succeeds, which applies its change to the record of that moment
 (LimitRecord).
 */
module DynamicLimits {
  import opened Wrappers
  import L = LimitRecord
  import M = Limiters

  datatype Gid = Gid(n: nat)

  type Time = int

  // The second operation of a goroutine, decided on what it loaded.
  datatype Pending =
    | Drop                            // the expired limit of a user with a static one
    | Remove                          // the record of a user without
    | Store(info: L.UserLimitInfo)    // a record for a user who had none

  datatype State = State(record: Option<L.UserLimitInfo>, pending: map<Gid, Pending>)

  datatype Event =
    | CheckLoads(g: Gid)
    | AddFindsNone(g: Gid, info: L.UserLimitInfo)
    | Acts(g: Gid)
    | SetDynamic(limit: int, expire: int)
    | FlagOverLimit(over: bool)
    | PanelStores(info: L.UserLimitInfo)
    | PanelDeletes

  datatype Step = Step(now: Time, event: Event, before: State, after: State)

  predicate Enabled(s: State, e: Event) {
    match e
    case CheckLoads(g) => g !in s.pending
    case AddFindsNone(g, _) => g !in s.pending && s.record.None?
    case Acts(g) => g in s.pending
    case _ => true
  }

  function Mutated(r: Option<L.UserLimitInfo>, m: L.Mutation): Option<L.UserLimitInfo> {
    if r.Some? then Some(L.Mutate(m, r.value)) else None
  }

  function Done(s: State, p: Pending): Option<L.UserLimitInfo> {
    match p
    case Drop => Mutated(s.record, L.DropDynamic)
    case Remove => None
    case Store(info) => Some(info)
  }

  function Apply(s: State, e: Event, now: Time): State
    requires Enabled(s, e)
  {
    match e
    case CheckLoads(g) =>
      if s.record.Some? && M.DynamicExpired(s.record.value, now) then
        s.(pending := s.pending[g := if s.record.value.speedLimit != 0 then Drop else Remove])
      else s
    case AddFindsNone(g, info) => s.(pending := s.pending[g := Store(info)])
    case Acts(g) => State(Done(s, s.pending[g]), s.pending - {g})
    case SetDynamic(limit, expire) => s.(record := Mutated(s.record, L.SetDynamic(limit, expire)))
    case FlagOverLimit(over) => s.(record := Mutated(s.record, L.SetOverLimit(over)))
    case PanelStores(info) => s.(record := Some(info))
    case PanelDeletes => s.(record := None)
  }

  predicate IsStep(st: Step) { Enabled(st.before, st.event) && st.after == Apply(st.before, st.event, st.now) }

  ghost predicate IsRun(run: seq<Step>) {
    && (forall i :: 0 <= i < |run| ==> IsStep(run[i]))
    && (forall i :: 0 < i < |run| ==> run[i].before == run[i - 1].after)
    && (forall i, j :: 0 <= i < j < |run| ==> run[i].now <= run[j].now)
  }

  /** Not disturbed, the two operations leave what the whole check leaves. */
  lemma UndisturbedCheck(s: State, g: Gid, now: Time)
    requires g !in s.pending && s.record.Some?
    ensures var s1 := Apply(s, CheckLoads(g), now);
      (if g in s1.pending then Apply(s1, Acts(g), now).record else s1.record) == M.RecordAfter(s.record.value, now)
  {
  }

  // --- Dropping a limit that is in force -------------------------------------------------------------

  // When the dynamic limit of the record ends; 0 when there is none.
  function Expiry(r: Option<L.UserLimitInfo>): int { if r.Some? then r.value.expireTime else 0 }

  predicate InForce(expiry: int, now: Time) { expiry != 0 && expiry >= M.Unix(now) }

  // A check takes away a dynamic limit that has not expired.
  predicate DropsInForce(st: Step) {
    && st.event.Acts? && st.event.g in st.before.pending && !st.before.pending[st.event.g].Store?
    && InForce(Expiry(st.before.record), st.now)
  }

  // The expiry a step writes, if it writes one.
  function Writes(st: Step): Option<int> {
    match st.event
    case SetDynamic(_, expire) => if st.before.record.Some? then Some(expire) else None
    case PanelStores(info) => Some(info.expireTime)
    case PanelDeletes => Some(0)
    case Acts(g) =>
      if g !in st.before.pending then None
      else if st.before.pending[g].Store? then Some(st.before.pending[g].info.expireTime)
      else Some(0)
    case _ => None
  }

  // The expiry last written between two steps.
  function LastWritten(run: seq<Step>, i: nat, j: nat): Option<int>
    requires i < j <= |run|
    decreases j
  {
    if j == i + 1 then None
    else if Writes(run[j - 1]).Some? then Writes(run[j - 1])
    else LastWritten(run, i, j - 1)
  }

  lemma StepWrites(st: Step)
    requires IsStep(st)
    ensures Expiry(st.after.record) == if Writes(st).Some? then Writes(st).value else Expiry(st.before.record)
  {
  }

  lemma {:induction false} ExpiryIsLastWritten(run: seq<Step>, i: nat, j: nat)
    requires IsRun(run) && i < j < |run|
    ensures Expiry(run[j].before.record) ==
            if LastWritten(run, i, j).Some? then LastWritten(run, i, j).value else Expiry(run[i].after.record)
  {
    if i + 1 < j {
      ExpiryIsLastWritten(run, i, j - 1);
      StepWrites(run[j - 1]);
    }
  }

  lemma UnixGrows(a: Time, b: Time)
    requires a <= b
    ensures M.Unix(a) <= M.Unix(b)
  {
  }

  /** A check that found the limit expired takes away a limit in force exactly when one was written
      between its two operations and is the last thing written to the limit there. */
  lemma LimitInForceIsDroppedIff(run: seq<Step>, i: nat, j: nat, g: Gid)
    requires IsRun(run) && i < j < |run| && run[i].event == CheckLoads(g) && g in run[i].after.pending
    requires run[j].event == Acts(g) && forall k :: i < k < j ==> run[k].event != Acts(g)
    ensures DropsInForce(run[j]) <==>
            LastWritten(run, i, j).Some? && InForce(LastWritten(run, i, j).value, run[j].now)
  {
    StillPending(run, i, j, g);
    ExpiryIsLastWritten(run, i, j);
    assert IsStep(run[i]);
    UnixGrows(run[i].now, run[j].now);
  }

  lemma {:induction false} StillPending(run: seq<Step>, i: nat, j: nat, g: Gid)
    requires IsRun(run) && i < j < |run| && run[i].event == CheckLoads(g) && g in run[i].after.pending
    requires forall k :: i < k < j ==> run[k].event != Acts(g)
    ensures g in run[j].before.pending && !run[j].before.pending[g].Store?
  {
    if i + 1 < j {
      StillPending(run, i, j - 1, g);
      assert IsStep(run[j - 1]);
    } else {
      assert IsStep(run[i]);
    }
  }

  // The check that acts at step j decided at step i.
  ghost predicate Decides(run: seq<Step>, i: nat, j: nat) {
    && i < j < |run| && run[j].event.Acts? && run[i].event == CheckLoads(run[j].event.g)
    && run[j].event.g in run[i].after.pending
    && forall k :: i < k < j ==> run[k].event != run[j].event
  }

  lemma {:induction false} DecidedAt(run: seq<Step>, j: nat, g: Gid) returns (i: nat)
    requires IsRun(run) && j < |run| && run[0].before.pending == map[]
    requires g in run[j].before.pending && !run[j].before.pending[g].Store?
    ensures i < j && run[i].event == CheckLoads(g) && g in run[i].after.pending
    ensures forall k :: i < k < j ==> run[k].event != Acts(g)
  {
    assert IsStep(run[j - 1]) && run[j].before == run[j - 1].after;
    if run[j - 1].event == CheckLoads(g) {
      i := j - 1;
    } else {
      i := DecidedAt(run, j - 1, g);
    }
  }

  /** Over every run no limit in force is taken away if and only if no check acts after one was written
      to the limit, as the last thing, since the check decided. */
  lemma LimitsInForceSurviveIff(run: seq<Step>)
    requires IsRun(run) && (|run| > 0 ==> run[0].before.pending == map[])
    ensures (forall j :: 0 <= j < |run| ==> !DropsInForce(run[j])) <==>
            (forall i: nat, j: nat :: Decides(run, i, j) ==>
               !(LastWritten(run, i, j).Some? && InForce(LastWritten(run, i, j).value, run[j].now)))
  {
    forall i: nat, j: nat | Decides(run, i, j)
      ensures DropsInForce(run[j]) <==>
              LastWritten(run, i, j).Some? && InForce(LastWritten(run, i, j).value, run[j].now)
    {
      LimitInForceIsDroppedIff(run, i, j, run[j].event.g);
    }
    forall j | 0 <= j < |run| && DropsInForce(run[j]) ensures exists i: nat :: Decides(run, i, j) {
      var i := DecidedAt(run, j, run[j].event.g);
      assert Decides(run, i, j);
    }
  }

  /** A check whose second operation follows the first at once never takes away a limit in force. */
  lemma PromptDropIsHarmless(run: seq<Step>, i: nat, g: Gid)
    requires IsRun(run) && i + 1 < |run| && run[i].event == CheckLoads(g) && g in run[i].after.pending
    requires run[i + 1].event == Acts(g)
    ensures !DropsInForce(run[i + 1])
  {
    LimitInForceIsDroppedIff(run, i, i + 1, g);
  }

  /** The limit of ten units ran out, a check sees it, the panel sets one of five for an hour, and the
      check drops that: the user is back at the static hundred. */
  lemma NewLimitIsDropped(s: State, now: Time)
    requires s == State(Some(L.UserLimitInfo(1, 100, 0, 10, 1, false)), map[]) && now == 2 * M.SECOND
    ensures var g := Gid(0);
            var s1 := Apply(s, CheckLoads(g), now);
            var s2 := Apply(s1, SetDynamic(5, 3602), now);
            var drop := Step(now, Acts(g), s2, Apply(s2, Acts(g), now));
      DropsInForce(drop) && drop.after.record == Some(L.UserLimitInfo(1, 100, 0, 0, 0, false))
  {
  }

  /** And a user without a static limit loses the record with the new limit in it. */
  lemma NewLimitGoesWithTheRecord(s: State, now: Time)
    requires s == State(Some(L.UserLimitInfo(1, 0, 0, 10, 1, false)), map[]) && now == 2 * M.SECOND
    ensures var g := Gid(0);
            var s1 := Apply(s, CheckLoads(g), now);
            var s2 := Apply(s1, SetDynamic(5, 3602), now);
            var drop := Step(now, Acts(g), s2, Apply(s2, Acts(g), now));
      DropsInForce(drop) && drop.after.record == None
  {
  }
}
