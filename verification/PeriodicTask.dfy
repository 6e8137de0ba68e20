/**
 The periodic task of common/task/task.go as an interleaving machine.

 Every critical section under `access` is one atomic step on a `Handle`; `execMu` is the
 field `exec` of the machine; each goroutine inside the task carries a program counter.
 Expiry of a timer (the runtime starts a goroutine) and the clearing of the handle by that
 goroutine are two separate steps, as in the program.
 */
module PeriodicTask {
  import opened Wrappers

  type TimerId = nat
  type Gid = nat

  // What `access` protects, plus the timers the runtime still has to fire.
  datatype Handle = Handle(running: bool, timer: Option<TimerId>, pending: set<TimerId>, nextTimer: TimerId)

  // Stop of a timer that already expired has no effect: it is not pending any more.
  function StopTimer(h: Handle): Handle {
    match h.timer
    case None => h
    case Some(t) => h.(timer := None, pending := h.pending - {t})
  }

  // Start, first section: a running task is left alone.
  function BeginStart(h: Handle): Handle { h.(running := true) }

  function CloseHandle(h: Handle): Handle { StopTimer(h.(running := false)) }

  function ClearHandle(h: Handle): Handle { h.(timer := None) }

  function FailHandle(h: Handle): Handle { h.(running := false) }

  // The arming decision at the end of checkedExecute.
  function ArmHandle(h: Handle): Handle {
    if h.running && h.timer.None? then
      h.(timer := Some(h.nextTimer), pending := h.pending + {h.nextTimer}, nextTimer := h.nextTimer + 1)
    else h
  }

  /** The task object itself; each method is one critical section of the program. */
  class Task {
    var running: bool
    var timer: Option<TimerId>
    var pending: set<TimerId>
    var nextTimer: TimerId

    ghost function View(): Handle
      reads this
    {
      Handle(running, timer, pending, nextTimer)
    }

    constructor ()
      ensures View() == Handle(false, None, {}, 0)
    {
      running, timer, pending, nextTimer := false, None, {}, 0;
    }

    method HasClosed() returns (closed: bool)
      ensures closed == !View().running
    {
      return !running;
    }

    method Enter() returns (entered: bool)
      modifies this
      ensures entered == !old(View()).running
      ensures View() == BeginStart(old(View()))
    {
      if running {
        return false;
      }
      running := true;
      return true;
    }

    method Close()
      modifies this
      ensures View() == CloseHandle(old(View()))
    {
      running := false;
      if timer.Some? {
        pending := pending - {timer.value};
        timer := None;
      }
    }

    method ClearFired()
      modifies this
      ensures View() == ClearHandle(old(View()))
    {
      timer := None;
    }

    method MarkFailed()
      modifies this
      ensures View() == FailHandle(old(View()))
    {
      running := false;
    }

    method Arm()
      modifies this
      ensures View() == ArmHandle(old(View()))
    {
      if !running {
        return;
      }
      if timer.Some? {
        return;
      }
      timer := Some(nextTimer);
      pending := pending + {nextTimer};
      nextTimer := nextTimer + 1;
    }
  }

  // Who called checkedExecute: only Start cleans up after a failed body.
  datatype Origin = FromStart | FromFire

  datatype PC =
    | FireClear(fired: TimerId)              // fire, about to clear the handle
    | Check(origin: Origin, first: bool)     // first hasClosed of checkedExecute
    | ExecWait(origin: Origin)               // about to lock execMu
    | Recheck(origin: Origin)                // second hasClosed, execMu held
    | Body(origin: Origin)                   // inside Execute, execMu held
    | BodyCheck(origin: Origin)              // Start(false) called by the body: hasClosed
    | BodyArm(origin: Origin)                // Start(false) called by the body: arming
    | FailMark(origin: Origin)               // the body failed, running not yet cleared
    | Cleanup                                // error path of Start
    | Arm(origin: Origin)                    // about to take the arming decision

  datatype BodyAction = DoClose | DoStart | Return(failed: bool)

  datatype Event =
    | StartCall(g: Gid, first: bool)
    | CloseCall
    | Expire(t: TimerId, g: Gid)
    | Run(g: Gid)
    | Act(g: Gid, action: BodyAction)

  datatype State = State(h: Handle, exec: Option<Gid>, procs: map<Gid, PC>)

  const Init := State(Handle(false, None, {}, 0), None, map[])

  predicate HoldsExec(pc: PC) {
    pc.Recheck? || pc.Body? || pc.BodyCheck? || pc.BodyArm?
  }

  // In the body proper: the second hasClosed has admitted the goroutine.
  predicate InBody(pc: PC) {
    pc.Body? || pc.BodyCheck? || pc.BodyArm?
  }

  // Goroutines that still decide about the next run: they arm it, or they are about to
  // record that the body failed. Only the clean-up of a failed Start has nothing to decide.
  predicate Undecided(pc: PC) {
    !pc.Cleanup?
  }

  predicate Enabled(s: State, e: Event) {
    match e
    case StartCall(g, _) => g !in s.procs
    case CloseCall => true
    case Expire(t, g) => t in s.h.pending && g !in s.procs
    case Run(g) =>
      g in s.procs && !s.procs[g].Body? && (s.procs[g].ExecWait? ==> s.exec.None?)
    case Act(g, _) => g in s.procs && s.procs[g].Body?
  }

  function Goto(s: State, g: Gid, pc: PC): State { s.(procs := s.procs[g := pc]) }

  function Exit(s: State, g: Gid): State { s.(procs := s.procs - {g}) }

  function RunStep(s: State, g: Gid): State
    requires Enabled(s, Run(g))
  {
    match s.procs[g]
    case FireClear(_) => Goto(s.(h := ClearHandle(s.h)), g, Check(FromFire, true))
    case Check(o, first) =>
      if !s.h.running then Exit(s, g)
      else Goto(s, g, if first then ExecWait(o) else Arm(o))
    case ExecWait(o) => Goto(s.(exec := Some(g)), g, Recheck(o))
    case Recheck(o) =>
      if !s.h.running then Exit(s.(exec := None), g) else Goto(s, g, Body(o))
    case BodyCheck(o) => Goto(s, g, if s.h.running then BodyArm(o) else Body(o))
    case BodyArm(o) => Goto(s.(h := ArmHandle(s.h)), g, Body(o))
    case FailMark(o) =>
      var s' := s.(h := FailHandle(s.h));
      if o.FromStart? then Goto(s', g, Cleanup) else Exit(s', g)
    case Cleanup => Exit(s.(h := CloseHandle(s.h)), g)
    case Arm(_) => Exit(s.(h := ArmHandle(s.h)), g)
  }

  function Apply(s: State, e: Event): State
    requires Enabled(s, e)
  {
    match e
    case StartCall(g, first) =>
      if s.h.running then s else Goto(s.(h := BeginStart(s.h)), g, Check(FromStart, first))
    case CloseCall => s.(h := CloseHandle(s.h))
    case Expire(t, g) => Goto(s.(h := s.h.(pending := s.h.pending - {t})), g, FireClear(t))
    case Run(g) => RunStep(s, g)
    case Act(g, action) =>
      var o := s.procs[g].origin;
      match action {
        case DoClose => s.(h := CloseHandle(s.h))
        case DoStart =>
          if s.h.running then s else Goto(s.(h := BeginStart(s.h)), g, BodyCheck(o))
        case Return(failed) => Goto(s.(exec := None), g, if failed then FailMark(o) else Arm(o))
      }
  }

  // A run: every event is enabled where it happens.
  predicate IsRun(s: State, es: seq<Event>)
    decreases |es|
  {
    es == [] || (Enabled(s, es[0]) && IsRun(Apply(s, es[0]), es[1..]))
  }

  function After(s: State, es: seq<Event>): State
    requires IsRun(s, es)
    decreases |es|
  {
    if es == [] then s else After(Apply(s, es[0]), es[1..])
  }

  // --- What every interleaving keeps -------------------------------------------------

  ghost predicate Waiting(s: State, t: TimerId) {
    exists g :: g in s.procs && s.procs[g] == FireClear(t)
  }

  ghost predicate Alive(s: State) {
    s.h.pending != {} || exists g :: g in s.procs && Undecided(s.procs[g])
  }

  ghost predicate ExecExclusive(s: State) {
    && (s.exec.Some? ==> s.exec.value in s.procs)
    && forall g :: g in s.procs ==> (HoldsExec(s.procs[g]) <==> s.exec == Some(g))
  }

  ghost predicate TimersKnown(s: State) {
    && (forall t :: t in s.h.pending ==> t < s.h.nextTimer)
    && (s.h.timer.Some? ==> s.h.timer.value in s.h.pending || Waiting(s, s.h.timer.value))
    && (forall g :: g in s.procs && s.procs[g].FireClear? ==>
          s.procs[g].fired < s.h.nextTimer && s.procs[g].fired !in s.h.pending)
  }

  ghost predicate Inv(s: State) {
    ExecExclusive(s) && TimersKnown(s) && (s.h.running ==> Alive(s))
  }

  lemma ExecExclusiveKept(s: State, e: Event)
    requires ExecExclusive(s) && Enabled(s, e)
    ensures ExecExclusive(Apply(s, e))
  {
  }

  lemma RunKeepsTimersKnown(s: State, g: Gid)
    requires TimersKnown(s) && Enabled(s, Run(g))
    ensures TimersKnown(RunStep(s, g))
  {
    var s' := RunStep(s, g);
    if s'.h.timer.Some? && s'.h.timer.value !in s'.h.pending {
      var w :| w in s.procs && s.procs[w] == FireClear(s'.h.timer.value);
      assert w in s'.procs && s'.procs[w] == FireClear(s'.h.timer.value);
    }
  }

  lemma TimersKnownKept(s: State, e: Event)
    requires TimersKnown(s) && Enabled(s, e)
    ensures TimersKnown(Apply(s, e))
  {
    var s' := Apply(s, e);
    if e.Run? {
      RunKeepsTimersKnown(s, e.g);
    } else if s'.h.timer.Some? && s'.h.timer.value !in s'.h.pending {
      var t := s'.h.timer.value;
      if e.Expire? && e.t == t {
        assert s'.procs[e.g] == FireClear(t);
      } else {
        var g :| g in s.procs && s.procs[g] == FireClear(t);
        assert g in s'.procs && s'.procs[g] == FireClear(t);
      }
    }
  }

  // The task never stops silently: whoever leaves the machine leaves a timer behind or
  // leaves a task that is not running.
  lemma AliveKept(s: State, e: Event)
    requires Inv(s) && Enabled(s, e) && Apply(s, e).h.running
    ensures Alive(Apply(s, e))
  {
    var s' := Apply(s, e);
    match e
    case StartCall(g, first) =>
      if !s.h.running {
        assert Undecided(s'.procs[g]);
      }
    case Expire(t, g) => assert Undecided(s'.procs[g]);
    case CloseCall =>
    case Act(g, _) => assert Undecided(s.procs[g]); assert g in s'.procs;
    case Run(g) =>
      match s.procs[g] {
        case Arm(_) =>
          var t := s'.h.timer.value;
          if t !in s'.h.pending {
            var w :| w in s.procs && s.procs[w] == FireClear(t);
            assert w in s'.procs && Undecided(s'.procs[w]);
          }
        case Body(_) =>
        case FailMark(_) =>
        case Cleanup =>
        case Check(_, _) => assert Undecided(s'.procs[g]);
        case _ => assert g in s'.procs && Undecided(s'.procs[g]);
      }
  }

  lemma InvKept(s: State, e: Event)
    requires Inv(s) && Enabled(s, e)
    ensures Inv(Apply(s, e))
  {
    ExecExclusiveKept(s, e);
    TimersKnownKept(s, e);
    if Apply(s, e).h.running {
      AliveKept(s, e);
    }
  }

  lemma {:induction false} InvAfter(s: State, es: seq<Event>)
    requires Inv(s) && IsRun(s, es)
    ensures Inv(After(s, es))
    decreases |es|
  {
    if es != [] {
      InvKept(s, es[0]);
      InvAfter(Apply(s, es[0]), es[1..]);
    }
  }

  /** In every interleaving at most one body runs and a running task is never left without
      a pending timer or a goroutine that still arms one or records the failure of its body. */
  lemma NeverTwoBodiesNeverSilent(es: seq<Event>)
    requires IsRun(Init, es)
    ensures var s := After(Init, es);
      && (forall g, k :: g in s.procs && k in s.procs && InBody(s.procs[g]) && InBody(s.procs[k]) ==> g == k)
      && (s.h.running ==> Alive(s))
  {
    InvAfter(Init, es);
  }

  /** No interleaving deadlocks: while a goroutine is inside the task, one of them can move. */
  lemma NeverStuck(es: seq<Event>)
    requires IsRun(Init, es) && After(Init, es).procs != map[]
    ensures var s := After(Init, es);
      exists g :: g in s.procs && (Enabled(s, Run(g)) || Enabled(s, Act(g, Return(false))))
  {
    InvAfter(Init, es);
    var s := After(Init, es);
    var g :| g in s.procs;
    if s.procs[g].ExecWait? && s.exec.Some? {
      var k := s.exec.value;
      assert HoldsExec(s.procs[k]);
      assert Enabled(s, Run(k)) || Enabled(s, Act(k, Return(false)));
    } else {
      assert Enabled(s, Run(g)) || Enabled(s, Act(g, Return(false)));
    }
  }

  // --- Never two chains ---------------------------------------------------------------

  // Every pending timer is the one the handle holds; so there is at most one.
  ghost predicate OneChain(s: State) {
    forall t :: t in s.h.pending ==> s.h.timer == Some(t)
  }

  // The clearing step of fire finds a handle whose timer is still pending.
  predicate OrphansTimer(s: State, e: Event) {
    e.Run? && e.g in s.procs && s.procs[e.g].FireClear? && s.h.timer.Some? && s.h.timer.value in s.h.pending
  }

  /** One step doubles the chain exactly when fire clears the handle of a pending timer. */
  lemma ChainDoublesIff(s: State, e: Event)
    requires Inv(s) && OneChain(s) && Enabled(s, e)
    ensures OneChain(Apply(s, e)) <==> !OrphansTimer(s, e)
  {
    if OrphansTimer(s, e) {
      assert s.h.timer.value in Apply(s, e).h.pending;
    }
  }

  ghost predicate AlwaysOneChain(s: State, es: seq<Event>)
    requires IsRun(s, es)
    decreases |es|
  {
    OneChain(s) && (es == [] || AlwaysOneChain(Apply(s, es[0]), es[1..]))
  }

  predicate NeverOrphans(s: State, es: seq<Event>)
    requires IsRun(s, es)
    decreases |es|
  {
    es == [] || (!OrphansTimer(s, es[0]) && NeverOrphans(Apply(s, es[0]), es[1..]))
  }

  lemma {:induction false} OneChainIff(s: State, es: seq<Event>)
    requires Inv(s) && OneChain(s) && IsRun(s, es)
    ensures AlwaysOneChain(s, es) <==> NeverOrphans(s, es)
    decreases |es|
  {
    if es != [] {
      InvKept(s, es[0]);
      ChainDoublesIff(s, es[0]);
      if OneChain(Apply(s, es[0])) {
        OneChainIff(Apply(s, es[0]), es[1..]);
      }
    }
  }

  /** Over every run from the start the chain is single throughout if and only if no
      clearing step ever strikes the handle of a timer that is still pending. */
  lemma SingleChainExactly(es: seq<Event>)
    requires IsRun(Init, es)
    ensures AlwaysOneChain(Init, es) <==> NeverOrphans(Init, es)
  {
    OneChainIff(Init, es);
  }

  lemma {:induction false} RunsCompose(s: State, first: seq<Event>, rest: seq<Event>)
    requires IsRun(s, first) && IsRun(After(s, first), rest)
    ensures IsRun(s, first + rest) && After(s, first + rest) == After(After(s, first), rest)
    decreases |first|
  {
    if first == [] {
      assert first + rest == rest;
    } else {
      assert (first + rest)[1..] == first[1..] + rest;
      RunsCompose(Apply(s, first[0]), first[1..], rest);
    }
  }

  // A timer is armed and expires; its goroutine has not taken the lock yet.
  const ExpiredNotCleared := [StartCall(1, false), Run(1), Run(1), Expire(0, 2)]
  // Meanwhile the task is closed and started again, which arms a new timer.
  const Restarted := [CloseCall, StartCall(3, false), Run(3), Run(3)]
  // The late goroutine clears the new handle, runs the body and arms once more.
  const LateClear := [Run(2), Run(2), Run(2), Run(2), Act(2, Return(false)), Run(2)]

  lemma OneMore(s: State, es: seq<Event>, e: Event)
    requires IsRun(s, es) && Enabled(After(s, es), e)
    ensures IsRun(s, es + [e]) && After(s, es + [e]) == Apply(After(s, es), e)
  {
    assert [e][1..] == [];
    RunsCompose(s, es, [e]);
  }

  lemma ExpiredNotClearedRuns()
    ensures IsRun(Init, ExpiredNotCleared)
    ensures After(Init, ExpiredNotCleared) == State(Handle(true, Some(0), {}, 1), None, map[2 := FireClear(0)])
  {
    var e1 := [] + [StartCall(1, false)];
    OneMore(Init, [], StartCall(1, false));
    OneMore(Init, e1, Run(1));
    assert After(Init, e1 + [Run(1)]) == State(Handle(true, None, {}, 0), None, map[1 := Arm(FromStart)]);
    OneMore(Init, e1 + [Run(1)], Run(1));
    assert After(Init, e1 + [Run(1)] + [Run(1)]) == State(Handle(true, Some(0), {0}, 1), None, map[]);
    OneMore(Init, e1 + [Run(1)] + [Run(1)], Expire(0, 2));
    assert ExpiredNotCleared == e1 + [Run(1)] + [Run(1)] + [Expire(0, 2)];
  }

  lemma RestartedRuns(s: State)
    requires s == State(Handle(true, Some(0), {}, 1), None, map[2 := FireClear(0)])
    ensures IsRun(s, Restarted)
    ensures After(s, Restarted) == State(Handle(true, Some(1), {1}, 2), None, map[2 := FireClear(0)])
  {
    var e1 := [] + [CloseCall];
    var h := Handle(true, None, {}, 1);
    OneMore(s, [], CloseCall);
    assert After(s, e1) == State(Handle(false, None, {}, 1), None, map[2 := FireClear(0)]);
    OneMore(s, e1, StartCall(3, false));
    assert After(s, e1 + [StartCall(3, false)]) ==
           State(h, None, map[2 := FireClear(0), 3 := Check(FromStart, false)]);
    OneMore(s, e1 + [StartCall(3, false)], Run(3));
    assert After(s, e1 + [StartCall(3, false)] + [Run(3)]) ==
           State(h, None, map[2 := FireClear(0), 3 := Arm(FromStart)]);
    OneMore(s, e1 + [StartCall(3, false)] + [Run(3)], Run(3));
    assert Restarted == e1 + [StartCall(3, false)] + [Run(3)] + [Run(3)];
  }

  lemma LateClearEnters(s: State)
    requires s == State(Handle(true, Some(1), {1}, 2), None, map[2 := FireClear(0)])
    ensures var es := [] + [Run(2)] + [Run(2)] + [Run(2)]; var h := Handle(true, None, {1}, 2);
      IsRun(s, es) && After(s, es) == State(h, Some(2), map[2 := Recheck(FromFire)])
  {
    var h := Handle(true, None, {1}, 2);
    OneMore(s, [], Run(2));
    assert After(s, [] + [Run(2)]) == State(h, None, map[2 := Check(FromFire, true)]);
    OneMore(s, [] + [Run(2)], Run(2));
    assert After(s, [] + [Run(2)] + [Run(2)]) == State(h, None, map[2 := ExecWait(FromFire)]);
    OneMore(s, [] + [Run(2)] + [Run(2)], Run(2));
  }

  lemma LateClearRuns(s: State)
    requires s == State(Handle(true, Some(1), {1}, 2), None, map[2 := FireClear(0)])
    ensures IsRun(s, LateClear) && After(s, LateClear) == State(Handle(true, Some(2), {1, 2}, 3), None, map[])
  {
    var e3 := [] + [Run(2)] + [Run(2)] + [Run(2)];
    var h := Handle(true, None, {1}, 2);
    LateClearEnters(s);
    OneMore(s, e3, Run(2));
    assert After(s, e3 + [Run(2)]) == State(h, Some(2), map[2 := Body(FromFire)]);
    OneMore(s, e3 + [Run(2)], Act(2, Return(false)));
    assert After(s, e3 + [Run(2)] + [Act(2, Return(false))]) == State(h, None, map[2 := Arm(FromFire)]);
    OneMore(s, e3 + [Run(2)] + [Act(2, Return(false))], Run(2));
    assert LateClear == e3 + [Run(2)] + [Act(2, Return(false))] + [Run(2)];
  }

  /** Torn apart from the expiry, the clear erases the handle of the timer a restart has armed
      in between, and the arming decision that follows adds a second timer. */
  lemma LateClearDoublesTheChain()
    ensures IsRun(Init, ExpiredNotCleared + Restarted + LateClear)
    ensures var s := After(Init, ExpiredNotCleared + Restarted + LateClear);
      s.h.running && s.h.pending == {1, 2} && !OneChain(s)
  {
    var s4 := State(Handle(true, Some(0), {}, 1), None, map[2 := FireClear(0)]);
    var s8 := State(Handle(true, Some(1), {1}, 2), None, map[2 := FireClear(0)]);
    ExpiredNotClearedRuns();
    RestartedRuns(s4);
    LateClearRuns(s8);
    RunsCompose(Init, ExpiredNotCleared, Restarted);
    RunsCompose(Init, ExpiredNotCleared + Restarted, LateClear);
    assert 1 in {1, 2};
  }

  // Schedules in which the expired goroutine takes the lock before anything else happens.
  predicate PromptClears(es: seq<Event>)
    decreases |es|
  {
    es == [] ||
    if es[0].Expire? then |es| >= 2 && es[1] == Run(es[0].g) && PromptClears(es[2..])
    else PromptClears(es[1..])
  }

  ghost predicate NobodyClearing(s: State) {
    forall g :: g in s.procs ==> !s.procs[g].FireClear?
  }

  // An expiry and the clearing behind it, and any other step, keep the chain single.
  lemma ExpiryAndClear(s: State, t: TimerId, g: Gid)
    requires Inv(s) && OneChain(s) && NobodyClearing(s) && Enabled(s, Expire(t, g))
    requires Enabled(Apply(s, Expire(t, g)), Run(g))
    ensures var s1 := Apply(s, Expire(t, g)); var s2 := Apply(s1, Run(g));
      OneChain(s1) && Inv(s2) && OneChain(s2) && NobodyClearing(s2)
  {
    var s1 := Apply(s, Expire(t, g));
    InvKept(s, Expire(t, g));
    ChainDoublesIff(s, Expire(t, g));
    assert s1.h.pending == {};
    InvKept(s1, Run(g));
    ChainDoublesIff(s1, Run(g));
  }

  lemma OtherStepKeepsOneChain(s: State, e: Event)
    requires Inv(s) && OneChain(s) && NobodyClearing(s) && Enabled(s, e) && !e.Expire?
    ensures Inv(Apply(s, e)) && OneChain(Apply(s, e)) && NobodyClearing(Apply(s, e))
  {
    InvKept(s, e);
    ChainDoublesIff(s, e);
  }

  lemma {:induction false} PromptClearsFrom(s: State, es: seq<Event>)
    requires Inv(s) && OneChain(s) && NobodyClearing(s) && IsRun(s, es) && PromptClears(es)
    ensures AlwaysOneChain(s, es)
    decreases |es|
  {
    if es != [] {
      var s1 := Apply(s, es[0]);
      if es[0].Expire? {
        assert es[1..][0] == es[1] && es[1..][1..] == es[2..];
        ExpiryAndClear(s, es[0].t, es[0].g);
        PromptClearsFrom(Apply(s1, es[1]), es[2..]);
      } else {
        OtherStepKeepsOneChain(s, es[0]);
        PromptClearsFrom(s1, es[1..]);
      }
    }
  }

  /** When expiry and the clearing of the handle are not torn apart, the handle always holds
      the only pending timer, whatever Start, Close and self-restarting bodies do. */
  lemma PromptClearsKeepOneChain(es: seq<Event>)
    requires IsRun(Init, es) && PromptClears(es)
    ensures AlwaysOneChain(Init, es)
  {
    PromptClearsFrom(Init, es);
  }

  // --- Close is final ------------------------------------------------------------------

  predicate NoStart(es: seq<Event>) {
    forall i :: 0 <= i < |es| ==> !es[i].StartCall? && !(es[i].Act? && es[i].action.DoStart?)
  }

  lemma {:induction false} StoppedStaysStopped(s: State, es: seq<Event>)
    requires Inv(s) && !s.h.running && IsRun(s, es) && NoStart(es)
    ensures var s' := After(s, es);
      && !s'.h.running
      && s'.h.nextTimer == s.h.nextTimer && s'.h.pending <= s.h.pending
      && (s.h.timer.None? ==> s'.h.timer.None?)
      && (forall g :: g in s'.procs && InBody(s'.procs[g]) ==> g in s.procs && InBody(s.procs[g]))
    decreases |es|
  {
    if es != [] {
      assert !es[0].StartCall?;
      InvKept(s, es[0]);
      StoppedStaysStopped(Apply(s, es[0]), es[1..]);
    }
  }

  /** After Close, with no Start to come, the handle stays empty, no timer is ever armed
      again, and the only body that can still be running is the one that was already admitted
      when Close took the lock; if the chain was single, nothing is pending any more. */
  lemma CloseIsFinal(s: State, es: seq<Event>)
    requires Inv(s) && IsRun(Apply(s, CloseCall), es) && NoStart(es)
    ensures var c := Apply(s, CloseCall); var s' := After(c, es);
      && !s'.h.running && s'.h.timer.None? && s'.h.nextTimer == s.h.nextTimer
      && (OneChain(s) ==> s'.h.pending == {})
      && (forall g :: g in s'.procs && InBody(s'.procs[g]) ==> s.exec == Some(g) && InBody(s.procs[g]))
  {
    InvKept(s, CloseCall);
    StoppedStaysStopped(Apply(s, CloseCall), es);
    if OneChain(s) {
      assert Apply(s, CloseCall).h.pending == {};
    }
  }

  // --- Every call runs its body -----------------------------------------------------------

  // The step takes the goroutine into Execute.
  predicate EntersBody(s: State, e: Event, g: Gid)
    requires Enabled(s, e)
  {
    && g in s.procs && !InBody(s.procs[g])
    && g in Apply(s, e).procs && InBody(Apply(s, e).procs[g])
  }

  // How often the goroutine enters the body in a run.
  function Bodies(s: State, es: seq<Event>, g: Gid): nat
    requires IsRun(s, es)
    decreases |es|
  {
    if es == [] then 0 else (if EntersBody(s, es[0], g) then 1 else 0) + Bodies(Apply(s, es[0]), es[1..], g)
  }

  // The goroutine does not leave the task during the run.
  predicate Stays(s: State, es: seq<Event>, g: Gid)
    requires IsRun(s, es)
    decreases |es|
  {
    g in s.procs && (es == [] || Stays(Apply(s, es[0]), es[1..], g))
  }

  // How many bodies a call with this first is behind when it is at the point.
  predicate BodiesAt(pc: PC, first: bool, n: nat) {
    match pc
    case FireClear(_) => first && n == 0
    case Check(_, f) => f == first && n == 0
    case ExecWait(_) => first && n == 0
    case Recheck(_) => first && n == 0
    case Arm(_) => n == if first then 1 else 0
    case _ => first && n == 1
  }

  lemma StepCountsBodies(s: State, e: Event, g: Gid, first: bool, n: nat)
    requires Enabled(s, e) && g in s.procs && g in Apply(s, e).procs && BodiesAt(s.procs[g], first, n)
    ensures BodiesAt(Apply(s, e).procs[g], first, n + if EntersBody(s, e, g) then 1 else 0)
  {
  }

  lemma {:induction false} CallCountsBodies(s: State, es: seq<Event>, g: Gid, first: bool, n: nat)
    requires IsRun(s, es) && Stays(s, es, g) && BodiesAt(s.procs[g], first, n)
    ensures g in After(s, es).procs && BodiesAt(After(s, es).procs[g], first, n + Bodies(s, es, g))
    decreases |es|
  {
    if es != [] {
      StepCountsBodies(s, es[0], g, first, n);
      CallCountsBodies(Apply(s, es[0]), es[1..], g, first,
                       n + if EntersBody(s, es[0], g) then 1 else 0);
    }
  }

  /** Every call that is not cut short by a stopped task has run its body exactly as often as it should
      by the time it leaves: once for a start with `first` and for an expired timer, never for a start
      without. In particular a call that arms the timer has. */
  lemma EveryCallRunsItsBody(s: State, call: Event, es: seq<Event>, e: Event, g: Gid, first: bool)
    requires Enabled(s, call)
    requires (call == StartCall(g, first) && !s.h.running) || (call.Expire? && call.g == g && first)
    requires var c := Apply(s, call);
      IsRun(c, es) && Stays(c, es, g) && Enabled(After(c, es), e) && g !in Apply(After(c, es), e).procs
    ensures var c := Apply(s, call); var last := After(c, es);
      && (Bodies(c, es, g) == (if first then 1 else 0) || (Bodies(c, es, g) == 0 && !last.h.running))
      && (Apply(last, e).h.nextTimer != last.h.nextTimer ==> Bodies(c, es, g) == if first then 1 else 0)
  {
    CallCountsBodies(Apply(s, call), es, g, first, 0);
  }

  /** A start with `first` whose body succeeds runs it and then arms the timer. */
  lemma FirstBodyThenTimer()
    ensures var es := [] + [StartCall(1, true)] + [Run(1)] + [Run(1)] + [Run(1)] + [Act(1, Return(false))] + [Run(1)];
      IsRun(Init, es) && After(Init, es) == State(Handle(true, Some(0), {0}, 1), None, map[])
  {
    var e4 := [] + [StartCall(1, true)] + [Run(1)] + [Run(1)] + [Run(1)];
    FirstBodyEntered();
    OneMore(Init, e4, Act(1, Return(false)));
    assert After(Init, e4 + [Act(1, Return(false))]) == State(Handle(true, None, {}, 0), None, map[1 := Arm(FromStart)]);
    OneMore(Init, e4 + [Act(1, Return(false))], Run(1));
  }

  lemma FirstBodyEntered()
    ensures var es := [] + [StartCall(1, true)] + [Run(1)] + [Run(1)] + [Run(1)];
      IsRun(Init, es) && After(Init, es) == State(Handle(true, None, {}, 0), Some(1), map[1 := Body(FromStart)])
  {
    var h := Handle(true, None, {}, 0);
    var e1 := [] + [StartCall(1, true)];
    OneMore(Init, [], StartCall(1, true));
    assert After(Init, e1) == State(h, None, map[1 := Check(FromStart, true)]);
    OneMore(Init, e1, Run(1));
    assert After(Init, e1 + [Run(1)]) == State(h, None, map[1 := ExecWait(FromStart)]);
    OneMore(Init, e1 + [Run(1)], Run(1));
    assert After(Init, e1 + [Run(1)] + [Run(1)]) == State(h, Some(1), map[1 := Recheck(FromStart)]);
    OneMore(Init, e1 + [Run(1)] + [Run(1)], Run(1));
  }

  /** When that body fails, the start cleans up: the task is stopped, without a timer. */
  lemma FirstBodyFails()
    ensures var es :=
        [] + [StartCall(1, true)] + [Run(1)] + [Run(1)] + [Run(1)] + [Act(1, Return(true))] + [Run(1)] + [Run(1)];
      IsRun(Init, es) && After(Init, es) == State(Handle(false, None, {}, 0), None, map[])
  {
    var e4 := [] + [StartCall(1, true)] + [Run(1)] + [Run(1)] + [Run(1)];
    var e5 := e4 + [Act(1, Return(true))];
    FirstBodyEntered();
    OneMore(Init, e4, Act(1, Return(true)));
    assert After(Init, e5) == State(Handle(true, None, {}, 0), None, map[1 := FailMark(FromStart)]);
    OneMore(Init, e5, Run(1));
    assert After(Init, e5 + [Run(1)]) == State(Handle(false, None, {}, 0), None, map[1 := Cleanup]);
    OneMore(Init, e5 + [Run(1)], Run(1));
  }

  /** A start of a running task changes nothing, from outside or from the body. A body that starts its
      closed task again has armed a timer two steps later, unless the handle holds one. */
  lemma StartFromTheBody(s: State, g: Gid)
    requires g in s.procs && s.procs[g].Body?
    ensures s.h.running ==> Apply(s, Act(g, DoStart)) == s && forall f, first :: Enabled(s, StartCall(f, first)) ==>
              Apply(s, StartCall(f, first)) == s
    ensures var s1 := Apply(s, Act(g, DoStart));
      !s.h.running ==> s1.h.running && Enabled(s1, Run(g)) && Enabled(Apply(s1, Run(g)), Run(g)) &&
                       var s3 := Apply(Apply(s1, Run(g)), Run(g));
                       && s3.h.running && s3.h.timer.Some? && s3.procs == s.procs
                       && (s.h.timer.None? ==> s3.h.timer.value in s3.h.pending && s3.h.timer == Some(s.h.nextTimer))
  {
  }

  /** Whatever happened meanwhile, the clean-up of a failed start leaves the task stopped, with an
      empty handle and the timer it held no longer pending. */
  lemma FailedStartLeavesNoTimer(s: State, g: Gid)
    requires g in s.procs && s.procs[g].Cleanup?
    ensures var s' := Apply(s, Run(g));
      && !s'.h.running && s'.h.timer.None? && g !in s'.procs
      && (s.h.timer.Some? ==> s.h.timer.value !in s'.h.pending)
  {
  }

  // --- Who stops a started task -------------------------------------------------------------

  predicate NoClose(es: seq<Event>) {
    forall i :: 0 <= i < |es| ==> !es[i].CloseCall? && !(es[i].Act? && es[i].action.DoClose?)
  }

  // A body that failed clears the running flag, whoever started the task since it began.
  predicate MarksFailure(s: State, e: Event) {
    e.Run? && e.g in s.procs && (s.procs[e.g].FailMark? || s.procs[e.g].Cleanup?)
  }

  predicate NeverMarks(s: State, es: seq<Event>)
    requires IsRun(s, es)
    decreases |es|
  {
    es == [] || (!MarksFailure(s, es[0]) && NeverMarks(Apply(s, es[0]), es[1..]))
  }

  lemma StepStopsIff(s: State, e: Event)
    requires Enabled(s, e) && NoStart([e]) && NoClose([e])
    ensures Apply(s, e).h.running <==> s.h.running && !MarksFailure(s, e)
  {
    assert [e][0] == e;
  }

  /** After a start, with no close and no other start since, the task is running exactly when no body
      has failed in the meantime, be it one of an earlier start. */
  lemma {:induction false} RunsUntilABodyFailsIff(s: State, es: seq<Event>)
    requires IsRun(s, es) && NoStart(es) && NoClose(es)
    ensures After(s, es).h.running <==> s.h.running && NeverMarks(s, es)
    decreases |es|
  {
    if es != [] {
      assert [es[0]][0] == es[0];
      StepStopsIff(s, es[0]);
      RunsUntilABodyFailsIff(Apply(s, es[0]), es[1..]);
    }
  }

  // The timer goroutine of an expired timer is in the body.
  const BodyEntered: seq<Event> := [] + [Run(2)] + [Run(2)] + [Run(2)] + [Run(2)]
  // That body fails, long after the task was closed and started again.
  const OldBodyFails: seq<Event> := [] + [Act(2, Return(true))] + [Run(2)]
  // The timer of the restarted task expires and finds the task stopped.
  const NewTimerDies: seq<Event> := [] + [Expire(1, 4)] + [Run(4)] + [Run(4)]

  lemma BodyEnteredRuns(s: State)
    requires s == State(Handle(true, Some(0), {}, 1), None, map[2 := FireClear(0)])
    ensures IsRun(s, BodyEntered)
    ensures After(s, BodyEntered) == State(Handle(true, None, {}, 1), Some(2), map[2 := Body(FromFire)])
  {
    var h := Handle(true, None, {}, 1);
    OneMore(s, [], Run(2));
    assert After(s, [] + [Run(2)]) == State(h, None, map[2 := Check(FromFire, true)]);
    OneMore(s, [] + [Run(2)], Run(2));
    assert After(s, [] + [Run(2)] + [Run(2)]) == State(h, None, map[2 := ExecWait(FromFire)]);
    OneMore(s, [] + [Run(2)] + [Run(2)], Run(2));
    assert After(s, [] + [Run(2)] + [Run(2)] + [Run(2)]) == State(h, Some(2), map[2 := Recheck(FromFire)]);
    OneMore(s, [] + [Run(2)] + [Run(2)] + [Run(2)], Run(2));
  }

  lemma RestartedBesideABody(s: State)
    requires s == State(Handle(true, None, {}, 1), Some(2), map[2 := Body(FromFire)])
    ensures IsRun(s, Restarted)
    ensures After(s, Restarted) == State(Handle(true, Some(1), {1}, 2), Some(2), map[2 := Body(FromFire)])
  {
    var e1 := [] + [CloseCall];
    var h := Handle(true, None, {}, 1);
    OneMore(s, [], CloseCall);
    assert After(s, e1) == State(Handle(false, None, {}, 1), Some(2), map[2 := Body(FromFire)]);
    OneMore(s, e1, StartCall(3, false));
    assert After(s, e1 + [StartCall(3, false)]) ==
           State(h, Some(2), map[2 := Body(FromFire), 3 := Check(FromStart, false)]);
    OneMore(s, e1 + [StartCall(3, false)], Run(3));
    assert After(s, e1 + [StartCall(3, false)] + [Run(3)]) ==
           State(h, Some(2), map[2 := Body(FromFire), 3 := Arm(FromStart)]);
    OneMore(s, e1 + [StartCall(3, false)] + [Run(3)], Run(3));
    assert Restarted == e1 + [StartCall(3, false)] + [Run(3)] + [Run(3)];
  }

  lemma OldBodyFailsRuns(s: State)
    requires s == State(Handle(true, Some(1), {1}, 2), Some(2), map[2 := Body(FromFire)])
    ensures IsRun(s, OldBodyFails) && After(s, OldBodyFails) == State(Handle(false, Some(1), {1}, 2), None, map[])
  {
    OneMore(s, [], Act(2, Return(true)));
    assert After(s, [] + [Act(2, Return(true))]) ==
           State(Handle(true, Some(1), {1}, 2), None, map[2 := FailMark(FromFire)]);
    OneMore(s, [] + [Act(2, Return(true))], Run(2));
  }

  lemma NewTimerDiesRuns(s: State)
    requires s == State(Handle(false, Some(1), {1}, 2), None, map[])
    ensures IsRun(s, NewTimerDies) && After(s, NewTimerDies) == State(Handle(false, None, {}, 2), None, map[])
  {
    OneMore(s, [], Expire(1, 4));
    assert After(s, [] + [Expire(1, 4)]) == State(Handle(false, Some(1), {}, 2), None, map[4 := FireClear(1)]);
    OneMore(s, [] + [Expire(1, 4)], Run(4));
    assert After(s, [] + [Expire(1, 4)] + [Run(4)]) ==
           State(Handle(false, None, {}, 2), None, map[4 := Check(FromFire, true)]);
    OneMore(s, [] + [Expire(1, 4)] + [Run(4)], Run(4));
  }

  /** A task is closed while its body runs and is started again; the start succeeds and arms a timer.
      The old body then fails and takes the new start with it: nobody closed the task again, and it
      has neither a timer nor a goroutine left. */
  lemma OldBodyStopsTheRestart()
    ensures var es := ExpiredNotCleared + BodyEntered + Restarted + OldBodyFails + NewTimerDies;
      IsRun(Init, es) && After(Init, es) == State(Handle(false, None, {}, 2), None, map[])
    ensures NoClose(Restarted[1..] + OldBodyFails + NewTimerDies)
  {
    var s4 := State(Handle(true, Some(0), {}, 1), None, map[2 := FireClear(0)]);
    ExpiredNotClearedRuns();
    BodyEnteredRuns(s4);
    RestartedBesideABody(State(Handle(true, None, {}, 1), Some(2), map[2 := Body(FromFire)]));
    OldBodyFailsRuns(State(Handle(true, Some(1), {1}, 2), Some(2), map[2 := Body(FromFire)]));
    NewTimerDiesRuns(State(Handle(false, Some(1), {1}, 2), None, map[]));
    RunsCompose(Init, ExpiredNotCleared, BodyEntered);
    RunsCompose(Init, ExpiredNotCleared + BodyEntered, Restarted);
    RunsCompose(Init, ExpiredNotCleared + BodyEntered + Restarted, OldBodyFails);
    RunsCompose(Init, ExpiredNotCleared + BodyEntered + Restarted + OldBodyFails, NewTimerDies);
  }

  // --- Jitter ----------------------------------------------------------------------------

  // The fraction of the interval the delay may move by: the jitter, at most all of it.
  function Fraction(jitter: real): real { if jitter <= 0.0 then 0.0 else if jitter > 1.0 then 1.0 else jitter }

  // How far the sample x, between -1 and 1, moves the delay.
  function Offset(interval: real, fraction: real, x: real): real { x * fraction * interval }

  // Truncated toward zero; a delay that is not positive is the interval itself.
  function Truncated(interval: int, shifted: real): int {
    var delay := if shifted < 0.0 then -((-shifted).Floor) else shifted.Floor;
    if delay <= 0 then interval else delay
  }

  // The delay of the next run; `u` is the sample of rand.Float64.
  function NextDelay(interval: int, jitter: real, u: real): (delay: int) {
    if jitter <= 0.0 || interval <= 0 then interval
    else Truncated(interval, interval as real + Offset(interval as real, Fraction(jitter), u * 2.0 - 1.0))
  }

  /** A usable interval never becomes a zero or negative delay, and the delay stays within the
      jitter fraction of the interval, which is what the online window is dimensioned for. */
  lemma NextDelayInRange(interval: int, jitter: real, u: real)
    requires interval > 0 && 0.0 <= u < 1.0
    ensures var d := NextDelay(interval, jitter, u);
      && 0 < d
      && d as real <= interval as real + Fraction(jitter) * interval as real
      && d as real > interval as real - Fraction(jitter) * interval as real - 1.0
  {
    OffsetWithin(interval as real, Fraction(jitter), u * 2.0 - 1.0);
    TruncatedWithin(
      interval, interval as real + Offset(interval as real, Fraction(jitter), u * 2.0 - 1.0),
      Fraction(jitter) * interval as real);
  }

  /** The delay is the interval moved by the sample, truncated to whole units, unless less than one
      unit is left; without jitter it is the interval. */
  lemma NextDelayIsTheMovedInterval(interval: int, jitter: real, u: real)
    requires 0.0 <= u < 1.0
    ensures var d := NextDelay(interval, jitter, u);
            var f := if jitter > 1.0 then 1.0 else jitter;
            var moved := interval as real + (2.0 * u - 1.0) * f * interval as real;
      if jitter <= 0.0 || interval <= 0 || moved < 1.0 then d == interval
      else d as real <= moved < d as real + 1.0
  {
    if jitter > 0.0 && interval > 0 {
      var shifted := interval as real + Offset(interval as real, Fraction(jitter), u * 2.0 - 1.0);
      OffsetIs(interval as real, Fraction(jitter), u);
      TruncatedIs(interval, shifted);
    }
  }

  lemma OffsetIs(interval: real, fraction: real, u: real)
    ensures Offset(interval, fraction, u * 2.0 - 1.0) == (2.0 * u - 1.0) * fraction * interval
  {
    assert u * 2.0 - 1.0 == 2.0 * u - 1.0;
  }

  lemma TruncatedIs(interval: int, shifted: real)
    requires interval > 0
    ensures var d := Truncated(interval, shifted);
      if shifted < 1.0 then d == interval else d as real <= shifted < d as real + 1.0
  {
  }

  lemma TruncatedWithin(interval: int, shifted: real, w: real)
    requires interval > 0 && 0.0 <= w <= interval as real
    requires interval as real - w <= shifted <= interval as real + w
    ensures var d := Truncated(interval, shifted);
      0 < d && interval as real - w - 1.0 < d as real <= interval as real + w
  {
  }

  lemma OffsetWithin(interval: real, fraction: real, x: real)
    requires interval >= 0.0 && 0.0 <= fraction <= 1.0 && -1.0 <= x <= 1.0
    ensures -(fraction * interval) <= Offset(interval, fraction, x) <= fraction * interval <= interval
  {
    var w := fraction * interval;
    assert w >= 0.0 && Offset(interval, fraction, x) == x * w;
    ScaledBetween(x, w);
    assert (1.0 - fraction) * interval >= 0.0;
  }

  lemma ScaledBetween(x: real, w: real)
    requires -1.0 <= x <= 1.0 && w >= 0.0
    ensures -w <= x * w <= w
  {
    assert (1.0 - x) * w >= 0.0;
    assert (x + 1.0) * w >= 0.0;
  }
}
