/**
 The connection limiter behind the admission check: `checkLimit` (limiter/limiter.go:278-361) takes
 a connection slot first and may refuse the connection afterwards, and the cores release a slot only
 when a connection they carried closes (core/sing/hook.go:37-92,
 core/xray/app/dispatcher/default.go:208-219 and 521-531). A run is the steps of the limiter, the
 closing of carried connections and the sweeps of the connection tables, one after the other.
 */
module Admissions {
  import opened Wrappers
  import C = ConnLimiting
  import L = LimitRecord
  import M = Limiters
  import R = LimiterRuns

  // The limiter and the TCP connections that are carried.
  datatype Live = Live(limiter: M.State, open: seq<C.Conn>)

  function Conns(l: Live): C.State { C.State(l.limiter.conns, l.open) }

  function WithConns(l: Live, s: C.State): Live { Live(l.limiter.(conns := s.t), s.open) }

  // A rule may still turn an admitted connection away.
  datatype What =
    | Step(step: R.Step, ruledOut: bool)
    | Disconnect(i: nat)
    | Sweep(cutoff: int)

  datatype Turn = Turn(what: What, before: Live, after: Live)

  predicate Carries(st: R.Step, ruledOut: bool) {
    st.event.Connect? && st.event.isTcp && st.verdict.Some? && st.verdict.value.Accepted? && !ruledOut
  }

  ghost predicate IsTurn(n: R.Node, t: Turn) {
    match t.what
    case Step(st, ruledOut) =>
      && R.IsStep(n, st) && !st.event.ConnsChange? && st.before == t.before.limiter
      && t.after == Live(st.after, if Carries(st, ruledOut) then t.before.open + [C.Conn(st.event.user, st.event.ip)]
                                   else t.before.open)
    case Disconnect(i) =>
      i < |t.before.open| &&
      t.after == WithConns(t.before, C.Apply(n.config.conn, Conns(t.before), C.Disconnect(i)))
    case Sweep(cutoff) => t.after == WithConns(t.before, C.Apply(n.config.conn, Conns(t.before), C.Sweep(cutoff)))
  }

  // --- What a refused check leaves behind --------------------------------------------------------

  // The connection passes the connection limiter, and then has no record or is one device too many.
  predicate RefusedLate(n: R.Node, s: M.State, e: R.Event, now: M.Time) {
    && e.Connect? && !C.AddTo(n.config.conn, s.conns, e.user, e.ip, e.isTcp, now).1
    && (e.user in s.limits ==>
          && e.noSSUDP && !R.Known(s.devices, e.user, e.ip, n.config.oldOnlineTTL, now)
          && 0 < s.limits[e.user].deviceLimit <= M.AliveOf(s.alive, s.limits[e.user].uid))
  }

  lemma RefusedLateIff(n: R.Node, st: R.Step)
    requires R.IsStep(n, st) && st.event.Connect?
    ensures RefusedLate(n, st.before, st.event, st.now) <==> st.verdict in {Some(M.Unknown), Some(M.DeviceRejected)}
    ensures C.AddTo(n.config.conn, st.before.conns, st.event.user, st.event.ip, st.event.isTcp, st.now).1 <==>
            st.verdict == Some(M.ConnRejected)
    ensures st.after.conns == C.AddTo(n.config.conn, st.before.conns, st.event.user, st.event.ip, st.event.isTcp, st.now).0
  {
    if st.event.user in st.before.limits && st.verdict != Some(M.ConnRejected) {
      R.DeviceRejectedIff(n.config, st.before, st.event.user, st.event.ip, st.event.isTcp, st.event.noSSUDP, st.now);
    }
  }

  /** Exactly which refused checks leave the user's count as it was: a refusal by the connection
      limiter of a TCP connection, of an uncounted user or at the limit, and a later refusal of a
      packet connection. A TCP connection refused later keeps its slot. */
  lemma RefusedCheckGivesBackIff(
      c: M.Config, s: M.State, user: M.User, ip: M.Ip, isTcp: bool, noSSUDP: bool, now: M.Time)
    requires c.conn.connLimit > 0 && forall u :: u in s.conns.count ==> s.conns.count[u] >= 1
    requires !M.Check(c, s, user, ip, isTcp, noSSUDP, now).1.Accepted?
    ensures var (s', v) := M.Check(c, s, user, ip, isTcp, noSSUDP, now);
      C.CountOf(s'.conns, user) == C.CountOf(s.conns, user) <==>
      if v.ConnRejected? then isTcp || user !in s.conns.count || s.conns.count[user] >= c.conn.connLimit
      else !isTcp
  {
    C.AddMovesCount(c.conn, s.conns, C.Connect(user, ip, isTcp, now), user);
  }

  // --- The counts and the carried connections ----------------------------------------------------

  // The turn takes a slot for a connection that is not carried.
  predicate LeavesSlot(n: R.Node, t: Turn) {
    && t.what.Step? && t.what.step.event.Connect? && t.what.step.event.isTcp
    && !C.AddTo(n.config.conn, t.before.limiter.conns, t.what.step.event.user, t.what.step.event.ip, true,
                t.what.step.now).1
    && (t.what.ruledOut || RefusedLate(n, t.before.limiter, t.what.step.event, t.what.step.now))
  }

  // The turn takes back a slot for a packet connection that had none.
  predicate TakesBack(n: R.Node, t: Turn) {
    && t.what.Step? && t.what.step.event.Connect?
    && C.Miscounts(n.config.conn, Conns(t.before), AsConnect(t.what.step))
  }

  function AsConnect(st: R.Step): C.Event
    requires st.event.Connect?
  {
    C.Connect(st.event.user, st.event.ip, st.event.isTcp, st.now)
  }

  lemma {:induction false} WithoutUsersKeepsConns(s: M.State, tag: string, deleted: seq<M.UserInfo>)
    ensures M.WithoutUsers(s, tag, deleted).conns == s.conns
    decreases |deleted|
  {
    if deleted != [] {
      WithoutUsersKeepsConns(M.WithoutUser(s, tag, deleted[0]), tag, deleted[1..]);
    }
  }

  lemma OtherStepKeepsConns(n: R.Node, t: Turn)
    requires IsTurn(n, t) && t.what.Step? && !t.what.step.event.Connect?
    ensures Conns(t.after) == Conns(t.before)
  {
    var st := t.what.step;
    if st.event.UpdateUsers? {
      WithoutUsersKeepsConns(st.before, n.tag, st.event.deleted);
      R.WithUsersKeepsTheRest(M.WithoutUsers(st.before, n.tag, st.event.deleted), n.tag, st.event.added);
    }
  }

  // A connection check acts on the tables as the limiter does; the connection is carried unless the
  // turn leaves a slot.
  lemma ConnectTurn(n: R.Node, t: Turn)
    requires IsTurn(n, t) && t.what.Step? && t.what.step.event.Connect?
    ensures var whole := C.Apply(n.config.conn, Conns(t.before), AsConnect(t.what.step));
      && t.after.limiter.conns == whole.t
      && (!LeavesSlot(n, t) ==> t.after.open == whole.open)
      && (LeavesSlot(n, t) ==> t.after.open == t.before.open)
      && (LeavesSlot(n, t) ==>
            whole.open == t.before.open + [C.Conn(t.what.step.event.user, t.what.step.event.ip)])
  {
    RefusedLateIff(n, t.what.step);
  }

  /** One turn keeps every count equal to the carried connections exactly when it neither leaves a
      slot behind nor takes one back. */
  lemma TurnCountsIff(n: R.Node, t: Turn)
    requires n.config.conn.connLimit > 0 && IsTurn(n, t) && C.CountsOpen(Conns(t.before))
    ensures C.CountsOpen(Conns(t.after)) <==> !LeavesSlot(n, t) && !TakesBack(n, t)
  {
    var c := n.config.conn;
    match t.what
    case Disconnect(i) => C.StepCountsIff(c, Conns(t.before), C.Disconnect(i));
    case Sweep(cutoff) => C.StepCountsIff(c, Conns(t.before), C.Sweep(cutoff));
    case Step(st, _) =>
      if st.event.Connect? {
        ConnectTurn(n, t);
        C.StepCountsIff(c, Conns(t.before), AsConnect(st));
        if LeavesSlot(n, t) {
          LeftSlotIsCounted(n, t);
        } else {
          assert Conns(t.after) == C.Apply(c, Conns(t.before), AsConnect(st));
        }
      } else {
        OtherStepKeepsConns(n, t);
      }
  }

  lemma LeftSlotIsCounted(n: R.Node, t: Turn)
    requires n.config.conn.connLimit > 0 && IsTurn(n, t) && C.CountsOpen(Conns(t.before)) && LeavesSlot(n, t)
    ensures !C.CountsOpen(Conns(t.after))
  {
    var user := t.what.step.event.user;
    ConnectTurn(n, t);
    C.AddMovesCount(n.config.conn, t.before.limiter.conns, AsConnect(t.what.step), user);
    assert C.CountOf(t.before.limiter.conns, user) == C.OpenOf(t.before.open, user);
    assert C.CountOf(t.after.limiter.conns, user) == C.OpenOf(t.after.open, user) + 1;
  }

  ghost predicate IsRun(n: R.Node, run: seq<Turn>) {
    && (forall i :: 0 <= i < |run| ==> IsTurn(n, run[i]))
    && (forall i :: 0 < i < |run| ==> run[i].before == run[i - 1].after)
    && (|run| > 0 ==> Conns(run[0].before) == C.Init)
  }

  lemma {:induction false} CountsCarried(n: R.Node, run: seq<Turn>, i: nat)
    requires n.config.conn.connLimit > 0 && IsRun(n, run) && i < |run|
    requires forall k :: 0 <= k <= i ==> !LeavesSlot(n, run[k]) && !TakesBack(n, run[k])
    ensures C.CountsOpen(Conns(run[i].before)) && C.CountsOpen(Conns(run[i].after))
  {
    if i > 0 {
      CountsCarried(n, run, i - 1);
    }
    assert IsTurn(n, run[i]);
    TurnCountsIff(n, run[i]);
  }

  /** Over every run of whole calls every user's count is the number of connections the core carries
      for the user throughout if and only if no TCP connection is turned away after it took its slot
      and no packet connection takes a slot back. */
  lemma CountsCarriedIff(n: R.Node, run: seq<Turn>)
    requires n.config.conn.connLimit > 0 && IsRun(n, run)
    ensures (forall i :: 0 <= i < |run| ==> C.CountsOpen(Conns(run[i].after))) <==>
            (forall i :: 0 <= i < |run| ==> !LeavesSlot(n, run[i]) && !TakesBack(n, run[i]))
  {
    if forall i :: 0 <= i < |run| ==> !LeavesSlot(n, run[i]) && !TakesBack(n, run[i]) {
      forall i | 0 <= i < |run| ensures C.CountsOpen(Conns(run[i].after)) {
        CountsCarried(n, run, i);
      }
    }
    if forall i :: 0 <= i < |run| ==> C.CountsOpen(Conns(run[i].after)) {
      forall i | 0 <= i < |run| ensures !LeavesSlot(n, run[i]) && !TakesBack(n, run[i]) {
        assert IsTurn(n, run[i]);
        assert C.CountsOpen(Conns(run[i].before)) by {
          assert i > 0 ==> C.CountsOpen(Conns(run[i - 1].after));
        }
        TurnCountsIff(n, run[i]);
      }
    }
  }

  // --- The IP values and the carried connections -------------------------------------------------

  /** One turn keeps every IP value at twice its carried connections plus a packet bit exactly when
      it leaves no slot behind. */
  lemma TurnWeighsIff(n: R.Node, t: Turn)
    requires n.config.conn.realtime && n.config.conn.ipLimit > 0 && IsTurn(n, t) && C.WeighsOpen(Conns(t.before))
    ensures C.WeighsOpen(Conns(t.after)) <==> !LeavesSlot(n, t)
  {
    var c := n.config.conn;
    match t.what
    case Disconnect(i) => C.WeightsKept(c, Conns(t.before), C.Disconnect(i));
    case Sweep(cutoff) => C.WeightsKept(c, Conns(t.before), C.Sweep(cutoff));
    case Step(st, _) =>
      if st.event.Connect? {
        ConnectTurn(n, t);
        var whole := C.Apply(c, Conns(t.before), AsConnect(st));
        C.WeightsKept(c, Conns(t.before), AsConnect(st));
        if LeavesSlot(n, t) {
          C.AddedOne(t.before.open, C.Conn(st.event.user, st.event.ip), st.event.user, st.event.ip);
          assert C.WeightOk(whole, st.event.user, st.event.ip);
          assert !C.WeightOk(Conns(t.after), st.event.user, st.event.ip);
        } else {
          assert Conns(t.after) == whole;
        }
      } else {
        OtherStepKeepsConns(n, t);
      }
  }

  lemma {:induction false} TablesCarried(n: R.Node, run: seq<Turn>, i: nat)
    requires IsRun(n, run) && i < |run|
    requires forall k :: 0 <= k <= i ==> !LeavesSlot(n, run[k]) && !TakesBack(n, run[k])
    ensures C.Inv(n.config.conn, Conns(run[i].after))
  {
    if i > 0 {
      TablesCarried(n, run, i - 1);
    }
    var t := run[i];
    assert IsTurn(n, t) && C.Inv(n.config.conn, Conns(t.before));
    match t.what
    case Disconnect(k) => C.InvKept(n.config.conn, Conns(t.before), C.Disconnect(k));
    case Sweep(cutoff) => C.InvKept(n.config.conn, Conns(t.before), C.Sweep(cutoff));
    case Step(st, _) =>
      if st.event.Connect? {
        ConnectTurn(n, t);
        assert Conns(t.after) == C.Apply(n.config.conn, Conns(t.before), AsConnect(st));
        C.InvKept(n.config.conn, Conns(t.before), AsConnect(st));
      } else {
        OtherStepKeepsConns(n, t);
      }
  }

  /** As long as neither happens, count and IP values of every user agree with the carried connections
      and stay within both limits. */
  lemma CarriedTablesAgree(n: R.Node, run: seq<Turn>, i: nat, user: M.User)
    requires n.config.conn.realtime && n.config.conn.connLimit > 0 && n.config.conn.ipLimit > 0
    requires IsRun(n, run) && i < |run|
    requires forall k :: 0 <= k <= i ==> !LeavesSlot(n, run[k]) && !TakesBack(n, run[k])
    ensures C.TablesAgree(n.config.conn, Conns(run[i].after), user)
  {
    TablesCarried(n, run, i);
    C.InvAgrees(n.config.conn, Conns(run[i].after), user);
  }

  // --- The lock-out ------------------------------------------------------------------------------

  // The user's count is at the limit, and no connection is carried that could give a slot back.
  ghost predicate Blocked(n: R.Node, l: Live, user: M.User) {
    && user in l.limiter.conns.count && l.limiter.conns.count[user] >= n.config.conn.connLimit > 0
    && forall k :: 0 <= k < |l.open| ==> l.open[k].user != user
  }

  lemma BlockedTurn(n: R.Node, t: Turn, user: M.User)
    requires IsTurn(n, t) && Blocked(n, t.before, user)
    ensures Blocked(n, t.after, user)
    ensures t.what.Step? && t.what.step.event.Connect? && t.what.step.event.user == user ==>
              t.what.step.verdict == Some(M.ConnRejected)
  {
    if t.what.Step? {
      if t.what.step.event.Connect? {
        RefusedLateIff(n, t.what.step);
      } else {
        OtherStepKeepsConns(n, t);
      }
    }
  }

  /** Slots left behind for a whole limit's worth lock the user out for good: over every run every
      later connection of the user, from any device, is rejected, whatever the panel does. */
  lemma {:induction false} LockedOutForGood(n: R.Node, run: seq<Turn>, i: nat, user: M.User)
    requires forall k :: 0 <= k < |run| ==> IsTurn(n, run[k])
    requires forall k :: 0 < k < |run| ==> run[k].before == run[k - 1].after
    requires i < |run| && Blocked(n, run[0].before, user)
    ensures Blocked(n, run[i].after, user)
    ensures run[i].what.Step? && run[i].what.step.event.Connect? && run[i].what.step.event.user == user ==>
              run[i].what.step.verdict == Some(M.ConnRejected)
  {
    if i > 0 {
      LockedOutForGood(n, run, i - 1, user);
    }
    BlockedTurn(n, run[i], user);
  }

  // A user with one connection and one device allowed, whose device "a" is in the window.
  function OneDevice(): M.State {
    M.State(C.Tables(map[], map[]), map["u" := L.UserLimitInfo(1, 0, 1, 0, 0, false)],
            M.Devices(map["u" := map["a" := 1]], map[]), map[1 := 1], M.Buckets(map[], 0))
  }

  /** A refused second device takes the one connection the user may have: the known device, which
      would have been accepted before, is rejected. */
  lemma RefusedDeviceLocksTheUserOut(c: M.Config)
    requires c == M.Config(C.Config(true, 0, 1), 0, 600)
    ensures var (s1, v1) := M.Check(c, OneDevice(), "u", "b", true, true, 0);
      && v1 == M.DeviceRejected && C.CountOf(s1.conns, "u") == 1
      && M.Check(c, OneDevice(), "u", "a", true, true, 0).1.Accepted?
      && M.Check(c, s1, "u", "a", true, true, 0).1 == M.ConnRejected
  {
  }
}
