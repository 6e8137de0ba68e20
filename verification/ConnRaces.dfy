/**
 The connection count of limiter/conn.go:20-45 and 114-154 with concurrent callers. The count is a
 sync.Map whose loads and stores are single operations, and nothing holds callers off between them:
 a call is a sequence of atomic steps with a program counter, and the steps of several calls
 interleave. What the IP table answers is left open. The limit is positive; with limit 0 no
 operation touches the count.
 */
module ConnRaces {
  import C = ConnLimiting

  type User = string

  datatype Gid = Gid(n: nat)

  datatype PC =
    | Check                                 // about to load the count against the limit
    | AddLoad                               // about to load the count to raise it
    | AddStore(seen: int)                   // with the count loaded, 0 when there is none
    | EnterIp                               // about to enter the IP table
    | Open                                  // an accepted TCP connection
    | DelLoad(counted: bool)                // about to load the count to lower it
    | DelStore(counted: bool, seen: int)    // `counted`: this call had raised the count

  datatype Call = Call(user: User, isTcp: bool, pc: PC)

  datatype State = State(count: map<User, int>, calls: map<Gid, Call>)

  const Init := State(map[], map[])

  datatype Event =
    | Begin(g: Gid, user: User, isTcp: bool)
    | Run(g: Gid)
    | IpAnswers(g: Gid, rejected: bool)
    | Close(g: Gid)

  predicate Enabled(s: State, e: Event) {
    match e
    case Begin(g, _, _) => g !in s.calls
    case Run(g) => g in s.calls && !s.calls[g].pc.EnterIp? && !s.calls[g].pc.Open?
    case IpAnswers(g, _) => g in s.calls && s.calls[g].pc.EnterIp?
    case Close(g) => g in s.calls && s.calls[g].pc.Open?
  }

  function At(s: State, g: Gid, pc: PC): State
    requires g in s.calls
  {
    State(s.count, s.calls[g := Call(s.calls[g].user, s.calls[g].isTcp, pc)])
  }

  function Gone(s: State, g: Gid): State { State(s.count, s.calls - {g}) }

  function Lowered(count: map<User, int>, u: User, seen: int): map<User, int> {
    if seen <= 1 then count - {u} else count[u := seen - 1]
  }

  // The next operation of the call.
  function RunStep(limit: int, s: State, g: Gid): State
    requires Enabled(s, Run(g))
  {
    var c := s.calls[g];
    match c.pc
    case Check =>
      if c.user in s.count && s.count[c.user] >= limit then Gone(s, g)
      else if c.isTcp then At(s, g, AddLoad)
      else At(s, g, EnterIp)
    case AddLoad => At(s, g, AddStore(C.CountIn(s.count, c.user)))
    case AddStore(seen) => At(State(s.count[c.user := seen + 1], s.calls), g, EnterIp)
    case DelLoad(counted) =>
      if c.user !in s.count then Gone(s, g) else At(s, g, DelStore(counted, s.count[c.user]))
    case DelStore(_, seen) => Gone(State(Lowered(s.count, c.user, seen), s.calls), g)
  }

  function Apply(limit: int, s: State, e: Event): State
    requires Enabled(s, e)
  {
    match e
    case Begin(g, user, isTcp) => State(s.count, s.calls[g := Call(user, isTcp, Check)])
    case Run(g) => RunStep(limit, s, g)
    case IpAnswers(g, rejected) =>
      if rejected then At(s, g, DelLoad(s.calls[g].isTcp))
      else if s.calls[g].isTcp then At(s, g, Open)
      else Gone(s, g)
    case Close(g) => At(s, g, DelLoad(true))
  }

  predicate IsRun(limit: int, s: State, es: seq<Event>)
    decreases |es|
  {
    es == [] || (Enabled(s, es[0]) && IsRun(limit, Apply(limit, s, es[0]), es[1..]))
  }

  function After(limit: int, s: State, es: seq<Event>): State
    requires IsRun(limit, s, es)
    decreases |es|
  {
    if es == [] then s else After(limit, Apply(limit, s, es[0]), es[1..])
  }

  // --- The count and the calls that raised it ------------------------------------------------------

  // The call has raised the count and not lowered it yet.
  predicate Holds(c: Call) {
    c.isTcp && (c.pc.EnterIp? || c.pc.Open? || (c.pc.DelLoad? && c.pc.counted) || (c.pc.DelStore? && c.pc.counted))
  }

  function Holders(calls: map<Gid, Call>, u: User): set<Gid> {
    set g | g in calls && calls[g].user == u && Holds(calls[g])
  }

  function Tally(s: State, u: User): nat { |Holders(s.calls, u)| }

  ghost predicate Right(s: State) { forall u :: C.CountIn(s.count, u) == Tally(s, u) }

  // Counts are stored positive, and loaded so.
  predicate GoodCall(c: Call) {
    && (c.pc.AddStore? ==> c.isTcp && c.pc.seen >= 0)
    && (c.pc.AddLoad? || c.pc.Open? ==> c.isTcp)
    && (c.pc.DelLoad? ==> c.pc.counted == c.isTcp)
    && (c.pc.DelStore? ==> c.pc.counted == c.isTcp && c.pc.seen >= 1)
  }

  ghost predicate Good(s: State) {
    && (forall u :: u in s.count ==> s.count[u] >= 1)
    && (forall g :: g in s.calls ==> GoodCall(s.calls[g]))
  }

  lemma GoodKept(limit: int, s: State, e: Event)
    requires Good(s) && Enabled(s, e)
    ensures Good(Apply(limit, s, e))
  {
  }

  function HoldOf(calls: map<Gid, Call>, g: Gid, u: User): nat {
    C.One(g in calls && calls[g].user == u && Holds(calls[g]))
  }

  lemma HoldersWithout(calls: map<Gid, Call>, g: Gid, u: User)
    ensures |Holders(calls, u)| == |Holders(calls - {g}, u)| + HoldOf(calls, g, u)
  {
    var rest := Holders(calls - {g}, u);
    if HoldOf(calls, g, u) == 1 {
      assert Holders(calls, u) == rest + {g};
    } else {
      assert Holders(calls, u) == rest;
    }
  }

  // Only what happens to one call can change the tally.
  lemma TallyMoves(a: map<Gid, Call>, b: map<Gid, Call>, g: Gid, u: User)
    requires a - {g} == b - {g}
    ensures |Holders(b, u)| == |Holders(a, u)| - HoldOf(a, g, u) + HoldOf(b, g, u)
  {
    HoldersWithout(a, g, u);
    HoldersWithout(b, g, u);
  }

  // The store does not add or take exactly what the call owns: it is based on a load that another
  // store has overtaken, or it takes back what a packet connection never added.
  predicate Misses(s: State, e: Event) {
    e.Run? && e.g in s.calls &&
    var c := s.calls[e.g];
    match c.pc
    case AddStore(seen) => seen != C.CountIn(s.count, c.user)
    case DelStore(counted, seen) => (if counted then seen else seen - 1) != C.CountIn(s.count, c.user)
    case _ => false
  }

  lemma OthersKeep(limit: int, s: State, e: Event)
    requires Enabled(s, e)
    ensures Apply(limit, s, e).calls - {e.g} == s.calls - {e.g}
    ensures forall u :: C.CountIn(Apply(limit, s, e).count, u) != C.CountIn(s.count, u) ==>
              e.Run? && u == s.calls[e.g].user
  {
  }

  /** One step of any call keeps every count equal to the number of calls that raised it exactly when
      it is not such a store. */
  lemma StepRightIff(limit: int, s: State, e: Event)
    requires Good(s) && Right(s) && Enabled(s, e)
    ensures Right(Apply(limit, s, e)) <==> !Misses(s, e)
  {
    var s' := Apply(limit, s, e);
    OthersKeep(limit, s, e);
    forall u ensures Tally(s', u) == Tally(s, u) - HoldOf(s.calls, e.g, u) + HoldOf(s'.calls, e.g, u) {
      TallyMoves(s.calls, s'.calls, e.g, u);
    }
    if e.g in s.calls {
      var u := s.calls[e.g].user;
      HoldersWithout(s.calls, e.g, u);
      StepOnItsUser(limit, s, e);
      assert C.CountIn(s.count, u) == Tally(s, u);
      if Misses(s, e) {
        assert C.CountIn(s'.count, u) != Tally(s', u);
      }
    }
  }

  lemma StepOnItsUser(limit: int, s: State, e: Event)
    requires Good(s) && Enabled(s, e) && e.g in s.calls
    requires HoldOf(s.calls, e.g, s.calls[e.g].user) <= C.CountIn(s.count, s.calls[e.g].user)
    ensures var s', u := Apply(limit, s, e), s.calls[e.g].user;
      C.CountIn(s'.count, u) == C.CountIn(s.count, u) - HoldOf(s.calls, e.g, u) + HoldOf(s'.calls, e.g, u) <==> !Misses(s, e)
    ensures var s', u := Apply(limit, s, e), s.calls[e.g].user;
      forall v :: v != u ==> HoldOf(s.calls, e.g, v) == HoldOf(s'.calls, e.g, v) == 0
  {
    assert GoodCall(s.calls[e.g]);
  }

  ghost predicate AlwaysRight(limit: int, s: State, es: seq<Event>)
    requires IsRun(limit, s, es)
    decreases |es|
  {
    Right(s) && (es == [] || AlwaysRight(limit, Apply(limit, s, es[0]), es[1..]))
  }

  predicate NeverMisses(limit: int, s: State, es: seq<Event>)
    requires IsRun(limit, s, es)
    decreases |es|
  {
    es == [] || (!Misses(s, es[0]) && NeverMisses(limit, Apply(limit, s, es[0]), es[1..]))
  }

  lemma {:induction false} RightIff(limit: int, s: State, es: seq<Event>)
    requires Good(s) && Right(s) && IsRun(limit, s, es)
    ensures AlwaysRight(limit, s, es) <==> NeverMisses(limit, s, es)
    decreases |es|
  {
    if es != [] {
      GoodKept(limit, s, es[0]);
      StepRightIff(limit, s, es[0]);
      if Right(Apply(limit, s, es[0])) {
        RightIff(limit, Apply(limit, s, es[0]), es[1..]);
      }
    }
  }

  /** In every interleaving the counts are right throughout if and only if no store is overtaken and no
      packet connection takes back what it never added. */
  lemma CountsAreRightIff(limit: int, es: seq<Event>)
    requires IsRun(limit, Init, es)
    ensures AlwaysRight(limit, Init, es) <==> NeverMisses(limit, Init, es)
  {
    assert forall u :: Holders(map[], u) == {};
    RightIff(limit, Init, es);
  }

  // --- The limit ----------------------------------------------------------------------------------------

  ghost predicate Within(limit: int, s: State) { forall u :: u in s.count ==> s.count[u] <= limit }

  // The call raises a count that had reached the limit when it was loaded: another call was admitted
  // after this one was checked.
  predicate Overshoots(limit: int, s: State, e: Event) {
    e.Run? && e.g in s.calls && s.calls[e.g].pc.AddStore? && s.calls[e.g].pc.seen >= limit
  }

  // A count that was loaded within the limit.
  ghost predicate LoadedWithin(limit: int, s: State) {
    forall g :: g in s.calls && s.calls[g].pc.DelStore? ==> s.calls[g].pc.seen <= limit
  }

  lemma StepWithinIff(limit: int, s: State, e: Event)
    requires limit > 0 && Enabled(s, e) && Within(limit, s) && LoadedWithin(limit, s)
    ensures Within(limit, Apply(limit, s, e)) <==> !Overshoots(limit, s, e)
    ensures !Overshoots(limit, s, e) ==> LoadedWithin(limit, Apply(limit, s, e))
  {
    if Overshoots(limit, s, e) {
      assert Apply(limit, s, e).count[s.calls[e.g].user] > limit;
    }
  }

  ghost predicate AlwaysWithin(limit: int, s: State, es: seq<Event>)
    requires IsRun(limit, s, es)
    decreases |es|
  {
    Within(limit, s) && (es == [] || AlwaysWithin(limit, Apply(limit, s, es[0]), es[1..]))
  }

  predicate NeverOvershoots(limit: int, s: State, es: seq<Event>)
    requires IsRun(limit, s, es)
    decreases |es|
  {
    es == [] || (!Overshoots(limit, s, es[0]) && NeverOvershoots(limit, Apply(limit, s, es[0]), es[1..]))
  }

  lemma {:induction false} WithinIff(limit: int, s: State, es: seq<Event>)
    requires limit > 0 && IsRun(limit, s, es) && Within(limit, s) && LoadedWithin(limit, s)
    ensures AlwaysWithin(limit, s, es) <==> NeverOvershoots(limit, s, es)
    decreases |es|
  {
    if es != [] {
      StepWithinIff(limit, s, es[0]);
      if !Overshoots(limit, s, es[0]) {
        WithinIff(limit, Apply(limit, s, es[0]), es[1..]);
      }
    }
  }

  /** In every interleaving no count ever exceeds the limit if and only if no call raises a count that
      reached the limit between its check and its load. */
  lemma CountsStayWithinIff(limit: int, es: seq<Event>)
    requires limit > 0 && IsRun(limit, Init, es)
    ensures AlwaysWithin(limit, Init, es) <==> NeverOvershoots(limit, Init, es)
  {
    WithinIff(limit, Init, es);
  }

  // --- The connections ----------------------------------------------------------------------------------

  // What the limit is for: no user holds more than `limit` counted connections.
  ghost predicate Fits(limit: int, s: State) { forall u :: Tally(s, u) <= limit }

  // The call raises the count of a user who already holds as many connections as allowed.
  predicate Crowds(limit: int, s: State, e: Event) {
    e.Run? && e.g in s.calls && s.calls[e.g].pc.AddStore? && Tally(s, s.calls[e.g].user) >= limit
  }

  lemma HoldMoves(limit: int, s: State, e: Event, u: User)
    requires Good(s) && Enabled(s, e)
    ensures var raises := e.Run? && s.calls[e.g].pc.AddStore? && s.calls[e.g].user == u;
      if raises then HoldOf(s.calls, e.g, u) == 0 && HoldOf(Apply(limit, s, e).calls, e.g, u) == 1
      else HoldOf(Apply(limit, s, e).calls, e.g, u) <= HoldOf(s.calls, e.g, u)
  {
    if e.g in s.calls {
      assert GoodCall(s.calls[e.g]);
    }
  }

  /** One step of any call keeps every user within the limit exactly when it is not such a store. */
  lemma StepFitsIff(limit: int, s: State, e: Event)
    requires Good(s) && Fits(limit, s) && Enabled(s, e)
    ensures Fits(limit, Apply(limit, s, e)) <==> !Crowds(limit, s, e)
  {
    var s' := Apply(limit, s, e);
    OthersKeep(limit, s, e);
    forall u ensures Tally(s', u) == Tally(s, u) - HoldOf(s.calls, e.g, u) + HoldOf(s'.calls, e.g, u) {
      TallyMoves(s.calls, s'.calls, e.g, u);
    }
    forall u ensures Tally(s', u) <= Tally(s, u) + C.One(e.Run? && s.calls[e.g].pc.AddStore? && s.calls[e.g].user == u) {
      HoldMoves(limit, s, e, u);
    }
    if Crowds(limit, s, e) {
      HoldMoves(limit, s, e, s.calls[e.g].user);
      assert Tally(s', s.calls[e.g].user) > limit;
    }
  }

  ghost predicate AlwaysFits(limit: int, s: State, es: seq<Event>)
    requires IsRun(limit, s, es)
    decreases |es|
  {
    Fits(limit, s) && (es == [] || AlwaysFits(limit, Apply(limit, s, es[0]), es[1..]))
  }

  predicate NeverCrowds(limit: int, s: State, es: seq<Event>)
    requires IsRun(limit, s, es)
    decreases |es|
  {
    es == [] || (!Crowds(limit, s, es[0]) && NeverCrowds(limit, Apply(limit, s, es[0]), es[1..]))
  }

  lemma {:induction false} FitsIff(limit: int, s: State, es: seq<Event>)
    requires Good(s) && Fits(limit, s) && IsRun(limit, s, es)
    ensures AlwaysFits(limit, s, es) <==> NeverCrowds(limit, s, es)
    decreases |es|
  {
    if es != [] {
      GoodKept(limit, s, es[0]);
      StepFitsIff(limit, s, es[0]);
      if !Crowds(limit, s, es[0]) {
        FitsIff(limit, Apply(limit, s, es[0]), es[1..]);
      }
    }
  }

  /** In every interleaving no user ever holds more connections than allowed if and only if no call
      raises the count of a user who already holds that many, whatever the stored number says. */
  lemma ConnectionsFitIff(limit: int, es: seq<Event>)
    requires limit >= 0 && IsRun(limit, Init, es)
    ensures AlwaysFits(limit, Init, es) <==> NeverCrowds(limit, Init, es)
  {
    assert forall u :: Holders(map[], u) == {};
    FitsIff(limit, Init, es);
  }

  lemma {:induction false} RightAndWithinFits(limit: int, s: State, es: seq<Event>)
    requires limit >= 0 && IsRun(limit, s, es) && AlwaysRight(limit, s, es) && AlwaysWithin(limit, s, es)
    ensures AlwaysFits(limit, s, es)
    decreases |es|
  {
    forall u ensures Tally(s, u) <= limit {
      assert C.CountIn(s.count, u) == Tally(s, u);
    }
    if es != [] {
      RightAndWithinFits(limit, Apply(limit, s, es[0]), es[1..]);
    }
  }

  /** A count that is never wrong and never above the limit does its job. */
  lemma RightCountsLimitTheConnections(limit: int, es: seq<Event>)
    requires limit > 0 && IsRun(limit, Init, es)
    requires NeverMisses(limit, Init, es) && NeverOvershoots(limit, Init, es)
    ensures AlwaysFits(limit, Init, es)
  {
    CountsAreRightIff(limit, es);
    CountsStayWithinIff(limit, es);
    RightAndWithinFits(limit, Init, es);
  }

  // --- Serialised calls -------------------------------------------------------------------------------------

  // Between the first and the last operation on the count.
  predicate Busy(c: Call) { c.pc.Check? || c.pc.AddLoad? || c.pc.AddStore? || c.pc.DelLoad? || c.pc.DelStore? }

  // While a call is busy only that call moves.
  ghost predicate Undisturbed(s: State, e: Event) {
    forall g :: g in s.calls && Busy(s.calls[g]) ==> e.g == g
  }

  // The IP table rejects no packet connection.
  predicate NoPacketRejected(s: State, e: Event) {
    e.IpAnswers? && e.rejected && e.g in s.calls ==> s.calls[e.g].isTcp
  }

  ghost predicate Serial(limit: int, s: State, es: seq<Event>)
    requires IsRun(limit, s, es)
    decreases |es|
  {
    es == [] || (Undisturbed(s, es[0]) && NoPacketRejected(s, es[0]) &&
                 Serial(limit, Apply(limit, s, es[0]), es[1..]))
  }

  // What a busy call has loaded is still there, and it was admitted below the limit.
  predicate Current(limit: int, s: State, c: Call) {
    match c.pc
    case AddLoad => C.CountIn(s.count, c.user) < limit
    case AddStore(seen) => seen == C.CountIn(s.count, c.user) < limit
    case DelLoad(counted) => counted
    case DelStore(counted, seen) => counted && seen == C.CountIn(s.count, c.user)
    case _ => true
  }

  ghost predicate AllCurrent(limit: int, s: State) {
    && Good(s)
    && (forall g :: g in s.calls ==> Current(limit, s, s.calls[g]))
    && (forall g, k :: g in s.calls && k in s.calls && Busy(s.calls[g]) && Busy(s.calls[k]) ==> g == k)
  }

  lemma CurrentKept(limit: int, s: State, e: Event)
    requires limit > 0 && AllCurrent(limit, s) && Enabled(s, e) && Undisturbed(s, e) && NoPacketRejected(s, e)
    ensures AllCurrent(limit, Apply(limit, s, e)) && !Misses(s, e) && !Overshoots(limit, s, e)
  {
    GoodKept(limit, s, e);
    if e.g in s.calls {
      assert GoodCall(s.calls[e.g]) && Current(limit, s, s.calls[e.g]);
    }
    var s' := Apply(limit, s, e);
    forall g | g in s'.calls && g != e.g ensures !Busy(s'.calls[g]) {
      assert g in s.calls && s'.calls[g] == s.calls[g];
    }
  }

  lemma {:induction false} SerialFrom(limit: int, s: State, es: seq<Event>)
    requires limit > 0 && IsRun(limit, s, es) && AllCurrent(limit, s) && Serial(limit, s, es)
    ensures NeverMisses(limit, s, es) && NeverOvershoots(limit, s, es)
    decreases |es|
  {
    if es != [] {
      CurrentKept(limit, s, es[0]);
      SerialFrom(limit, Apply(limit, s, es[0]), es[1..]);
    }
  }

  /** When calls are not interrupted while they work on the count, and the IP table rejects no packet
      connection, the counts are right throughout, and no user holds more connections than allowed. */
  lemma SerialCallsCountRight(limit: int, es: seq<Event>)
    requires limit > 0 && IsRun(limit, Init, es) && Serial(limit, Init, es)
    ensures AlwaysRight(limit, Init, es) && AlwaysWithin(limit, Init, es) && AlwaysFits(limit, Init, es)
  {
    assert AllCurrent(limit, Init);
    SerialFrom(limit, Init, es);
    CountsAreRightIff(limit, es);
    CountsStayWithinIff(limit, es);
    RightCountsLimitTheConnections(limit, es);
  }

  /** An uninterrupted call raises the count as the whole call does, and lowers it so. */
  lemma CallIsTheWholeCall(limit: int, s: State, g: Gid, user: User, ip: map<C.User, map<C.Ip, C.Entry>>)
    requires limit > 0 && g !in s.calls && !(user in s.count && s.count[user] >= limit)
    requires forall u :: u in s.count ==> s.count[u] >= 1
    ensures var c := C.Config(true, 0, limit);
            var s1 := Apply(limit, s, Begin(g, user, true));
            var s2 := RunStep(limit, RunStep(limit, RunStep(limit, s1, g), g), g);
            var s3 := Apply(limit, At(s2, g, Open), Close(g));
      && s2.count == C.Counted(c, C.Tables(s.count, ip), user, true).count
      && RunStep(limit, RunStep(limit, s3, g), g).count == C.Released(c, C.Tables(s2.count, ip), user).count
  {
  }

  // --- Two interleavings ------------------------------------------------------------------------------------

  function Raised(n: int): map<User, int> { map["u" := n] }

  // Two calls of one user at the given points.
  function Two(count: map<User, int>, a: PC, b: PC): State {
    State(count, map[Gid(1) := Call("u", true, a), Gid(2) := Call("u", true, b)])
  }

  lemma {:induction false} Extend(limit: int, s: State, es: seq<Event>, e: Event)
    requires IsRun(limit, s, es) && Enabled(After(limit, s, es), e)
    ensures IsRun(limit, s, es + [e]) && After(limit, s, es + [e]) == Apply(limit, After(limit, s, es), e)
    ensures NeverOvershoots(limit, s, es + [e]) <==>
            NeverOvershoots(limit, s, es) && !Overshoots(limit, After(limit, s, es), e)
    decreases |es|
  {
    if es == [] {
      assert [] + [e] == [e] && [e][1..] == [];
    } else {
      assert (es + [e])[1..] == es[1..] + [e];
      Extend(limit, Apply(limit, s, es[0]), es[1..], e);
    }
  }

  // Both calls are checked before either raises the count.
  const BothChecked: seq<Event> :=
    [] + [Begin(Gid(1), "u", true)] + [Begin(Gid(2), "u", true)] + [Run(Gid(1))] + [Run(Gid(2))]

  lemma BothAreAdmitted(limit: int)
    requires limit > 0
    ensures IsRun(limit, Init, BothChecked) && After(limit, Init, BothChecked) == Two(map[], AddLoad, AddLoad)
    ensures NeverOvershoots(limit, Init, BothChecked)
  {
    var e1 := [] + [Begin(Gid(1), "u", true)];
    var e2 := e1 + [Begin(Gid(2), "u", true)];
    Extend(limit, Init, [], Begin(Gid(1), "u", true));
    Extend(limit, Init, e1, Begin(Gid(2), "u", true));
    assert After(limit, Init, e2) == Two(map[], Check, Check);
    Extend(limit, Init, e2, Run(Gid(1)));
    assert After(limit, Init, e2 + [Run(Gid(1))]) == Two(map[], AddLoad, Check);
    Extend(limit, Init, e2 + [Run(Gid(1))], Run(Gid(2)));
  }

  /** With one connection allowed two are admitted, without any overtaken store. */
  lemma BothPassTheLimit(es: seq<Event>)
    requires es == BothChecked + [Run(Gid(1))] + [Run(Gid(1))] + [Run(Gid(2))] + [Run(Gid(2))]
    ensures IsRun(1, Init, es) && After(1, Init, es) == Two(Raised(2), EnterIp, EnterIp)
  {
    BothAreAdmitted(1);
    var e5 := BothChecked + [Run(Gid(1))];
    Extend(1, Init, BothChecked, Run(Gid(1)));
    assert After(1, Init, e5) == Two(map[], AddStore(0), AddLoad);
    Extend(1, Init, e5, Run(Gid(1)));
    assert After(1, Init, e5 + [Run(Gid(1))]) == Two(Raised(1), EnterIp, AddLoad);
    Extend(1, Init, e5 + [Run(Gid(1))], Run(Gid(2)));
    assert After(1, Init, e5 + [Run(Gid(1))] + [Run(Gid(2))]) == Two(Raised(1), EnterIp, AddStore(1));
    Extend(1, Init, e5 + [Run(Gid(1))] + [Run(Gid(2))], Run(Gid(2)));
  }

  /** Two calls load the same count, and one of the two connections is never counted. With one
      connection allowed both are in, although no store goes above the limit. */
  lemma IncrementIsLost(limit: int, es: seq<Event>)
    requires limit > 0
    requires es == BothChecked + [Run(Gid(1))] + [Run(Gid(2))] + [Run(Gid(1))] + [Run(Gid(2))]
    ensures IsRun(limit, Init, es) && NeverOvershoots(limit, Init, es)
    ensures C.CountIn(After(limit, Init, es).count, "u") == 1 && Tally(After(limit, Init, es), "u") == 2
  {
    BothAreAdmitted(limit);
    var e5 := BothChecked + [Run(Gid(1))];
    Extend(limit, Init, BothChecked, Run(Gid(1)));
    assert After(limit, Init, e5) == Two(map[], AddStore(0), AddLoad);
    Extend(limit, Init, e5, Run(Gid(2)));
    assert After(limit, Init, e5 + [Run(Gid(2))]) == Two(map[], AddStore(0), AddStore(0));
    Extend(limit, Init, e5 + [Run(Gid(2))], Run(Gid(1)));
    assert After(limit, Init, e5 + [Run(Gid(2))] + [Run(Gid(1))]) == Two(Raised(1), EnterIp, AddStore(0));
    Extend(limit, Init, e5 + [Run(Gid(2))] + [Run(Gid(1))], Run(Gid(2)));
    assert After(limit, Init, es) == Two(Raised(1), EnterIp, EnterIp);
    assert Holders(After(limit, Init, es).calls, "u") == {Gid(1), Gid(2)};
  }
}
