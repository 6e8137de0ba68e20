/**
 Whole runs of the admission check (limiter/limiter.go, limiter/dynamic.go): connections, window
 rotations, sweeps, user updates, dynamic limits and new alive lists in any order.
 */
module LimiterRuns {
  import opened Wrappers
  import opened Limiters
  import L = LimitRecord
  import C = ConnLimiting

  datatype Event =
    | Connect(user: User, ip: Ip, isTcp: bool, noSSUDP: bool)
    | Rotate
    | SweepOld
    | AddDynamic(info: UserInfo, limit: int, expire: int)
    | UpdateUsers(added: seq<UserInfo>, deleted: seq<UserInfo>)
    | SetAlive(alive: map<int, int>)
    | FlagOverLimit(user: User, over: bool)
    | ConnsChange(conns: C.Tables)  // disconnections and sweeps of the connection tables

  datatype Step = Step(now: Time, event: Event, before: State, after: State, verdict: Option<Verdict>)

  datatype Node = Node(config: Config, tag: string)

  ghost predicate IsStep(n: Node, st: Step) {
    match st.event
    case Connect(user, ip, isTcp, noSSUDP) =>
      st.verdict.Some? &&
      (st.after, st.verdict.value) == Check(n.config, st.before, user, ip, isTcp, noSSUDP, st.now)
    case Rotate =>
      && st.verdict.None? && Rotated(st.before.devices, st.after.devices, st.now)
      && st.after == st.before.(devices := st.after.devices)
    case SweepOld =>
      st.verdict.None? &&
      st.after == st.before.(devices := SweptOld(st.before.devices, n.config.oldOnlineTTL, st.now))
    case AddDynamic(info, limit, expire) =>
      st.verdict.None? && st.after == WithDynamic(st.before, n.tag, info, limit, expire)
    case UpdateUsers(added, deleted) =>
      st.verdict.None? && st.after == Updated(st.before, n.tag, added, deleted)
    case SetAlive(alive) => st.verdict.None? && st.after == st.before.(alive := alive)
    case FlagOverLimit(user, over) =>
      st.verdict.None? &&
      st.after == st.before.(limits := WithRecord(st.before.limits, user,
        if user in st.before.limits then Some(L.Mutate(L.SetOverLimit(over), st.before.limits[user])) else None))
    case ConnsChange(conns) => st.verdict.None? && st.after == st.before.(conns := conns)
  }

  ghost predicate IsRun(n: Node, run: seq<Step>) {
    && (forall i :: 0 <= i < |run| ==> IsStep(n, run[i]))
    && (forall i, j :: 0 <= i < j < |run| ==> run[i].now <= run[j].now)
    && (forall i :: 0 < i < |run| ==> run[i].before == run[i - 1].after)
  }

  // --- The device limit -------------------------------------------------------------------------

  // The limiter knows the device: it is in the user's window, or the window is new and the address
  // is remembered from the one before.
  predicate Known(d: Devices, user: User, ip: Ip, ttl: int, now: Time) {
    if user in d.online then ip in d.online[user]
    else ip in d.past && !Forgotten(d.past[ip], ttl, now)
  }

  /** Past the connection limits, a known user is refused exactly when the device is not known and
      the panel already counts as many devices as the user may have. */
  lemma DeviceRejectedIff(c: Config, s: State, user: User, ip: Ip, isTcp: bool, noSSUDP: bool, now: Time)
    requires !C.AddTo(c.conn, s.conns, user, ip, isTcp, now).1 && user in s.limits
    ensures Check(c, s, user, ip, isTcp, noSSUDP, now).1.DeviceRejected? <==>
            && noSSUDP && !Known(s.devices, user, ip, c.oldOnlineTTL, now)
            && 0 < s.limits[user].deviceLimit <= AliveOf(s.alive, s.limits[user].uid)
  {
  }

  /** An address remembered for longer than the window's memory is as good as unknown: a user without a
      window who is over the limit is refused from it. A sweep drops exactly those addresses. */
  lemma OldAddressIsForgotten(c: Config, s: State, user: User, ip: Ip, isTcp: bool, now: Time)
    requires !C.AddTo(c.conn, s.conns, user, ip, isTcp, now).1 && user in s.limits
    requires 0 < s.limits[user].deviceLimit <= AliveOf(s.alive, s.limits[user].uid)
    requires user !in s.devices.online && ip in s.devices.past && now - s.devices.past[ip].seenAt > c.oldOnlineTTL
    ensures Check(c, s, user, ip, isTcp, true, now).1 == DeviceRejected
    ensures var swept := SweptOld(s.devices, c.oldOnlineTTL, now);
      && swept.online == s.devices.online
      && forall a :: Lookup(swept.past, a) ==
           if a in s.devices.past && now - s.devices.past[a].seenAt <= c.oldOnlineTTL then Some(s.devices.past[a])
           else None
  {
  }

  /** What a check that passes the connection limits leaves of the records: all of them, unless the
      user's dynamic limit has expired; then that is dropped, and the record with it when the user has
      no limit of the panel's. */
  lemma CheckLeavesTheRecords(c: Config, s: State, user: User, ip: Ip, isTcp: bool, noSSUDP: bool, now: Time)
    requires !C.AddTo(c.conn, s.conns, user, ip, isTcp, now).1 && user in s.limits
    ensures var l := Check(c, s, user, ip, isTcp, noSSUDP, now).0.limits; var u := s.limits[user];
      && (forall v :: v != user ==> Lookup(l, v) == Lookup(s.limits, v))
      && if u.expireTime == 0 || now / SECOND <= u.expireTime then Lookup(l, user) == Some(u)
         else if u.speedLimit == 0 then user !in l
         else user in l && L.SameIdentity(l[user], u) && l[user].overLimit == u.overLimit
              && l[user].dynamicSpeedLimit == 0 && l[user].expireTime == 0
  {
  }

  /** A dynamic limit goes into the user's record and changes nothing else of it; a user without one
      gets a record with that limit alone. The cached bucket is dropped; other users keep theirs. */
  lemma DynamicLimitIsRecorded(s: State, tag: string, u: UserInfo, limit: int, expire: int)
    ensures var s' := WithDynamic(s, tag, u, limit, expire); var key := UserTag(tag, u.uuid);
      && key in s'.limits && s'.limits[key].dynamicSpeedLimit == limit && s'.limits[key].expireTime == expire
      && (if key in s.limits then
            L.SameIdentity(s'.limits[key], s.limits[key]) && s'.limits[key].overLimit == s.limits[key].overLimit
          else
            && s'.limits[key].uid == u.id && !s'.limits[key].overLimit
            && s'.limits[key].speedLimit == 0 && s'.limits[key].deviceLimit == 0)
      && key !in s'.buckets.cache
      && (forall v :: v != key ==> Lookup(s'.limits, v) == Lookup(s.limits, v))
      && (forall v :: v != key ==> Lookup(s'.buckets.cache, v) == Lookup(s.buckets.cache, v))
      && s'.conns == s.conns && s'.devices == s.devices && s'.alive == s.alive
  {
  }

  lemma RefusedDeviceIsNotEntered(d: Devices, user: User, ip: Ip, uid: int, over: bool, ttl: int, now: Time)
    ensures var (d', full) := CheckDevice(d, user, ip, uid, over, ttl, now);
      && d'.online - {user} == d.online - {user}
      && if full then d'.online == d.online else SeenFrom(d', user, ip)
  {
  }

  /** Whatever the reason of a refusal, the window, the alive list and the speed buckets stay as
      they were; an admitted device is in the window and the windows of other users stay. */
  lemma RefusalLeavesTheWindow(c: Config, s: State, user: User, ip: Ip, isTcp: bool, noSSUDP: bool, now: Time)
    ensures var (s', v) := Check(c, s, user, ip, isTcp, noSSUDP, now);
      && s'.alive == s.alive && s'.devices.online - {user} == s.devices.online - {user}
      && (v.Accepted? && noSSUDP ==> SeenFrom(s'.devices, user, ip))
      && (!v.Accepted? || !noSSUDP ==> s'.devices.online == s.devices.online)
      && (!v.Accepted? ==> s'.buckets == s.buckets)
  {
    if user in s.limits {
      var u := s.limits[user];
      var over := OverDeviceLimit(u.deviceLimit, AliveOf(s.alive, u.uid));
      RefusedDeviceIsNotEntered(s.devices, user, ip, u.uid, over, c.oldOnlineTTL, now);
    }
  }

  // `user` connects from `ip` only, nobody else does, and the user is not removed.
  ghost predicate OwnAddress(n: Node, run: seq<Step>, user: User, ip: Ip) {
    forall i :: 0 <= i < |run| ==> StepKeepsAddress(n, run[i].event, user, ip)
  }

  predicate StepKeepsAddress(n: Node, e: Event, user: User, ip: Ip) {
    && (e.Connect? ==> (e.user == user <==> e.ip == ip))
    && (e.UpdateUsers? ==> forall u :: u in e.deleted ==> UserTag(n.tag, u.uuid) != user)
  }

  // When the last rotation before step i found the user online.
  function LastRecorded(run: seq<Step>, user: User, i: nat): Option<Time>
    requires i <= |run|
  {
    if i == 0 then None
    else if run[i - 1].event.Rotate? && user in run[i - 1].before.devices.online then Some(run[i - 1].now)
    else LastRecorded(run, user, i - 1)
  }

  ghost predicate OnlyFrom(d: Devices, user: User, ip: Ip) {
    && (user in d.online ==> d.online[user].Keys == {ip})
    && (forall v :: v in d.online && v != user ==> ip !in d.online[v])
  }

  // The user is online from the address, or the address is remembered since `recorded`, or too much
  // time passed since then.
  ghost predicate Held(d: Devices, user: User, ip: Ip, ttl: int, recorded: Option<Time>, clock: Time) {
    && OnlyFrom(d, user, ip)
    && (user !in d.online ==>
          recorded.Some? && (clock - recorded.value > ttl ||
                             (ip in d.past && d.past[ip].seenAt == recorded.value)))
  }

  lemma WithoutUsersKeepsDevice(s: State, tag: string, deleted: seq<UserInfo>, user: User, ip: Ip)
    requires OnlyFrom(s.devices, user, ip) && forall u :: u in deleted ==> UserTag(tag, u.uuid) != user
    ensures var d := WithoutUsers(s, tag, deleted).devices;
      OnlyFrom(d, user, ip) && d.past == s.devices.past && (user in d.online <==> user in s.devices.online)
    decreases |deleted|
  {
    if deleted != [] {
      assert deleted[0] in deleted;
      WithoutUsersKeepsDevice(WithoutUser(s, tag, deleted[0]), tag, deleted[1..], user, ip);
    }
  }

  lemma WithUsersKeepsTheRest(s: State, tag: string, added: seq<UserInfo>)
    ensures WithUsers(s, tag, added) == s.(limits := WithUsers(s, tag, added).limits)
    decreases |added|
  {
    if added != [] {
      WithUsersKeepsTheRest(WithUser(s, tag, added[0]), tag, added[1..]);
    }
  }

  lemma RotationHolds(d: Devices, d': Devices, user: User, ip: Ip, now: Time)
    requires OnlyFrom(d, user, ip) && Rotated(d, d', now) && ip != ""
    ensures user in d.online ==> ip in d'.past && d'.past[ip].seenAt == now
    ensures user !in d.online ==> Lookup(d'.past, ip) == Lookup(d.past, ip)
  {
    assert EntryAfter(d, AllSeen(d), ip, now, Lookup(d'.past, ip));
    if user in d.online {
      assert ip in d.online[user];
      assert (user, ip) in AllSeen(d);
    } else {
      forall u ensures (u, ip) !in AllSeen(d) {
      }
    }
  }

  lemma CheckUsesTheDevice(c: Config, s: State, user: User, ip: Ip, isTcp: bool, noSSUDP: bool, now: Time)
    ensures var (s', v) := Check(c, s, user, ip, isTcp, noSSUDP, now);
      s'.devices != s.devices || v.DeviceRejected? ==>
        && user in s.limits
        && (s'.devices, v.DeviceRejected?) ==
           CheckDevice(s.devices, user, ip, s.limits[user].uid,
             OverDeviceLimit(s.limits[user].deviceLimit, AliveOf(s.alive, s.limits[user].uid)), c.oldOnlineTTL, now)
    ensures var (s', v) := Check(c, s, user, ip, isTcp, noSSUDP, now);
      && (s'.devices != s.devices ==> noSSUDP && (v.Accepted? || v.DeviceRejected?))
      && (noSSUDP && v.Accepted? ==>
            && user in s.limits
            && (s'.devices, false) ==
               CheckDevice(s.devices, user, ip, s.limits[user].uid,
                 OverDeviceLimit(s.limits[user].deviceLimit, AliveOf(s.alive, s.limits[user].uid)), c.oldOnlineTTL, now))
  {
  }

  lemma DeviceHolds(d: Devices, user: User, ip: Ip, ttl: int, recorded: Option<Time>, clock: Time,
                    u: User, i: Ip, uid: int, over: bool, now: Time)
    requires Held(d, user, ip, ttl, recorded, clock) && clock <= now && (u == user <==> i == ip)
    ensures var (d', full) := CheckDevice(d, u, i, uid, over, ttl, now);
      && Held(d', user, ip, ttl, recorded, now)
      && (u == user && full ==> recorded.Some? && now - recorded.value > ttl)
  {
  }

  lemma StepHolds(n: Node, st: Step, user: User, ip: Ip, recorded: Option<Time>, clock: Time)
    requires IsStep(n, st) && StepKeepsAddress(n, st.event, user, ip) && clock <= st.now && ip != ""
    requires Held(st.before.devices, user, ip, n.config.oldOnlineTTL, recorded, clock)
    ensures var recorded' := if st.event.Rotate? && user in st.before.devices.online then Some(st.now) else recorded;
      Held(st.after.devices, user, ip, n.config.oldOnlineTTL, recorded', st.now)
    ensures st.event.Connect? && st.event.user == user && st.verdict == Some(DeviceRejected) ==>
              recorded.Some? && st.now - recorded.value > n.config.oldOnlineTTL
  {
    var ttl := n.config.oldOnlineTTL;
    match st.event
    case Connect(u, i, isTcp, noSSUDP) =>
      if st.before.devices != st.after.devices || st.verdict == Some(DeviceRejected) {
        CheckUsesTheDevice(n.config, st.before, u, i, isTcp, noSSUDP, st.now);
        var l := st.before.limits[u];
        var over := OverDeviceLimit(l.deviceLimit, AliveOf(st.before.alive, l.uid));
        DeviceHolds(st.before.devices, user, ip, ttl, recorded, clock, u, i, l.uid, over, st.now);
      }
    case Rotate => RotationHolds(st.before.devices, st.after.devices, user, ip, st.now);
    case UpdateUsers(added, deleted) =>
      WithoutUsersKeepsDevice(st.before, n.tag, deleted, user, ip);
      WithUsersKeepsTheRest(WithoutUsers(st.before, n.tag, deleted), n.tag, added);
    case _ =>
  }

  // The step admits the device to the user's window.
  predicate Enters(st: Step, user: User, ip: Ip) {
    Serves(st, user) && st.event.ip == ip && st.event.noSSUDP
  }

  lemma {:induction false} RunHolds(n: Node, run: seq<Step>, user: User, ip: Ip, i: nat)
    requires IsRun(n, run) && OwnAddress(n, run, user, ip) && ip != "" && 0 < i <= |run|
    requires OnlyFrom(run[0].before.devices, user, ip)
    requires Enters(run[0], user, ip)
    ensures Held(run[i - 1].after.devices, user, ip, n.config.oldOnlineTTL, LastRecorded(run, user, i), run[i - 1].now)
  {
    if i == 1 {
      assert IsStep(n, run[0]);
    } else {
      RunHolds(n, run, user, ip, i - 1);
      StepHolds(n, run[i - 1], user, ip, LastRecorded(run, user, i - 1), run[i - 2].now);
    }
  }

  /** Once accepted from the one address the user has and nobody shares, a user is never refused for
      the device on a reconnection made no later than the window's memory after the last rotation
      that recorded the address, across any rotations, sweeps, alive lists and connections of other
      users. */
  lemma ReconnectionIsAccepted(n: Node, run: seq<Step>, user: User, ip: Ip, i: nat)
    requires IsRun(n, run) && OwnAddress(n, run, user, ip) && ip != "" && 0 < i < |run|
    requires OnlyFrom(run[0].before.devices, user, ip)
    requires Enters(run[0], user, ip)
    requires run[i].event.Connect? && run[i].event.user == user
    requires var at := LastRecorded(run, user, i); at.None? || run[i].now - at.value <= n.config.oldOnlineTTL
    ensures run[i].verdict != Some(DeviceRejected)
  {
    RunHolds(n, run, user, ip, i);
    StepHolds(n, run[i], user, ip, LastRecorded(run, user, i), run[i - 1].now);
  }

  // --- Exactly which reconnections are refused ------------------------------------------------

  // The rotation remembers the address.
  ghost predicate Records(st: Step, ip: Ip) {
    st.event.Rotate? && ip != "" && exists u :: (u, ip) in AllSeen(st.before.devices)
  }

  // A user whose window is new is admitted from the address and has the uid it is remembered for.
  predicate UsesUp(st: Step, ip: Ip, uid: int) {
    && st.event.Connect? && st.event.noSSUDP && st.event.ip == ip
    && st.verdict.Some? && st.verdict.value.Accepted?
    && st.event.user !in st.before.devices.online
    && st.event.user in st.before.limits && st.before.limits[st.event.user].uid == uid
  }

  lemma {:induction false} WithoutUsersKeepsPast(s: State, tag: string, deleted: seq<UserInfo>)
    ensures WithoutUsers(s, tag, deleted).devices.past == s.devices.past
    decreases |deleted|
  {
    if deleted != [] {
      WithoutUsersKeepsPast(WithoutUser(s, tag, deleted[0]), tag, deleted[1..]);
    }
  }

  lemma CheckedMemory(d: Devices, u: User, i: Ip, uid: int, over: bool, ttl: int, now: Time, ip: Ip, e: OldEntry)
    requires now - e.seenAt <= ttl && (Lookup(d.past, ip) == Some(e) || Lookup(d.past, ip) == None)
    ensures var (d', full) := CheckDevice(d, u, i, uid, over, ttl, now);
      && Lookup(d'.past, ip) == (if u !in d.online && i == ip && uid == e.uid then None else Lookup(d.past, ip))
      && (Lookup(d.past, ip) == Some(e) && u !in d.online && i == ip ==> !full)
  {
  }

  // While it is young enough, an address stays remembered until it is used up.
  lemma MemoryStep(n: Node, st: Step, ip: Ip, e: OldEntry)
    requires IsStep(n, st) && !Records(st, ip) && ip != "" && st.now - e.seenAt <= n.config.oldOnlineTTL
    requires Lookup(st.before.devices.past, ip) == Some(e) || Lookup(st.before.devices.past, ip) == None
    ensures Lookup(st.after.devices.past, ip) ==
            if UsesUp(st, ip, e.uid) then None else Lookup(st.before.devices.past, ip)
  {
    match st.event
    case Connect(u, i, isTcp, noSSUDP) =>
      CheckUsesTheDevice(n.config, st.before, u, i, isTcp, noSSUDP, st.now);
      if u in st.before.limits {
        var l := st.before.limits[u];
        var over := OverDeviceLimit(l.deviceLimit, AliveOf(st.before.alive, l.uid));
        CheckedMemory(st.before.devices, u, i, l.uid, over, n.config.oldOnlineTTL, st.now, ip, e);
      }
    case Rotate =>
      assert EntryAfter(st.before.devices, AllSeen(st.before.devices), ip, st.now, Lookup(st.after.devices.past, ip));
    case UpdateUsers(added, deleted) =>
      WithoutUsersKeepsPast(st.before, n.tag, deleted);
      WithUsersKeepsTheRest(WithoutUsers(st.before, n.tag, deleted), n.tag, added);
    case _ =>
  }

  lemma RecordedEntry(n: Node, st: Step, ip: Ip)
    requires IsStep(n, st) && Records(st, ip)
    ensures ip in st.after.devices.past && st.after.devices.past[ip].seenAt == st.now
  {
    assert EntryAfter(st.before.devices, AllSeen(st.before.devices), ip, st.now, Lookup(st.after.devices.past, ip));
  }

  // Rotation r is the last one before step j that recorded the address.
  ghost predicate LastRecords(run: seq<Step>, r: nat, j: nat, ip: Ip) {
    r < j < |run| && Records(run[r], ip) && forall k :: r < k < j ==> !Records(run[k], ip)
  }

  ghost predicate UsedUp(run: seq<Step>, r: nat, j: nat, ip: Ip)
    requires r < j < |run| && ip in run[r].after.devices.past
  {
    exists k :: r < k < j && UsesUp(run[k], ip, run[r].after.devices.past[ip].uid)
  }

  // What MemoryStep says of a step.
  ghost predicate KeepsUnlessUsed(st: Step, ip: Ip, e: OldEntry) {
    Lookup(st.before.devices.past, ip) in {Some(e), None} ==>
      Lookup(st.after.devices.past, ip) == if UsesUp(st, ip, e.uid) then None else Lookup(st.before.devices.past, ip)
  }

  lemma {:induction false} KeptUntilUsed(run: seq<Step>, r: nat, j: nat, ip: Ip, e: OldEntry)
    requires r < j < |run| && Lookup(run[r].after.devices.past, ip) == Some(e)
    requires forall k :: 0 < k < |run| ==> run[k].before == run[k - 1].after
    requires forall k :: r < k < j ==> KeepsUnlessUsed(run[k], ip, e)
    ensures Lookup(run[j].before.devices.past, ip) == if UsedUp(run, r, j, ip) then None else Some(e)
  {
    if r + 1 < j {
      KeptUntilUsed(run, r, j - 1, ip, e);
      assert KeepsUnlessUsed(run[j - 1], ip, e);
      assert UsedUp(run, r, j, ip) <==> UsedUp(run, r, j - 1, ip) || UsesUp(run[j - 1], ip, e.uid);
    }
  }

  lemma MemoryLasts(n: Node, run: seq<Step>, r: nat, j: nat, ip: Ip)
    requires IsRun(n, run) && LastRecords(run, r, j, ip) && run[j].now - run[r].now <= n.config.oldOnlineTTL
    ensures ip in run[r].after.devices.past
    ensures Lookup(run[j].before.devices.past, ip) ==
            if UsedUp(run, r, j, ip) then None else Some(run[r].after.devices.past[ip])
    ensures run[r].after.devices.past[ip].seenAt == run[r].now
  {
    RecordedEntry(n, run[r], ip);
    var e := run[r].after.devices.past[ip];
    forall k | r < k < j ensures KeepsUnlessUsed(run[k], ip, e) {
      assert run[k].now <= run[j].now;
      if Lookup(run[k].before.devices.past, ip) in {Some(e), None} {
        MemoryStep(n, run[k], ip, e);
      }
    }
    KeptUntilUsed(run, r, j, ip, e);
  }

  /** Over every run: a known user who reconnects, past the connection limits, from an address a
      rotation recorded no longer than the window's memory ago is refused exactly when the panel
      counts as many devices as allowed and, if the user has a window, it lacks the address, and if
      not, somebody used the remembered address up since that rotation. */
  lemma ReconnectionRefusedIff(n: Node, run: seq<Step>, r: nat, i: nat, user: User, ip: Ip, isTcp: bool)
    requires IsRun(n, run) && LastRecords(run, r, i, ip) && run[i].now - run[r].now <= n.config.oldOnlineTTL
    requires run[i].event == Connect(user, ip, isTcp, true)
    requires run[i].verdict != Some(ConnRejected) && user in run[i].before.limits
    ensures ip in run[r].after.devices.past
    ensures run[i].verdict == Some(DeviceRejected) <==>
            && 0 < run[i].before.limits[user].deviceLimit <=
                 AliveOf(run[i].before.alive, run[i].before.limits[user].uid)
            && (if user in run[i].before.devices.online then ip !in run[i].before.devices.online[user]
                else UsedUp(run, r, i, ip))
  {
    MemoryLasts(n, run, r, i, ip);
    DeviceRejectedIff(n.config, run[i].before, user, ip, isTcp, true, run[i].now);
  }

  /** An address used up by another user: when the rotation remembers a shared address for the other
      user, that user's reconnection uses it up and the first user is refused at once. */
  lemma SharedAddressIsRefused(u: User, v: User, ip: Ip, ttl: int, now: Time)
    requires u != v && ip != "" && ttl >= 0
    ensures var d1 := CheckDevice(Devices(map[], map[]), u, ip, 1, false, ttl, now).0;
            var d2 := CheckDevice(d1, v, ip, 2, false, ttl, now).0;
            var d3 := Devices(map[], map[ip := OldEntry(2, now)]);
            var (d4, refused) := CheckDevice(d3, v, ip, 2, true, ttl, now);
      Rotated(d2, d3, now) && !refused && CheckDevice(d4, u, ip, 1, true, ttl, now).1
  {
    var d2 := Devices(map[u := map[ip := 1], v := map[ip := 2]], map[]);
    var d3 := Devices(map[], map[ip := OldEntry(2, now)]);
    assert (v, ip) in AllSeen(d2);
    forall i ensures EntryAfter(d2, AllSeen(d2), i, now, Lookup(d3.past, i)) {
      if i != ip {
        assert forall w :: (w, i) !in AllSeen(d2);
      }
    }
  }

  /** An own address missing from the window: a user with two addresses nobody shares reconnects from
      the first and is admitted, and is refused from the second although it is still remembered. */
  lemma SecondOwnAddressIsRefused(u: User, a: Ip, b: Ip, ttl: int, now: Time)
    requires a != b && a != "" && b != "" && ttl >= 0
    ensures var d1 := CheckDevice(Devices(map[], map[]), u, a, 1, false, ttl, now).0;
            var d2 := CheckDevice(d1, u, b, 1, false, ttl, now).0;
            var d3 := Devices(map[], map[a := OldEntry(1, now), b := OldEntry(1, now)]);
            var (d4, refused) := CheckDevice(d3, u, a, 1, true, ttl, now);
      && Rotated(d2, d3, now) && !refused
      && b in d4.past && !Forgotten(d4.past[b], ttl, now) && CheckDevice(d4, u, b, 1, true, ttl, now).1
  {
    var d2 := Devices(map[u := map[a := 1, b := 1]], map[]);
    var d3 := Devices(map[], map[a := OldEntry(1, now), b := OldEntry(1, now)]);
    assert CheckDevice(CheckDevice(Devices(map[], map[]), u, a, 1, false, ttl, now).0, u, b, 1, false, ttl, now).0 == d2;
    assert (u, a) in AllSeen(d2) && (u, b) in AllSeen(d2);
    forall i ensures EntryAfter(d2, AllSeen(d2), i, now, Lookup(d3.past, i)) {
      if i != a && i != b {
        assert forall w :: (w, i) !in AllSeen(d2);
      }
    }
  }

  // --- The speed limit and its buckets --------------------------------------------------------

  function LimitsInForce(c: Config, u: L.UserLimitInfo, now: Time): seq<int> {
    if DynamicExpired(u, now) then [c.speedLimit, u.speedLimit] else [c.speedLimit, u.speedLimit, u.dynamicSpeedLimit]
  }

  // The limit a check uses, in bytes per second.
  function RateFor(c: Config, s: State, user: User, now: Time): int
    requires user in s.limits
  {
    Rate(DetermineSpeedLimit(c.speedLimit, UserLimit(s.limits[user], now)))
  }

  /** An accepted connection has no bucket exactly when no limit in force is set, and otherwise one
      whose rate is the smallest set limit, at 125000 bytes per second for each unit. */
  lemma BucketRateIsTheTightestLimit(
      c: Config, s: State, user: User, ip: Ip, isTcp: bool, noSSUDP: bool, now: Time, limit: int)
    requires Check(c, s, user, ip, isTcp, noSSUDP, now).1.Accepted?
    requires user in s.limits && IsTightest(limit, LimitsInForce(c, s.limits[user], now))
    requires c.speedLimit >= 0 && s.limits[user].speedLimit >= 0 && s.limits[user].dynamicSpeedLimit >= 0
    ensures var (s', v) := Check(c, s, user, ip, isTcp, noSSUDP, now);
      && (v.bucket.None? <==> limit == 0)
      && (v.bucket.Some? ==> Lookup(s'.buckets.cache, user) == Some(SpeedBucket(limit * 125000, v.bucket.value)))
  {
    var u := s.limits[user];
    var l := LimitsInForce(c, u, now);
    TighterIsAMonoid(c.speedLimit, u.speedLimit, if DynamicExpired(u, now) then 0 else u.dynamicSpeedLimit);
    assert l[0] == c.speedLimit && l[1] == u.speedLimit;
    assert !DynamicExpired(u, now) ==> l[2] == u.dynamicSpeedLimit;
    assert limit == DetermineSpeedLimit(c.speedLimit, UserLimit(u, now));
  }

  predicate DropsBucket(n: Node, e: Event, user: User) {
    || (e.AddDynamic? && UserTag(n.tag, e.info.uuid) == user)
    || (e.UpdateUsers? && exists u :: u in e.deleted && UserTag(n.tag, u.uuid) == user)
  }

  predicate Serves(st: Step, user: User) {
    st.event.Connect? && st.event.user == user && st.verdict.Some? && st.verdict.value.Accepted?
  }

  predicate ServesBucket(st: Step, user: User) { Serves(st, user) && st.verdict.value.bucket.Some? }

  lemma WithoutUsersBuckets(s: State, tag: string, deleted: seq<UserInfo>, user: User)
    ensures var b := WithoutUsers(s, tag, deleted).buckets;
      && b.nextBucket == s.buckets.nextBucket
      && Lookup(b.cache, user) == if exists u :: u in deleted && UserTag(tag, u.uuid) == user then None
                                  else Lookup(s.buckets.cache, user)
    decreases |deleted|
  {
    if deleted != [] {
      assert forall u :: u in deleted <==> u == deleted[0] || u in deleted[1..];
      WithoutUsersBuckets(WithoutUser(s, tag, deleted[0]), tag, deleted[1..], user);
    }
  }

  lemma CheckTakesTheBucket(c: Config, s: State, user: User, ip: Ip, isTcp: bool, noSSUDP: bool, now: Time)
    ensures var (s', v) := Check(c, s, user, ip, isTcp, noSSUDP, now);
      if v.Accepted? then
        user in s.limits && (s'.buckets, v.bucket) == TakeBucket(s.buckets, user, RateFor(c, s, user, now))
      else s'.buckets == s.buckets
  {
  }

  // Apart from an accepted connection of the user, a step keeps the user's bucket or drops it.
  lemma OtherBucketStep(n: Node, st: Step, user: User)
    requires IsStep(n, st) && !st.event.Connect?
    ensures KeepsOrDrops(n, st, user) && st.after.buckets.nextBucket == st.before.buckets.nextBucket
  {
    if st.event.UpdateUsers? {
      WithoutUsersBuckets(st.before, n.tag, st.event.deleted, user);
      WithUsersKeepsTheRest(WithoutUsers(st.before, n.tag, st.event.deleted), n.tag, st.event.added);
    }
  }

  /** What one step does to the cached bucket of a user. */
  lemma BucketStep(n: Node, st: Step, user: User)
    requires IsStep(n, st)
    ensures BucketMoves(n, st, user)
  {
    if st.event.Connect? {
      CheckTakesTheBucket(
        n.config, st.before, st.event.user, st.event.ip, st.event.isTcp, st.event.noSSUDP, st.now);
    } else {
      OtherBucketStep(n, st, user);
    }
  }

  ghost predicate BucketMoves(n: Node, st: Step, user: User) {
    && st.before.buckets.nextBucket <= st.after.buckets.nextBucket
    && (!Serves(st, user) ==> KeepsOrDrops(n, st, user))
    && (ServesBucket(st, user) ==>
          user in st.before.limits && ServedFrom(st, user, RateFor(n.config, st.before, user, st.now)))
    && (Serves(st, user) && !ServesBucket(st, user) ==> user !in st.after.buckets.cache)
  }

  // What a run does to the bucket of one user.
  ghost predicate BucketRun(n: Node, run: seq<Step>, user: User) {
    && (forall i :: 0 < i < |run| ==> run[i].before == run[i - 1].after)
    && (forall i :: 0 <= i < |run| ==> BucketMoves(n, run[i], user))
  }

  lemma RunMovesBuckets(n: Node, run: seq<Step>, user: User)
    requires IsRun(n, run)
    ensures BucketRun(n, run, user)
  {
    forall i | 0 <= i < |run| ensures BucketMoves(n, run[i], user) {
      BucketStep(n, run[i], user);
    }
  }

  // The bucket served is the cached one if that has the rate, and otherwise a new one.
  ghost predicate ServedFrom(st: Step, user: User, rate: int)
    requires ServesBucket(st, user)
  {
    var b, b', served := st.before.buckets, st.after.buckets, st.verdict.value.bucket.value;
    && Lookup(b'.cache, user) == Some(SpeedBucket(rate, served))
    && if user in b.cache && b.cache[user].limit == rate then served == b.cache[user].bucket && b' == b
       else served == b.nextBucket && b'.nextBucket == b.nextBucket + 1
  }

  // A step that does not serve the user keeps the cached bucket or drops it.
  ghost predicate KeepsOrDrops(n: Node, st: Step, user: User) {
    Lookup(st.after.buckets.cache, user) ==
    if DropsBucket(n, st.event, user) then None else Lookup(st.before.buckets.cache, user)
  }

  // Step k of the run made the bucket for the user.
  ghost predicate MadeAt(run: seq<Step>, k: nat, user: User, bucket: BucketId) {
    && k < |run| && ServesBucket(run[k], user)
    && bucket == run[k].before.buckets.nextBucket
    && run[k].after.buckets.nextBucket == bucket + 1
  }

  lemma {:induction false} NextBucketGrows(n: Node, run: seq<Step>, i: nat, j: nat, user: User)
    requires BucketRun(n, run, user) && i < j < |run|
    ensures run[i].after.buckets.nextBucket <= run[j].before.buckets.nextBucket
    decreases j - i
  {
    if i + 1 < j {
      NextBucketGrows(n, run, i + 1, j, user);
      assert BucketMoves(n, run[i + 1], user);
    }
  }

  // Every cached bucket was made for its user by an earlier step of the run.
  ghost predicate CacheIsMade(run: seq<Step>, i: nat, user: User)
    requires i < |run|
  {
    var cache := run[i].before.buckets.cache;
    user in cache ==> exists k :: 0 <= k < i && MadeAt(run, k, user, cache[user].bucket)
  }

  lemma MadeOrKept(n: Node, st: Step, user: User)
    requires BucketMoves(n, st, user) && user in st.after.buckets.cache
    ensures var made := st.after.buckets.cache[user].bucket;
      || (user in st.before.buckets.cache && st.before.buckets.cache[user].bucket == made)
      || (ServesBucket(st, user) && made == st.before.buckets.nextBucket && st.after.buckets.nextBucket == made + 1)
  {
  }

  lemma {:induction false} CachedBucketsAreMade(n: Node, run: seq<Step>, i: nat, user: User)
    requires BucketRun(n, run, user) && i < |run| && run[0].before.buckets == Buckets(map[], 0)
    ensures CacheIsMade(run, i, user)
  {
    if i > 0 {
      CachedBucketsAreMade(n, run, i - 1, user);
      var cache := run[i].before.buckets.cache;
      assert BucketMoves(n, run[i - 1], user);
      if user in cache {
        MadeOrKept(n, run[i - 1], user);
        if !MadeAt(run, i - 1, user, cache[user].bucket) {
          assert cache[user].bucket == run[i - 1].before.buckets.cache[user].bucket;
        }
      }
    }
  }

  lemma ServedBucketIsMade(n: Node, run: seq<Step>, i: nat, user: User) returns (k: nat)
    requires BucketRun(n, run, user) && i < |run| && run[0].before.buckets == Buckets(map[], 0)
    requires ServesBucket(run[i], user)
    ensures k <= i && MadeAt(run, k, user, run[i].verdict.value.bucket.value)
  {
    var served := run[i].verdict.value.bucket.value;
    CachedBucketsAreMade(n, run, i, user);
    assert BucketMoves(n, run[i], user);
    if MadeAt(run, i, user, served) {
      k := i;
    } else {
      var j :| 0 <= j < i && MadeAt(run, j, user, served);
      k := j;
    }
  }

  /** No two users are ever served the same bucket. */
  lemma BucketsAreNotShared(n: Node, run: seq<Step>, i: nat, j: nat, u: User, v: User)
    requires IsRun(n, run) && i < |run| && j < |run| && run[0].before.buckets == Buckets(map[], 0)
    requires ServesBucket(run[i], u) && ServesBucket(run[j], v) && u != v
    ensures run[i].verdict.value.bucket != run[j].verdict.value.bucket
  {
    RunMovesBuckets(n, run, u);
    RunMovesBuckets(n, run, v);
    MadeApart(n, run, i, j, u, v);
  }

  lemma MadeApart(n: Node, run: seq<Step>, i: nat, j: nat, u: User, v: User)
    requires BucketRun(n, run, u) && BucketRun(n, run, v)
    requires i < |run| && j < |run| && run[0].before.buckets == Buckets(map[], 0)
    requires ServesBucket(run[i], u) && ServesBucket(run[j], v) && u != v
    ensures run[i].verdict.value.bucket != run[j].verdict.value.bucket
  {
    var k := ServedBucketIsMade(n, run, i, u);
    var m := ServedBucketIsMade(n, run, j, v);
    if k < m {
      NextBucketGrows(n, run, k, m, u);
    } else if m < k {
      NextBucketGrows(n, run, m, k, u);
    }
  }

  ghost predicate DroppedBetween(n: Node, run: seq<Step>, i: nat, j: nat, user: User)
    requires j <= |run|
  {
    exists k :: i < k < j && DropsBucket(n, run[k].event, user)
  }

  lemma {:induction false} CachedSince(n: Node, run: seq<Step>, i: nat, j: nat, user: User, made: SpeedBucket)
    requires i < j < |run| && Lookup(run[i].after.buckets.cache, user) == Some(made)
    requires forall k :: 0 < k < |run| ==> run[k].before == run[k - 1].after
    requires forall k :: i < k < j ==> KeepsOrDrops(n, run[k], user)
    ensures Lookup(run[j].before.buckets.cache, user) ==
            if DroppedBetween(n, run, i, j, user) then None else Some(made)
  {
    if i + 1 < j {
      CachedSince(n, run, i, j - 1, user, made);
      assert KeepsOrDrops(n, run[j - 1], user);
      assert DroppedBetween(n, run, i, j, user) <==>
             DroppedBetween(n, run, i, j - 1, user) || DropsBucket(n, run[j - 1].event, user);
    }
  }

  /** A user's next accepted connection reuses the bucket of the one before exactly when the rate is
      unchanged and neither a dynamic limit nor a removal of the user came in between. */
  lemma BucketIsReusedIff(n: Node, run: seq<Step>, i: nat, j: nat, user: User)
    requires IsRun(n, run) && i < j < |run| && run[0].before.buckets == Buckets(map[], 0)
    requires ServesBucket(run[i], user) && ServesBucket(run[j], user)
    requires forall k :: i < k < j ==> !Serves(run[k], user)
    ensures user in run[i].before.limits && user in run[j].before.limits
    ensures run[i].verdict.value.bucket == run[j].verdict.value.bucket <==>
            && RateFor(n.config, run[i].before, user, run[i].now) == RateFor(n.config, run[j].before, user, run[j].now)
            && !DroppedBetween(n, run, i, j, user)
  {
    RunMovesBuckets(n, run, user);
    ReusedIff(n, run, i, j, user);
  }

  lemma ReusedIff(n: Node, run: seq<Step>, i: nat, j: nat, user: User)
    requires BucketRun(n, run, user) && i < j < |run| && run[0].before.buckets == Buckets(map[], 0)
    requires ServesBucket(run[i], user) && ServesBucket(run[j], user)
    requires forall k :: i < k < j ==> !Serves(run[k], user)
    ensures user in run[i].before.limits && user in run[j].before.limits
    ensures run[i].verdict.value.bucket == run[j].verdict.value.bucket <==>
            && RateFor(n.config, run[i].before, user, run[i].now) == RateFor(n.config, run[j].before, user, run[j].now)
            && !DroppedBetween(n, run, i, j, user)
  {
    assert BucketMoves(n, run[i], user) && BucketMoves(n, run[j], user);
    forall k | i < k < j ensures KeepsOrDrops(n, run[k], user) {
      assert BucketMoves(n, run[k], user);
    }
    CachedSince(n, run, i, j, user,
      SpeedBucket(RateFor(n.config, run[i].before, user, run[i].now), run[i].verdict.value.bucket.value));
    var k := ServedBucketIsMade(n, run, i, user);
    NextBucketGrows(n, run, k, j, user);
  }

  // --- A dynamic limit is served until it expires ----------------------------------------------

  // The step gives the user another dynamic limit or another record.
  ghost predicate ChangesRecord(n: Node, e: Event, user: User) {
    || (e.AddDynamic? && UserTag(n.tag, e.info.uuid) == user)
    || (e.UpdateUsers? && exists u :: (u in e.added || u in e.deleted) && UserTag(n.tag, u.uuid) == user)
  }

  // The record holds the dynamic limit, or the limit has expired and a check took it away.
  predicate HoldsDynamic(record: Option<L.UserLimitInfo>, speedLimit: int, limit: int, expire: int, now: Time) {
    || (record.Some? && record.value.speedLimit == speedLimit
        && record.value.dynamicSpeedLimit == limit && record.value.expireTime == expire)
    || (expire != 0 && expire < Unix(now)
        && (record.Some? ==> record.value.speedLimit == speedLimit
                             && record.value.dynamicSpeedLimit == 0 && record.value.expireTime == 0))
  }

  lemma {:induction false} OthersKeepRecords(s: State, tag: string, users: seq<UserInfo>, user: User)
    requires forall u :: u in users ==> UserTag(tag, u.uuid) != user
    ensures Lookup(WithUsers(s, tag, users).limits, user) == Lookup(s.limits, user)
    ensures Lookup(WithoutUsers(s, tag, users).limits, user) == Lookup(s.limits, user)
    decreases |users|
  {
    if users != [] {
      assert users[0] in users;
      OthersKeepRecords(WithUser(s, tag, users[0]), tag, users[1..], user);
      OthersKeepRecords(WithoutUser(s, tag, users[0]), tag, users[1..], user);
    }
  }

  lemma UpdateKeepsRecord(s: State, tag: string, added: seq<UserInfo>, deleted: seq<UserInfo>, user: User)
    requires forall u :: u in added || u in deleted ==> UserTag(tag, u.uuid) != user
    ensures Lookup(Updated(s, tag, added, deleted).limits, user) == Lookup(s.limits, user)
  {
    OthersKeepRecords(s, tag, deleted, user);
    OthersKeepRecords(WithoutUsers(s, tag, deleted), tag, added, user);
  }

  lemma StepHoldsDynamic(n: Node, st: Step, user: User, speedLimit: int, limit: int, expire: int)
    requires IsStep(n, st) && !ChangesRecord(n, st.event, user)
    requires HoldsDynamic(Lookup(st.before.limits, user), speedLimit, limit, expire, st.now)
    ensures HoldsDynamic(Lookup(st.after.limits, user), speedLimit, limit, expire, st.now)
  {
    match st.event
    case UpdateUsers(added, deleted) => UpdateKeepsRecord(st.before, n.tag, added, deleted, user);
    case _ =>
  }

  lemma {:induction false} DynamicIsHeld(n: Node, run: seq<Step>, i: nat, j: nat, user: User, limit: int, expire: int)
    requires IsRun(n, run) && i < j < |run| && SetsDynamic(n, run[i], user, limit, expire)
    requires forall k :: i < k < j ==> !ChangesRecord(n, run[k].event, user)
    ensures HoldsDynamic(Lookup(run[j].before.limits, user), StaticLimit(run[i].before, user), limit, expire, run[j].now)
  {
    if i + 1 < j {
      DynamicIsHeld(n, run, i, j - 1, user, limit, expire);
      StepHoldsDynamic(n, run[j - 1], user, StaticLimit(run[i].before, user), limit, expire);
    }
    assert Unix(run[j - 1].now) <= Unix(run[j].now);
    assert run[j].before == run[j - 1].after && IsStep(n, run[i]);
  }

  predicate SetsDynamic(n: Node, st: Step, user: User, limit: int, expire: int) {
    && st.event.AddDynamic? && UserTag(n.tag, st.event.info.uuid) == user
    && st.event.limit == limit && st.event.expire == expire
  }

  function StaticLimit(s: State, user: User): int { if user in s.limits then s.limits[user].speedLimit else 0 }

  /** Over every run: once a dynamic limit was set for a user, and as long as neither another one is set
      nor the panel changes the user, a connection of the user is served at the smallest of the limits
      of the node, of the panel and that one while it has not expired, and without it afterwards. */
  lemma DynamicLimitIsServed(
      n: Node, run: seq<Step>, i: nat, j: nat, user: User, limit: int, expire: int, tightest: int)
    requires IsRun(n, run) && i < j < |run| && SetsDynamic(n, run[i], user, limit, expire)
    requires forall k :: i < k < j ==> !ChangesRecord(n, run[k].event, user)
    requires Serves(run[j], user)
    requires n.config.speedLimit >= 0 && StaticLimit(run[i].before, user) >= 0 && limit >= 0
    requires var inForce := [n.config.speedLimit, StaticLimit(run[i].before, user)];
      IsTightest(tightest, if expire == 0 || run[j].now / SECOND <= expire then inForce + [limit] else inForce)
    ensures var bucket := run[j].verdict.value.bucket;
      && (bucket.None? <==> tightest == 0)
      && (bucket.Some? ==> Lookup(run[j].after.buckets.cache, user) == Some(SpeedBucket(tightest * 125000, bucket.value)))
  {
    DynamicIsHeld(n, run, i, j, user, limit, expire);
    ServedAtTheTightest(n, run[j], user, StaticLimit(run[i].before, user), limit, expire, tightest);
  }

  lemma ServedAtTheTightest(
      n: Node, st: Step, user: User, speedLimit: int, limit: int, expire: int, tightest: int)
    requires IsStep(n, st) && Serves(st, user)
    requires HoldsDynamic(Lookup(st.before.limits, user), speedLimit, limit, expire, st.now)
    requires n.config.speedLimit >= 0 && speedLimit >= 0 && limit >= 0
    requires var inForce := [n.config.speedLimit, speedLimit];
      IsTightest(tightest, if expire == 0 || st.now / SECOND <= expire then inForce + [limit] else inForce)
    ensures var bucket := st.verdict.value.bucket;
      && (bucket.None? <==> tightest == 0)
      && (bucket.Some? ==> Lookup(st.after.buckets.cache, user) == Some(SpeedBucket(tightest * 125000, bucket.value)))
  {
    var u := st.before.limits[user];
    SameTightest(n.config.speedLimit, speedLimit, limit, tightest, expire == 0 || st.now / SECOND <= expire);
    TightestOfRecord(n.config, u, st.now, tightest,
      speedLimit, if expire == 0 || st.now / SECOND <= expire then limit else 0);
    BucketRateIsTheTightestLimit(
      n.config, st.before, user, st.event.ip, st.event.isTcp, st.event.noSSUDP, st.now, tightest);
  }

  // A limit that is not set can be left out.
  lemma SameTightest(a: int, b: int, c: int, tightest: int, inForce: bool)
    requires IsTightest(tightest, if inForce then [a, b] + [c] else [a, b])
    ensures IsTightest(tightest, [a, b, if inForce then c else 0])
  {
    var l, l' := if inForce then [a, b] + [c] else [a, b], [a, b, if inForce then c else 0];
    assert l[0] == a == l'[0] && l[1] == b == l'[1];
    assert inForce ==> l[2] == c == l'[2];
  }

  lemma TightestOfRecord(c: Config, u: L.UserLimitInfo, now: Time, tightest: int, speedLimit: int, limit: int)
    requires IsTightest(tightest, [c.speedLimit, speedLimit, limit]) && u.speedLimit == speedLimit
    requires limit == if DynamicExpired(u, now) then 0 else u.dynamicSpeedLimit
    ensures IsTightest(tightest, LimitsInForce(c, u, now))
  {
    var l, l' := [c.speedLimit, speedLimit, limit], LimitsInForce(c, u, now);
    assert l[0] == l'[0] && l[1] == l'[1];
    assert !DynamicExpired(u, now) ==> l[2] == l'[2];
  }
}
