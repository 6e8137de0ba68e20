/**
 The incremental user update (node/user.go:295-320, node/task.go:339-392): the list pulled from
 the panel is compared with the one in use, and only the differences go to the core
 (core/hy2/user.go) and to the limiter (limiter/limiter.go:84-156).
 */
module UserSync {
  import opened Wrappers
  import opened Decimal
  import L = LimitRecord
  import M = Limiters
  import C = ConnLimiting
  import R = LimiterRuns
  type UserInfo = M.UserInfo

  // --- The comparison key -----------------------------------------------------------------------

  function CompareKey(u: UserInfo): string {
    Dec(u.id) + "|" + u.uuid + "|" + Dec(u.speedLimit) + "|" + Dec(u.deviceLimit)
  }

  /** Two users with one comparison key are the same user, even when uuids contain the separator:
      the numbers around the uuid cannot. */
  lemma CompareKeyInjective(u: UserInfo, v: UserInfo)
    requires CompareKey(u) == CompareKey(v)
    ensures u == v
  {
    assert "|" == ['|'];
    var a, b := Dec(u.id) + "|" + u.uuid + "|" + Dec(u.speedLimit), Dec(v.id) + "|" + v.uuid + "|" + Dec(v.speedLimit);
    SplitAtLast('|', a, Dec(u.deviceLimit), b, Dec(v.deviceLimit));
    SplitAtLast('|', Dec(u.id) + "|" + u.uuid, Dec(u.speedLimit), Dec(v.id) + "|" + v.uuid, Dec(v.speedLimit));
    SplitAtFirst('|', Dec(u.id), u.uuid, Dec(v.id), v.uuid);
    DecInjective(u.id, v.id);
    DecInjective(u.speedLimit, v.speedLimit);
    DecInjective(u.deviceLimit, v.deviceLimit);
  }

  // --- The difference of two lists -----------------------------------------------------------------

  ghost predicate DistinctUuids(users: seq<UserInfo>) {
    forall i, j :: 0 <= i < j < |users| ==> users[i].uuid != users[j].uuid
  }

  function Elements(users: seq<UserInfo>): set<UserInfo> { set u | u in users }

  // The users of the new list that cannot be paired with one of the old list that is still unpaired.
  function Unpaired(unpaired: set<UserInfo>, users: seq<UserInfo>): seq<UserInfo> {
    if users == [] then []
    else if users[0] in unpaired then Unpaired(unpaired - {users[0]}, users[1..])
    else [users[0]] + Unpaired(unpaired, users[1..])
  }

  ghost predicate IsDiff(before: seq<UserInfo>, after: seq<UserInfo>, deleted: seq<UserInfo>, added: seq<UserInfo>) {
    && added == Unpaired(Elements(before), after)
    && (forall u :: u in deleted <==> u in before && u !in after)
    && (forall i, j :: 0 <= i < j < |deleted| ==> deleted[i] != deleted[j])
  }

  type Key = UserInfo -> string

  ghost predicate Injective(key: Key) { forall u, v :: key(u) == key(v) ==> u == v }

  // The map holds, under their keys, positions of exactly the users in `rest`.
  ghost predicate Indexes(key: Key, users: seq<UserInfo>, m: map<string, nat>, rest: set<UserInfo>) {
    && (forall u :: u in rest ==> key(u) in m)
    && (forall k :: k in m ==> m[k] < |users| && users[m[k]] in rest && key(users[m[k]]) == k)
  }

  method IndexUsers(users: seq<UserInfo>, key: Key) returns (m: map<string, nat>)
    ensures Indexes(key, users, m, Elements(users))
  {
    m := map[];
    for i := 0 to |users|
      invariant Indexes(key, users, m, Elements(users[..i]))
    {
      m := m[key(users[i]) := i];
      assert users[..i + 1] == users[..i] + [users[i]];
    }
    assert users[..|users|] == users;
  }

  method Leftovers(users: seq<UserInfo>, key: Key, m: map<string, nat>, ghost rest: set<UserInfo>)
    returns (left: seq<UserInfo>)
    requires Injective(key) && Indexes(key, users, m, rest)
    ensures forall u :: u in left <==> u in rest
    ensures forall i, j :: 0 <= i < j < |left| ==> left[i] != left[j]
  {
    left := [];
    var keys := m.Keys;
    while keys != {}
      invariant keys <= m.Keys
      invariant forall u :: u in left <==> u in rest && key(u) !in keys
      invariant forall i, j :: 0 <= i < j < |left| ==> left[i] != left[j]
      decreases |keys|
    {
      var k :| k in keys;
      keys := keys - {k};
      left := left + [users[m[k]]];
    }
  }

  lemma PairOne(rest: set<UserInfo>, added: seq<UserInfo>, users: seq<UserInfo>)
    requires users != []
    ensures added + Unpaired(rest, users) ==
            if users[0] in rest then added + Unpaired(rest - {users[0]}, users[1..])
            else added + [users[0]] + Unpaired(rest, users[1..])
  {
  }

  lemma PairKey(key: Key, users: seq<UserInfo>, m: map<string, nat>, rest: set<UserInfo>, u: UserInfo)
    requires Injective(key) && Indexes(key, users, m, rest)
    ensures key(u) in m <==> u in rest
    ensures Indexes(key, users, m - {key(u)}, rest - {u})
  {
  }

  method CompareBy(before: seq<UserInfo>, after: seq<UserInfo>, key: Key)
    returns (deleted: seq<UserInfo>, added: seq<UserInfo>)
    requires Injective(key)
    ensures IsDiff(before, after, deleted, added)
  {
    var oldMap := IndexUsers(before, key);
    ghost var rest := Elements(before);
    added := [];
    for i := 0 to |after|
      invariant forall u :: u in rest <==> u in before && u !in after[..i]
      invariant Indexes(key, before, oldMap, rest)
      invariant added + Unpaired(rest, after[i..]) == Unpaired(Elements(before), after)
    {
      var u := after[i];
      assert after[i..][0] == u && after[i..][1..] == after[i + 1..];
      assert after[..i + 1] == after[..i] + [u];
      PairOne(rest, added, after[i..]);
      PairKey(key, before, oldMap, rest, u);
      if key(u) !in oldMap {
        added := added + [u];
      } else {
        oldMap := oldMap - {key(u)};
        rest := rest - {u};
      }
    }
    assert after[..|after|] == after && added + [] == added;
    deleted := Leftovers(before, key, oldMap, rest);
  }

  /** Comparing by string keys finds exactly the difference of the two lists. */
  method CompareUserList(before: seq<UserInfo>, after: seq<UserInfo>)
    returns (deleted: seq<UserInfo>, added: seq<UserInfo>)
    ensures IsDiff(before, after, deleted, added)
  {
    forall u, v | CompareKey(u) == CompareKey(v) ensures u == v { CompareKeyInjective(u, v); }
    deleted, added := CompareBy(before, after, CompareKey);
  }

  lemma {:induction false} UnpairedUsers(unpaired: set<UserInfo>, users: seq<UserInfo>)
    requires DistinctUuids(users)
    ensures DistinctUuids(Unpaired(unpaired, users))
    ensures forall u :: u in Unpaired(unpaired, users) <==> u in users && u !in unpaired
    decreases |users|
  {
    if users != [] {
      assert forall u :: u in users <==> u == users[0] || u in users[1..];
      assert forall u :: u in users[1..] ==> u.uuid != users[0].uuid;
      var paired := users[0] in unpaired;
      UnpairedUsers(if paired then unpaired - {users[0]} else unpaired, users[1..]);
      if !paired {
        var rest := Unpaired(unpaired, users[1..]);
        forall i | 0 <= i < |rest| ensures rest[i].uuid != users[0].uuid {
          assert rest[i] in rest;
        }
      }
    }
  }

  lemma DiffUsers(before: seq<UserInfo>, after: seq<UserInfo>, deleted: seq<UserInfo>, added: seq<UserInfo>)
    requires IsDiff(before, after, deleted, added) && DistinctUuids(after)
    ensures DistinctUuids(added) && forall u :: u in added <==> u in after && u !in before
  {
    UnpairedUsers(Elements(before), after);
  }

  // --- The core's user map ---------------------------------------------------------------------------

  function CoreWith(core: map<string, int>, users: seq<UserInfo>): map<string, int>
    decreases |users|
  {
    if users == [] then core else CoreWith(core[users[0].uuid := users[0].id], users[1..])
  }

  function CoreWithout(core: map<string, int>, users: seq<UserInfo>): map<string, int>
    decreases |users|
  {
    if users == [] then core else CoreWithout(core - {users[0].uuid}, users[1..])
  }

  /** The users a hysteria2 server accepts, by uuid. */
  class Hysteria2 {
    var usersMap: map<string, int>

    constructor ()
      ensures usersMap == map[]
    {
      usersMap := map[];
    }

    method Authenticate(auth: string) returns (ok: bool, id: string)
      ensures ok == (auth in usersMap) && id == if ok then auth else ""
    {
      if auth in usersMap {
        return true, auth;
      }
      return false, "";
    }

    method AddUsers(users: seq<UserInfo>) returns (added: nat)
      modifies this
      ensures usersMap == CoreWith(old(usersMap), users) && added == |users|
    {
      for i := 0 to |users|
        invariant CoreWith(usersMap, users[i..]) == CoreWith(old(usersMap), users)
      {
        usersMap := usersMap[users[i].uuid := users[i].id];
        assert users[i..][1..] == users[i + 1..];
      }
      return |users|;
    }

    method DelUsers(users: seq<UserInfo>)
      modifies this
      ensures usersMap == CoreWithout(old(usersMap), users)
    {
      for i := 0 to |users|
        invariant CoreWithout(usersMap, users[i..]) == CoreWithout(old(usersMap), users)
      {
        usersMap := usersMap - {users[i].uuid};
        assert users[i..][1..] == users[i + 1..];
      }
    }
  }

  predicate HasUuid(users: seq<UserInfo>, uuid: string) { exists u :: u in users && u.uuid == uuid }

  lemma {:induction false} CoreWithAt(core: map<string, int>, users: seq<UserInfo>, uuid: string)
    requires DistinctUuids(users)
    ensures !HasUuid(users, uuid) ==> M.Lookup(CoreWith(core, users), uuid) == M.Lookup(core, uuid)
    ensures forall u :: u in users && u.uuid == uuid ==> M.Lookup(CoreWith(core, users), uuid) == Some(u.id)
    decreases |users|
  {
    if users != [] {
      assert users[0] in users && forall u :: u in users <==> u == users[0] || u in users[1..];
      CoreWithAt(core[users[0].uuid := users[0].id], users[1..], uuid);
    }
  }

  lemma {:induction false} CoreWithoutAt(core: map<string, int>, users: seq<UserInfo>, uuid: string)
    ensures M.Lookup(CoreWithout(core, users), uuid) ==
            if HasUuid(users, uuid) then None else M.Lookup(core, uuid)
    decreases |users|
  {
    if users != [] {
      assert forall u :: u in users <==> u == users[0] || u in users[1..];
      CoreWithoutAt(core - {users[0].uuid}, users[1..], uuid);
    }
  }

  // --- The limiter's records ---------------------------------------------------------------------------

  // What of a record comes from the panel's user list.
  datatype Identity = Identity(uid: int, speedLimit: int, deviceLimit: int)

  function IdentityOf(r: L.UserLimitInfo): Identity { Identity(r.uid, r.speedLimit, r.deviceLimit) }

  function Index(limits: map<M.User, L.UserLimitInfo>): map<M.User, Identity> {
    map k | k in limits :: IdentityOf(limits[k])
  }

  lemma TagInjective(tag: string, a: string, b: string)
    ensures M.UserTag(tag, a) == M.UserTag(tag, b) ==> a == b
  {
    assert M.UserTag(tag, a)[|tag| + 1..] == a && M.UserTag(tag, b)[|tag| + 1..] == b;
  }

  predicate HasKey(tag: string, users: seq<UserInfo>, key: M.User) {
    exists u :: u in users && M.UserTag(tag, u.uuid) == key
  }

  lemma {:induction false} WithUsersAt(s: M.State, tag: string, users: seq<UserInfo>, key: M.User)
    requires DistinctUuids(users)
    ensures var l := M.WithUsers(s, tag, users).limits;
      && (!HasKey(tag, users, key) ==> M.Lookup(l, key) == M.Lookup(s.limits, key))
      && (forall u :: u in users && M.UserTag(tag, u.uuid) == key ==> M.Lookup(l, key) == Some(M.NewRecord(u)))
    decreases |users|
  {
    if users != [] {
      assert users[0] in users && forall u :: u in users <==> u == users[0] || u in users[1..];
      forall u | u in users[1..] ensures M.UserTag(tag, u.uuid) != M.UserTag(tag, users[0].uuid) {
        TagInjective(tag, u.uuid, users[0].uuid);
      }
      WithUsersAt(M.WithUser(s, tag, users[0]), tag, users[1..], key);
    }
  }

  // Removing users drops their records, windows and buckets and nobody else's.
  lemma {:induction false} WithoutUsersAt(s: M.State, tag: string, users: seq<UserInfo>, key: M.User)
    ensures var s' := M.WithoutUsers(s, tag, users);
      if HasKey(tag, users, key) then key !in s'.limits && key !in s'.devices.online && key !in s'.buckets.cache
      else && M.Lookup(s'.limits, key) == M.Lookup(s.limits, key)
           && M.Lookup(s'.devices.online, key) == M.Lookup(s.devices.online, key)
           && M.Lookup(s'.buckets.cache, key) == M.Lookup(s.buckets.cache, key)
    decreases |users|
  {
    if users != [] {
      assert forall u :: u in users <==> u == users[0] || u in users[1..];
      WithoutUsersAt(M.WithoutUser(s, tag, users[0]), tag, users[1..], key);
    }
  }

  lemma {:induction false} AliveWithout(s: M.State, tag: string, users: seq<UserInfo>, uid: int)
    ensures M.Lookup(M.WithoutUsers(s, tag, users).alive, uid) ==
            if exists u :: u in users && u.id == uid then None else M.Lookup(s.alive, uid)
    decreases |users|
  {
    if users != [] {
      assert forall u :: u in users <==> u == users[0] || u in users[1..];
      AliveWithout(M.WithoutUser(s, tag, users[0]), tag, users[1..], uid);
    }
  }

  // --- One round -------------------------------------------------------------------------------------------

  datatype Node = Node(users: seq<UserInfo>, limiter: M.State, core: map<string, int>)

  const EMPTY := M.NewState(C.Tables(map[], map[]), map[])

  function Rebuilt(tag: string, users: seq<UserInfo>): map<M.User, L.UserLimitInfo> {
    M.WithUsers(EMPTY, tag, users).limits
  }

  // The limiter has a record for exactly the users of the list, each with the uid and the limits the
  // list gives, and the core knows exactly their uuids, each under the uid of the list.
  ghost predicate Synced(tag: string, n: Node) {
    && (forall u :: u in n.users ==> RecordFits(n.limiter.limits, tag, u) && KnownAs(n.core, u))
    && (forall key :: key in n.limiter.limits ==> HasKey(tag, n.users, key))
    && (forall uuid :: uuid in n.core ==> HasUuid(n.users, uuid))
  }

  predicate RecordFits(limits: map<M.User, L.UserLimitInfo>, tag: string, u: UserInfo) {
    var key := M.UserTag(tag, u.uuid);
    && key in limits
    && limits[key].uid == u.id && limits[key].speedLimit == u.speedLimit && limits[key].deviceLimit == u.deviceLimit
  }

  predicate KnownAs(core: map<string, int>, u: UserInfo) {
    u.uuid in core && core[u.uuid] == u.id
  }

  // The same said by construction: index and map are those of a node started with the user list.
  ghost predicate AsRebuilt(tag: string, n: Node) {
    && Index(n.limiter.limits) == Index(Rebuilt(tag, n.users))
    && n.core == CoreWith(map[], n.users)
  }

  // A record that is new: the limits of the list, nothing dynamic, no flag.
  predicate FreshRecord(limits: map<M.User, L.UserLimitInfo>, tag: string, u: UserInfo) {
    var key := M.UserTag(tag, u.uuid);
    && RecordFits(limits, tag, u)
    && limits[key].dynamicSpeedLimit == 0 && limits[key].expireTime == 0 && !limits[key].overLimit
  }

  /** A new limiter has a fresh record for exactly the users it is started with, and nobody is online. */
  lemma StartingUsersGetTheirLimits(conns: C.Tables, alive: map<int, int>, tag: string, users: seq<UserInfo>)
    requires DistinctUuids(users)
    ensures var s := M.WithUsers(M.NewState(conns, alive), tag, users);
      && (forall u :: u in users ==> FreshRecord(s.limits, tag, u))
      && (forall key :: key in s.limits ==> HasKey(tag, users, key))
      && s.devices.online == map[] && s.devices.past == map[] && s.alive == alive && s.buckets.cache == map[]
  {
    var start := M.NewState(conns, alive);
    forall u | u in users ensures FreshRecord(M.WithUsers(start, tag, users).limits, tag, u) {
      WithUsersAt(start, tag, users, M.UserTag(tag, u.uuid));
    }
    forall key | key in M.WithUsers(start, tag, users).limits ensures HasKey(tag, users, key) {
      WithUsersAt(start, tag, users, key);
    }
    R.WithUsersKeepsTheRest(start, tag, users);
  }

  /** An update gives every added user a fresh record. Of a removed user that is not added again there is
      neither a record nor a window nor a bucket left; other users keep all three. The panel's device
      counts are dropped for exactly the removed uids. */
  lemma UpdateTouchesExactly(s: M.State, tag: string, added: seq<UserInfo>, deleted: seq<UserInfo>)
    requires DistinctUuids(added)
    ensures var s' := M.Updated(s, tag, added, deleted);
      && (forall u :: u in added ==> FreshRecord(s'.limits, tag, u))
      && (forall u :: u in deleted ==> LeavesNothing(s', tag, u, added))
      && (forall key :: !HasKey(tag, added, key) && !HasKey(tag, deleted, key) ==> SameOf(s, s', key))
      && (forall uid :: M.Lookup(s'.alive, uid) ==
            if exists u :: u in deleted && u.id == uid then None else M.Lookup(s.alive, uid))
  {
    var s1 := M.WithoutUsers(s, tag, deleted);
    var s' := M.WithUsers(s1, tag, added);
    R.WithUsersKeepsTheRest(s1, tag, added);
    forall uid ensures M.Lookup(s'.alive, uid) ==
                       if exists u :: u in deleted && u.id == uid then None else M.Lookup(s.alive, uid)
    {
      AliveWithout(s, tag, deleted, uid);
    }
    forall u | u in added ensures FreshRecord(s'.limits, tag, u) {
      WithUsersAt(s1, tag, added, M.UserTag(tag, u.uuid));
    }
    forall u | u in deleted ensures LeavesNothing(s', tag, u, added) {
      assert HasKey(tag, deleted, M.UserTag(tag, u.uuid));
      WithUsersAt(s1, tag, added, M.UserTag(tag, u.uuid));
      WithoutUsersAt(s, tag, deleted, M.UserTag(tag, u.uuid));
    }
    forall key | !HasKey(tag, added, key) && !HasKey(tag, deleted, key) ensures SameOf(s, s', key) {
      WithUsersAt(s1, tag, added, key);
      WithoutUsersAt(s, tag, deleted, key);
    }
  }

  ghost predicate LeavesNothing(s: M.State, tag: string, u: UserInfo, added: seq<UserInfo>) {
    var key := M.UserTag(tag, u.uuid);
    && (!HasKey(tag, added, key) ==> key !in s.limits)
    && key !in s.devices.online && key !in s.buckets.cache
  }

  predicate SameOf(s: M.State, s': M.State, key: M.User) {
    && M.Lookup(s'.limits, key) == M.Lookup(s.limits, key)
    && M.Lookup(s'.devices.online, key) == M.Lookup(s.devices.online, key)
    && M.Lookup(s'.buckets.cache, key) == M.Lookup(s.buckets.cache, key)
  }

  lemma RebuiltFits(tag: string, users: seq<UserInfo>)
    requires DistinctUuids(users)
    ensures forall u :: u in users ==> RecordFits(Rebuilt(tag, users), tag, u)
    ensures forall key :: key in Rebuilt(tag, users) ==> HasKey(tag, users, key)
  {
    StartingUsersGetTheirLimits(C.Tables(map[], map[]), map[], tag, users);
    forall u | u in users ensures RecordFits(Rebuilt(tag, users), tag, u) {
      assert FreshRecord(Rebuilt(tag, users), tag, u);
    }
  }

  // Records that fit the same list agree in what comes from the list.
  lemma FittingRecordsAgree(
      a: map<M.User, L.UserLimitInfo>, b: map<M.User, L.UserLimitInfo>, tag: string, users: seq<UserInfo>)
    requires forall u :: u in users ==> RecordFits(a, tag, u) && RecordFits(b, tag, u)
    requires forall key :: key in a || key in b ==> HasKey(tag, users, key)
    ensures Index(a) == Index(b)
  {
    forall key ensures M.Lookup(Index(a), key) == M.Lookup(Index(b), key) {
      if key in a || key in b {
        var u :| u in users && M.UserTag(tag, u.uuid) == key;
        assert RecordFits(a, tag, u) && RecordFits(b, tag, u);
      }
    }
    SameLookups(Index(a), Index(b));
  }

  lemma SameIndexFits(
      a: map<M.User, L.UserLimitInfo>, b: map<M.User, L.UserLimitInfo>, tag: string, users: seq<UserInfo>)
    requires Index(a) == Index(b)
    requires forall u :: u in users ==> RecordFits(b, tag, u)
    requires forall key :: key in b ==> HasKey(tag, users, key)
    ensures forall u :: u in users ==> RecordFits(a, tag, u)
    ensures forall key :: key in a ==> HasKey(tag, users, key)
  {
    forall u | u in users ensures RecordFits(a, tag, u) {
      var key := M.UserTag(tag, u.uuid);
      assert RecordFits(b, tag, u) && key in Index(b) && key in Index(a) && Index(a)[key] == Index(b)[key];
    }
    forall key | key in a ensures HasKey(tag, users, key) {
      assert key in Index(a) && key in Index(b);
    }
  }

  lemma CoreIsTheList(core: map<string, int>, users: seq<UserInfo>)
    requires DistinctUuids(users)
    ensures core == CoreWith(map[], users) <==>
            (forall u :: u in users ==> KnownAs(core, u)) && (forall uuid :: uuid in core ==> HasUuid(users, uuid))
  {
    var full := CoreWith(map[], users);
    forall uuid ensures uuid in full ==> HasUuid(users, uuid) {
      CoreWithAt(map[], users, uuid);
    }
    forall u | u in users ensures KnownAs(full, u) {
      CoreWithAt(map[], users, u.uuid);
    }
    if (forall u :: u in users ==> KnownAs(core, u)) && (forall uuid :: uuid in core ==> HasUuid(users, uuid)) {
      forall uuid ensures M.Lookup(core, uuid) == M.Lookup(full, uuid) {
        if HasUuid(users, uuid) {
          var u :| u in users && u.uuid == uuid;
          assert KnownAs(core, u) && KnownAs(full, u);
        }
      }
      SameLookups(core, full);
    }
  }

  /** A node is in step with its list exactly when it looks like one that was started with it. */
  lemma SyncedIsAsRebuilt(tag: string, n: Node)
    requires DistinctUuids(n.users)
    ensures Synced(tag, n) <==> AsRebuilt(tag, n)
  {
    RebuiltFits(tag, n.users);
    CoreIsTheList(n.core, n.users);
    if Index(n.limiter.limits) == Index(Rebuilt(tag, n.users)) {
      SameIndexFits(n.limiter.limits, Rebuilt(tag, n.users), tag, n.users);
    }
    if Synced(tag, n) {
      FittingRecordsAgree(n.limiter.limits, Rebuilt(tag, n.users), tag, n.users);
    }
  }

  ghost predicate IsRound(tag: string, n: Node, pulled: seq<UserInfo>, n': Node) {
    exists deleted, added :: IsDiff(n.users, pulled, deleted, added) &&
      n' == Node(pulled, M.Updated(n.limiter, tag, added, deleted), CoreWith(CoreWithout(n.core, deleted), added))
  }

  /** The controller's share of the user monitor. A pulled list that is missing means "not modified". */
  class Controller {
    const tag: string
    const limiter: M.Limiter
    const core: Hysteria2
    var users: seq<UserInfo>

    ghost function View(): Node
      reads this, limiter, limiter.connLimiter, core
    {
      Node(users, limiter.View(), core.usersMap)
    }

    constructor (tag: string, limiter: M.Limiter, core: Hysteria2, users: seq<UserInfo>)
      ensures this.tag == tag && this.limiter == limiter && this.core == core && this.users == users
    {
      this.tag, this.limiter, this.core, this.users := tag, limiter, core, users;
    }

    method CheckUsers(newU: Option<seq<UserInfo>>)
      modifies this, limiter, core
      ensures match newU
        case None => View() == old(View())
        case Some(pulled) => IsRound(tag, old(View()), pulled, View())
    {
      if newU.None? {
        return;
      }
      var deleted, added := CompareUserList(users, newU.value);
      if |deleted| > 0 {
        core.DelUsers(deleted);
      }
      if |added| > 0 {
        var _ := core.AddUsers(added);
      }
      if |added| > 0 || |deleted| > 0 {
        limiter.UpdateUser(tag, added, deleted);
      }
      users := newU.value;
    }
  }

  lemma CoreRoundAt(
      core: map<string, int>, before: seq<UserInfo>, after: seq<UserInfo>, deleted: seq<UserInfo>, added: seq<UserInfo>,
      uuid: string)
    requires DistinctUuids(before) && DistinctUuids(after) && IsDiff(before, after, deleted, added)
    requires core == CoreWith(map[], before)
    ensures M.Lookup(CoreWith(CoreWithout(core, deleted), added), uuid) == M.Lookup(CoreWith(map[], after), uuid)
  {
    DiffUsers(before, after, deleted, added);
    CoreWithAt(map[], before, uuid);
    CoreWithAt(map[], after, uuid);
    CoreWithoutAt(core, deleted, uuid);
    CoreWithAt(CoreWithout(core, deleted), added, uuid);
  }

  function IdentityAt(limits: map<M.User, L.UserLimitInfo>, key: M.User): Option<Identity> { M.Lookup(Index(limits), key) }

  lemma IndexRoundAt(
      s: M.State, tag: string, before: seq<UserInfo>, after: seq<UserInfo>,
      deleted: seq<UserInfo>, added: seq<UserInfo>, key: M.User)
    requires DistinctUuids(before) && DistinctUuids(after) && IsDiff(before, after, deleted, added)
    requires Index(s.limits) == Index(Rebuilt(tag, before))
    ensures IdentityAt(M.Updated(s, tag, added, deleted).limits, key) == IdentityAt(Rebuilt(tag, after), key)
  {
    DiffUsers(before, after, deleted, added);
    WithUsersAt(EMPTY, tag, before, key);
    WithUsersAt(EMPTY, tag, after, key);
    WithoutUsersAt(s, tag, deleted, key);
    WithUsersAt(M.WithoutUsers(s, tag, deleted), tag, added, key);
    assert IdentityAt(s.limits, key) == IdentityAt(Rebuilt(tag, before), key);
    forall u, v | u in before && v in after && M.UserTag(tag, u.uuid) == key == M.UserTag(tag, v.uuid)
      ensures u.uuid == v.uuid
    {
      TagInjective(tag, u.uuid, v.uuid);
    }
  }

  lemma SameLookups<K, V>(a: map<K, V>, b: map<K, V>)
    requires forall k :: M.Lookup(a, k) == M.Lookup(b, k)
    ensures a == b
  {
    assert forall k :: k in a <==> M.Lookup(a, k).Some?;
    assert forall k :: k in b <==> M.Lookup(b, k).Some?;
    assert forall k :: k in a ==> M.Lookup(a, k).value == a[k];
    assert forall k :: k in b ==> M.Lookup(b, k).value == b[k];
  }

  /** Deleting before adding brings the limiter and the core in step with the pulled list, whatever
      changed. */
  lemma RoundKeepsSync(tag: string, n: Node, pulled: seq<UserInfo>, n': Node)
    requires Synced(tag, n) && IsRound(tag, n, pulled, n') && DistinctUuids(n.users) && DistinctUuids(pulled)
    ensures Synced(tag, n')
  {
    SyncedIsAsRebuilt(tag, n);
    RoundRebuilds(tag, n, pulled, n');
    SyncedIsAsRebuilt(tag, n');
  }

  lemma RoundRebuilds(tag: string, n: Node, pulled: seq<UserInfo>, n': Node)
    requires AsRebuilt(tag, n) && IsRound(tag, n, pulled, n') && DistinctUuids(n.users) && DistinctUuids(pulled)
    ensures AsRebuilt(tag, n')
  {
    var deleted, added :| IsDiff(n.users, pulled, deleted, added) &&
      n' == Node(pulled, M.Updated(n.limiter, tag, added, deleted), CoreWith(CoreWithout(n.core, deleted), added));
    forall key ensures M.Lookup(Index(n'.limiter.limits), key) == M.Lookup(Index(Rebuilt(tag, pulled)), key) {
      IndexRoundAt(n.limiter, tag, n.users, pulled, deleted, added, key);
    }
    SameLookups(Index(n'.limiter.limits), Index(Rebuilt(tag, pulled)));
    forall uuid ensures M.Lookup(n'.core, uuid) == M.Lookup(CoreWith(map[], pulled), uuid) {
      CoreRoundAt(n.core, n.users, pulled, deleted, added, uuid);
    }
    SameLookups(n'.core, CoreWith(map[], pulled));
  }

  /** A user the panel did not change keeps the whole record, so also the dynamic limit and the
      over-limit flag, the device window and the speed bucket. */
  lemma UnchangedUserKeepsAll(tag: string, n: Node, pulled: seq<UserInfo>, n': Node, u: UserInfo)
    requires IsRound(tag, n, pulled, n') && DistinctUuids(n.users) && DistinctUuids(pulled)
    requires u in n.users && u in pulled
    ensures var key := M.UserTag(tag, u.uuid);
      && M.Lookup(n'.limiter.limits, key) == M.Lookup(n.limiter.limits, key)
      && M.Lookup(n'.limiter.devices.online, key) == M.Lookup(n.limiter.devices.online, key)
      && M.Lookup(n'.limiter.buckets.cache, key) == M.Lookup(n.limiter.buckets.cache, key)
  {
    var key := M.UserTag(tag, u.uuid);
    var deleted, added :| IsDiff(n.users, pulled, deleted, added) &&
      n' == Node(pulled, M.Updated(n.limiter, tag, added, deleted), CoreWith(CoreWithout(n.core, deleted), added));
    DiffUsers(n.users, pulled, deleted, added);
    forall v: UserInfo | M.UserTag(tag, v.uuid) == key && (v in n.users || v in pulled) ensures v == u {
      TagInjective(tag, v.uuid, u.uuid);
    }
    assert !HasKey(tag, deleted, key) && !HasKey(tag, added, key);
    WithoutUsersAt(n.limiter, tag, deleted, key);
    WithUsersAt(M.WithoutUsers(n.limiter, tag, deleted), tag, added, key);
    R.WithUsersKeepsTheRest(M.WithoutUsers(n.limiter, tag, deleted), tag, added);
  }

  // --- Traffic between the rounds ------------------------------------------------------------------------

  /** A connection check keeps the index exactly when it does not meet an expired dynamic limit of a
      user without a static one: that record is removed. */
  lemma CheckKeepsTheIndexIff(
      c: M.Config, s: M.State, user: M.User, ip: M.Ip, isTcp: bool, noSSUDP: bool, now: M.Time)
    requires !C.AddTo(c.conn, s.conns, user, ip, isTcp, now).1
    ensures var s' := M.Check(c, s, user, ip, isTcp, noSSUDP, now).0;
      Index(s'.limits) == Index(s.limits) <==>
      !(user in s.limits && s.limits[user].speedLimit == 0 && M.DynamicExpired(s.limits[user], now))
  {
    var s' := M.Check(c, s, user, ip, isTcp, noSSUDP, now).0;
    if user !in s.limits {
      assert s'.limits == s.limits;
    } else {
      assert s'.limits == M.WithRecord(s.limits, user, M.RecordAfter(s.limits[user], now));
      assert user in Index(s'.limits) <==> user in s'.limits;
      assert user in Index(s.limits);
      forall k ensures k != user ==> M.Lookup(Index(s'.limits), k) == M.Lookup(Index(s.limits), k) {
      }
      if user in s'.limits {
        forall k ensures M.Lookup(Index(s'.limits), k) == M.Lookup(Index(s.limits), k) {
        }
        SameLookups(Index(s'.limits), Index(s.limits));
      }
    }
  }

  // The two steps that take the index away from the user list: a check that meets such a record, and
  // a dynamic limit for a user without a record.
  predicate Unsettles(n: R.Node, st: R.Step) {
    match st.event
    case Connect(user, _, _, _) =>
      && st.verdict != Some(M.ConnRejected) && user in st.before.limits
      && st.before.limits[user].speedLimit == 0 && M.DynamicExpired(st.before.limits[user], st.now)
    case AddDynamic(info, _, _) => M.UserTag(n.tag, info.uuid) !in st.before.limits
    case _ => false
  }

  lemma SameIdentity(a: map<M.User, L.UserLimitInfo>, key: M.User, r: L.UserLimitInfo)
    requires key in a && IdentityOf(r) == IdentityOf(a[key])
    ensures Index(a[key := r]) == Index(a)
  {
    forall k ensures M.Lookup(Index(a[key := r]), k) == M.Lookup(Index(a), k) {
    }
    SameLookups(Index(a[key := r]), Index(a));
  }

  /** A step of the limiter keeps the index exactly when it is neither of the two. */
  lemma StepKeepsTheIndexIff(n: R.Node, st: R.Step)
    requires R.IsStep(n, st) && !st.event.UpdateUsers?
    ensures Index(st.after.limits) == Index(st.before.limits) <==> !Unsettles(n, st)
  {
    match st.event
    case Connect(user, ip, isTcp, noSSUDP) =>
      if st.verdict == Some(M.ConnRejected) {
        assert st.after.limits == st.before.limits;
      } else {
        CheckKeepsTheIndexIff(n.config, st.before, user, ip, isTcp, noSSUDP, st.now);
      }
    case AddDynamic(info, limit, expire) =>
      var key := M.UserTag(n.tag, info.uuid);
      if key in st.before.limits {
        SameIdentity(st.before.limits, key, L.Mutate(L.SetDynamic(limit, expire), st.before.limits[key]));
      } else {
        assert key in Index(st.after.limits) && key !in Index(st.before.limits);
      }
    case FlagOverLimit(user, over) =>
      if user in st.before.limits {
        SameIdentity(st.before.limits, user, L.Mutate(L.SetOverLimit(over), st.before.limits[user]));
      } else {
        assert st.after.limits == st.before.limits;
      }
    case _ =>
  }

  // --- Runs ----------------------------------------------------------------------------------------------------

  lemma StartIsSynced(tag: string, users: seq<UserInfo>, conns: C.Tables, alive: map<int, int>)
    requires DistinctUuids(users)
    ensures Synced(tag, Node(users, M.WithUsers(M.NewState(conns, alive), tag, users), CoreWith(map[], users)))
  {
    var l := M.WithUsers(M.NewState(conns, alive), tag, users).limits;
    forall key ensures M.Lookup(l, key) == M.Lookup(Rebuilt(tag, users), key) {
      WithUsersAt(M.NewState(conns, alive), tag, users, key);
      WithUsersAt(EMPTY, tag, users, key);
    }
    SameLookups(l, Rebuilt(tag, users));
    SyncedIsAsRebuilt(tag, Node(users, M.WithUsers(M.NewState(conns, alive), tag, users), CoreWith(map[], users)));
  }

  datatype What = Pull(pulled: seq<UserInfo>) | Traffic(step: R.Step)

  datatype Turn = Turn(what: What, before: Node, after: Node)

  // A round of the monitor, or any step of the limiter but the update that belongs to a round.
  ghost predicate IsTurn(n: R.Node, t: Turn) {
    match t.what
    case Pull(pulled) => DistinctUuids(pulled) && IsRound(n.tag, t.before, pulled, t.after)
    case Traffic(st) =>
      && R.IsStep(n, st) && !st.event.UpdateUsers? && st.before == t.before.limiter
      && t.after == Node(t.before.users, st.after, t.before.core)
  }

  ghost predicate IsRun(n: R.Node, run: seq<Turn>) {
    && (forall i :: 0 <= i < |run| ==> IsTurn(n, run[i]))
    && (forall i :: 0 < i < |run| ==> run[i].before == run[i - 1].after)
    && (|run| > 0 ==> DistinctUuids(run[0].before.users))
  }

  predicate Upsets(n: R.Node, t: Turn) { t.what.Traffic? && Unsettles(n, t.what.step) }

  /** One turn keeps the node in step with its list exactly when it is not one of the two upsetting steps. */
  lemma TurnKeepsSyncIff(n: R.Node, t: Turn)
    requires IsTurn(n, t) && Synced(n.tag, t.before) && DistinctUuids(t.before.users)
    ensures Synced(n.tag, t.after) <==> !Upsets(n, t)
    ensures DistinctUuids(t.after.users)
  {
    match t.what
    case Pull(pulled) => RoundKeepsSync(n.tag, t.before, pulled, t.after);
    case Traffic(st) =>
      StepKeepsTheIndexIff(n, st);
      SyncedIsAsRebuilt(n.tag, t.before);
      SyncedIsAsRebuilt(n.tag, t.after);
  }

  lemma {:induction false} UsersStayDistinct(n: R.Node, run: seq<Turn>, i: nat)
    requires IsRun(n, run) && i < |run|
    ensures DistinctUuids(run[i].before.users) && DistinctUuids(run[i].after.users)
  {
    if i > 0 {
      UsersStayDistinct(n, run, i - 1);
    }
    assert IsTurn(n, run[i]);
  }

  lemma {:induction false} AlwaysAsRebuilt(n: R.Node, run: seq<Turn>, i: nat)
    requires IsRun(n, run) && i < |run| && Synced(n.tag, run[0].before)
    requires forall k :: 0 <= k <= i ==> !Upsets(n, run[k])
    ensures Synced(n.tag, run[i].after)
  {
    UsersStayDistinct(n, run, i);
    if i > 0 {
      AlwaysAsRebuilt(n, run, i - 1);
    }
    assert IsTurn(n, run[i]);
    TurnKeepsSyncIff(n, run[i]);
  }

  /** For every sequence of pulled lists with distinct uuids and any steps of the limiter in between,
      the node is throughout in step with the latest list if and only if no
      check meets an expired dynamic limit of a user without a static one, and no dynamic limit is
      set for a user without a record. */
  lemma AlwaysAsRebuiltIff(n: R.Node, run: seq<Turn>)
    requires IsRun(n, run) && |run| > 0 && Synced(n.tag, run[0].before)
    ensures (forall i :: 0 <= i < |run| ==> Synced(n.tag, run[i].after)) <==>
            (forall i :: 0 <= i < |run| ==> !Upsets(n, run[i]))
  {
    if forall i :: 0 <= i < |run| ==> !Upsets(n, run[i]) {
      forall i | 0 <= i < |run| ensures Synced(n.tag, run[i].after) {
        AlwaysAsRebuilt(n, run, i);
      }
    }
    if forall i :: 0 <= i < |run| ==> Synced(n.tag, run[i].after) {
      forall i | 0 <= i < |run| ensures !Upsets(n, run[i]) {
        UsersStayDistinct(n, run, i);
        assert IsTurn(n, run[i]) && (i > 0 ==> Synced(n.tag, run[i - 1].after));
        TurnKeepsSyncIff(n, run[i]);
      }
    }
  }

  // --- The user who lost the record -------------------------------------------------------------------------------

  lemma StepLeavesMissing(n: R.Node, st: R.Step, key: M.User)
    requires R.IsStep(n, st) && !st.event.UpdateUsers? && key !in st.before.limits
    requires st.event.AddDynamic? ==> M.UserTag(n.tag, st.event.info.uuid) != key
    ensures key !in st.after.limits
    ensures st.event.Connect? && st.event.user == key ==> st.verdict in {Some(M.ConnRejected), Some(M.Unknown)}
  {
  }

  // From turn i to turn j the panel leaves the user as it is and nobody sets a dynamic limit.
  ghost predicate LeftAlone(n: R.Node, run: seq<Turn>, i: nat, j: nat, u: UserInfo)
    requires j < |run|
  {
    forall k :: i <= k <= j ==>
      && u in run[k].before.users && u in run[k].after.users
      && (run[k].what.Traffic? && run[k].what.step.event.AddDynamic? ==>
            M.UserTag(n.tag, run[k].what.step.event.info.uuid) != M.UserTag(n.tag, u.uuid))
  }

  /** A user of the list whose record is gone is refused every connection, over any number of rounds,
      until the panel changes the user or a dynamic limit is set. */
  lemma {:induction false} LockedOutUntilChanged(n: R.Node, run: seq<Turn>, i: nat, j: nat, u: UserInfo)
    requires IsRun(n, run) && i <= j < |run| && LeftAlone(n, run, i, j, u)
    requires M.UserTag(n.tag, u.uuid) !in run[i].before.limiter.limits
    ensures M.UserTag(n.tag, u.uuid) !in run[j].after.limiter.limits
    ensures run[j].what.Traffic? && run[j].what.step.event.Connect? &&
            run[j].what.step.event.user == M.UserTag(n.tag, u.uuid) ==>
              run[j].what.step.verdict in {Some(M.ConnRejected), Some(M.Unknown)}
  {
    if i < j {
      LockedOutUntilChanged(n, run, i, j - 1, u);
    }
    assert IsTurn(n, run[j]);
    match run[j].what
    case Pull(pulled) =>
      UsersStayDistinct(n, run, j);
      UnchangedUserKeepsAll(n.tag, run[j].before, pulled, run[j].after, u);
    case Traffic(st) => StepLeavesMissing(n, st, M.UserTag(n.tag, u.uuid));
  }

  /** It takes one temporary limit: user "u" has no static limit and gets a dynamic one for a second.
      The first connection after it is still accepted and removes the record, the second is refused. */
  lemma ExpiredLimitLocksTheUserOut(c: M.Config, u: UserInfo)
    requires c == M.Config(C.Config(true, 0, 0), 0, 0) && u == M.UserInfo(1, "u", 0, 0)
    ensures var key := M.UserTag("t", "u");
            var s0 := M.WithUsers(M.NewState(C.Tables(map[], map[]), map[]), "t", [u]);
            var s1 := M.WithDynamic(s0, "t", u, 10, 1);
            var (s2, v2) := M.Check(c, s1, key, "a", true, false, 2 * M.SECOND);
            var (s3, v3) := M.Check(c, s2, key, "a", true, false, 3 * M.SECOND);
      v2.Accepted? && key !in s2.limits && v3 == M.Unknown
  {
    var key := M.UserTag("t", "u");
    var s0 := M.WithUsers(M.NewState(C.Tables(map[], map[]), map[]), "t", [u]);
    assert u in [u];
    WithUsersAt(M.NewState(C.Tables(map[], map[]), map[]), "t", [u], key);
    assert M.Lookup(s0.limits, key) == Some(M.NewRecord(u));
    var s1 := M.WithDynamic(s0, "t", u, 10, 1);
    assert s1.limits[key] == L.UserLimitInfo(1, 0, 0, 10, 1, false);
  }
}
