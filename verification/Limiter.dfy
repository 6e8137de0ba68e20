/**
 The admission check of limiter/limiter.go: connection limits, the speed limit of a user with
 its bucket cache (limiter/dynamic.go), and the device limit with its window of remembered
 addresses. Addresses are taken after normalisation.
 */
module Limiters {
  import opened Wrappers
  import L = LimitRecord
  import C = ConnLimiting

  type User = string
  type Ip = string
  type Time = int  // in nanoseconds

  const SECOND: Time := 1_000_000_000

  function Unix(now: Time): int { now / SECOND }

  // What the panel says of a user, and the key the limiter keeps the user under.
  datatype UserInfo = UserInfo(id: int, uuid: string, speedLimit: int, deviceLimit: int)

  function UserTag(tag: string, uuid: string): User { tag + "|" + uuid }

  // --- Speed limits ------------------------------------------------------------------------

  function DetermineSpeedLimit(limit1: int, limit2: int): int {
    if limit1 == 0 || limit2 == 0 then
      if limit1 > limit2 then limit1 else if limit1 < limit2 then limit2 else 0
    else if limit1 > limit2 then limit2
    else limit1
  }

  // The smallest of the limits that are set, 0 when none is.
  ghost predicate IsTightest(limit: int, limits: seq<int>) {
    && (limit == 0 <==> forall i :: 0 <= i < |limits| ==> limits[i] == 0)
    && (limit != 0 ==> limit in limits)
    && (forall i :: 0 <= i < |limits| && limits[i] != 0 ==> limit <= limits[i])
  }

  /** On limits that are not negative, choosing the tighter one is commutative and associative
      with 0 as its unit, so the order in which limits are combined does not matter. */
  lemma TighterIsAMonoid(a: int, b: int, c: int)
    requires a >= 0 && b >= 0 && c >= 0
    ensures DetermineSpeedLimit(a, b) == DetermineSpeedLimit(b, a)
    ensures DetermineSpeedLimit(DetermineSpeedLimit(a, b), c) == DetermineSpeedLimit(a, DetermineSpeedLimit(b, c))
    ensures DetermineSpeedLimit(a, 0) == a
    ensures IsTightest(DetermineSpeedLimit(DetermineSpeedLimit(a, b), c), [a, b, c])
  {
    var l := [a, b, c];
    assert l[0] == a && l[1] == b && l[2] == c;
  }

  predicate DynamicExpired(u: L.UserLimitInfo, now: Time) {
    u.expireTime < Unix(now) && u.expireTime != 0
  }

  function UserLimit(u: L.UserLimitInfo, now: Time): int {
    if DynamicExpired(u, now) then u.speedLimit else DetermineSpeedLimit(u.speedLimit, u.dynamicSpeedLimit)
  }

  // What the check leaves of the record: an expired dynamic limit is dropped, and with it the
  // whole record when there is no static limit.
  function RecordAfter(u: L.UserLimitInfo, now: Time): Option<L.UserLimitInfo> {
    if !DynamicExpired(u, now) then Some(u)
    else if u.speedLimit != 0 then Some(L.Mutate(L.DropDynamic, u))
    else None
  }

  // Bytes per second of a limit given in megabits.
  function Rate(limit: int): int { limit * 1000000 / 8 }

  type BucketId = nat

  datatype SpeedBucket = SpeedBucket(limit: int, bucket: BucketId)

  datatype Buckets = Buckets(cache: map<User, SpeedBucket>, nextBucket: BucketId)

  function TakeBucket(b: Buckets, user: User, rate: int): (Buckets, Option<BucketId>) {
    if rate <= 0 then (b.(cache := b.cache - {user}), None)
    else if user in b.cache && b.cache[user].limit == rate then (b, Some(b.cache[user].bucket))
    else (Buckets(b.cache[user := SpeedBucket(rate, b.nextBucket)], b.nextBucket + 1), Some(b.nextBucket))
  }

  // --- The device window ---------------------------------------------------------------------

  datatype OldEntry = OldEntry(uid: int, seenAt: Time)

  datatype Devices = Devices(online: map<User, map<Ip, int>>, past: map<Ip, OldEntry>)

  predicate Forgotten(e: OldEntry, ttl: int, now: Time) { now - e.seenAt > ttl }

  predicate OverDeviceLimit(deviceLimit: int, alive: int) { deviceLimit > 0 && deviceLimit <= alive }

  function CheckDevice(d: Devices, user: User, ip: Ip, uid: int, over: bool, ttl: int, now: Time): (Devices, bool) {
    if user in d.online then
      if ip in d.online[user] then (d, false)
      else if over then (d, true)
      else (d.(online := d.online[user := d.online[user][ip := uid]]), false)
    else
      var entered := d.online[user := map[ip := uid]];
      if ip in d.past && !Forgotten(d.past[ip], ttl, now) then
        (Devices(entered, if d.past[ip].uid == uid then d.past - {ip} else d.past), false)
      else if over then (d.(past := d.past - {ip}), true)
      else (Devices(entered, d.past - {ip}), false)
  }

  // --- The whole check ---------------------------------------------------------------------------

  datatype Verdict = ConnRejected | Unknown | DeviceRejected | Accepted(bucket: Option<BucketId>)

  datatype State = State(
    conns: C.Tables, limits: map<User, L.UserLimitInfo>, devices: Devices, alive: map<int, int>, buckets: Buckets)

  datatype Config = Config(conn: C.Config, speedLimit: int, oldOnlineTTL: int)

  function AliveOf(alive: map<int, int>, uid: int): int { if uid in alive then alive[uid] else 0 }

  function WithRecord(limits: map<User, L.UserLimitInfo>, user: User, record: Option<L.UserLimitInfo>)
    : map<User, L.UserLimitInfo>
  {
    match record
    case Some(u) => limits[user := u]
    case None => limits - {user}
  }

  function Check(c: Config, s: State, user: User, ip: Ip, isTcp: bool, noSSUDP: bool, now: Time): (State, Verdict) {
    var (conns, limited) := C.AddTo(c.conn, s.conns, user, ip, isTcp, now);
    if limited then (s.(conns := conns), ConnRejected)
    else if user !in s.limits then (s.(conns := conns), Unknown)
    else
      var u := s.limits[user];
      var limits := WithRecord(s.limits, user, RecordAfter(u, now));
      var over := OverDeviceLimit(u.deviceLimit, AliveOf(s.alive, u.uid));
      var (devices, full) :=
        if noSSUDP then CheckDevice(s.devices, user, ip, u.uid, over, c.oldOnlineTTL, now) else (s.devices, false);
      if full then (State(conns, limits, devices, s.alive, s.buckets), DeviceRejected)
      else
        var (buckets, bucket) := TakeBucket(s.buckets, user, Rate(DetermineSpeedLimit(c.speedLimit, UserLimit(u, now))));
        (State(conns, limits, devices, s.alive, buckets), Accepted(bucket))
  }

  predicate SeenFrom(d: Devices, u: User, ip: Ip) { u in d.online && ip in d.online[u] }

  function AllSeen(d: Devices): set<(User, Ip)> { set u, ip | u in d.online && ip in d.online[u] :: (u, ip) }

  function Lookup<K, V>(m: map<K, V>, k: K): Option<V> { if k in m then Some(m[k]) else None }

  // What is remembered of an address once the devices in `seen` were moved: one of its users, and
  // which one when several share it is left open, because the maps are walked in any order.
  ghost predicate EntryAfter(d: Devices, seen: set<(User, Ip)>, ip: Ip, now: Time, entry: Option<OldEntry>) {
    if ip != "" && exists u :: (u, ip) in seen then
      exists u :: (u, ip) in seen && SeenFrom(d, u, ip) && entry == Some(OldEntry(d.online[u][ip], now))
    else entry == Lookup(d.past, ip)
  }

  ghost predicate Moved(d: Devices, seen: set<(User, Ip)>, past: map<Ip, OldEntry>, now: Time) {
    forall ip :: EntryAfter(d, seen, ip, now, Lookup(past, ip))
  }

  // The window ends: every online address is remembered and a new window starts empty.
  ghost predicate Rotated(d: Devices, d': Devices, now: Time) {
    d'.online == map[] && Moved(d, AllSeen(d), d'.past, now)
  }

  function SweptOld(d: Devices, ttl: int, now: Time): Devices {
    d.(past := map ip | ip in d.past && !Forgotten(d.past[ip], ttl, now) :: d.past[ip])
  }

  // --- What the panel changes --------------------------------------------------------------------

  function NewState(conns: C.Tables, alive: map<int, int>): State {
    State(conns, map[], Devices(map[], map[]), alive, Buckets(map[], 0))
  }

  function NewRecord(u: UserInfo): L.UserLimitInfo {
    L.UserLimitInfo(u.id, u.speedLimit, u.deviceLimit, 0, 0, false)
  }

  function WithoutUser(s: State, tag: string, u: UserInfo): State {
    var key := UserTag(tag, u.uuid);
    State(s.conns, s.limits - {key}, Devices(s.devices.online - {key}, s.devices.past), s.alive - {u.id},
          Buckets(s.buckets.cache - {key}, s.buckets.nextBucket))
  }

  function WithoutUsers(s: State, tag: string, deleted: seq<UserInfo>): State
    decreases |deleted|
  {
    if deleted == [] then s else WithoutUsers(WithoutUser(s, tag, deleted[0]), tag, deleted[1..])
  }

  function WithUser(s: State, tag: string, u: UserInfo): State {
    s.(limits := s.limits[UserTag(tag, u.uuid) := NewRecord(u)])
  }

  function WithUsers(s: State, tag: string, added: seq<UserInfo>): State
    decreases |added|
  {
    if added == [] then s else WithUsers(WithUser(s, tag, added[0]), tag, added[1..])
  }

  function Updated(s: State, tag: string, added: seq<UserInfo>, deleted: seq<UserInfo>): State {
    WithUsers(WithoutUsers(s, tag, deleted), tag, added)
  }

  // A temporary limit goes into a copy of the record, or into a record of its own when there is none.
  function WithDynamic(s: State, tag: string, u: UserInfo, limit: int, expire: int): State {
    var key := UserTag(tag, u.uuid);
    var record := if key in s.limits then L.Mutate(L.SetDynamic(limit, expire), s.limits[key])
                  else L.UserLimitInfo(u.id, 0, 0, limit, expire, false);
    s.(limits := s.limits[key := record], buckets := s.buckets.(cache := s.buckets.cache - {key}))
  }

  /** The limiter object of one node. */
  class Limiter {
    const config: Config
    const connLimiter: C.ConnLimiter
    var limits: map<User, L.UserLimitInfo>
    var online: map<User, map<Ip, int>>
    var past: map<Ip, OldEntry>
    var alive: map<int, int>
    var speed: map<User, SpeedBucket>
    var nextBucket: BucketId

    ghost predicate Valid()
      reads this
    {
      config.conn == connLimiter.config
    }

    ghost function View(): State
      reads this, connLimiter
    {
      State(connLimiter.View(), limits, Devices(online, past), alive, Buckets(speed, nextBucket))
    }

    constructor (
        config: Config, connLimiter: C.ConnLimiter, tag: string, users: seq<UserInfo>, alive: map<int, int>)
      requires config.conn == connLimiter.config
      ensures Valid() && this.config == config && this.connLimiter == connLimiter
      ensures View() == WithUsers(NewState(connLimiter.View(), alive), tag, users)
    {
      this.config, this.connLimiter := config, connLimiter;
      this.limits, this.alive := map[], alive;
      online, past, speed, nextBucket := map[], map[], map[], 0;
      new;
      ghost var start := View();
      for i := 0 to |users|
        invariant Valid() && fresh(this) && this.config == config && this.connLimiter == connLimiter
        invariant WithUsers(View(), tag, users[i..]) == WithUsers(start, tag, users)
      {
        limits := limits[UserTag(tag, users[i].uuid) := NewRecord(users[i])];
        assert users[i..][1..] == users[i + 1..];
      }
    }

    method CheckLimit(user: User, ip: Ip, isTcp: bool, noSSUDP: bool, now: Time) returns (v: Verdict)
      requires Valid()
      modifies this, connLimiter
      ensures Valid() && (View(), v) == Check(config, old(View()), user, ip, isTcp, noSSUDP, now)
    {
      var limited := connLimiter.AddConnCount(user, ip, isTcp, now);
      if limited {
        return ConnRejected;
      }
      if user !in limits {
        return Unknown;
      }
      var u := limits[user];
      var userLimit := TakeLimit(user, u, now);
      if noSSUDP {
        var full := EnterDevice(user, ip, u.uid, OverDeviceLimit(u.deviceLimit, AliveOf(alive, u.uid)), now);
        if full {
          return DeviceRejected;
        }
      }
      var bucket := BucketFor(user, Rate(DetermineSpeedLimit(config.speedLimit, userLimit)));
      return Accepted(bucket);
    }

    // The user's own limit; an expired dynamic limit is dropped on the way.
    method TakeLimit(user: User, u: L.UserLimitInfo, now: Time) returns (userLimit: int)
      requires user in limits && limits[user] == u
      modifies this`limits
      ensures limits == WithRecord(old(limits), user, RecordAfter(u, now)) && userLimit == UserLimit(u, now)
    {
      userLimit := 0;
      if u.expireTime < Unix(now) && u.expireTime != 0 {
        if u.speedLimit != 0 {
          userLimit := u.speedLimit;
          limits := limits[user := L.Mutate(L.DropDynamic, u)];
        } else {
          limits := limits - {user};
        }
      } else {
        userLimit := DetermineSpeedLimit(u.speedLimit, u.dynamicSpeedLimit);
      }
    }

    method EnterDevice(user: User, ip: Ip, uid: int, over: bool, now: Time) returns (full: bool)
      modifies this`online, this`past
      ensures (Devices(online, past), full) ==
              CheckDevice(Devices(old(online), old(past)), user, ip, uid, over, config.oldOnlineTTL, now)
    {
      if user in online {
        if ip !in online[user] {
          online := online[user := online[user][ip := uid]];
          if over {
            online := online[user := online[user] - {ip}];
            assert online[user] == old(online)[user];
            assert online == old(online);
            return true;
          }
        }
        return false;
      }
      online := online[user := map[ip := uid]];
      var seen := OldOnlineLookup(ip, now);
      if seen.Some? {
        if seen.value == uid {
          past := past - {ip};
        }
        return false;
      }
      if over {
        online := online - {user};
        assert online == old(online);
        return true;
      }
      return false;
    }

    method OldOnlineLookup(ip: Ip, now: Time) returns (uid: Option<int>)
      modifies this`past
      ensures var known := ip in old(past) && !Forgotten(old(past)[ip], config.oldOnlineTTL, now);
        && uid == (if known then Some(old(past)[ip].uid) else None)
        && past == if known then old(past) else old(past) - {ip}
    {
      if ip !in past {
        assert past == past - {ip};
        return None;
      }
      if now - past[ip].seenAt > config.oldOnlineTTL {
        past := past - {ip};
        return None;
      }
      return Some(past[ip].uid);
    }

    method BucketFor(user: User, rate: int) returns (bucket: Option<BucketId>)
      modifies this`speed, this`nextBucket
      ensures (Buckets(speed, nextBucket), bucket) == TakeBucket(Buckets(old(speed), old(nextBucket)), user, rate)
    {
      if rate > 0 {
        if user in speed && speed[user].limit == rate {
          return Some(speed[user].bucket);
        }
        bucket := Some(nextBucket);
        speed := speed[user := SpeedBucket(rate, nextBucket)];
        nextBucket := nextBucket + 1;
      } else {
        speed := speed - {user};
        bucket := None;
      }
    }

    method AddDynamicSpeedLimit(tag: string, u: UserInfo, limitNum: int, expire: int, now: Time)
      modifies this`limits, this`speed
      ensures View() == WithDynamic(old(View()), tag, u, limitNum, Unix(now + expire * SECOND))
    {
      var key := UserTag(tag, u.uuid);
      var expireTime := Unix(now + expire * SECOND);
      if key in limits {
        limits := limits[key := L.Mutate(L.SetDynamic(limitNum, expireTime), limits[key])];
      } else {
        limits := limits[key := L.UserLimitInfo(u.id, 0, 0, limitNum, expireTime, false)];
      }
      speed := speed - {key};
    }

    method UpdateDynamicSpeedLimit(tag: string, uuid: string, limit: int, expire: int) returns (found: bool)
      modifies this`limits, this`speed
      ensures found == (UserTag(tag, uuid) in old(limits))
      ensures View() == if found then WithDynamic(old(View()), tag, UserInfo(0, uuid, 0, 0), limit, expire) else old(View())
    {
      var key := UserTag(tag, uuid);
      if key !in limits {
        return false;
      }
      limits := limits[key := L.Mutate(L.SetDynamic(limit, expire), limits[key])];
      speed := speed - {key};
      return true;
    }

    method UpdateUser(tag: string, added: seq<UserInfo>, deleted: seq<UserInfo>)
      modifies this
      ensures View() == Updated(old(View()), tag, added, deleted)
    {
      ghost var before := View();
      for i := 0 to |deleted|
        invariant WithoutUsers(View(), tag, deleted[i..]) == WithoutUsers(before, tag, deleted)
      {
        var key := UserTag(tag, deleted[i].uuid);
        limits := limits - {key};
        online := online - {key};
        speed := speed - {key};
        alive := alive - {deleted[i].id};
        assert deleted[i..][1..] == deleted[i + 1..];
      }
      ghost var between := View();
      for i := 0 to |added|
        invariant WithUsers(View(), tag, added[i..]) == WithUsers(between, tag, added)
      {
        limits := limits[UserTag(tag, added[i].uuid) := NewRecord(added[i])];
        assert added[i..][1..] == added[i + 1..];
      }
    }

    method RotateDeviceWindow(now: Time)
      modifies this`online, this`past
      ensures Rotated(Devices(old(online), old(past)), Devices(online, past), now)
    {
      ghost var d := Devices(online, past);
      ghost var seen: set<(User, Ip)> := {};
      var users := online.Keys;
      while users != {}
        invariant users == online.Keys
        invariant forall u :: u in online ==> u in d.online && online[u] == d.online[u]
        invariant forall u, ip :: (u, ip) in seen <==> SeenFrom(d, u, ip) && u !in users
        invariant Moved(d, seen, past, now)
        decreases |users|
      {
        var u :| u in users;
        var ips := online[u].Keys;
        ghost var window := online;
        while ips != {}
          invariant ips <= d.online[u].Keys && online == window
          invariant forall v, ip :: (v, ip) in seen <==>
                      SeenFrom(d, v, ip) && if v == u then ip !in ips else v !in users
          invariant Moved(d, seen, past, now)
          decreases |ips|
        {
          var ip :| ip in ips;
          MoveOne(d, seen, past, now, u, ip);
          if ip != "" {
            past := past[ip := OldEntry(online[u][ip], now)];
          }
          seen := seen + {(u, ip)};
          ips := ips - {ip};
        }
        users := users - {u};
        online := online - {u};
      }
      assert forall p: (User, Ip) :: p in seen <==> (p.0, p.1) in AllSeen(d);
    }

    method SweepOldOnline(now: Time)
      modifies this`past
      ensures Devices(online, past) == SweptOld(Devices(online, old(past)), config.oldOnlineTTL, now)
    {
      ghost var before := past;
      var ips := past.Keys;
      while ips != {}
        invariant ips <= before.Keys
        invariant past ==
          map ip | ip in before && (ip in ips || !Forgotten(before[ip], config.oldOnlineTTL, now)) :: before[ip]
        decreases |ips|
      {
        var ip :| ip in ips;
        ips := ips - {ip};
        if now - past[ip].seenAt > config.oldOnlineTTL {
          past := past - {ip};
        }
      }
    }
  }

  lemma MoveOne(d: Devices, seen: set<(User, Ip)>, past: map<Ip, OldEntry>, now: Time, u: User, ip: Ip)
    requires Moved(d, seen, past, now) && SeenFrom(d, u, ip)
    ensures Moved(d, seen + {(u, ip)}, if ip == "" then past else past[ip := OldEntry(d.online[u][ip], now)], now)
  {
    var after := if ip == "" then past else past[ip := OldEntry(d.online[u][ip], now)];
    assert (u, ip) in seen + {(u, ip)};
    forall i ensures EntryAfter(d, seen + {(u, ip)}, i, now, Lookup(after, i)) {
      assert EntryAfter(d, seen, i, now, Lookup(past, i));
      if i != ip {
        assert forall v :: (v, i) in seen + {(u, ip)} <==> (v, i) in seen;
      }
    }
  }
}
