/**
 The connection and IP limits of limiter/conn.go: a TCP connection count per user and, per
 user, a map from IP to either a weighted connection counter (realtime) or the time of the
 last connection.
 */
module ConnLimiting {

  type User = string
  type Ip = string

  datatype Entry = Conns(n: int) | Seen(at: int)

  datatype Config = Config(realtime: bool, ipLimit: int, connLimit: int)

  datatype Tables = Tables(count: map<User, int>, ip: map<User, map<Ip, Entry>>)

  // --- What the operations do to the tables ---------------------------------------------

  function Counted(c: Config, t: Tables, user: User, isTcp: bool): Tables {
    if c.connLimit == 0 || !isTcp then t
    else t.(count := t.count[user := if user in t.count then t.count[user] + 1 else 1])
  }

  function Released(c: Config, t: Tables, user: User): Tables {
    if c.connLimit == 0 || user !in t.count then t
    else if t.count[user] <= 1 then t.(count := t.count - {user})
    else t.(count := t.count[user := t.count[user] - 1])
  }

  predicate ConnRejected(c: Config, t: Tables, user: User) {
    c.connLimit != 0 && user in t.count && t.count[user] >= c.connLimit
  }

  function IpsOf(t: Tables, user: User): map<Ip, Entry> {
    if user in t.ip then t.ip[user] else map[]
  }

  predicate IpRejected(c: Config, ips: map<Ip, Entry>, ip: Ip) {
    ip !in ips && c.ipLimit > 0 && |ips| >= c.ipLimit
  }

  // The entry of an IP once a connection from it has been accepted.
  function Touched(c: Config, ips: map<Ip, Entry>, ip: Ip, isTcp: bool, now: int): Entry {
    if !c.realtime then Seen(now)
    else if ip in ips then
      if isTcp && ips[ip].Conns? then Conns(ips[ip].n + 2) else ips[ip]
    else Conns(if isTcp then 2 else 1)
  }

  function AddTo(c: Config, t: Tables, user: User, ip: Ip, isTcp: bool, now: int): (r: (Tables, bool)) {
    if ConnRejected(c, t, user) then (t, true)
    else
      var t1 := Counted(c, t, user, isTcp);
      var ips := IpsOf(t, user);
      if IpRejected(c, ips, ip) then (Released(c, t1, user), true)
      else (t1.(ip := t.ip[user := ips[ip := Touched(c, ips, ip, isTcp, now)]]), false)
  }

  function DelFrom(c: Config, t: Tables, user: User, ip: Ip): Tables {
    var t1 := Released(c, t, user);
    if !c.realtime || c.ipLimit == 0 || user !in t.ip || ip !in t.ip[user] || t.ip[user][ip].Seen? then t1
    else
      var n := t.ip[user][ip].n;
      var ips := if n == 2 then t.ip[user] - {ip} else t.ip[user][ip := Conns(n - 2)];
      t1.(ip := if ips == map[] then t.ip - {user} else t.ip[user := ips])
  }

  // A packet-only entry, or one that has not been touched within the online window.
  predicate Stale(e: Entry, cutoff: int) {
    match e
    case Conns(n) => n == 1
    case Seen(at) => at < cutoff
  }

  function FreshIps(ips: map<Ip, Entry>, cutoff: int): map<Ip, Entry> {
    map ip | ip in ips && !Stale(ips[ip], cutoff) :: ips[ip]
  }

  function SweptIps(ip: map<User, map<Ip, Entry>>, cutoff: int): map<User, map<Ip, Entry>> {
    map user | user in ip && FreshIps(ip[user], cutoff) != map[] :: FreshIps(ip[user], cutoff)
  }

  function Swept(t: Tables, cutoff: int): Tables { Tables(t.count, SweptIps(t.ip, cutoff)) }

  lemma SweptIs(t: Tables, cutoff: int, left: map<User, map<Ip, Entry>>)
    requires left == SweptIps(t.ip, cutoff)
    ensures Swept(t, cutoff) == Tables(t.count, left)
  {
  }

  // Halfway through a sweep: the users in `todo` have not been visited.
  ghost function PartlySwept(ip: map<User, map<Ip, Entry>>, todo: set<User>, cutoff: int): map<User, map<Ip, Entry>> {
    map user | user in ip && (user in todo || FreshIps(ip[user], cutoff) != map[]) ::
      if user in todo then ip[user] else FreshIps(ip[user], cutoff)
  }

  lemma SweepOne(ip: map<User, map<Ip, Entry>>, todo: set<User>, cutoff: int, user: User)
    requires user in ip && user in todo
    ensures var was := PartlySwept(ip, todo, cutoff); var kept := FreshIps(ip[user], cutoff);
      && user in was && was[user] == ip[user]
      && PartlySwept(ip, todo - {user}, cutoff) == if kept == map[] then was - {user} else was[user := kept]
  {
  }

  lemma SweepStarts(ip: map<User, map<Ip, Entry>>, cutoff: int)
    ensures PartlySwept(ip, ip.Keys, cutoff) == ip
  {
  }

  lemma SweepEnds(ip: map<User, map<Ip, Entry>>, cutoff: int)
    ensures SweptIps(ip, cutoff) == PartlySwept(ip, {}, cutoff)
  {
  }

  /** The limiter object. */
  class ConnLimiter {
    const config: Config
    var onlineTTL: int
    var count: map<User, int>
    var ip: map<User, map<Ip, Entry>>

    ghost function View(): Tables
      reads this
    {
      Tables(count, ip)
    }

    constructor (conn: int, ip: int, realtime: bool, onlineTTL: int, defaultTTL: int)
      ensures config == Config(realtime, ip, conn) && View() == Tables(map[], map[])
      ensures this.onlineTTL == if onlineTTL <= 0 then defaultTTL else onlineTTL
    {
      config := Config(realtime, ip, conn);
      this.onlineTTL := if onlineTTL <= 0 then defaultTTL else onlineTTL;
      count, this.ip := map[], map[];
    }

    method AddCount(user: User, isTcp: bool)
      modifies this`count
      ensures View() == Counted(config, old(View()), user, isTcp)
    {
      if config.connLimit == 0 || !isTcp {
        return;
      }
      if user in count {
        count := count[user := count[user] + 1];
      } else {
        count := count[user := 1];
      }
    }

    method DelCount(user: User)
      modifies this`count
      ensures View() == Released(config, old(View()), user)
    {
      if config.connLimit == 0 {
        return;
      }
      if user in count {
        if count[user] <= 1 {
          count := count - {user};
        } else {
          count := count[user := count[user] - 1];
        }
      }
    }

    // Counts the IPs of a user until the limit is reached.
    method AtIpLimit(ips: map<Ip, Entry>) returns (limit: bool)
      requires config.ipLimit > 0
      ensures limit <==> |ips| >= config.ipLimit
    {
      var cn := 0;
      var rest := ips.Keys;
      while rest != {}
        invariant rest <= ips.Keys && cn + |rest| == |ips.Keys| && cn < config.ipLimit
        decreases |rest|
      {
        var k :| k in rest;
        rest := rest - {k};
        cn := cn + 1;
        if cn >= config.ipLimit {
          return true;
        }
      }
      return false;
    }

    method StoreIp(user: User, ip: Ip, isTcp: bool, now: int) returns (limit: bool)
      modifies this`ip
      ensures var ips := IpsOf(old(View()), user);
        && limit == IpRejected(config, ips, ip)
        && this.ip == if limit then old(this.ip) else old(this.ip)[user := ips[ip := Touched(config, ips, ip, isTcp, now)]]
    {
      var ips := if user in this.ip then this.ip[user] else map[];
      if ip in ips {
        if config.realtime {
          if isTcp && ips[ip].Conns? {
            ips := ips[ip := Conns(ips[ip].n + 2)];
          }
        } else {
          ips := ips[ip := Seen(now)];
        }
        assert ips == ips[ip := ips[ip]];
        this.ip := this.ip[user := ips];
        return false;
      }
      if config.ipLimit > 0 {
        limit := AtIpLimit(ips);
        if limit {
          return true;
        }
      }
      if config.realtime {
        ips := ips[ip := Conns(if isTcp then 2 else 1)];
      } else {
        ips := ips[ip := Seen(now)];
      }
      this.ip := this.ip[user := ips];
      return false;
    }

    method AddConnCount(user: User, ip: Ip, isTcp: bool, now: int) returns (limit: bool)
      modifies this
      ensures (View(), limit) == AddTo(config, old(View()), user, ip, isTcp, now)
      ensures onlineTTL == old(onlineTTL)
    {
      if config.connLimit != 0 {
        if user in count && count[user] >= config.connLimit {
          return true;
        }
        AddCount(user, isTcp);
      }
      limit := StoreIp(user, ip, isTcp, now);
      if limit {
        DelCount(user);
      }
    }

    method DelConnCount(user: User, ip: Ip)
      modifies this
      ensures View() == DelFrom(config, old(View()), user, ip)
      ensures onlineTTL == old(onlineTTL)
    {
      DelCount(user);
      if !config.realtime {
        return;
      }
      if config.ipLimit == 0 {
        return;
      }
      if user in this.ip {
        var ips := this.ip[user];
        if ip in ips && ips[ip].Conns? {
          if ips[ip].n == 2 {
            ips := ips - {ip};
          } else {
            ips := ips[ip := Conns(ips[ip].n - 2)];
          }
          if ips == map[] {
            this.ip := this.ip - {user};
          } else {
            this.ip := this.ip[user := ips];
          }
        }
      }
    }

    method ClearOnlineIp(now: int)
      modifies this
      ensures View() == Swept(old(View()), now - onlineTTL) && onlineTTL == old(onlineTTL)
    {
      var cutoff := now - onlineTTL;
      var left := ClearUsers(ip, cutoff);
      SweptIs(View(), cutoff, left);
      ip := left;
    }

    static method ClearUsers(ip: map<User, map<Ip, Entry>>, cutoff: int) returns (left: map<User, map<Ip, Entry>>)
      ensures left == SweptIps(ip, cutoff)
    {
      SweepEnds(ip, cutoff);
      SweepStarts(ip, cutoff);
      left := ip;
      var users := ip.Keys;
      while users != {}
        invariant users <= ip.Keys && left == PartlySwept(ip, users, cutoff)
        decreases |users|
      {
        var u :| u in users;
        SweepOne(ip, users, cutoff, u);
        var kept := ClearUser(left[u], cutoff);
        if kept == map[] {
          left := left - {u};
        } else {
          left := left[u := kept];
        }
        users := users - {u};
      }
    }

    static method ClearUser(ips: map<Ip, Entry>, cutoff: int) returns (kept: map<Ip, Entry>)
      ensures kept == FreshIps(ips, cutoff)
    {
      kept := ips;
      var rest := ips.Keys;
      while rest != {}
        invariant rest <= ips.Keys && kept.Keys <= ips.Keys
        invariant forall k :: k in ips && (k in rest || !Stale(ips[k], cutoff)) <==> k in kept
        invariant forall k :: k in kept ==> kept[k] == ips[k]
        decreases |rest|
      {
        var k :| k in rest;
        rest := rest - {k};
        match kept[k] {
          case Conns(n) =>
            if n == 1 {
              kept := kept - {k};
            }
          case Seen(at) =>
            if at < cutoff {
              kept := kept - {k};
            }
        }
      }
    }
  }

  // --- Runs --------------------------------------------------------------------------------

  // The accepted TCP connections that are still open, in the order they came.
  datatype Conn = Conn(user: User, ip: Ip)

  datatype State = State(t: Tables, open: seq<Conn>)

  const Init := State(Tables(map[], map[]), [])

  datatype Event =
    | Connect(user: User, ip: Ip, isTcp: bool, now: int)
    | Disconnect(i: nat)          // one of the open connections closes
    | Sweep(cutoff: int)

  predicate Enabled(s: State, e: Event) {
    e.Disconnect? ==> e.i < |s.open|
  }

  function Apply(c: Config, s: State, e: Event): State
    requires Enabled(s, e)
  {
    match e
    case Connect(user, ip, isTcp, now) =>
      var (t, rejected) := AddTo(c, s.t, user, ip, isTcp, now);
      State(t, if isTcp && !rejected then s.open + [Conn(user, ip)] else s.open)
    case Disconnect(i) =>
      State(DelFrom(c, s.t, s.open[i].user, s.open[i].ip), s.open[..i] + s.open[i + 1..])
    case Sweep(cutoff) => s.(t := Swept(s.t, cutoff))
  }

  function One(b: bool): nat { if b then 1 else 0 }

  function OpenOf(open: seq<Conn>, user: User): nat {
    if open == [] then 0
    else OpenOf(open[..|open| - 1], user) + One(open[|open| - 1].user == user)
  }

  function OpenAt(open: seq<Conn>, user: User, ip: Ip): nat {
    if open == [] then 0
    else OpenAt(open[..|open| - 1], user, ip) + One(open[|open| - 1] == Conn(user, ip))
  }

  lemma {:induction false} RemovedOne(open: seq<Conn>, i: nat, user: User, ip: Ip)
    requires i < |open|
    ensures var rest := open[..i] + open[i + 1..];
      && OpenOf(rest, user) == OpenOf(open, user) - One(open[i].user == user)
      && OpenAt(rest, user, ip) == OpenAt(open, user, ip) - One(open[i] == Conn(user, ip))
    decreases |open|
  {
    var last := |open| - 1;
    var rest := open[..i] + open[i + 1..];
    if i == last {
      assert rest == open[..last];
    } else {
      RemovedOne(open[..last], i, user, ip);
      assert open[..last][..i] + open[..last][i + 1..] == rest[..|rest| - 1];
      assert rest[|rest| - 1] == open[last];
    }
  }

  lemma AddedOne(open: seq<Conn>, c: Conn, user: User, ip: Ip)
    ensures OpenOf(open + [c], user) == OpenOf(open, user) + One(c.user == user)
    ensures OpenAt(open + [c], user, ip) == OpenAt(open, user, ip) + One(c == Conn(user, ip))
  {
    assert (open + [c])[..|open|] == open;
  }

  function CountIn(count: map<User, int>, user: User): int { if user in count then count[user] else 0 }

  function CountOf(t: Tables, user: User): int { CountIn(t.count, user) }

  // The count of every user is the number of accepted TCP connections still open.
  ghost predicate CountsOpen(s: State) {
    && (forall u :: u in s.t.count ==> s.t.count[u] >= 1)
    && (forall u :: CountOf(s.t, u) == OpenOf(s.open, u))
  }

  // Each IP carries twice its open connections plus a packet bit, and is there iff that is not 0.
  ghost predicate WeighsOpen(s: State) {
    forall u, i :: WeightOk(s, u, i)
  }

  ghost predicate WeightOk(s: State, u: User, i: Ip) {
    var ips := IpsOf(s.t, u);
    if i in ips then
      ips[i].Conns? && ips[i].n >= 1 && ips[i].n / 2 == OpenAt(s.open, u, i)
    else OpenAt(s.open, u, i) == 0
  }

  ghost predicate WithinLimits(c: Config, t: Tables) {
    forall u :: UserWithin(c, t, u)
  }

  ghost predicate Inv(c: Config, s: State) {
    && (c.connLimit > 0 ==> CountsOpen(s))
    && (c.realtime && c.ipLimit > 0 ==> WeighsOpen(s))
    && WithinLimits(c, s.t)
  }

  // A packet connection that the IP limit rejects although its user has a counted connection.
  predicate Miscounts(c: Config, s: State, e: Event) {
    && e.Connect? && !e.isTcp && e.user in s.t.count
    && !ConnRejected(c, s.t, e.user) && IpRejected(c, IpsOf(s.t, e.user), e.ip)
  }

  // What a connection does to the count of one user.
  lemma AddMovesCount(c: Config, t: Tables, e: Event, u: User)
    requires c.connLimit > 0 && e.Connect? && forall v :: v in t.count ==> t.count[v] >= 1
    ensures var (t', rejected) := AddTo(c, t, e.user, e.ip, e.isTcp, e.now);
      && (u in t'.count ==> t'.count[u] >= 1)
      && CountOf(t', u) == CountOf(t, u) + One(u == e.user && e.isTcp && !rejected) -
                           One(u == e.user && !e.isTcp && e.user in t.count &&
                               !ConnRejected(c, t, u) && IpRejected(c, IpsOf(t, u), e.ip))
  {
  }

  lemma AddCountsIff(c: Config, s: State, e: Event)
    requires c.connLimit > 0 && CountsOpen(s) && e.Connect?
    ensures CountsOpen(Apply(c, s, e)) <==> !Miscounts(c, s, e)
  {
    var s' := Apply(c, s, e);
    forall u ensures CountOf(s'.t, u) == OpenOf(s'.open, u) - One(u == e.user && Miscounts(c, s, e))
             ensures u in s'.t.count ==> s'.t.count[u] >= 1
    {
      AddMovesCount(c, s.t, e, u);
      AddedOne(s.open, Conn(e.user, e.ip), u, e.ip);
      assert CountOf(s.t, u) == OpenOf(s.open, u);
    }
    if Miscounts(c, s, e) {
      assert CountOf(s'.t, e.user) != OpenOf(s'.open, e.user);
    }
  }

  lemma ReleasedCount(c: Config, t: Tables, user: User, u: User)
    requires c.connLimit > 0 && user in t.count && t.count[user] >= 1
    ensures var t' := Released(c, t, user);
      && CountOf(t', u) == CountOf(t, u) - One(u == user)
      && (u in t'.count ==> u in t.count && (t'.count[u] >= 1 || t.count[u] < 1))
  {
  }

  lemma DelKeepsCounts(c: Config, s: State, e: Event)
    requires c.connLimit > 0 && CountsOpen(s) && Enabled(s, e) && e.Disconnect?
    ensures CountsOpen(Apply(c, s, e))
  {
    var s' := Apply(c, s, e);
    var user := s.open[e.i].user;
    assert CountOf(s.t, user) == OpenOf(s.open, user);
    RemovedOne(s.open, e.i, user, s.open[e.i].ip);
    assert s'.t.count == Released(c, s.t, user).count;
    forall u ensures CountOf(s'.t, u) == OpenOf(s'.open, u) && (u in s'.t.count ==> s'.t.count[u] >= 1) {
      RemovedOne(s.open, e.i, u, s.open[e.i].ip);
      ReleasedCount(c, s.t, user, u);
    }
  }

  lemma AddKeepsWeights(c: Config, s: State, e: Event, u: User, i: Ip)
    requires c.realtime && c.ipLimit > 0 && e.Connect?
    requires WeightOk(s, u, i)
    ensures WeightOk(Apply(c, s, e), u, i)
  {
    AddedOne(s.open, Conn(e.user, e.ip), u, i);
    var (t, rejected) := AddTo(c, s.t, e.user, e.ip, e.isTcp, e.now);
    if !rejected {
      var ips := IpsOf(s.t, e.user);
      assert IpsOf(t, u) == if u == e.user then ips[e.ip := Touched(c, ips, e.ip, e.isTcp, e.now)] else IpsOf(s.t, u);
    } else {
      assert IpsOf(t, u) == IpsOf(s.t, u);
    }
  }

  lemma DelKeepsWeights(c: Config, s: State, e: Event, u: User, i: Ip)
    requires c.realtime && c.ipLimit > 0 && Enabled(s, e) && e.Disconnect?
    requires WeightOk(s, u, i) && WeightOk(s, s.open[e.i].user, s.open[e.i].ip)
    ensures WeightOk(Apply(c, s, e), u, i)
  {
    var o := s.open[e.i];
    RemovedOne(s.open, e.i, u, i);
    RemovedOne(s.open, e.i, o.user, o.ip);
    var t := DelFrom(c, s.t, o.user, o.ip);
    var ips := IpsOf(s.t, o.user);
    assert o.ip in ips by {
      RemovedOne(s.open, e.i, o.user, o.ip);
    }
    var n := ips[o.ip].n;
    assert IpsOf(t, u) ==
      if u != o.user then IpsOf(s.t, u)
      else if n == 2 then ips - {o.ip} else ips[o.ip := Conns(n - 2)];
  }

  lemma SweepKeepsWeights(c: Config, s: State, e: Event, u: User, i: Ip)
    requires c.realtime && c.ipLimit > 0 && e.Sweep? && WeightOk(s, u, i)
    ensures WeightOk(Apply(c, s, e), u, i)
  {
    var t := Swept(s.t, e.cutoff);
    assert IpsOf(t, u) == FreshIps(IpsOf(s.t, u), e.cutoff);
  }

  lemma WeightsKept(c: Config, s: State, e: Event)
    requires c.realtime && c.ipLimit > 0 && WeighsOpen(s) && Enabled(s, e)
    ensures WeighsOpen(Apply(c, s, e))
  {
    forall u, i ensures WeightOk(Apply(c, s, e), u, i) {
      assert WeightOk(s, u, i);
      match e
      case Connect(_, _, _, _) => AddKeepsWeights(c, s, e, u, i);
      case Disconnect(k) =>
        assert WeightOk(s, s.open[k].user, s.open[k].ip);
        DelKeepsWeights(c, s, e, u, i);
      case Sweep(_) => SweepKeepsWeights(c, s, e, u, i);
    }
  }

  lemma SmallerIps(a: map<Ip, Entry>, b: map<Ip, Entry>)
    requires a.Keys <= b.Keys
    ensures |a| <= |b|
  {
    assert b.Keys == a.Keys + (b.Keys - a.Keys);
    assert |a| == |a.Keys| && |b| == |b.Keys|;
  }

  ghost predicate UserWithin(c: Config, t: Tables, u: User) {
    && (c.connLimit > 0 && u in t.count ==> t.count[u] <= c.connLimit)
    && (u in t.ip ==> t.ip[u] != map[] && (c.ipLimit > 0 ==> |t.ip[u]| <= c.ipLimit))
  }

  lemma LimitsKept(c: Config, s: State, e: Event, u: User)
    requires UserWithin(c, s.t, u) && Enabled(s, e)
    ensures UserWithin(c, Apply(c, s, e).t, u)
  {
    match e
    case Connect(_, _, _, _) => AddKeepsLimits(c, s.t, e, u);
    case Disconnect(i) =>
      if s.open[i].user == u && u in s.t.ip {
        SmallerIps(s.t.ip[u] - {s.open[i].ip}, s.t.ip[u]);
        if s.open[i].ip in s.t.ip[u] && s.t.ip[u][s.open[i].ip].Conns? {
          SmallerIps(s.t.ip[u][s.open[i].ip := Conns(s.t.ip[u][s.open[i].ip].n - 2)], s.t.ip[u]);
        }
      }
    case Sweep(cutoff) =>
      if u in s.t.ip {
        SmallerIps(FreshIps(s.t.ip[u], cutoff), s.t.ip[u]);
      }
  }

  lemma AddKeepsLimits(c: Config, t: Tables, e: Event, u: User)
    requires UserWithin(c, t, u) && e.Connect?
    ensures UserWithin(c, AddTo(c, t, e.user, e.ip, e.isTcp, e.now).0, u)
  {
    var ips := IpsOf(t, e.user);
    if !IpRejected(c, ips, e.ip) {
      TouchedFits(c, ips, e.ip, Touched(c, ips, e.ip, e.isTcp, e.now));
    }
  }

  lemma TouchedFits(c: Config, ips: map<Ip, Entry>, ip: Ip, touched: Entry)
    requires !IpRejected(c, ips, ip)
    ensures ips[ip := touched] != map[]
    ensures c.ipLimit > 0 && |ips| <= c.ipLimit ==> |ips[ip := touched]| <= c.ipLimit
  {
    var after := ips[ip := touched];
    assert ip in after;
    if ip in ips {
      SmallerIps(after, ips);
    } else {
      assert after.Keys == ips.Keys + {ip} && |after| == |after.Keys|;
    }
  }

  predicate IsRun(c: Config, s: State, es: seq<Event>)
    decreases |es|
  {
    es == [] || (Enabled(s, es[0]) && IsRun(c, Apply(c, s, es[0]), es[1..]))
  }

  function After(c: Config, s: State, es: seq<Event>): State
    requires IsRun(c, s, es)
    decreases |es|
  {
    if es == [] then s else After(c, Apply(c, s, es[0]), es[1..])
  }

  predicate NeverMiscounts(c: Config, s: State, es: seq<Event>)
    requires IsRun(c, s, es)
    decreases |es|
  {
    es == [] || (!Miscounts(c, s, es[0]) && NeverMiscounts(c, Apply(c, s, es[0]), es[1..]))
  }

  ghost predicate AlwaysCountsOpen(c: Config, s: State, es: seq<Event>)
    requires IsRun(c, s, es)
    decreases |es|
  {
    CountsOpen(s) && (es == [] || AlwaysCountsOpen(c, Apply(c, s, es[0]), es[1..]))
  }

  lemma {:induction false} CountsOpenIff(c: Config, s: State, es: seq<Event>)
    requires c.connLimit > 0 && CountsOpen(s) && IsRun(c, s, es)
    ensures AlwaysCountsOpen(c, s, es) <==> NeverMiscounts(c, s, es)
    decreases |es|
  {
    if es != [] {
      StepCountsIff(c, s, es[0]);
      if CountsOpen(Apply(c, s, es[0])) {
        CountsOpenIff(c, Apply(c, s, es[0]), es[1..]);
      }
    }
  }

  /** One step keeps every user's count equal to the user's open connections exactly when it is
      not an IP-rejected packet connection of a user who has a counted connection: that
      rejection takes back a count it never added. */
  lemma StepCountsIff(c: Config, s: State, e: Event)
    requires c.connLimit > 0 && CountsOpen(s) && Enabled(s, e)
    ensures CountsOpen(Apply(c, s, e)) <==> !Miscounts(c, s, e)
  {
    match e
    case Connect(_, _, _, _) => AddCountsIff(c, s, e);
    case Disconnect(_) => DelKeepsCounts(c, s, e);
    case Sweep(_) =>
  }

  /** Over every run the counts are right throughout if and only if no such rejection happens. */
  lemma CountsOpenExactly(c: Config, es: seq<Event>)
    requires c.connLimit > 0 && IsRun(c, Init, es)
    ensures AlwaysCountsOpen(c, Init, es) <==> NeverMiscounts(c, Init, es)
  {
    CountsOpenIff(c, Init, es);
  }

  lemma InvKept(c: Config, s: State, e: Event)
    requires Inv(c, s) && Enabled(s, e) && (c.connLimit > 0 ==> !Miscounts(c, s, e))
    ensures Inv(c, Apply(c, s, e))
  {
    if c.connLimit > 0 {
      StepCountsIff(c, s, e);
    }
    if c.realtime && c.ipLimit > 0 {
      WeightsKept(c, s, e);
    }
    forall u ensures UserWithin(c, Apply(c, s, e).t, u) {
      LimitsKept(c, s, e, u);
    }
  }

  lemma {:induction false} InvAfter(c: Config, s: State, es: seq<Event>)
    requires Inv(c, s) && IsRun(c, s, es) && (c.connLimit > 0 ==> NeverMiscounts(c, s, es))
    ensures Inv(c, After(c, s, es))
    decreases |es|
  {
    if es != [] {
      InvKept(c, s, es[0]);
      InvAfter(c, Apply(c, s, es[0]), es[1..]);
    }
  }

  // The sum of the halved weights over the IPs in `keys`.
  ghost function Halves(ips: map<Ip, Entry>, keys: set<Ip>): int
    requires keys <= ips.Keys && forall k :: k in keys ==> ips[k].Conns?
    decreases |keys|
  {
    if keys == {} then 0 else var k := Pick(keys); ips[k].n / 2 + Halves(ips, keys - {k})
  }

  ghost function Pick(keys: set<Ip>): (k: Ip)
    requires keys != {}
    ensures k in keys
  {
    var k :| k in keys; k
  }

  ghost function OpenAmong(open: seq<Conn>, user: User, keys: set<Ip>): nat
    decreases |keys|
  {
    if keys == {} then 0 else var k := Pick(keys); OpenAt(open, user, k) + OpenAmong(open, user, keys - {k})
  }

  lemma {:induction false} HalvesAreOpen(s: State, user: User, keys: set<Ip>)
    requires WeighsOpen(s) && keys <= IpsOf(s.t, user).Keys
    ensures forall k :: k in keys ==> IpsOf(s.t, user)[k].Conns?
    ensures Halves(IpsOf(s.t, user), keys) == OpenAmong(s.open, user, keys)
    decreases |keys|
  {
    forall k | k in keys ensures IpsOf(s.t, user)[k].Conns? {
      assert WeightOk(s, user, k);
    }
    if keys != {} {
      assert WeightOk(s, user, Pick(keys));
      HalvesAreOpen(s, user, keys - {Pick(keys)});
    }
  }

  lemma {:induction false} OpenAmongAdd(open: seq<Conn>, c: Conn, user: User, keys: set<Ip>)
    ensures OpenAmong(open + [c], user, keys) == OpenAmong(open, user, keys) + One(c.user == user && c.ip in keys)
    decreases |keys|
  {
    if keys != {} {
      AddedOne(open, c, user, Pick(keys));
      OpenAmongAdd(open, c, user, keys - {Pick(keys)});
    }
  }

  lemma {:induction false} OpenAmongAll(open: seq<Conn>, user: User, keys: set<Ip>)
    requires forall ip :: ip !in keys ==> OpenAt(open, user, ip) == 0
    ensures OpenAmong(open, user, keys) == OpenOf(open, user)
    decreases |open|
  {
    if open == [] {
      NobodyAmong(user, keys);
    } else {
      var last := |open| - 1;
      var c := open[last];
      assert open == open[..last] + [c];
      OpenAmongAdd(open[..last], c, user, keys);
      AddedOne(open[..last], c, user, c.ip);
      OpenAmongAll(open[..last], user, keys);
    }
  }

  lemma {:induction false} NobodyAmong(user: User, keys: set<Ip>)
    ensures OpenAmong([], user, keys) == 0
    decreases |keys|
  {
    if keys != {} {
      NobodyAmong(user, keys - {Pick(keys)});
    }
  }

  // The two tables say the same of a user, within both limits.
  ghost predicate TablesAgree(c: Config, s: State, user: User) {
    var ips := IpsOf(s.t, user);
    && (forall k :: k in ips ==> ips[k].Conns?)
    && CountOf(s.t, user) == OpenOf(s.open, user) == Halves(ips, ips.Keys)
    && OpenOf(s.open, user) <= c.connLimit && |ips| <= c.ipLimit
    && (user in s.t.ip ==> s.t.ip[user] != map[])
  }

  lemma InvAgrees(c: Config, s: State, user: User)
    requires c.realtime && c.connLimit > 0 && c.ipLimit > 0 && Inv(c, s)
    ensures TablesAgree(c, s, user)
  {
    var ips := IpsOf(s.t, user);
    HalvesAreOpen(s, user, ips.Keys);
    forall ip | ip !in ips.Keys ensures OpenAt(s.open, user, ip) == 0 {
      assert WeightOk(s, user, ip);
    }
    forall ip | ip in ips ensures ips[ip].Conns? {
      assert WeightOk(s, user, ip);
    }
    OpenAmongAll(s.open, user, ips.Keys);
    assert CountOf(s.t, user) == OpenOf(s.open, user);
    assert UserWithin(c, s.t, user);
  }

  /** In realtime mode with positive limits, over every run without such a rejection: a user's
      count is the number of the user's open TCP connections and the sum of the halved weights of
      the user's IPs; it never exceeds the connection limit, the IPs never exceed the IP limit
      and no stored IP map is empty. */
  lemma TheTwoTablesAgree(c: Config, es: seq<Event>, user: User)
    requires c.realtime && c.connLimit > 0 && c.ipLimit > 0
    requires IsRun(c, Init, es) && NeverMiscounts(c, Init, es)
    ensures TablesAgree(c, After(c, Init, es), user)
  {
    InvAfter(c, Init, es);
    InvAgrees(c, After(c, Init, es), user);
  }

  // --- What a sweep takes away ---------------------------------------------------------------

  // The user has a stored entry for this IP.
  predicate Stored(ips: map<User, map<Ip, Entry>>, user: User, ip: Ip) {
    user in ips && ip in ips[user]
  }

  // An entry a sweep leaves alone: it carries a connection, or was seen since the cutoff.
  predicate Remains(ips: map<User, map<Ip, Entry>>, user: User, ip: Ip, cutoff: int) {
    && Stored(ips, user, ip)
    && ips[user][ip] != Conns(1)
    && (ips[user][ip].Seen? ==> ips[user][ip].at >= cutoff)
  }

  /** A sweep removes exactly the packet-only entries and those not seen since the cutoff, changes no
      other entry, drops a user exactly when none is left, and touches no count. */
  lemma SweepRemovesExactly(t: Tables, s: Tables, cutoff: int)
    requires s == Swept(t, cutoff)
    ensures s.count == t.count
    ensures forall user, ip :: Stored(s.ip, user, ip) <==> Remains(t.ip, user, ip, cutoff)
    ensures forall user, ip :: Remains(t.ip, user, ip, cutoff) ==> s.ip[user][ip] == t.ip[user][ip]
    ensures forall user :: user in s.ip <==> exists ip :: Remains(t.ip, user, ip, cutoff)
  {
    forall user, ip | Remains(t.ip, user, ip, cutoff) ensures Stored(s.ip, user, ip) {
      assert ip in FreshIps(t.ip[user], cutoff);
    }
    forall user | user in s.ip ensures exists ip :: Remains(t.ip, user, ip, cutoff) {
      assert s.ip[user] != map[];
      var ip := Pick(s.ip[user].Keys);
      assert Remains(t.ip, user, ip, cutoff);
    }
  }

  // The IPs from which the user has an open TCP connection.
  ghost function Connected(open: seq<Conn>, user: User): set<Ip> {
    set i | 0 <= i < |open| && open[i].user == user :: open[i].ip
  }

  lemma {:induction false} ConnectedIsOpen(open: seq<Conn>, user: User, ip: Ip)
    ensures ip in Connected(open, user) <==> OpenAt(open, user, ip) > 0
    decreases |open|
  {
    if open != [] {
      var last := |open| - 1;
      ConnectedIsOpen(open[..last], user, ip);
      assert open == open[..last] + [open[last]];
      if ip in Connected(open[..last], user) {
        var i :| 0 <= i < last && open[..last][i] == Conn(user, ip);
        assert open[i] == Conn(user, ip);
      }
      if ip in Connected(open, user) && open[last] != Conn(user, ip) {
        var i :| 0 <= i < |open| && open[i] == Conn(user, ip);
        assert open[..last][i] == Conn(user, ip);
      }
    }
  }

  lemma {:induction false} WeighsAfter(c: Config, s: State, es: seq<Event>)
    requires c.realtime && c.ipLimit > 0 && WeighsOpen(s) && IsRun(c, s, es)
    ensures WeighsOpen(After(c, s, es))
    decreases |es|
  {
    if es != [] {
      WeightsKept(c, s, es[0]);
      WeighsAfter(c, Apply(c, s, es[0]), es[1..]);
    }
  }

  lemma SweptIpsAreConnected(c: Config, s: State, cutoff: int, user: User)
    requires c.realtime && c.ipLimit > 0 && WeighsOpen(s)
    ensures IpsOf(Apply(c, s, Sweep(cutoff)).t, user).Keys == Connected(s.open, user)
  {
    var s' := Apply(c, s, Sweep(cutoff));
    SweepRemovesExactly(s.t, s'.t, cutoff);
    forall ip ensures ip in IpsOf(s'.t, user) <==> ip in Connected(s.open, user) {
      ConnectedIsOpen(s.open, user, ip);
      assert WeightOk(s, user, ip);
      assert ip in IpsOf(s'.t, user) <==> Stored(s'.t.ip, user, ip);
    }
  }

  /** After a sweep only open TCP connections take up room: in any run of a realtime limiter the
      connection that comes next is refused exactly when the connection count is full, or it comes
      from an IP without an open connection while as many IPs as allowed have one. */
  lemma RefusedAfterASweepIff(c: Config, es: seq<Event>, cutoff: int, e: Event)
    requires c.realtime && c.ipLimit > 0 && IsRun(c, Init, es) && e.Connect?
    ensures var s := Apply(c, After(c, Init, es), Sweep(cutoff)); var ips := Connected(s.open, e.user);
      AddTo(c, s.t, e.user, e.ip, e.isTcp, e.now).1 <==>
        (c.connLimit != 0 && e.user in s.t.count && s.t.count[e.user] >= c.connLimit) ||
        (e.ip !in ips && |ips| >= c.ipLimit)
  {
    WeighsAfter(c, Init, es);
    var s := After(c, Init, es);
    SweptIpsAreConnected(c, s, cutoff, e.user);
    var ips := IpsOf(Apply(c, s, Sweep(cutoff)).t, e.user);
    assert |ips| == |ips.Keys|;
  }

  // What an accepted connection has left in the entry of its IP.
  predicate Marks(c: Config, was: map<User, map<Ip, Entry>>, e: Event, entry: Entry)
    requires e.Connect?
  {
    if !c.realtime then entry == Seen(e.now)
    else if !Stored(was, e.user, e.ip) then entry == Conns(if e.isTcp then 2 else 1)
    else if e.isTcp && was[e.user][e.ip].Conns? then entry == Conns(was[e.user][e.ip].n + 2)
    else entry == was[e.user][e.ip]
  }

  /** A connection is refused exactly when the user's count is full, or its IP is new and the user has
      as many IPs as allowed; then no IP entry changes. Otherwise its IP is marked, with the time of the
      connection or with its weight, and no other entry changes. */
  lemma ConnectionMarksItsIp(c: Config, t: Tables, e: Event)
    requires e.Connect?
    ensures var (t', refused) := AddTo(c, t, e.user, e.ip, e.isTcp, e.now);
      && (refused <==>
            (c.connLimit != 0 && e.user in t.count && t.count[e.user] >= c.connLimit) ||
            (c.ipLimit > 0 && !Stored(t.ip, e.user, e.ip) &&
             (if e.user in t.ip then |t.ip[e.user]| else 0) >= c.ipLimit))
      && (refused ==> t'.ip == t.ip)
      && (!refused ==> Stored(t'.ip, e.user, e.ip) && Marks(c, t.ip, e, t'.ip[e.user][e.ip]))
      && (forall u, i :: u != e.user || i != e.ip ==>
            (Stored(t'.ip, u, i) <==> Stored(t.ip, u, i)) && (Stored(t.ip, u, i) ==> t'.ip[u][i] == t.ip[u][i]))
  {
  }

  // The run neither connects the user from the IP again nor sweeps past the time.
  predicate Spares(es: seq<Event>, user: User, ip: Ip, at: int) {
    forall k :: 0 <= k < |es| ==>
      (es[k].Connect? ==> es[k].user != user || es[k].ip != ip) && (es[k].Sweep? ==> es[k].cutoff <= at)
  }

  /** Outside realtime mode an entry holds the time of the last connection from its IP for as long as
      that is inside the online window, also when the connection is closed. */
  lemma {:induction false} SeenLasts(c: Config, s: State, es: seq<Event>, user: User, ip: Ip, at: int)
    requires !c.realtime && IsRun(c, s, es) && Spares(es, user, ip, at)
    requires Stored(s.t.ip, user, ip) && s.t.ip[user][ip] == Seen(at)
    ensures var t := After(c, s, es).t; Stored(t.ip, user, ip) && t.ip[user][ip] == Seen(at)
    decreases |es|
  {
    if es != [] {
      SeenLastsOneStep(c, s, es[0], user, ip, at);
      SeenLasts(c, Apply(c, s, es[0]), es[1..], user, ip, at);
    }
  }

  lemma SeenLastsOneStep(c: Config, s: State, e: Event, user: User, ip: Ip, at: int)
    requires !c.realtime && Enabled(s, e)
    requires (e.Connect? ==> e.user != user || e.ip != ip) && (e.Sweep? ==> e.cutoff <= at)
    requires Stored(s.t.ip, user, ip) && s.t.ip[user][ip] == Seen(at)
    ensures var t := Apply(c, s, e).t; Stored(t.ip, user, ip) && t.ip[user][ip] == Seen(at)
  {
    if e.Connect? {
      ConnectionMarksItsIp(c, s.t, e);
    } else if e.Sweep? {
      SweepRemovesExactly(s.t, Apply(c, s, e).t, e.cutoff);
      assert Remains(s.t.ip, user, ip, e.cutoff);
    }
  }

  function OnlyA(count: map<User, int>, weight: int, open: seq<Conn>): State {
    State(Tables(count, map["u" := map["a" := Conns(weight)]]), open)
  }

  lemma AnotherFromA(c: Config, s: State, n: int, weight: int, open: seq<Conn>)
    requires c == Config(true, 1, 2) && 0 <= n < 2
    requires s == OnlyA(if n == 0 then map[] else map["u" := n], weight, open)
    ensures Apply(c, s, Connect("u", "a", true, 0)) == OnlyA(map["u" := n + 1], weight + 2, open + [Conn("u", "a")])
  {
    assert s.t.count["u" := n + 1] == map["u" := n + 1];
    assert s.t.ip["u"]["a" := Conns(weight + 2)] == map["a" := Conns(weight + 2)];
    assert s.t.ip["u" := map["a" := Conns(weight + 2)]] == map["u" := map["a" := Conns(weight + 2)]];
  }

  lemma PacketFromB(c: Config, s: State, weight: int, open: seq<Conn>)
    requires c == Config(true, 1, 2) && s == OnlyA(map["u" := 1], weight, open)
    ensures Apply(c, s, Connect("u", "b", false, 0)) == OnlyA(map[], weight, open)
  {
    assert |map["a" := Conns(weight)]| == 1;
    assert s.t.count - {"u"} == map[];
  }

  lemma FirstFromA(c: Config)
    requires c == Config(true, 1, 2)
    ensures Apply(c, Init, Connect("u", "a", true, 0)) == OnlyA(map["u" := 1], 2, [Conn("u", "a")])
  {
  }

  lemma ThreeOpen(a: Conn)
    requires a == Conn("u", "a")
    ensures OpenOf([a] + [a] + [a], "u") == 3
  {
    AddedOne([], a, "u", "a");
    AddedOne([a], a, "u", "a");
    AddedOne([a] + [a], a, "u", "a");
    assert [] + [a] == [a];
  }

  lemma RunOfFour(c: Config, s: State, es: seq<Event>)
    requires |es| == 4 && forall i :: 0 <= i < 4 ==> es[i].Connect?
    ensures IsRun(c, s, es)
    ensures After(c, s, es) == Apply(c, Apply(c, Apply(c, Apply(c, s, es[0]), es[1]), es[2]), es[3])
  {
    var s2 := Apply(c, Apply(c, s, es[0]), es[1]);
    var s3 := Apply(c, s2, es[2]);
    RunOfOne(c, s3, es[3]);
    assert es[1..][1..] == [es[2]] + [es[3]] && ([es[2]] + [es[3]])[1..] == [es[3]];
    assert IsRun(c, s2, es[1..][1..]) && After(c, s2, es[1..][1..]) == Apply(c, s3, es[3]);
  }

  lemma RunOfOne(c: Config, s: State, e: Event)
    requires e.Connect?
    ensures IsRun(c, s, [e]) && After(c, s, [e]) == Apply(c, s, e)
  {
    assert [e][1..] == [];
  }

  /** What the miscount leads to: with two connections allowed a user ends up with three. */
  lemma PacketRejectionLetsInOneTooMany(c: Config, es: seq<Event>)
    requires c == Config(true, 1, 2)
    requires es == [Connect("u", "a", true, 0), Connect("u", "b", false, 0),
                    Connect("u", "a", true, 0), Connect("u", "a", true, 0)]
    ensures IsRun(c, Init, es) && OpenOf(After(c, Init, es).open, "u") == c.connLimit + 1
  {
    var a := Conn("u", "a");
    RunOfFour(c, Init, es);
    FirstFromA(c);
    PacketFromB(c, OnlyA(map["u" := 1], 2, [a]), 2, [a]);
    AnotherFromA(c, OnlyA(map[], 2, [a]), 0, 2, [a]);
    AnotherFromA(c, OnlyA(map["u" := 1], 4, [a] + [a]), 1, 4, [a] + [a]);
    ThreeOpen(a);
  }
}
