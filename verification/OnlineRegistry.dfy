/**
 The registry of online devices (limiter/online_registry.go) and the windows it is run with
 (node/task.go, common/task/task.go). Times are nanoseconds; normalisation of addresses is a
 parameter.
 */
module OnlineRegistries {
  import opened Sorting
  import opened PeriodicTask

  const SECOND := 1_000_000_000
  const MIN_ONLINE_TTL := 90 * SECOND

  type Time = int

  datatype DeviceKey = DeviceKey(user: string, ip: string)

  datatype OnlineEntry = OnlineEntry(uid: int, refs: int, lastSeen: Time)

  datatype Registry = Registry(devices: map<DeviceKey, OnlineEntry>, ttl: int)

  predicate Usable(k: DeviceKey) { k.user != "" && k.ip != "" }

  // --- What the operations do ----------------------------------------------------------------

  function AtLeastMin(ttl: int): int { if ttl < MIN_ONLINE_TTL then MIN_ONLINE_TTL else ttl }

  function EntryFor(r: Registry, k: DeviceKey, uid: int): OnlineEntry {
    if k in r.devices then r.devices[k].(uid := if uid != 0 then uid else r.devices[k].uid)
    else OnlineEntry(uid, 0, 0)
  }

  function Touched(r: Registry, k: DeviceKey, uid: int, now: Time): Registry {
    if uid == 0 || !Usable(k) then r
    else r.(devices := r.devices[k := EntryFor(r, k, uid).(lastSeen := now)])
  }

  function Added(r: Registry, k: DeviceKey, uid: int, now: Time): Registry {
    if uid == 0 || !Usable(k) then r
    else
      var e := EntryFor(r, k, uid);
      r.(devices := r.devices[k := e.(refs := e.refs + 1, lastSeen := now)])
  }

  function Released(r: Registry, k: DeviceKey, now: Time): Registry {
    if !Usable(k) || k !in r.devices then r
    else
      var e := r.devices[k];
      r.(devices := r.devices[k := e.(refs := if e.refs > 0 then e.refs - 1 else e.refs, lastSeen := now)])
  }

  function WithoutUser(r: Registry, user: string): Registry {
    r.(devices := map k | k in r.devices && k.user != user :: r.devices[k])
  }

  predicate Expired(e: OnlineEntry, cutoff: Time) { e.refs <= 0 && e.lastSeen < cutoff }

  function Swept(r: Registry, now: Time): Registry {
    r.(devices := map k | k in r.devices && !Expired(r.devices[k], now - r.ttl) :: r.devices[k])
  }

  predicate Listed(r: Registry, k: DeviceKey) {
    k in r.devices && r.devices[k].uid != 0 && k.ip != ""
  }

  /** The registry object. */
  class OnlineRegistry {
    const norm: string -> string
    var devices: map<DeviceKey, OnlineEntry>
    var ttl: int

    ghost function View(): Registry
      reads this
    {
      Registry(devices, ttl)
    }

    constructor (ttl: int, norm: string -> string)
      ensures View() == Registry(map[], AtLeastMin(ttl)) && this.norm == norm
    {
      this.norm := norm;
      devices, this.ttl := map[], if ttl < MIN_ONLINE_TTL then MIN_ONLINE_TTL else ttl;
    }

    method SetTTL(ttl: int)
      modifies this
      ensures View() == old(View()).(ttl := AtLeastMin(ttl))
    {
      this.ttl := if ttl < MIN_ONLINE_TTL then MIN_ONLINE_TTL else ttl;
    }

    method Touch(user: string, ip: string, uid: int, now: Time)
      modifies this
      ensures View() == Touched(old(View()), DeviceKey(user, norm(ip)), uid, now)
    {
      var key := DeviceKey(user, norm(ip));
      if uid == 0 || !Usable(key) {
        return;
      }
      var e := if key in devices then devices[key] else OnlineEntry(uid, 0, 0);
      devices := devices[key := e.(uid := uid, lastSeen := now)];
    }

    method Add(user: string, ip: string, uid: int, now: Time)
      modifies this
      ensures View() == Added(old(View()), DeviceKey(user, norm(ip)), uid, now)
    {
      var key := DeviceKey(user, norm(ip));
      if uid == 0 || !Usable(key) {
        return;
      }
      var e := if key in devices then devices[key] else OnlineEntry(uid, 0, 0);
      devices := devices[key := e.(uid := uid, refs := e.refs + 1, lastSeen := now)];
    }

    method Del(user: string, ip: string, now: Time)
      modifies this
      ensures View() == Released(old(View()), DeviceKey(user, norm(ip)), now)
    {
      var key := DeviceKey(user, norm(ip));
      if !Usable(key) {
        return;
      }
      if key in devices {
        var e := devices[key];
        if e.refs > 0 {
          e := e.(refs := e.refs - 1);
        }
        devices := devices[key := e.(lastSeen := now)];
      }
    }

    method DeleteUser(user: string)
      modifies this
      ensures View() == WithoutUser(old(View()), user)
    {
      ghost var before := devices;
      var keys := devices.Keys;
      while keys != {}
        invariant keys <= before.Keys && ttl == old(ttl)
        invariant devices == map k | k in before && (k in keys || k.user != user) :: before[k]
        decreases |keys|
      {
        var k :| k in keys;
        keys := keys - {k};
        if k.user == user {
          devices := devices - {k};
        }
      }
    }

    method Sweep(now: Time)
      modifies this
      ensures View() == Swept(old(View()), now)
    {
      ghost var before := devices;
      var cutoff := now - ttl;
      var keys := devices.Keys;
      while keys != {}
        invariant keys <= before.Keys && ttl == old(ttl)
        invariant devices == map k | k in before && (k in keys || !Expired(before[k], cutoff)) :: before[k]
        decreases |keys|
      {
        var k :| k in keys;
        keys := keys - {k};
        if devices[k].refs <= 0 && devices[k].lastSeen < cutoff {
          devices := devices - {k};
        }
      }
    }

    // The devices, sorted by uid and IP; several users may share a device line.
    method Snapshot() returns (out: seq<OnlineUser>)
      ensures Sorted(UserOrder, out)
      ensures forall o :: o in out <==> exists k :: Listed(View(), k) && o == OnlineUser(devices[k].uid, k.ip)
    {
      out := [];
      var keys := devices.Keys;
      while keys != {}
        invariant keys <= devices.Keys
        invariant forall o :: o in out <==>
                    exists k :: k !in keys && Listed(View(), k) && o == OnlineUser(devices[k].uid, k.ip)
        decreases |keys|
      {
        var k :| k in keys;
        ghost var was, left := out, keys;
        if devices[k].uid != 0 && k.ip != "" {
          out := out + [OnlineUser(devices[k].uid, k.ip)];
        }
        keys := keys - {k};
        forall o ensures o in out <==>
                   exists k :: k !in keys && Listed(View(), k) && o == OnlineUser(devices[k].uid, k.ip)
        {
          if o in was {
            var j :| j !in left && Listed(View(), j) && o == OnlineUser(devices[j].uid, j.ip);
            assert j !in keys;
          }
        }
      }
      Orders();
      SortSorts(UserOrder, out);
      out := Sort(UserOrder, out);
    }
  }

  // --- Runs ----------------------------------------------------------------------------------------

  datatype Event =
    | Touch(k: DeviceKey, uid: int, now: Time)
    | Add(k: DeviceKey, uid: int, now: Time)
    | Del(k: DeviceKey, now: Time)
    | DeleteUser(user: string)
    | Sweep(now: Time)
    | SetTtl(ttl: int)

  function Apply(r: Registry, e: Event): Registry {
    match e
    case Touch(k, uid, now) => Touched(r, k, uid, now)
    case Add(k, uid, now) => Added(r, k, uid, now)
    case Del(k, now) => Released(r, k, now)
    case DeleteUser(user) => WithoutUser(r, user)
    case Sweep(now) => Swept(r, now)
    case SetTtl(ttl) => r.(ttl := AtLeastMin(ttl))
  }

  function After(r: Registry, es: seq<Event>): Registry
    decreases |es|
  {
    if es == [] then r else After(Apply(r, es[0]), es[1..])
  }

  predicate Deletes(e: Event, user: string) { e.DeleteUser? && e.user == user }

  predicate NeverDeleted(es: seq<Event>, user: string) {
    forall i :: 0 <= i < |es| ==> !Deletes(es[i], user)
  }

  // A connection of the device opens or closes.
  function Delta(e: Event, k: DeviceKey): int {
    if e.Add? && e.k == k && e.uid != 0 then 1 else if e.Del? && e.k == k then -1 else 0
  }

  // Opened minus closed connections of a device.
  function Balance(es: seq<Event>, k: DeviceKey): int {
    if es == [] then 0 else Delta(es[0], k) + Balance(es[1..], k)
  }

  function RefsOf(r: Registry, k: DeviceKey): int { if k in r.devices then r.devices[k].refs else 0 }

  // No connection is closed that was not opened.
  predicate Matched(r: Registry, es: seq<Event>, k: DeviceKey)
    decreases |es|
  {
    es == [] || ((es[0].Del? && es[0].k == k ==> RefsOf(r, k) > 0) && Matched(Apply(r, es[0]), es[1..], k))
  }

  ghost predicate GoodEntry(r: Registry, k: DeviceKey) {
    k in r.devices ==> r.devices[k].refs >= 0 && r.devices[k].uid != 0
  }

  /** The reference count of a device is the number of its open connections, over every run in
      which the user is not removed and connections close after they open. */
  lemma {:induction false} RefsAreOpenConnections(r: Registry, es: seq<Event>, k: DeviceKey)
    requires Usable(k) && GoodEntry(r, k) && NeverDeleted(es, k.user) && Matched(r, es, k)
    ensures RefsOf(After(r, es), k) == RefsOf(r, k) + Balance(es, k)
    ensures GoodEntry(After(r, es), k)
    decreases |es|
  {
    if es != [] {
      assert !Deletes(es[0], k.user);
      RefsAreOpenConnections(Apply(r, es[0]), es[1..], k);
    }
  }

  // A device is kept by every sweep until `deadline`, or for as long as it is referenced.
  ghost predicate KeptUntil(r: Registry, k: DeviceKey, window: int, deadline: Time) {
    k in r.devices && GoodEntry(r, k) && r.ttl >= window && r.devices[k].lastSeen >= deadline - window
  }

  // The sweeps before the deadline, with a window that never gets shorter than `window`, and a
  // clock that does not fall behind the touch.
  predicate SweptBy(es: seq<Event>, window: int, deadline: Time) {
    forall i :: 0 <= i < |es| ==>
      && (es[i].Sweep? ==> es[i].now <= deadline)
      && (es[i].SetTtl? ==> es[i].ttl >= window)
      && (es[i].Touch? || es[i].Add? || es[i].Del? ==> es[i].now >= deadline - window)
  }

  lemma {:induction false} KeptThrough(r: Registry, es: seq<Event>, k: DeviceKey, window: int, deadline: Time)
    requires KeptUntil(r, k, window, deadline) && SweptBy(es, window, deadline) && NeverDeleted(es, k.user)
    ensures KeptUntil(After(r, es), k, window, deadline)
    decreases |es|
  {
    if es != [] {
      assert !Deletes(es[0], k.user);
      var r1 := Apply(r, es[0]);
      assert es[0].Sweep? ==> es[0].now <= deadline;
      assert es[0].SetTtl? ==> es[0].ttl >= window;
      assert KeptUntil(r1, k, window, deadline);
      KeptThrough(r1, es[1..], k, window, deadline);
    }
  }

  /** A device touched at `now` is listed by every snapshot taken up to a window later, whatever
      happens to other devices and however often the registry is swept in between. */
  lemma TouchedDeviceStaysListed(r: Registry, k: DeviceKey, uid: int, now: Time, es: seq<Event>, window: int)
    requires Usable(k) && uid != 0 && GoodEntry(r, k) && r.ttl >= window
    requires SweptBy(es, window, now + window) && NeverDeleted(es, k.user)
    ensures Listed(After(Touched(r, k, uid, now), es), k)
  {
    KeptThrough(Touched(r, k, uid, now), es, k, window, now + window);
  }

  /** So is one whose connection was opened or closed at that time. */
  lemma ClosedDeviceStaysListed(r: Registry, e: Event, es: seq<Event>, k: DeviceKey, window: int)
    requires (e.Del? && e.k == k && k in r.devices) || (e.Add? && e.k == k && e.uid != 0)
    requires Usable(k) && GoodEntry(r, k) && r.ttl >= window
    requires SweptBy(es, window, e.now + window) && NeverDeleted(es, k.user)
    ensures Listed(After(Apply(r, e), es), k)
  {
    KeptThrough(Apply(r, e), es, k, window, e.now + window);
  }

  // At least one connection of the device is open throughout, starting with `open` of them.
  predicate OpenThroughout(open: int, es: seq<Event>, k: DeviceKey)
    decreases |es|
  {
    open > 0 && (es == [] || (!Deletes(es[0], k.user) && OpenThroughout(open + Delta(es[0], k), es[1..], k)))
  }

  /** A device with an open connection never expires: it is listed whatever the times of the
      sweeps and the windows are. */
  lemma {:induction false} ReferencedDeviceNeverExpires(r: Registry, es: seq<Event>, k: DeviceKey)
    requires Usable(k) && GoodEntry(r, k) && OpenThroughout(RefsOf(r, k), es, k)
    ensures Listed(After(r, es), k) && RefsOf(After(r, es), k) == RefsOf(r, k) + Balance(es, k)
    decreases |es|
  {
    if es != [] {
      assert RefsOf(Apply(r, es[0]), k) == RefsOf(r, k) + Delta(es[0], k);
      ReferencedDeviceNeverExpires(Apply(r, es[0]), es[1..], k);
    }
  }

  // --- How a device goes, and whose it is ------------------------------------------------------------

  // A connection check or an opened connection puts the device into the registry.
  predicate Renews(e: Event, k: DeviceKey) {
    (e.Touch? && e.k == k) || (e.Add? && e.k == k)
  }

  predicate NeverRenewed(es: seq<Event>, k: DeviceKey) {
    forall i :: 0 <= i < |es| ==> !Renews(es[i], k)
  }

  lemma {:induction false} AbsentStaysAbsent(r: Registry, es: seq<Event>, k: DeviceKey)
    requires k !in r.devices && NeverRenewed(es, k)
    ensures k !in After(r, es).devices
    decreases |es|
  {
    if es != [] {
      assert !Renews(es[0], k);
      AbsentStaysAbsent(Apply(r, es[0]), es[1..], k);
    }
  }

  /** A device without a connection that was last seen longer than the window before a sweep is listed
      by no later snapshot until it is renewed. */
  lemma IdleDeviceExpires(r: Registry, k: DeviceKey, now: Time, es: seq<Event>)
    requires k in r.devices ==> r.devices[k].refs <= 0 && r.devices[k].lastSeen < now - r.ttl
    requires NeverRenewed(es, k)
    ensures k !in After(Apply(r, Sweep(now)), es).devices
  {
    AbsentStaysAbsent(Apply(r, Sweep(now)), es, k);
  }

  /** No device of a removed user is listed until it is renewed. */
  lemma RemovedUserIsGone(r: Registry, k: DeviceKey, es: seq<Event>)
    requires NeverRenewed(es, k)
    ensures k !in After(Apply(r, DeleteUser(k.user)), es).devices
  {
    AbsentStaysAbsent(Apply(r, DeleteUser(k.user)), es, k);
  }

  // The events that are about this device, apart from removals and sweeps.
  predicate Concerns(e: Event, k: DeviceKey) { Renews(e, k) || (e.Del? && e.k == k) }

  lemma {:induction false} QuietKeepsTheEntry(r: Registry, es: seq<Event>, k: DeviceKey, e: OnlineEntry)
    requires k in r.devices ==> r.devices[k] == e
    requires forall i :: 0 <= i < |es| ==> !Concerns(es[i], k)
    ensures k in After(r, es).devices ==> After(r, es).devices[k] == e
    decreases |es|
  {
    if es != [] {
      assert !Concerns(es[0], k);
      QuietKeepsTheEntry(Apply(r, es[0]), es[1..], k, e);
    }
  }

  /** From the last connection check of a device without open connections on: the first sweep more than
      a window later takes it off the list, whatever happens to other devices before and afterwards. */
  lemma TouchedDeviceGoes(
      r: Registry, k: DeviceKey, uid: int, seen: Time, before: seq<Event>, now: Time, after: seq<Event>)
    requires Usable(k) && uid != 0 && RefsOf(r, k) <= 0
    requires forall i :: 0 <= i < |before| ==> !Concerns(before[i], k)
    requires now - After(Apply(r, Touch(k, uid, seen)), before).ttl > seen && NeverRenewed(after, k)
    ensures k !in After(Apply(After(Apply(r, Touch(k, uid, seen)), before), Sweep(now)), after).devices
  {
    var r1 := Apply(r, Touch(k, uid, seen));
    QuietKeepsTheEntry(r1, before, k, r1.devices[k]);
    IdleDeviceExpires(After(r1, before), k, now, after);
  }

  lemma {:induction false} UidStays(r: Registry, es: seq<Event>, k: DeviceKey, uid: int)
    requires (k in r.devices ==> r.devices[k].uid == uid) && NeverRenewed(es, k)
    ensures k in After(r, es).devices ==> After(r, es).devices[k].uid == uid
    decreases |es|
  {
    if es != [] {
      assert !Renews(es[0], k);
      UidStays(Apply(r, es[0]), es[1..], k, uid);
    }
  }

  /** A device is listed under the uid it was last renewed with. */
  lemma ListedUnderTheLastUid(r: Registry, e: Event, es: seq<Event>, k: DeviceKey)
    requires Renews(e, k) && Usable(k) && e.uid != 0 && NeverRenewed(es, k)
    ensures var r' := After(Apply(r, e), es); k in r'.devices ==> r'.devices[k].uid == e.uid
  {
    UidStays(Apply(r, e), es, k, e.uid);
  }

  // --- The windows a node runs with ---------------------------------------------------------------

  const MAX_PANEL_PUSH_INTERVAL := 100 * SECOND

  // normalizedPushInterval of a node that does not report to a ppanel.
  function PushInterval(interval: int): int {
    var i := if interval <= 0 then 60 * SECOND else interval;
    if i < 20 * SECOND then 20 * SECOND
    else if i > MAX_PANEL_PUSH_INTERVAL then MAX_PANEL_PUSH_INTERVAL
    else i
  }

  // applyOnlineTTL: the window is kept a minute longer than the push interval.
  function OnlineTtl(onlineTimeout: int, push: int): int {
    var ttl := if onlineTimeout * SECOND <= 0 then 300 * SECOND else onlineTimeout * SECOND;
    if ttl < push + 60 * SECOND then push + 60 * SECOND else ttl
  }

  /** The push interval is the configured one brought between 20 and 100 seconds, a minute if none is;
      the window is the configured timeout, five minutes if none is, and a minute more than the push
      interval at least. */
  lemma WindowsOfANode(interval: int, onlineTimeout: int)
    ensures var push := PushInterval(interval);
      && 20 * SECOND <= push <= 100 * SECOND
      && (interval <= 0 ==> push == 60 * SECOND)
      && (20 * SECOND <= interval <= 100 * SECOND ==> push == interval)
      && (0 < interval < 20 * SECOND ==> push == 20 * SECOND)
      && (interval > 100 * SECOND ==> push == 100 * SECOND)
    ensures var push := PushInterval(interval); var ttl := OnlineTtl(onlineTimeout, push);
      var wanted := if onlineTimeout <= 0 then 300 else onlineTimeout;
      ttl >= push + 60 * SECOND && ttl >= wanted * SECOND && ttl in {push + 60 * SECOND, wanted * SECOND}
    ensures AtLeastMin(onlineTimeout) >= 90 * SECOND && AtLeastMin(onlineTimeout) >= onlineTimeout
    ensures AtLeastMin(onlineTimeout) in {90 * SECOND, onlineTimeout}
  {
  }

  lemma JitteredPushFits(interval: int, u: real)
    requires 0.0 <= u < 1.0
    ensures var push := PushInterval(interval);
      0 < NextDelay(push, 0.1, u) <= push + 10 * SECOND
  {
    var push := PushInterval(interval);
    NextDelayInRange(push, 0.1, u);
    assert 0.1 * push as real <= 10.0 * SECOND as real;
    assert NextDelay(push, 0.1, u) as real <= (push + 10 * SECOND) as real;
  }

  /** No flapping: with the window a node derives from its push interval, a device touched at
      `now` is in the snapshot of the next report, whatever the configured timeout and the jitter
      of the report timer, and however the registry is swept in the meantime. */
  lemma NextReportListsTheDevice(
      r: Registry, k: DeviceKey, uid: int, now: Time, es: seq<Event>, interval: int, onlineTimeout: int, u: real)
    requires Usable(k) && uid != 0 && GoodEntry(r, k) && 0.0 <= u < 1.0
    requires r.ttl == AtLeastMin(OnlineTtl(onlineTimeout, PushInterval(interval)))
    requires forall i :: 0 <= i < |es| ==> !Deletes(es[i], k.user) && !es[i].SetTtl?
    // The events of the time until the next report.
    requires forall i :: 0 <= i < |es| && !es[i].DeleteUser? ==>
               now <= es[i].now <= now + NextDelay(PushInterval(interval), 0.1, u)
    ensures Listed(After(Touched(r, k, uid, now), es), k)
  {
    JitteredPushFits(interval, u);
    TouchedDeviceStaysListed(r, k, uid, now, es, PushInterval(interval) + 60 * SECOND);
  }
}
