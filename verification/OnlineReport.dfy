/**
 The online part of a report (node/user.go:41-104, 197-293, 322-347): the snapshot is
 deduplicated per user, users that just went offline get an explicit empty list, and the panel
 replaces its device list of every user it receives. Address normalisation is a parameter.
 */
module OnlineReports {
  import opened Wrappers
  import opened Sorting

  type Norm = string -> string

  // --- What a report should say -------------------------------------------------------------------

  // The devices of one user in a snapshot.
  function Devices(norm: Norm, users: seq<OnlineUser>, uid: int): set<string> {
    set o | o in users && o.uid == uid && norm(o.ip) != "" :: norm(o.ip)
  }

  // The users a snapshot shows online; the node keeps track of positive uids only.
  function Online(norm: Norm, users: seq<OnlineUser>): set<int> {
    set o | o in users && o.uid > 0 && norm(o.ip) != "" :: o.uid
  }

  // The sorted list of a set of addresses, without repetition.
  ghost predicate Lists(l: seq<string>, ips: set<string>) {
    Sorted(StringOrder, l) && Distinct(l) && forall ip :: ip in l <==> ip in ips
  }

  ghost predicate IsReport(norm: Norm, last: set<int>, snapshot: seq<OnlineUser>, data: map<int, seq<string>>) {
    forall uid :: SaysOf(norm, last, snapshot, data, uid)
  }

  ghost predicate SaysOf(norm: Norm, last: set<int>, snapshot: seq<OnlineUser>, data: map<int, seq<string>>, uid: int) {
    var d := Devices(norm, snapshot, uid);
    && (uid in data <==> d != {} || (uid in last && uid !in Online(norm, snapshot)))
    && (uid in data ==> Lists(data[uid], d))
  }

  // Normalising an address twice changes nothing more.
  ghost predicate Settled(norm: Norm, users: seq<OnlineUser>) {
    forall o :: o in users ==> norm(norm(o.ip)) == norm(o.ip)
  }

  // --- How it is computed -----------------------------------------------------------------------------

  ghost predicate IsDeduped(norm: Norm, users: seq<OnlineUser>, out: seq<OnlineUser>) {
    && Distinct(out)
    && forall o :: o in out <==> o.ip in Devices(norm, users, o.uid)
  }

  method DedupeOnlineUsersByIP(users: seq<OnlineUser>, norm: Norm) returns (result: seq<OnlineUser>)
    ensures IsDeduped(norm, users, result) && Sorted(UserOrder, result)
    ensures forall o :: o in result <==> o.ip != "" && exists u :: u in users && u.uid == o.uid && norm(u.ip) == o.ip
  {
    var seen: set<OnlineUser> := {};
    var found: seq<OnlineUser> := [];
    for i := 0 to |users|
      invariant forall o :: o in seen <==> o in found
      invariant IsDeduped(norm, users[..i], found)
    {
      var ip := norm(users[i].ip);
      var key := OnlineUser(users[i].uid, ip);
      DedupeOne(norm, users, i, found);
      if ip != "" && key !in seen {
        seen := seen + {key};
        found := found + [key];
      }
    }
    assert users[..|users|] == users;
    Orders();
    SortSorts(UserOrder, found);
    SortKeepsDistinct(UserOrder, found);
    result := Sort(UserOrder, found);
  }

  lemma DedupeOne(norm: Norm, users: seq<OnlineUser>, i: nat, found: seq<OnlineUser>)
    requires i < |users| && IsDeduped(norm, users[..i], found)
    ensures var key := OnlineUser(users[i].uid, norm(users[i].ip));
      IsDeduped(norm, users[..i + 1], if key.ip == "" || key in found then found else found + [key])
  {
    var key := OnlineUser(users[i].uid, norm(users[i].ip));
    assert users[..i + 1] == users[..i] + [users[i]];
    forall uid ensures Devices(norm, users[..i + 1], uid) ==
                       Devices(norm, users[..i], uid) + if key.ip != "" && key.uid == uid then {key.ip} else {}
    {
    }
  }

  // One user's addresses, normalised, without empty and repeated ones, in order.
  method DedupeIps(ips: seq<string>, norm: Norm) returns (result: seq<string>)
    ensures Lists(result, set ip | ip in ips && norm(ip) != "" :: norm(ip))
  {
    var found: seq<string> := [];
    for i := 0 to |ips|
      invariant Distinct(found)
      invariant forall x :: x in found <==> x != "" && exists k :: 0 <= k < i && norm(ips[k]) == x
    {
      var ip := norm(ips[i]);
      if ip != "" && ip !in found {
        found := found + [ip];
      }
    }
    Orders();
    SortSorts(StringOrder, found);
    SortKeepsDistinct(StringOrder, found);
    result := Sort(StringOrder, found);
  }

  ghost predicate IsDedupedMap(norm: Norm, data: map<int, seq<string>>, uids: set<int>, out: map<int, seq<string>>) {
    forall uid ::
      var ips := if uid in data && uid in uids then (set ip | ip in data[uid] && norm(ip) != "" :: norm(ip)) else {};
      (uid in out <==> ips != {}) && (uid in out ==> Lists(out[uid], ips))
  }

  // The users are independent, so the order they are taken in does not matter.
  method DedupeOnlineIPMapByIP(data: map<int, seq<string>>, norm: Norm) returns (result: map<int, seq<string>>)
    ensures IsDedupedMap(norm, data, data.Keys, result)
  {
    result := map[];
    var uids: set<int> := data.Keys;
    while uids != {}
      invariant uids <= data.Keys
      invariant IsDedupedMap(norm, data, data.Keys - uids, result)
      decreases |uids|
    {
      var uid := SomeOf(uids);
      uids := uids - {uid};
      var ips := DedupeIps(data[uid], norm);
      if ips != [] {
        assert ips[0] in ips;
        result := result[uid := ips];
      }
    }
    assert data.Keys - uids == data.Keys;
  }

  // The payload built from a deduplicated snapshot.
  method BuildOnlineIPPayload(users: seq<OnlineUser>, norm: Norm) returns (payload: map<int, seq<string>>)
    ensures forall uid :: uid in payload <==> Raw(users, norm, uid) != {}
    ensures forall uid :: uid in payload ==> Lists(payload[uid], Raw(users, norm, uid))
  {
    var data: map<int, seq<string>> := map[];
    for i := 0 to |users|
      invariant Grouped(users[..i], data)
    {
      var o := users[i];
      GroupOne(users, i, data);
      if o.ip != "" {
        data := data[o.uid := if o.uid in data then data[o.uid] + [o.ip] else [o.ip]];
      }
    }
    assert users[..|users|] == users;
    payload := DedupeOnlineIPMapByIP(data, norm);
    forall uid ensures Raw(users, norm, uid) ==
                       if uid in data then (set ip | ip in data[uid] && norm(ip) != "" :: norm(ip)) else {}
    {
      GroupedDevices(users, norm, data, uid);
    }
  }

  // The addresses of a snapshot by user.
  ghost predicate Grouped(users: seq<OnlineUser>, data: map<int, seq<string>>) {
    && (forall uid :: uid in data ==> forall ip :: ip in data[uid] <==> ip != "" && OnlineUser(uid, ip) in users)
    && (forall o :: o in users && o.ip != "" ==> o.uid in data)
    && (forall uid :: uid in data ==> data[uid] != [])
  }

  lemma GroupOne(users: seq<OnlineUser>, i: nat, data: map<int, seq<string>>)
    requires i < |users| && Grouped(users[..i], data)
    ensures var o := users[i];
      Grouped(users[..i + 1],
        if o.ip == "" then data else data[o.uid := if o.uid in data then data[o.uid] + [o.ip] else [o.ip]])
  {
    assert users[..i + 1] == users[..i] + [users[i]];
  }

  lemma GroupedDevices(users: seq<OnlineUser>, norm: Norm, data: map<int, seq<string>>, uid: int)
    requires Grouped(users, data)
    ensures Raw(users, norm, uid) ==
            if uid in data then (set ip | ip in data[uid] && norm(ip) != "" :: norm(ip)) else {}
  {
    var rhs := if uid in data then (set ip | ip in data[uid] && norm(ip) != "" :: norm(ip)) else {};
    forall x ensures x in Raw(users, norm, uid) <==> x in rhs {
      if x in Raw(users, norm, uid) {
        var o :| o in users && o.uid == uid && o.ip != "" && norm(o.ip) == x;
        assert o == OnlineUser(uid, o.ip);
      }
    }
  }

  function Raw(users: seq<OnlineUser>, norm: Norm, uid: int): set<string> {
    set o | o in users && o.uid == uid && o.ip != "" && norm(o.ip) != "" :: norm(o.ip)
  }

  // Normalising the deduplicated snapshot again finds the same devices.
  lemma DedupedDevices(norm: Norm, snapshot: seq<OnlineUser>, users: seq<OnlineUser>, uid: int)
    requires Settled(norm, snapshot) && IsDeduped(norm, snapshot, users)
    ensures Raw(users, norm, uid) == Devices(norm, snapshot, uid)
  {
    forall ip ensures ip in Raw(users, norm, uid) <==> ip in Devices(norm, snapshot, uid) {
      if ip in Raw(users, norm, uid) {
        var o :| o in users && o.uid == uid && norm(o.ip) == ip && ip != "";
        var p :| p in snapshot && p.uid == uid && norm(p.ip) == o.ip;
      }
      if ip in Devices(norm, snapshot, uid) {
        assert OnlineUser(uid, ip) in users;
      }
    }
  }

  lemma OnlineIffDevices(norm: Norm, snapshot: seq<OnlineUser>, uid: int)
    ensures uid in Online(norm, snapshot) <==> uid > 0 && Devices(norm, snapshot, uid) != {}
  {
    if uid in Online(norm, snapshot) {
      var p :| p in snapshot && p.uid == uid && norm(p.ip) != "";
      assert norm(p.ip) in Devices(norm, snapshot, uid);
    }
    if uid > 0 && Devices(norm, snapshot, uid) != {} {
      var ip :| ip in Devices(norm, snapshot, uid);
      assert exists p :: p in snapshot && p.uid == uid && norm(p.ip) == ip;
    }
  }

  lemma DedupedOnline(norm: Norm, snapshot: seq<OnlineUser>, users: seq<OnlineUser>, uid: int)
    requires IsDeduped(norm, snapshot, users)
    ensures uid in Online(norm, snapshot) <==> uid > 0 && exists o :: o in users && o.uid == uid
  {
    OnlineIffDevices(norm, snapshot, uid);
    var d := Devices(norm, snapshot, uid);
    if d != {} {
      var ip :| ip in d;
      assert OnlineUser(uid, ip) in users;
    }
    if o :| o in users && o.uid == uid {
      assert o.ip in d;
    }
  }

  lemma PartsMakeReport(
      norm: Norm, last: set<int>, snapshot: seq<OnlineUser>, users: seq<OnlineUser>,
      payload: map<int, seq<string>>, stale: seq<int>, data: map<int, seq<string>>)
    requires Settled(norm, snapshot) && IsDeduped(norm, snapshot, users)
    requires forall uid :: uid in payload <==> Raw(users, norm, uid) != {}
    requires forall uid :: uid in payload ==> Lists(payload[uid], Raw(users, norm, uid))
    requires forall uid :: uid in stale <==> uid in last && uid !in Online(norm, snapshot)
    requires forall uid :: uid in last ==> uid > 0
    requires forall uid :: uid in data <==> uid in payload || uid in stale
    requires forall uid :: uid in data ==> data[uid] == if uid in stale then [] else payload[uid]
    ensures IsReport(norm, last, snapshot, data)
  {
    forall uid ensures SaysOf(norm, last, snapshot, data, uid) {
      DedupedDevices(norm, snapshot, users, uid);
      OnlineIffDevices(norm, snapshot, uid);
    }
  }

  /** The node's side of the device protocol: the uids of the previous report. */
  class Controller {
    var lastOnlineUIDs: set<int>

    ghost predicate Valid()
      reads this
    {
      forall uid :: uid in lastOnlineUIDs ==> uid > 0
    }

    constructor ()
      ensures Valid() && lastOnlineUIDs == {}
    {
      lastOnlineUIDs := {};
    }

    method TrackOnlineTransition(current: seq<OnlineUser>) returns (stale: seq<int>)
      modifies this
      ensures forall uid :: uid in lastOnlineUIDs <==> uid > 0 && exists o :: o in current && o.uid == uid
      ensures forall uid :: uid in stale <==> uid in old(lastOnlineUIDs) && uid !in lastOnlineUIDs
      ensures Sorted(IntOrder, stale) && Distinct(stale)
    {
      var next: set<int> := {};
      for i := 0 to |current|
        invariant forall uid :: uid in next <==> uid > 0 && exists k :: 0 <= k < i && current[k].uid == uid
      {
        if current[i].uid > 0 {
          next := next + {current[i].uid};
        }
      }
      var gone: seq<int> := [];
      var uids := lastOnlineUIDs;
      while uids != {}
        invariant uids <= lastOnlineUIDs && lastOnlineUIDs == old(lastOnlineUIDs)
        invariant forall uid :: uid in gone <==> uid in lastOnlineUIDs && uid !in uids && uid !in next
        invariant Distinct(gone)
        decreases |uids|
      {
        var uid := SomeOf(uids);
        uids := uids - {uid};
        if uid !in next {
          gone := gone + [uid];
        }
      }
      Orders();
      SortSorts(IntOrder, gone);
      SortKeepsDistinct(IntOrder, gone);
      stale := Sort(IntOrder, gone);
      lastOnlineUIDs := next;
    }

    // What a report to a panel other than ppanel sends, before it is known whether it arrives.
    method OnlinePart(snapshot: seq<OnlineUser>, norm: Norm) returns (data: map<int, seq<string>>)
      requires Valid() && Settled(norm, snapshot)
      modifies this
      ensures Valid() && IsReport(norm, old(lastOnlineUIDs), snapshot, data)
      ensures forall uid :: uid in lastOnlineUIDs <==> uid in Online(norm, snapshot)
    {
      var result := DedupeOnlineUsersByIP(snapshot, norm);
      var payload := BuildOnlineIPPayload(result, norm);
      var stale := TrackOnlineTransition(result);
      data := payload;
      for i := 0 to |stale|
        invariant forall uid :: uid in data <==> uid in payload || uid in stale[..i]
        invariant forall uid :: uid in data ==> data[uid] == if uid in stale[..i] then [] else payload[uid]
      {
        data := data[stale[i] := []];
      }
      assert stale[..|stale|] == stale;
      forall uid ensures uid in lastOnlineUIDs <==> uid in Online(norm, snapshot) {
        DedupedOnline(norm, snapshot, result, uid);
      }
      PartsMakeReport(norm, old(lastOnlineUIDs), snapshot, result, payload, stale, data);
    }
  }

  // --- The protocol with the panel --------------------------------------------------------------------

  // The panel replaces the device list of every user it receives; an empty list forgets the user.
  function Applied(view: map<int, seq<string>>, data: map<int, seq<string>>): map<int, seq<string>> {
    map uid | uid in view.Keys + data.Keys && (uid in data ==> data[uid] != []) ::
      if uid in data then data[uid] else view[uid]
  }

  datatype System = System(last: set<int>, view: map<int, seq<string>>)

  // One report; the node remembers what it reported before it knows whether the panel got it.
  datatype Round = Round(
    snapshot: seq<OnlineUser>, data: map<int, seq<string>>, arrived: bool, before: System, after: System)

  ghost predicate IsRound(norm: Norm, r: Round) {
    && IsReport(norm, r.before.last, r.snapshot, r.data)
    && (forall uid :: uid in r.after.last <==> uid in Online(norm, r.snapshot))
    && r.after.view == if r.arrived then Applied(r.before.view, r.data) else r.before.view
  }

  ghost predicate IsRun(norm: Norm, run: seq<Round>) {
    && (forall i :: 0 <= i < |run| ==> IsRound(norm, run[i]))
    && (forall i :: 0 < i < |run| ==> run[i].before == run[i - 1].after)
    && (|run| > 0 ==> run[0].before == System({}, map[]))
  }

  // The panel's view of a user is what the snapshot shows.
  ghost predicate Agrees(norm: Norm, view: map<int, seq<string>>, snapshot: seq<OnlineUser>, uid: int) {
    var d := Devices(norm, snapshot, uid);
    if d == {} then uid !in view else uid in view && Lists(view[uid], d)
  }

  lemma NonEmptyList(l: seq<string>, ips: set<string>)
    requires Lists(l, ips)
    ensures l == [] <==> ips == {}
  {
    if l != [] {
      assert l[0] in ips;
    }
  }

  /** After one report the panel agrees on a user exactly when the report arrived and the user is
      online, was tracked, or was unknown to the panel, or when it did not arrive and was not needed. */
  lemma RoundAgreesIff(norm: Norm, r: Round, uid: int)
    requires IsRound(norm, r)
    ensures Agrees(norm, r.after.view, r.snapshot, uid) <==>
            if r.arrived then
              Devices(norm, r.snapshot, uid) != {} || uid in r.before.last || uid !in r.before.view
            else Agrees(norm, r.before.view, r.snapshot, uid)
  {
    assert SaysOf(norm, r.before.last, r.snapshot, r.data, uid);
    OnlineIffDevices(norm, r.snapshot, uid);
    if uid in r.data {
      NonEmptyList(r.data[uid], Devices(norm, r.snapshot, uid));
    }
  }

  /** When every report arrives, after each of them the panel's device list of every user is the
      sorted list, without repetition, of the devices in the current snapshot. */
  lemma {:induction false} PanelFollowsTheNode(norm: Norm, run: seq<Round>, i: nat, uid: int)
    requires IsRun(norm, run) && i < |run| && uid > 0
    requires forall k :: 0 <= k <= i ==> run[k].arrived
    ensures Agrees(norm, run[i].after.view, run[i].snapshot, uid)
  {
    RoundAgreesIff(norm, run[i], uid);
    assert SaysOf(norm, run[i].before.last, run[i].snapshot, run[i].data, uid);
    if i > 0 {
      PanelFollowsTheNode(norm, run, i - 1, uid);
      OnlineIffDevices(norm, run[i - 1].snapshot, uid);
      OnlineIffDevices(norm, run[i].snapshot, uid);
    }
  }

  /** The node does not track uids that are not positive: whatever reports are lost, the panel shows
      such a user from the first report of it that arrives on, for ever. When all arrive, the panel
      agrees exactly when the user is online now or never was. */
  lemma {:induction false} UntrackedUserAgreesIff(norm: Norm, run: seq<Round>, i: nat, uid: int)
    requires IsRun(norm, run) && i < |run| && uid <= 0
    ensures uid in run[i].after.view <==>
            exists k :: 0 <= k <= i && run[k].arrived && Devices(norm, run[k].snapshot, uid) != {}
    ensures (forall k :: 0 <= k <= i ==> run[k].arrived) ==>
              (Agrees(norm, run[i].after.view, run[i].snapshot, uid) <==>
               Devices(norm, run[i].snapshot, uid) != {} ||
               forall k :: 0 <= k < i ==> Devices(norm, run[k].snapshot, uid) == {})
  {
    RoundAgreesIff(norm, run[i], uid);
    assert SaysOf(norm, run[i].before.last, run[i].snapshot, run[i].data, uid);
    OnlineIffDevices(norm, run[i].snapshot, uid);
    if uid in run[i].data {
      NonEmptyList(run[i].data[uid], Devices(norm, run[i].snapshot, uid));
    }
    if i > 0 {
      UntrackedUserAgreesIff(norm, run, i - 1, uid);
      assert IsRound(norm, run[i - 1]) && run[i].before == run[i - 1].after;
      OnlineIffDevices(norm, run[i - 1].snapshot, uid);
    }
  }

  ghost predicate Clears(r: Round, uid: int) { uid in r.data && r.data[uid] == [] }

  /** A user that goes offline is cleared in the first report without it and in no later one until it
      is online again, whether or not the reports arrive. */
  lemma ClearedExactlyOnce(norm: Norm, run: seq<Round>, i: nat, j: nat, k: nat, uid: int)
    requires IsRun(norm, run) && i < k <= j < |run| && uid > 0
    requires Devices(norm, run[i].snapshot, uid) != {}
    requires forall n :: i < n <= j ==> Devices(norm, run[n].snapshot, uid) == {}
    ensures Clears(run[k], uid) <==> k == i + 1
  {
    OnlineIffDevices(norm, run[k - 1].snapshot, uid);
    OnlineIffDevices(norm, run[k].snapshot, uid);
    assert run[k].before == run[k - 1].after && IsRound(norm, run[k - 1]);
    assert SaysOf(norm, run[k].before.last, run[k].snapshot, run[k].data, uid);
    if uid in run[k].data {
      NonEmptyList(run[k].data[uid], Devices(norm, run[k].snapshot, uid));
    }
  }

  /** Exactly when a user who went offline is gone from the panel: the first report without the user
      arrived, or the panel did not show the user before it. Whether later reports arrive makes no
      difference. */
  lemma {:induction false} OfflineUserIsClearedIff(norm: Norm, run: seq<Round>, k: nat, j: nat, uid: int)
    requires IsRun(norm, run) && 0 < k <= j < |run| && uid > 0
    requires Devices(norm, run[k - 1].snapshot, uid) != {}
    requires forall n :: k <= n <= j ==> Devices(norm, run[n].snapshot, uid) == {}
    ensures Agrees(norm, run[j].after.view, run[j].snapshot, uid) <==> run[k].arrived || uid !in run[k].before.view
  {
    OnlineIffDevices(norm, run[j - 1].snapshot, uid);
    OnlineIffDevices(norm, run[j].snapshot, uid);
    assert run[j].before == run[j - 1].after && IsRound(norm, run[j - 1]);
    RoundAgreesIff(norm, run[j], uid);
    assert SaysOf(norm, run[j].before.last, run[j].snapshot, run[j].data, uid);
    if k < j {
      OfflineUserIsClearedIff(norm, run, k, j - 1, uid);
    }
  }

  /** A clearing that does not arrive is lost: the panel goes on showing the user, however many later
      reports arrive, until the user is online again. */
  lemma {:induction false} LostClearingStays(norm: Norm, run: seq<Round>, k: nat, j: nat, uid: int)
    requires IsRun(norm, run) && k <= j < |run| && uid > 0
    requires Clears(run[k], uid) && !run[k].arrived && uid in run[k].before.view
    requires forall n :: k <= n <= j ==> Devices(norm, run[n].snapshot, uid) == {}
    ensures uid in run[j].after.view && !Agrees(norm, run[j].after.view, run[j].snapshot, uid)
  {
    if k < j {
      LostClearingStays(norm, run, k, j - 1, uid);
      OnlineIffDevices(norm, run[j - 1].snapshot, uid);
      assert run[j].before == run[j - 1].after && IsRound(norm, run[j - 1]);
      assert SaysOf(norm, run[j].before.last, run[j].snapshot, run[j].data, uid);
    }
  }

  // The report tells the panel about the user: it is online, or a tracked user was in the report
  // before.
  predicate Tells(norm: Norm, run: seq<Round>, i: nat, uid: int)
    requires i < |run|
  {
    Devices(norm, run[i].snapshot, uid) != {} || (uid > 0 && i > 0 && Devices(norm, run[i - 1].snapshot, uid) != {})
  }

  // The last report up to j that arrived and told the panel about the user.
  function LastTold(norm: Norm, run: seq<Round>, j: nat, uid: int): (r: Option<nat>)
    requires j < |run|
    ensures r.Some? ==> r.value <= j
  {
    if run[j].arrived && Tells(norm, run, j, uid) then Some(j)
    else if j == 0 then None
    else LastTold(norm, run, j - 1, uid)
  }

  lemma SameLists(l: seq<string>, d: set<string>, e: set<string>)
    requires Lists(l, d)
    ensures Lists(l, e) <==> d == e
  {
  }

  lemma {:induction false} PanelShowsWhatItWasTold(norm: Norm, run: seq<Round>, j: nat, uid: int)
    requires IsRun(norm, run) && j < |run|
    ensures match LastTold(norm, run, j, uid)
      case None => uid !in run[j].after.view
      case Some(i) => Agrees(norm, run[j].after.view, run[i].snapshot, uid)
  {
    assert IsRound(norm, run[j]);
    assert SaysOf(norm, run[j].before.last, run[j].snapshot, run[j].data, uid);
    OnlineIffDevices(norm, run[j].snapshot, uid);
    if uid in run[j].data {
      NonEmptyList(run[j].data[uid], Devices(norm, run[j].snapshot, uid));
    }
    if j > 0 {
      PanelShowsWhatItWasTold(norm, run, j - 1, uid);
      assert IsRound(norm, run[j - 1]) && run[j].before == run[j - 1].after;
      OnlineIffDevices(norm, run[j - 1].snapshot, uid);
    }
  }

  /** With any reports lost and for any uid, the panel agrees on a user exactly when the last report
      that arrived and told it about the user had the devices of the current snapshot, or none did and
      none are online. */
  lemma PanelAgreesIff(norm: Norm, run: seq<Round>, j: nat, uid: int)
    requires IsRun(norm, run) && j < |run|
    ensures Agrees(norm, run[j].after.view, run[j].snapshot, uid) <==>
            Devices(norm, run[j].snapshot, uid) ==
            match LastTold(norm, run, j, uid)
            case None => {}
            case Some(i) => Devices(norm, run[i].snapshot, uid)
  {
    PanelShowsWhatItWasTold(norm, run, j, uid);
    var told := LastTold(norm, run, j, uid);
    if told.Some? && Devices(norm, run[told.value].snapshot, uid) != {} {
      SameLists(run[j].after.view[uid], Devices(norm, run[told.value].snapshot, uid), Devices(norm, run[j].snapshot, uid));
    }
  }

  // --- Two runs that leave the panel behind -----------------------------------------------------------

  const Same: Norm := (ip: string) => ip

  // A user comes online from "a" and goes offline; only the first report is sure to arrive.
  function ComesAndGoes(uid: int): Round {
    var data := map[uid := ["a"]];
    Round([OnlineUser(uid, "a")], data, true, System({}, map[]),
          System(if uid > 0 then {uid} else {}, Applied(map[], data)))
  }

  function Quiet(before: System, data: map<int, seq<string>>, arrived: bool): Round {
    Round([], data, arrived, before, System({}, if arrived then Applied(before.view, data) else before.view))
  }

  lemma ComingIsARound(uid: int)
    ensures IsRound(Same, ComesAndGoes(uid)) && uid in ComesAndGoes(uid).after.view
  {
    var r := ComesAndGoes(uid);
    assert r.snapshot[0] == OnlineUser(uid, "a");
    forall u ensures SaysOf(Same, {}, r.snapshot, r.data, u) {
      assert Devices(Same, r.snapshot, u) == if u == uid then {"a"} else {};
    }
  }

  lemma QuietIsARound(before: System, data: map<int, seq<string>>, arrived: bool)
    requires forall u :: u in data <==> u in before.last
    requires forall u :: u in data ==> data[u] == []
    ensures IsRound(Same, Quiet(before, data, arrived))
  {
    forall u ensures SaysOf(Same, before.last, [], data, u) {
      assert Devices(Same, [], u) == {};
    }
  }

  /** User 1 goes offline, the report that says so is lost and the next one arrives: the panel still
      shows the user. */
  lemma LostClearingLeavesTheUser()
    ensures var r0 := ComesAndGoes(1);
            var r1 := Quiet(r0.after, map[1 := []], false);
            var r2 := Quiet(r1.after, map[], true);
      && IsRun(Same, [r0, r1, r2]) && r2.arrived && 1 in r2.after.view
      && !Agrees(Same, r2.after.view, r2.snapshot, 1)
  {
    var r0 := ComesAndGoes(1);
    var r1 := Quiet(r0.after, map[1 := []], false);
    var r2 := Quiet(r1.after, map[], true);
    ComingIsARound(1);
    QuietIsARound(r0.after, map[1 := []], false);
    QuietIsARound(r1.after, map[], true);
    assert Devices(Same, [], 1) == {};
  }

  /** User -1 goes offline and every report arrives: the panel still shows the user. */
  lemma NegativeUidIsNeverCleared()
    ensures var r0 := ComesAndGoes(-1);
            var r1 := Quiet(r0.after, map[], true);
      IsRun(Same, [r0, r1]) && -1 in r1.after.view && !Agrees(Same, r1.after.view, r1.snapshot, -1)
  {
    var r0 := ComesAndGoes(-1);
    ComingIsARound(-1);
    QuietIsARound(r0.after, map[], true);
    assert Devices(Same, [], -1) == {};
  }
}
