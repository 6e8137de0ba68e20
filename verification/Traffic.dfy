/**
 Traffic accounting: the counters of common/counter/traffic.go, the report round of
 node/user.go with its read, push and restore, and the push of api/panel/user.go.
 */
module Traffic {
  import opened Decimal

  datatype Uuid = Uuid(text: string)

  datatype Bytes = Bytes(up: int, down: int) {
    function Plus(b: Bytes): Bytes { Bytes(up + b.up, down + b.down) }
    function At(d: Direction): int { if d.Up? then up else down }
    predicate NonNegative() { up >= 0 && down >= 0 }
  }

  datatype Direction = Up | Down

  const ZERO := Bytes(0, 0)

  type Totals = map<Uuid, Bytes>

  function Get(m: Totals, k: Uuid): Bytes { if k in m then m[k] else ZERO }

  // The amount of one direction; sums are taken per direction.
  function Amount(m: Totals, k: Uuid, d: Direction): int { if k in m then m[k].At(d) else 0 }

  function Add(m: Totals, k: Uuid, b: Bytes): Totals { m[k := Get(m, k).Plus(b)] }

  // Restore only touches an existing counter, and only with positive amounts.
  function Restored(m: Totals, id: Uuid, b: Bytes): Totals {
    if (b.up <= 0 && b.down <= 0) || id !in m then m
    else Add(m, id, Bytes(if b.up > 0 then b.up else 0, if b.down > 0 then b.down else 0))
  }

  function Zeroed(m: Totals, id: Uuid, d: Direction): Totals {
    if id !in m then m else m[id := if d.Up? then m[id].(up := 0) else m[id].(down := 0)]
  }

  /** The counters of one node. */
  class TrafficCounter {
    var counters: map<Uuid, Bytes>

    constructor ()
      ensures counters == map[]
    {
      counters := map[];
    }

    method GetCounter(id: Uuid)
      modifies this
      ensures id in counters && counters[id] == Get(old(counters), id)
      ensures counters == old(counters)[id := counters[id]]
    {
      if id !in counters {
        counters := counters[id := ZERO];
      }
    }

    method Tx(id: Uuid, n: int)
      modifies this
      ensures counters == Add(old(counters), id, Bytes(n, 0))
    {
      GetCounter(id);
      var b := counters[id];
      counters := counters[id := Bytes(b.up + n, b.down)];
    }

    method Rx(id: Uuid, n: int)
      modifies this
      ensures counters == Add(old(counters), id, Bytes(0, n))
    {
      GetCounter(id);
      var b := counters[id];
      counters := counters[id := Bytes(b.up, b.down + n)];
    }

    method Reset(id: Uuid)
      modifies this
      ensures counters == Zeroed(Zeroed(old(counters), id, Up), id, Down)
    {
      if id in counters {
        counters := counters[id := counters[id].(up := 0)];
        counters := counters[id := counters[id].(down := 0)];
      }
    }

    // GetUserTraffic of a core: the reading and, when asked for, the reset behind it.
    method GetUserTraffic(id: Uuid, reset: bool) returns (b: Bytes)
      modifies this
      ensures b == Get(old(counters), id)
      ensures counters == if reset then Zeroed(Zeroed(old(counters), id, Up), id, Down) else old(counters)
    {
      b := if id in counters then counters[id] else ZERO;
      if reset {
        Reset(id);
      }
    }

    method Restore(id: Uuid, up: int, down: int)
      modifies this
      ensures counters == Restored(old(counters), id, Bytes(up, down))
    {
      if up <= 0 && down <= 0 {
        return;
      }
      if id !in counters {
        return;
      }
      if up > 0 {
        counters := counters[id := counters[id].(up := counters[id].up + up)];
      }
      if down > 0 {
        counters := counters[id := counters[id].(down := counters[id].down + down)];
      }
    }
  }

  // --- The push ----------------------------------------------------------------------------

  datatype Response = NoResponse | Status(code: int)

  // What one candidate path answers, and whether the panel stored the increment.
  datatype Attempt = Attempt(response: Response, applied: bool)

  predicate Accepted(r: Response) { r.Status? && r.code < 400 }

  predicate NotThere(r: Response) { r.Status? && (r.code == 404 || r.code == 405) }

  // The panel stores an increment it answers positively and none on a path it does not have.
  predicate Honest(a: Attempt) {
    (Accepted(a.response) ==> a.applied) && (NotThere(a.response) ==> !a.applied)
  }

  function Applications(tried: seq<Attempt>): nat {
    if tried == [] then 0
    else Applications(tried[..|tried| - 1]) + if tried[|tried| - 1].applied then 1 else 0
  }

  /** The loop over the candidate paths: whatever they answer, the increment is stored at most
      once, a positive result means exactly once, and giving up without ambiguity means never. The
      second result is the number of paths tried: the next one is tried exactly when this one is not
      there, and the last answer decides. */
  method Push(paths: seq<Attempt>) returns (ok: bool, tries: nat)
    requires forall a :: a in paths ==> Honest(a)
    ensures tries <= |paths|
    ensures Applications(paths[..tries]) <= 1
    ensures ok && paths != [] ==> Applications(paths[..tries]) == 1
    ensures !ok && (forall a :: a in paths[..tries] ==> NotThere(a.response)) ==>
              Applications(paths[..tries]) == 0 && tries == |paths|
    ensures forall i :: 0 <= i < tries - 1 ==> paths[i].response in {Status(404), Status(405)}
    ensures tries < |paths| ==> tries > 0 && paths[tries - 1].response !in {Status(404), Status(405)}
    ensures ok == (paths == [] ||
                   (tries > 0 && paths[tries - 1].response.Status? && paths[tries - 1].response.code < 400))
  {
    ok, tries := paths == [], 0;
    while tries < |paths|
      invariant 0 <= tries <= |paths| && Applications(paths[..tries]) == 0
      invariant ok <==> paths == []
      invariant forall i :: 0 <= i < tries ==> paths[i].response in {Status(404), Status(405)}
    {
      var a := paths[tries];
      assert paths[..tries + 1][..tries] == paths[..tries] && a in paths && paths[..tries + 1][tries] == a;
      tries := tries + 1;
      if Accepted(a.response) {
        return true, tries;
      }
      if !NotThere(a.response) {
        return false, tries;
      }
    }
  }

  // --- The rows of one report --------------------------------------------------------------

  datatype User = User(id: int, uuid: Uuid)

  datatype Row = Row(uid: int, b: Bytes)

  datatype Reading = Reading(user: User, b: Bytes)

  function RowsOf(got: seq<Reading>): (rows: seq<Row>)
    ensures |rows| == |got|
    ensures forall i :: 0 <= i < |got| ==> rows[i] == Row(got[i].user.id, got[i].b)
  {
    seq(|got|, i requires 0 <= i < |got| => Row(got[i].user.id, got[i].b))
  }

  predicate Reports(rows: seq<Row>, uid: int) {
    exists i :: 0 <= i < |rows| && rows[i].uid == uid
  }

  // Online users without traffic are appended with an empty row, once each.
  method WithOnlineRows(rows: seq<Row>, online: seq<int>) returns (all: seq<Row>)
    ensures rows <= all
    ensures forall i :: |rows| <= i < |all| ==> all[i].b == ZERO && !Reports(rows, all[i].uid) && all[i].uid in online
    ensures forall i, j :: |rows| <= i < j < |all| ==> all[i].uid != all[j].uid
    ensures forall uid :: uid in online ==> Reports(all, uid)
  {
    all := rows;
    var reported := set i | 0 <= i < |rows| :: rows[i].uid;
    var k := 0;
    while k < |online|
      invariant 0 <= k <= |online| && rows <= all
      invariant forall uid :: uid in reported <==> Reports(all, uid)
      invariant forall i :: |rows| <= i < |all| ==> all[i].b == ZERO && !Reports(rows, all[i].uid) && all[i].uid in online
      invariant forall i, j :: |rows| <= i < j < |all| ==> all[i].uid != all[j].uid
      invariant forall n :: 0 <= n < k ==> Reports(all, online[n])
    {
      var uid := online[k];
      if uid !in reported {
        ghost var was := all;
        assert forall i :: 0 <= i < |rows| ==> rows[i] == all[i];
        all := all + [Row(uid, ZERO)];
        reported := reported + {uid};
        assert forall i :: 0 <= i < |was| ==> all[i] == was[i];
        assert forall u :: Reports(all, u) <==> Reports(was, u) || u == uid by {
          assert all[|was|].uid == uid;
          forall u | Reports(was, u) ensures Reports(all, u) {
            var i :| 0 <= i < |was| && was[i].uid == u;
            assert all[i].uid == u;
          }
        }
      }
      k := k + 1;
    }
  }

  type Bills = map<int, Bytes>

  function BilledTo(m: Bills, uid: int, d: Direction): int { if uid in m then m[uid].At(d) else 0 }

  // The body of the push: one entry per uid, the last row of a uid wins.
  function Payload(rows: seq<Row>): Bills {
    if rows == [] then map[]
    else var last := rows[|rows| - 1]; Payload(rows[..|rows| - 1])[last.uid := last.b]
  }

  predicate DistinctUids(rows: seq<Row>) {
    forall i, j :: 0 <= i < j < |rows| ==> rows[i].uid != rows[j].uid
  }

  /** With distinct uids the payload is exactly the rows: every reading is in it with its own
      amount and nothing else is. */
  lemma {:induction false} PayloadIsTheRows(rows: seq<Row>)
    requires DistinctUids(rows)
    ensures forall i :: 0 <= i < |rows| ==> rows[i].uid in Payload(rows) && Payload(rows)[rows[i].uid] == rows[i].b
    ensures forall uid :: uid in Payload(rows) ==> Reports(rows, uid)
    decreases |rows|
  {
    if rows != [] {
      var front := rows[..|rows| - 1];
      PayloadIsTheRows(front);
      forall uid | uid in Payload(rows) ensures Reports(rows, uid) {
        if uid in Payload(front) {
          var i :| 0 <= i < |front| && front[i].uid == uid;
          assert rows[i].uid == uid;
        } else {
          assert rows[|rows| - 1].uid == uid;
        }
      }
      forall i | 0 <= i < |front| ensures Payload(rows)[rows[i].uid] == rows[i].b {
        assert front[i] == rows[i];
      }
    }
  }

  // --- The body as it is sent ---------------------------------------------------------------

  // A row as the push takes it: the text key replaces the uid when it is set.
  datatype PushRow = PushRow(uid: int, key: string, b: Bytes)

  function KeyOf(r: PushRow): string { if r.key != "" then r.key else Dec(r.uid) }

  function Body(rows: seq<PushRow>): map<string, Bytes> {
    if rows == [] then map[]
    else var last := rows[|rows| - 1]; Body(rows[..|rows| - 1])[KeyOf(last) := last.b]
  }

  method PushBody(rows: seq<PushRow>) returns (data: map<string, Bytes>)
    ensures data == Body(rows)
  {
    data := map[];
    for i := 0 to |rows|
      invariant data == Body(rows[..i])
    {
      var key := Dec(rows[i].uid);
      if rows[i].key != "" {
        key := rows[i].key;
      }
      data := data[key := rows[i].b];
      assert rows[..i + 1][..i] == rows[..i];
    }
    assert rows[..|rows|] == rows;
  }

  predicate SentUnder(r: PushRow, key: string) { key == if r.key == "" then Dec(r.uid) else r.key }

  /** What is sent under a key, which is a row's own key where it has one and its written uid otherwise,
      are the bytes of the last row of that key. */
  lemma {:induction false} LastRowOfAKeyIsSent(rows: seq<PushRow>, i: nat, key: string)
    requires i < |rows| && SentUnder(rows[i], key) && forall j :: i < j < |rows| ==> !SentUnder(rows[j], key)
    ensures key in Body(rows) && Body(rows)[key] == rows[i].b
    decreases |rows|
  {
    if i < |rows| - 1 {
      LastRowOfAKeyIsSent(rows[..|rows| - 1], i, key);
    }
  }

  /** And nothing is sent under a key no row has. */
  lemma {:induction false} NothingElseIsSent(rows: seq<PushRow>, key: string)
    requires forall i :: 0 <= i < |rows| ==> !SentUnder(rows[i], key)
    ensures key !in Body(rows)
    decreases |rows|
  {
    if rows != [] {
      NothingElseIsSent(rows[..|rows| - 1], key);
    }
  }

  // The rows of a report carry no key.
  function Keyless(rows: seq<Row>): (r: seq<PushRow>)
    ensures |r| == |rows|
  {
    seq(|rows|, i requires 0 <= i < |rows| => PushRow(rows[i].uid, "", rows[i].b))
  }

  lemma OneMoreKey(m: Bills, body: map<string, Bytes>, uid: int, b: Bytes)
    requires forall u :: Dec(u) in body <==> u in m
    requires forall u :: u in m ==> body[Dec(u)] == m[u]
    ensures var body', m' := body[Dec(uid) := b], m[uid := b];
      (forall u :: Dec(u) in body' <==> u in m') && (forall u :: u in m' ==> body'[Dec(u)] == m'[u])
  {
    forall u | Dec(u) == Dec(uid) ensures u == uid {
      DecInjective(u, uid);
    }
  }

  /** Keyed by the written uid the body says the same as keyed by the uid itself: it has an entry for
      exactly the uids of the rows, with the same bytes. */
  lemma {:induction false} BodyIsThePayload(rows: seq<Row>)
    ensures forall uid :: Dec(uid) in Body(Keyless(rows)) <==> uid in Payload(rows)
    ensures forall uid :: uid in Payload(rows) ==> Body(Keyless(rows))[Dec(uid)] == Payload(rows)[uid]
    decreases |rows|
  {
    if rows != [] {
      var n := |rows| - 1;
      BodyIsThePayload(rows[..n]);
      assert Keyless(rows)[..n] == Keyless(rows[..n]);
      OneMoreKey(Payload(rows[..n]), Body(Keyless(rows[..n])), rows[n].uid, rows[n].b);
    }
  }

  // --- Report rounds with traffic arriving in between --------------------------------------------

  // Where a round is. While one user is read the four atomic accesses are counted: both loads,
  // then both stores of zero.
  datatype Phase =
    | Idle
    | Gathering(todo: seq<User>, got: seq<Reading>)
    | Torn(todo: seq<User>, got: seq<Reading>, b: Bytes, done: nat)
    | Restoring(rest: seq<Reading>)

  datatype State = State(
    counters: Totals,
    phase: Phase,
    counted: Totals,     // every byte that ever arrived
    billed: Bills,       // what the panel has stored
    unsure: Totals,      // stored by a push that was answered with an error
    lost: Totals)        // wiped by a reset without having been read

  const Init := State(map[], Idle, map[], map[], map[], map[])

  datatype Event =
    | Arrive(id: Uuid, b: Bytes)
    | Begin(users: seq<User>)
    | Read                                              // the next atomic access
    | Post(ok: bool, applications: nat, zero: seq<Row>) // the push of what was read
    | Restore                                           // the next reading is put back

  // The user lists of a node: one uid per uuid, and no two users share one.
  predicate KnownUsers(ids: map<Uuid, int>, users: seq<User>) {
    && (forall i :: 0 <= i < |users| ==> users[i].uuid in ids && ids[users[i].uuid] == users[i].id)
    && (forall i, j :: 0 <= i < j < |users| ==> users[i].uuid != users[j].uuid)
  }

  predicate Enabled(ids: map<Uuid, int>, s: State, e: Event) {
    match e
    case Arrive(_, b) => b.NonNegative()
    case Begin(users) => s.phase.Idle? && KnownUsers(ids, users)
    case Read => (s.phase.Gathering? || s.phase.Torn?) && s.phase.todo != []
    case Post(ok, applications, zero) =>
      && s.phase.Gathering? && s.phase.todo == []
      // What `Push` guarantees.
      && applications <= 1 && (ok && (s.phase.got != [] || zero != []) ==> applications == 1)
      && (s.phase.got == [] && zero == [] ==> applications == 0)
      // What `WithOnlineRows` guarantees.
      && DistinctUids(zero)
      && forall i :: 0 <= i < |zero| ==> zero[i].b == ZERO && !Reports(RowsOf(s.phase.got), zero[i].uid)
    case Restore => s.phase.Restoring?
  }

  function AddAll(m: Bills, p: Bills, times: nat): Bills {
    if times == 0 then m
    else (map uid | uid in m.Keys + p.Keys ::
            (if uid in m then m[uid] else ZERO).Plus(if uid in p then p[uid] else ZERO))
  }

  function AddReadings(m: Totals, got: seq<Reading>): Totals
    decreases |got|
  {
    if got == [] then m else AddReadings(Add(m, got[0].user.uuid, got[0].b), got[1..])
  }

  // The four atomic accesses of the read-and-reset of the user at the head of `todo`.
  function LoadUp(s: State): State
    requires s.phase.Gathering? && s.phase.todo != []
  {
    s.(phase := Torn(s.phase.todo, s.phase.got, Bytes(Amount(s.counters, s.phase.todo[0].uuid, Up), 0), 1))
  }

  function LoadDown(s: State): State
    requires s.phase.Torn? && s.phase.todo != []
  {
    s.(phase := s.phase.(b := s.phase.b.(down := Amount(s.counters, s.phase.todo[0].uuid, Down)), done := 2))
  }

  function ZeroUp(s: State): State
    requires s.phase.Torn? && s.phase.todo != []
  {
    var id := s.phase.todo[0].uuid;
    s.(counters := Zeroed(s.counters, id, Up),
       lost := Add(s.lost, id, Bytes(Amount(s.counters, id, Up) - s.phase.b.up, 0)),
       phase := s.phase.(done := 3))
  }

  function ZeroDown(s: State): State
    requires s.phase.Torn? && s.phase.todo != []
  {
    var id, b := s.phase.todo[0].uuid, s.phase.b;
    var got := if b.up > 0 || b.down > 0 then s.phase.got + [Reading(s.phase.todo[0], b)] else s.phase.got;
    s.(counters := Zeroed(s.counters, id, Down),
       lost := Add(s.lost, id, Bytes(0, Amount(s.counters, id, Down) - b.down)),
       phase := Gathering(s.phase.todo[1..], got))
  }

  function ReadStep(s: State): State
    requires (s.phase.Gathering? || s.phase.Torn?) && s.phase.todo != []
  {
    if s.phase.Gathering? then LoadUp(s)
    else if s.phase.done == 1 then LoadDown(s)
    else if s.phase.done == 2 then ZeroUp(s)
    else ZeroDown(s)
  }

  function Apply(ids: map<Uuid, int>, s: State, e: Event): State
    requires Enabled(ids, s, e)
  {
    match e
    case Arrive(id, b) => s.(counters := Add(s.counters, id, b), counted := Add(s.counted, id, b))
    case Begin(users) => s.(phase := Gathering(users, []))
    case Read => ReadStep(s)
    case Post(ok, applications, zero) =>
      var got := s.phase.got;
      s.(billed := AddAll(s.billed, Payload(RowsOf(got) + zero), applications),
         unsure := if !ok && applications == 1 then AddReadings(s.unsure, got) else s.unsure,
         phase := if ok then Idle else Restoring(got))
    case Restore =>
      var rest := s.phase.rest;
      if rest == [] then s.(phase := Idle)
      else s.(counters := Restored(s.counters, rest[0].user.uuid, rest[0].b), phase := Restoring(rest[1..]))
  }

  // --- Conservation --------------------------------------------------------------------------------

  function SumOf(got: seq<Reading>, id: Uuid, d: Direction): int {
    if got == [] then 0
    else if got[0].user.uuid == id then got[0].b.At(d) + SumOf(got[1..], id, d)
    else SumOf(got[1..], id, d)
  }

  // What has been taken out of the counters of a user and is neither billed nor put back.
  function InFlight(p: Phase, id: Uuid, d: Direction): int {
    match p
    case Idle => 0
    case Gathering(_, got) => SumOf(got, id, d)
    case Torn(todo, got, b, done) =>
      SumOf(got, id, d) + if todo != [] && todo[0].uuid == id && done == 3 && d.Up? then b.up else 0
    case Restoring(rest) => SumOf(rest, id, d)
  }

  predicate GoodReading(ids: map<Uuid, int>, s: State, r: Reading) {
    r.b.NonNegative() && r.user.uuid in s.counters && r.user.uuid in ids && ids[r.user.uuid] == r.user.id
  }

  ghost predicate GoodReadings(ids: map<Uuid, int>, s: State, got: seq<Reading>) {
    && (forall i :: 0 <= i < |got| ==> GoodReading(ids, s, got[i]))
    && (forall i, j :: 0 <= i < j < |got| ==> got[i].user.uuid != got[j].user.uuid)
  }

  ghost predicate Apart(todo: seq<User>, got: seq<Reading>) {
    forall i, j :: 0 <= i < |todo| && 0 <= j < |got| ==> todo[i].uuid != got[j].user.uuid
  }

  // The loads of a torn read never exceed what the counter holds until it is zeroed.
  predicate GoodLoad(s: State, id: Uuid, b: Bytes, done: nat) {
    && 1 <= done <= 3 && b.NonNegative()
    && (done < 3 ==> b.up <= Amount(s.counters, id, Up))
    && (if done == 1 then b.down == 0 else b.down <= Amount(s.counters, id, Down))
    && (b.up > 0 || b.down > 0 ==> id in s.counters)
  }

  ghost predicate GoodPhase(ids: map<Uuid, int>, s: State) {
    match s.phase
    case Idle => true
    case Gathering(todo, got) => KnownUsers(ids, todo) && GoodReadings(ids, s, got) && Apart(todo, got)
    case Torn(todo, got, b, done) =>
      && todo != [] && GoodLoad(s, todo[0].uuid, b, done)
      && KnownUsers(ids, todo) && GoodReadings(ids, s, got) && Apart(todo, got)
    case Restoring(rest) => GoodReadings(ids, s, rest)
  }

  ghost predicate Balanced(ids: map<Uuid, int>, s: State, id: Uuid, d: Direction)
    requires id in ids
  {
    Amount(s.counted, id, d) + Amount(s.unsure, id, d) ==
    BilledTo(s.billed, ids[id], d) + Amount(s.counters, id, d) + InFlight(s.phase, id, d) + Amount(s.lost, id, d)
  }

  ghost predicate NoDebts(s: State) {
    forall id, d :: Amount(s.counters, id, d) >= 0 && Amount(s.lost, id, d) >= 0
  }

  ghost predicate Inv(ids: map<Uuid, int>, s: State) {
    && NoDebts(s)
    && GoodPhase(ids, s)
    && forall id, d :: id in ids ==> Balanced(ids, s, id, d)
  }

  ghost predicate Injective(ids: map<Uuid, int>) {
    forall a, b :: a in ids && b in ids && ids[a] == ids[b] ==> a == b
  }

  lemma {:induction false} SumOfAppend(got: seq<Reading>, r: Reading, id: Uuid, d: Direction)
    ensures SumOf(got + [r], id, d) == SumOf(got, id, d) + if r.user.uuid == id then r.b.At(d) else 0
    decreases |got|
  {
    if got == [] {
      assert [r][1..] == [] && got + [r] == [r];
    } else {
      assert (got + [r])[1..] == got[1..] + [r];
      SumOfAppend(got[1..], r, id, d);
    }
  }

  lemma {:induction false} AddReadingsAmount(m: Totals, got: seq<Reading>, id: Uuid, d: Direction)
    ensures Amount(AddReadings(m, got), id, d) == Amount(m, id, d) + SumOf(got, id, d)
    decreases |got|
  {
    if got != [] {
      AddReadingsAmount(Add(m, got[0].user.uuid, got[0].b), got[1..], id, d);
    }
  }

  lemma {:induction false} SumOfNone(got: seq<Reading>, id: Uuid, d: Direction)
    requires forall i :: 0 <= i < |got| ==> got[i].user.uuid != id
    ensures SumOf(got, id, d) == 0
    decreases |got|
  {
    if got != [] {
      SumOfNone(got[1..], id, d);
    }
  }

  lemma {:induction false} SumOfOne(got: seq<Reading>, id: Uuid, k: nat, d: Direction)
    requires forall i, j :: 0 <= i < j < |got| ==> got[i].user.uuid != got[j].user.uuid
    requires k < |got| && got[k].user.uuid == id
    ensures SumOf(got, id, d) == got[k].b.At(d)
    decreases |got|
  {
    if k == 0 {
      SumOfNone(got[1..], id, d);
    } else {
      SumOfOne(got[1..], id, k - 1, d);
    }
  }

  lemma DistinctRows(ids: map<Uuid, int>, s: State, got: seq<Reading>, zero: seq<Row>)
    requires Injective(ids) && GoodReadings(ids, s, got) && DistinctUids(zero)
    requires forall i :: 0 <= i < |zero| ==> !Reports(RowsOf(got), zero[i].uid)
    ensures DistinctUids(RowsOf(got) + zero)
  {
    var rows := RowsOf(got) + zero;
    forall i, j | 0 <= i < j < |rows| ensures rows[i].uid != rows[j].uid {
      if j < |got| {
        assert GoodReading(ids, s, got[i]) && GoodReading(ids, s, got[j]);
      } else if i < |got| {
        assert RowsOf(got)[i].uid == rows[i].uid && rows[j] == zero[j - |got|];
      }
    }
  }

  lemma NotRead(ids: map<Uuid, int>, s: State, got: seq<Reading>, zero: seq<Row>, id: Uuid)
    requires Injective(ids) && id in ids && GoodReadings(ids, s, got)
    requires forall i :: 0 <= i < |zero| ==> zero[i].b == ZERO
    requires forall k :: 0 <= k < |got| ==> got[k].user.uuid != id
    ensures forall i :: 0 <= i < |got| + |zero| && (RowsOf(got) + zero)[i].uid == ids[id] ==>
              (RowsOf(got) + zero)[i].b == ZERO
  {
    forall i | 0 <= i < |got| ensures RowsOf(got)[i].uid != ids[id] {
      assert GoodReading(ids, s, got[i]);
    }
  }

  lemma PayloadOfRead(ids: map<Uuid, int>, s: State, got: seq<Reading>, zero: seq<Row>, id: Uuid, d: Direction, k: nat)
    requires id in ids && GoodReadings(ids, s, got) && DistinctUids(RowsOf(got) + zero)
    requires k < |got| && got[k].user.uuid == id
    ensures BilledTo(Payload(RowsOf(got) + zero), ids[id], d) == SumOf(got, id, d)
  {
    SumOfOne(got, id, k, d);
    assert GoodReading(ids, s, got[k]);
    PayloadIsTheRows(RowsOf(got) + zero);
    assert (RowsOf(got) + zero)[k] == Row(ids[id], got[k].b);
  }

  lemma PayloadOfUnread(ids: map<Uuid, int>, s: State, got: seq<Reading>, zero: seq<Row>, id: Uuid, d: Direction)
    requires Injective(ids) && id in ids && GoodReadings(ids, s, got) && DistinctUids(RowsOf(got) + zero)
    requires forall i :: 0 <= i < |zero| ==> zero[i].b == ZERO
    requires forall k :: 0 <= k < |got| ==> got[k].user.uuid != id
    ensures BilledTo(Payload(RowsOf(got) + zero), ids[id], d) == SumOf(got, id, d)
  {
    SumOfNone(got, id, d);
    NotRead(ids, s, got, zero, id);
    PayloadIsTheRows(RowsOf(got) + zero);
  }

  // The payload carries a user's reading, and nothing for a user who was not read.
  lemma PayloadCarries(ids: map<Uuid, int>, s: State, got: seq<Reading>, zero: seq<Row>, id: Uuid, d: Direction)
    requires Injective(ids) && id in ids && GoodReadings(ids, s, got)
    requires DistinctUids(zero)
    requires forall i :: 0 <= i < |zero| ==> zero[i].b == ZERO && !Reports(RowsOf(got), zero[i].uid)
    ensures BilledTo(Payload(RowsOf(got) + zero), ids[id], d) == SumOf(got, id, d)
  {
    DistinctRows(ids, s, got, zero);
    if forall k :: 0 <= k < |got| ==> got[k].user.uuid != id {
      PayloadOfUnread(ids, s, got, zero, id, d);
    } else {
      var k: nat :| k < |got| && got[k].user.uuid == id;
      PayloadOfRead(ids, s, got, zero, id, d, k);
    }
  }

  lemma ZeroedAmount(m: Totals, k: Uuid, z: Direction, id: Uuid, d: Direction)
    ensures Amount(Zeroed(m, k, z), id, d) == if id == k && d == z then 0 else Amount(m, id, d)
  {
  }

  lemma AddedAmount(m: Totals, k: Uuid, b: Bytes, id: Uuid, d: Direction)
    ensures Amount(Add(m, k, b), id, d) == Amount(m, id, d) + if id == k then b.At(d) else 0
  {
  }

  // The next access zeroes this counter.
  predicate Zeroes(s: State, id: Uuid, d: Direction) {
    s.phase.Torn? && s.phase.todo != [] && s.phase.todo[0].uuid == id && s.phase.done == if d.Up? then 2 else 3
  }

  // What the access wipes: what came into the counter after it was loaded.
  function WipedOf(s: State, id: Uuid, d: Direction): int {
    if Zeroes(s, id, d) then Amount(s.counters, id, d) - s.phase.b.At(d) else 0
  }

  // The counter loses the load and what is wiped with it, the load goes into the reading.
  ghost predicate Moved(s: State, s': State, id: Uuid, d: Direction) {
    var load := if Zeroes(s, id, d) then s.phase.b.At(d) else 0;
    && Amount(s'.counters, id, d) == Amount(s.counters, id, d) - load - WipedOf(s, id, d)
    && Amount(s'.lost, id, d) == Amount(s.lost, id, d) + WipedOf(s, id, d)
    && InFlight(s'.phase, id, d) == InFlight(s.phase, id, d) + load
  }

  lemma LoadMoves(s: State, id: Uuid, d: Direction)
    requires Enabled(map[], s, Read) && (s.phase.Torn? ==> s.phase.done == 1)
    ensures Moved(s, ReadStep(s), id, d)
  {
  }

  lemma ZeroUpMoves(s: State, id: Uuid, d: Direction)
    requires s.phase.Torn? && s.phase.todo != [] && s.phase.done == 2
    ensures Moved(s, ZeroUp(s), id, d)
  {
    var k := s.phase.todo[0].uuid;
    ZeroedAmount(s.counters, k, Up, id, d);
    AddedAmount(s.lost, k, Bytes(Amount(s.counters, k, Up) - s.phase.b.up, 0), id, d);
  }

  lemma ZeroDownMoves(s: State, id: Uuid, d: Direction)
    requires s.phase.Torn? && s.phase.todo != [] && s.phase.done == 3 && s.phase.b.NonNegative()
    ensures Moved(s, ZeroDown(s), id, d)
  {
    var k, b := s.phase.todo[0].uuid, s.phase.b;
    ZeroedAmount(s.counters, k, Down, id, d);
    AddedAmount(s.lost, k, Bytes(0, Amount(s.counters, k, Down) - b.down), id, d);
    Gathered(s.phase.got, s.phase.todo[0], b, id, d);
    GatheredMoves(s, ZeroDown(s), ZeroDown(s).phase.got, id, d);
  }

  lemma GatheredMoves(s: State, s': State, got: seq<Reading>, id: Uuid, d: Direction)
    requires s.phase.Torn? && s.phase.todo != [] && s.phase.done == 3
    requires s'.phase == Gathering(s.phase.todo[1..], got)
    requires SumOf(got, id, d) == SumOf(s.phase.got, id, d) +
               if s.phase.todo[0].uuid == id then s.phase.b.At(d) else 0
    requires Amount(s'.counters, id, d) == if s.phase.todo[0].uuid == id && d.Down? then 0 else Amount(s.counters, id, d)
    requires Amount(s'.lost, id, d) == Amount(s.lost, id, d) +
               if s.phase.todo[0].uuid == id && d.Down? then Amount(s.counters, id, d) - s.phase.b.down else 0
    ensures Moved(s, s', id, d)
  {
  }

  // A user without traffic is not collected, which changes no sum.
  lemma Gathered(got: seq<Reading>, u: User, b: Bytes, id: Uuid, d: Direction)
    requires b.NonNegative()
    ensures SumOf(if b.up > 0 || b.down > 0 then got + [Reading(u, b)] else got, id, d) ==
            SumOf(got, id, d) + if u.uuid == id then b.At(d) else 0
  {
    SumOfAppend(got, Reading(u, b), id, d);
  }

  lemma ReadMoves(ids: map<Uuid, int>, s: State, id: Uuid, d: Direction)
    requires GoodPhase(ids, s) && Enabled(ids, s, Read)
    ensures Moved(s, ReadStep(s), id, d)
  {
    if s.phase.Torn? && s.phase.done == 2 {
      ZeroUpMoves(s, id, d);
    } else if s.phase.Torn? && s.phase.done == 3 {
      ZeroDownMoves(s, id, d);
    } else {
      LoadMoves(s, id, d);
    }
  }

  lemma WipedIsNoDebt(ids: map<Uuid, int>, s: State, id: Uuid, d: Direction)
    requires GoodPhase(ids, s) && Enabled(ids, s, Read)
    ensures WipedOf(s, id, d) >= 0
  {
  }

  predicate ReadingUser(s: State, id: Uuid) {
    s.phase.Torn? && s.phase.todo != [] && s.phase.todo[0].uuid == id
  }

  // Between the load and the zeroing of this counter.
  predicate Window(s: State, id: Uuid, d: Direction) {
    ReadingUser(s, id) && if d.Up? then s.phase.done < 3 else s.phase.done > 1
  }

  // The part of an arrival that falls into that window.
  function TornPart(s: State, e: Event, id: Uuid, d: Direction): int {
    if e.Arrive? && e.id == id && Window(s, id, d) then e.b.At(d) else 0
  }

  // Torn bytes that are still in the counter because the zeroing is yet to come.
  function Doomed(s: State, id: Uuid, d: Direction): int {
    if Window(s, id, d) then Amount(s.counters, id, d) - s.phase.b.At(d) else 0
  }

  lemma DoomedIsWiped(s: State, id: Uuid, d: Direction)
    requires s.phase.Gathering? || (s.phase.Torn? && 1 <= s.phase.done <= 3)
    requires s.phase.todo != []
    ensures Doomed(ReadStep(s), id, d) == Doomed(s, id, d) - WipedOf(s, id, d)
  {
  }

  lemma RestoreLeavesNoDebts(ids: map<Uuid, int>, m: Totals, r: Reading, id: Uuid, d: Direction)
    requires r.b.NonNegative() && Amount(m, id, d) >= 0
    ensures Amount(Restored(m, r.user.uuid, r.b), id, d) >= 0
  {
  }

  lemma NoDebtsKept(ids: map<Uuid, int>, s: State, e: Event)
    requires NoDebts(s) && GoodPhase(ids, s) && Enabled(ids, s, e)
    ensures NoDebts(Apply(ids, s, e))
  {
    var s' := Apply(ids, s, e);
    forall id, d ensures Amount(s'.counters, id, d) >= 0 && Amount(s'.lost, id, d) >= 0 {
      assert Amount(s.counters, id, d) >= 0 && Amount(s.lost, id, d) >= 0;
      if e.Read? {
        ReadMoves(ids, s, id, d);
        WipedIsNoDebt(ids, s, id, d);
      } else if e.Restore? && s.phase.rest != [] {
        assert GoodReading(ids, s, s.phase.rest[0]);
        RestoreLeavesNoDebts(ids, s.counters, s.phase.rest[0], id, d);
      }
    }
  }

  lemma ArriveKeepsPhase(ids: map<Uuid, int>, s: State, e: Event)
    requires Inv(ids, s) && Enabled(ids, s, e) && e.Arrive?
    ensures GoodPhase(ids, Apply(ids, s, e))
  {
    var s' := Apply(ids, s, e);
    forall r | GoodReading(ids, s, r) ensures GoodReading(ids, s', r) {}
    if s.phase.Torn? {
      assert GoodLoad(s', s.phase.todo[0].uuid, s.phase.b, s.phase.done);
    }
  }

  lemma ArriveKeeps(ids: map<Uuid, int>, s: State, e: Event)
    requires Inv(ids, s) && Enabled(ids, s, e) && e.Arrive?
    ensures Inv(ids, Apply(ids, s, e))
  {
    NoDebtsKept(ids, s, e);
    ArriveKeepsPhase(ids, s, e);
    forall id, d | id in ids ensures Balanced(ids, Apply(ids, s, e), id, d) {
      assert Balanced(ids, s, id, d);
    }
  }

  lemma AddAllBills(m: Bills, p: Bills, times: nat, uid: int, d: Direction)
    requires times <= 1
    ensures BilledTo(AddAll(m, p, times), uid, d) == BilledTo(m, uid, d) + if times == 1 then BilledTo(p, uid, d) else 0
  {
  }

  // What the push of the readings adds to the bill of a user, and to what may be billed twice.
  lemma PostBills(ids: map<Uuid, int>, s: State, e: Event, id: Uuid, d: Direction)
    requires Injective(ids) && id in ids && Enabled(ids, s, e) && e.Post?
    requires GoodReadings(ids, s, s.phase.got)
    ensures BilledTo(Apply(ids, s, e).billed, ids[id], d) ==
            BilledTo(s.billed, ids[id], d) + if e.applications == 1 then SumOf(s.phase.got, id, d) else 0
  {
    PayloadCarries(ids, s, s.phase.got, e.zero, id, d);
    AddAllBills(s.billed, Payload(RowsOf(s.phase.got) + e.zero), e.applications, ids[id], d);
  }

  lemma PostDoubts(ids: map<Uuid, int>, s: State, e: Event, id: Uuid, d: Direction)
    requires Enabled(ids, s, e) && e.Post?
    ensures Amount(Apply(ids, s, e).unsure, id, d) ==
            Amount(s.unsure, id, d) + if !e.ok && e.applications == 1 then SumOf(s.phase.got, id, d) else 0
    ensures InFlight(Apply(ids, s, e).phase, id, d) == if e.ok then 0 else SumOf(s.phase.got, id, d)
    ensures e.ok && e.applications != 1 ==> SumOf(s.phase.got, id, d) == 0
  {
    AddReadingsAmount(s.unsure, s.phase.got, id, d);
    if s.phase.got == [] {
      SumOfNone(s.phase.got, id, d);
    }
  }

  lemma PostBalances(ids: map<Uuid, int>, s: State, e: Event, id: Uuid, d: Direction)
    requires Injective(ids) && id in ids && Enabled(ids, s, e) && e.Post?
    requires GoodReadings(ids, s, s.phase.got) && Balanced(ids, s, id, d)
    ensures Balanced(ids, Apply(ids, s, e), id, d)
  {
    PostBills(ids, s, e, id, d);
    PostDoubts(ids, s, e, id, d);
    var s' := Apply(ids, s, e);
    assert s'.counters == s.counters && s'.counted == s.counted && s'.lost == s.lost;
  }

  lemma PostKeeps(ids: map<Uuid, int>, s: State, e: Event)
    requires Injective(ids) && Inv(ids, s) && Enabled(ids, s, e) && e.Post?
    ensures Inv(ids, Apply(ids, s, e))
  {
    var s' := Apply(ids, s, e);
    NoDebtsKept(ids, s, e);
    assert GoodPhase(ids, s') by {
      forall r | GoodReading(ids, s, r) ensures GoodReading(ids, s', r) {}
    }
    forall id, d | id in ids ensures Balanced(ids, s', id, d) {
      PostBalances(ids, s, e, id, d);
    }
  }

  lemma RestoredAmount(m: Totals, k: Uuid, b: Bytes, id: Uuid, d: Direction)
    requires b.NonNegative() && k in m
    ensures Amount(Restored(m, k, b), id, d) == Amount(m, id, d) + if id == k then b.At(d) else 0
  {
  }

  lemma SumOfRest(rest: seq<Reading>, id: Uuid, d: Direction)
    requires rest != []
    ensures SumOf(rest, id, d) == SumOf(rest[1..], id, d) + if rest[0].user.uuid == id then rest[0].b.At(d) else 0
  {
  }

  lemma RestoreBalances(ids: map<Uuid, int>, s: State, id: Uuid, d: Direction)
    requires s.phase.Restoring? && id in ids && Balanced(ids, s, id, d)
    requires GoodReadings(ids, s, s.phase.rest)
    ensures Balanced(ids, Apply(ids, s, Restore), id, d)
  {
    var rest := s.phase.rest;
    if rest != [] {
      assert GoodReading(ids, s, rest[0]);
      RestoredAmount(s.counters, rest[0].user.uuid, rest[0].b, id, d);
      SumOfRest(rest, id, d);
    }
  }

  lemma RestoreKeepsPhase(ids: map<Uuid, int>, s: State)
    requires s.phase.Restoring? && GoodPhase(ids, s)
    ensures GoodPhase(ids, Apply(ids, s, Restore))
  {
    var s' := Apply(ids, s, Restore);
    if s.phase.rest != [] {
      assert GoodReading(ids, s, s.phase.rest[0]);
      assert s'.counters.Keys == s.counters.Keys;
      forall r | GoodReading(ids, s, r) ensures GoodReading(ids, s', r) {}
    }
  }

  lemma RestoreKeeps(ids: map<Uuid, int>, s: State, e: Event)
    requires Inv(ids, s) && Enabled(ids, s, e) && e.Restore?
    ensures Inv(ids, Apply(ids, s, e))
  {
    NoDebtsKept(ids, s, e);
    RestoreKeepsPhase(ids, s);
    forall id, d | id in ids ensures Balanced(ids, Apply(ids, s, e), id, d) {
      assert Balanced(ids, s, id, d);
      RestoreBalances(ids, s, id, d);
    }
  }

  lemma LoadsKeepPhase(ids: map<Uuid, int>, s: State)
    requires NoDebts(s) && GoodPhase(ids, s) && Enabled(ids, s, Read) && (s.phase.Torn? ==> s.phase.done == 1)
    ensures GoodPhase(ids, ReadStep(s))
  {
    var s' := ReadStep(s);
    var id := s.phase.todo[0].uuid;
    assert Amount(s.counters, id, Up) >= 0 && Amount(s.counters, id, Down) >= 0;
    assert GoodLoad(s', id, s'.phase.b, s'.phase.done);
    assert s'.counters == s.counters;
    forall r | GoodReading(ids, s, r) ensures GoodReading(ids, s', r) {}
  }

  lemma ZeroingKeepsReadings(ids: map<Uuid, int>, s: State, got: seq<Reading>)
    requires Enabled(ids, s, Read) && s.phase.Torn? && s.phase.done > 1 && GoodReadings(ids, s, got)
    ensures ReadStep(s).counters.Keys == s.counters.Keys && GoodReadings(ids, ReadStep(s), got)
  {
    assert ReadStep(s).counters.Keys == s.counters.Keys;
    forall r | GoodReading(ids, s, r) ensures GoodReading(ids, ReadStep(s), r) {}
  }

  lemma ZeroUpKeepsPhase(ids: map<Uuid, int>, s: State)
    requires GoodPhase(ids, s) && Enabled(ids, s, Read) && s.phase.Torn? && s.phase.done == 2
    ensures GoodPhase(ids, ReadStep(s))
  {
    ZeroingKeepsReadings(ids, s, s.phase.got);
    assert GoodLoad(ReadStep(s), s.phase.todo[0].uuid, s.phase.b, 3);
  }

  lemma ZeroDownKeepsPhase(ids: map<Uuid, int>, s: State)
    requires GoodPhase(ids, s) && Enabled(ids, s, Read) && s.phase.Torn? && s.phase.done == 3
    ensures GoodPhase(ids, ReadStep(s))
  {
    var s' := ReadStep(s);
    var todo := s.phase.todo;
    ZeroingKeepsReadings(ids, s, s.phase.got);
    assert KnownUsers(ids, todo[1..]);
    assert GoodReadings(ids, s', s'.phase.got);
    forall i, j | 0 <= i < |todo[1..]| && 0 <= j < |s'.phase.got|
      ensures todo[1..][i].uuid != s'.phase.got[j].user.uuid
    {
      assert todo[1..][i] == todo[i + 1];
    }
  }

  lemma ReadKeeps(ids: map<Uuid, int>, s: State)
    requires Inv(ids, s) && Enabled(ids, s, Read)
    ensures Inv(ids, ReadStep(s))
  {
    NoDebtsKept(ids, s, Read);
    if s.phase.Torn? && s.phase.done == 3 {
      ZeroDownKeepsPhase(ids, s);
    } else if s.phase.Torn? && s.phase.done == 2 {
      ZeroUpKeepsPhase(ids, s);
    } else {
      LoadsKeepPhase(ids, s);
    }
    forall id, d | id in ids ensures Balanced(ids, ReadStep(s), id, d) {
      assert Balanced(ids, s, id, d);
      ReadMoves(ids, s, id, d);
    }
  }

  lemma InvKept(ids: map<Uuid, int>, s: State, e: Event)
    requires Injective(ids) && Inv(ids, s) && Enabled(ids, s, e)
    ensures Inv(ids, Apply(ids, s, e))
  {
    match e
    case Arrive(_, _) => ArriveKeeps(ids, s, e);
    case Begin(users) =>
      forall id, d | id in ids ensures Balanced(ids, Apply(ids, s, e), id, d) {
        assert Balanced(ids, s, id, d);
      }
    case Read => ReadKeeps(ids, s);
    case Post(_, _, _) => PostKeeps(ids, s, e);
    case Restore => RestoreKeeps(ids, s, e);
  }

  // --- What a reset wipes -------------------------------------------------------------------------------

  lemma TornStep(ids: map<Uuid, int>, s: State, e: Event, id: Uuid, d: Direction)
    requires NoDebts(s) && GoodPhase(ids, s) && Enabled(ids, s, e)
    ensures var s' := Apply(ids, s, e);
      Amount(s'.lost, id, d) + Doomed(s', id, d) == Amount(s.lost, id, d) + Doomed(s, id, d) + TornPart(s, e, id, d)
  {
    if e.Read? {
      ReadMoves(ids, s, id, d);
      DoomedIsWiped(s, id, d);
    }
  }

  predicate IsRun(ids: map<Uuid, int>, s: State, es: seq<Event>)
    decreases |es|
  {
    es == [] || (Enabled(ids, s, es[0]) && IsRun(ids, Apply(ids, s, es[0]), es[1..]))
  }

  function After(ids: map<Uuid, int>, s: State, es: seq<Event>): State
    requires IsRun(ids, s, es)
    decreases |es|
  {
    if es == [] then s else After(ids, Apply(ids, s, es[0]), es[1..])
  }

  function TornBytes(ids: map<Uuid, int>, s: State, es: seq<Event>, id: Uuid, d: Direction): int
    requires IsRun(ids, s, es)
    decreases |es|
  {
    if es == [] then 0
    else TornPart(s, es[0], id, d) + TornBytes(ids, Apply(ids, s, es[0]), es[1..], id, d)
  }

  lemma {:induction false} RunKeeps(ids: map<Uuid, int>, s: State, es: seq<Event>, id: Uuid, d: Direction)
    requires Injective(ids) && Inv(ids, s) && IsRun(ids, s, es)
    ensures var s' := After(ids, s, es);
      && Inv(ids, s')
      && Amount(s'.lost, id, d) + Doomed(s', id, d) ==
         Amount(s.lost, id, d) + Doomed(s, id, d) + TornBytes(ids, s, es, id, d)
    decreases |es|
  {
    if es != [] {
      InvKept(ids, s, es[0]);
      TornStep(ids, s, es[0], id, d);
      RunKeeps(ids, Apply(ids, s, es[0]), es[1..], id, d);
    }
  }

  /** Over any run of arrivals and report rounds, with any outcome of the pushes, every byte
      counted for a user is billed, still in the counters, in the reading under way, or wiped by
      a reset; what is billed beyond that was stored by a push that was answered with an error. */
  lemma TrafficIsConserved(ids: map<Uuid, int>, es: seq<Event>, id: Uuid, d: Direction)
    requires Injective(ids) && id in ids && IsRun(ids, Init, es)
    ensures var s := After(ids, Init, es);
      && Amount(s.counted, id, d) + Amount(s.unsure, id, d) ==
         BilledTo(s.billed, ids[id], d) + Amount(s.counters, id, d) + InFlight(s.phase, id, d) + Amount(s.lost, id, d)
      && Amount(s.lost, id, d) >= 0
  {
    RunKeeps(ids, Init, es, id, d);
    assert Balanced(ids, After(ids, Init, es), id, d);
  }

  /** Between two rounds what the resets have wiped of a user is exactly what arrived between the
      load and the zeroing of a counter; without such arrivals nothing is lost. */
  lemma LostIsWhatArrivedTorn(ids: map<Uuid, int>, es: seq<Event>, id: Uuid, d: Direction)
    requires Injective(ids) && id in ids && IsRun(ids, Init, es) && After(ids, Init, es).phase.Idle?
    ensures var s := After(ids, Init, es);
      Amount(s.counted, id, d) + Amount(s.unsure, id, d) ==
      BilledTo(s.billed, ids[id], d) + Amount(s.counters, id, d) + TornBytes(ids, Init, es, id, d)
  {
    RunKeeps(ids, Init, es, id, d);
    assert Balanced(ids, After(ids, Init, es), id, d);
  }

  // --- What one undisturbed round does -----------------------------------------------------------------

  predicate Lists(users: seq<User>, id: Uuid) {
    exists i :: 0 <= i < |users| && users[i].uuid == id
  }

  // Nothing has come into the counters of this user since they were loaded.
  predicate Undisturbed(m: Totals, id: Uuid, b: Bytes, done: nat) {
    && (Amount(m, id, Up) == if done < 3 then b.up else 0)
    && (done >= 2 ==> Amount(m, id, Down) == b.down)
  }

  predicate Clean(s: State) {
    s.phase.Torn? ==> s.phase.todo != [] && Undisturbed(s.counters, s.phase.todo[0].uuid, s.phase.b, s.phase.done)
  }

  predicate AllRead(es: seq<Event>) {
    forall i :: 0 <= i < |es| ==> es[i].Read?
  }

  function Todo(p: Phase): seq<User> { if p.Gathering? || p.Torn? then p.todo else [] }

  // Reading takes the users it still has to read down to zero and loses nothing.
  predicate TakenOut(held: int, held': int, flight: int, flight': int, listed: bool, listed': bool) {
    && held + flight == held' + flight'
    && (listed' ==> listed)
    && (listed && !listed' ==> held' == 0)
    && (!listed ==> held' == held)
  }

  predicate ReadsOut(s: State, s': State, id: Uuid, d: Direction) {
    TakenOut(Amount(s.counters, id, d), Amount(s'.counters, id, d), InFlight(s.phase, id, d), InFlight(s'.phase, id, d),
             Lists(Todo(s.phase), id), Lists(Todo(s'.phase), id))
  }

  lemma ZeroUpKeepsUndisturbed(m: Totals, id: Uuid, b: Bytes)
    requires Undisturbed(m, id, b, 2)
    ensures Undisturbed(Zeroed(m, id, Up), id, b, 3)
  {
  }

  lemma ReadKeepsClean(s: State)
    requires Clean(s) && Enabled(map[], s, Read) && (s.phase.Torn? ==> 1 <= s.phase.done <= 3)
    ensures Clean(ReadStep(s)) && ReadStep(s).billed == s.billed
    ensures ReadStep(s).phase.Gathering? || ReadStep(s).phase.Torn?
  {
    if s.phase.Torn? && s.phase.done == 2 {
      var id := s.phase.todo[0].uuid;
      ZeroUpKeepsUndisturbed(s.counters, id, s.phase.b);
      assert Undisturbed(ReadStep(s).counters, id, s.phase.b, 3);
    }
  }

  lemma ReadNextListed(todo: seq<User>, id: Uuid)
    requires todo != [] && forall i, j :: 0 <= i < j < |todo| ==> todo[i].uuid != todo[j].uuid
    ensures Lists(todo[1..], id) <==> Lists(todo, id) && id != todo[0].uuid
  {
    if Lists(todo, id) && id != todo[0].uuid {
      var i :| 0 <= i < |todo| && todo[i].uuid == id;
      assert todo[1..][i - 1].uuid == id;
    }
    if Lists(todo[1..], id) {
      var i :| 0 <= i < |todo[1..]| && todo[1..][i].uuid == id;
      assert todo[i + 1].uuid == id;
    }
  }

  lemma CleanWipesNothing(s: State, id: Uuid, d: Direction)
    requires Clean(s)
    ensures WipedOf(s, id, d) == 0
  {
  }

  lemma OnlyTheReadOneMoves(s: State, s': State, id: Uuid, d: Direction)
    requires Moved(s, s', id, d) && WipedOf(s, id, d) == 0
    ensures Amount(s.counters, id, d) + InFlight(s.phase, id, d) == Amount(s'.counters, id, d) + InFlight(s'.phase, id, d)
    ensures !Lists(Todo(s.phase), id) ==> Amount(s'.counters, id, d) == Amount(s.counters, id, d)
  {
    if Zeroes(s, id, d) {
      assert Todo(s.phase)[0].uuid == id;
    }
  }

  lemma BeforeTheLast(s: State)
    requires Enabled(map[], s, Read) && !(s.phase.Torn? && s.phase.done == 3)
    requires s.phase.Torn? ==> 1 <= s.phase.done <= 3
    ensures Todo(ReadStep(s).phase) == Todo(s.phase)
  {
  }

  lemma BothAreZero(s: State, d: Direction)
    requires Clean(s) && s.phase.Torn? && s.phase.todo != [] && s.phase.done == 3
    ensures Todo(ZeroDown(s).phase) == s.phase.todo[1..]
    ensures Amount(ZeroDown(s).counters, s.phase.todo[0].uuid, d) == 0
  {
    ZeroedAmount(s.counters, s.phase.todo[0].uuid, Down, s.phase.todo[0].uuid, d);
    assert Undisturbed(s.counters, s.phase.todo[0].uuid, s.phase.b, 3);
  }

  lemma LastReadTakesOut(s: State, s': State, id: Uuid, d: Direction)
    requires Amount(s.counters, id, d) + InFlight(s.phase, id, d) == Amount(s'.counters, id, d) + InFlight(s'.phase, id, d)
    requires !Lists(Todo(s.phase), id) ==> Amount(s'.counters, id, d) == Amount(s.counters, id, d)
    requires Lists(Todo(s'.phase), id) ==> Lists(Todo(s.phase), id)
    requires Lists(Todo(s.phase), id) && !Lists(Todo(s'.phase), id) ==> Amount(s'.counters, id, d) == 0
    ensures ReadsOut(s, s', id, d)
  {
  }

  lemma NoLongerListed(ids: map<Uuid, int>, s: State, id: Uuid, d: Direction)
    requires GoodPhase(ids, s) && Clean(s) && Enabled(ids, s, Read)
    ensures var s' := ReadStep(s);
      && (Lists(Todo(s'.phase), id) ==> Lists(Todo(s.phase), id))
      && (Lists(Todo(s.phase), id) && !Lists(Todo(s'.phase), id) ==> Amount(s'.counters, id, d) == 0)
  {
    if s.phase.Torn? && s.phase.done == 3 {
      BothAreZero(s, d);
      ReadNextListed(s.phase.todo, id);
    } else {
      BeforeTheLast(s);
    }
  }

  lemma OneReadReadsOut(ids: map<Uuid, int>, s: State, id: Uuid, d: Direction)
    requires GoodPhase(ids, s) && Clean(s) && Enabled(ids, s, Read)
    ensures ReadsOut(s, ReadStep(s), id, d)
  {
    ReadMoves(ids, s, id, d);
    CleanWipesNothing(s, id, d);
    OnlyTheReadOneMoves(s, ReadStep(s), id, d);
    NoLongerListed(ids, s, id, d);
    LastReadTakesOut(s, ReadStep(s), id, d);
  }

  lemma ReadsOutCompose(s: State, s1: State, s2: State, id: Uuid, d: Direction)
    requires ReadsOut(s, s1, id, d) && ReadsOut(s1, s2, id, d)
    ensures ReadsOut(s, s2, id, d)
  {
  }

  lemma {:induction false} ReadsReadOut(ids: map<Uuid, int>, s: State, es: seq<Event>, id: Uuid, d: Direction)
    requires Injective(ids) && Inv(ids, s) && Clean(s) && (s.phase.Gathering? || s.phase.Torn?)
    requires IsRun(ids, s, es) && AllRead(es)
    ensures ReadsOut(s, After(ids, s, es), id, d) && Inv(ids, After(ids, s, es))
    ensures After(ids, s, es).billed == s.billed
    decreases |es|
  {
    if es != [] {
      var s1 := ReadStep(s);
      assert es[0].Read?;
      InvKept(ids, s, Read);
      ReadKeepsClean(s);
      OneReadReadsOut(ids, s, id, d);
      ReadsReadOut(ids, s1, es[1..], id, d);
      ReadsOutCompose(s, s1, After(ids, s1, es[1..]), id, d);
    }
  }

  // What a round with nothing arriving in it has done to a user.
  ghost predicate Settled(ids: map<Uuid, int>, s: State, s': State, users: seq<User>, id: Uuid, d: Direction)
    requires id in ids
  {
    if Lists(users, id) then
      && Amount(s'.counters, id, d) == 0
      && BilledTo(s'.billed, ids[id], d) == BilledTo(s.billed, ids[id], d) + Amount(s.counters, id, d)
    else
      && Amount(s'.counters, id, d) == Amount(s.counters, id, d)
      && BilledTo(s'.billed, ids[id], d) == BilledTo(s.billed, ids[id], d)
  }

  /** A round in which nothing arrives and whose push succeeds bills to every user of the list exactly
      what the counters held when it began and leaves both of them at zero; it touches nobody else. */
  lemma RoundBillsEveryUser(ids: map<Uuid, int>, s: State, users: seq<User>, accesses: seq<Event>, post: Event)
    requires Injective(ids) && Inv(ids, s) && Enabled(ids, s, Begin(users)) && AllRead(accesses)
    requires var g := Apply(ids, s, Begin(users)); IsRun(ids, g, accesses) && Enabled(ids, After(ids, g, accesses), post)
    requires post.Post? && post.ok
    ensures var s' := Apply(ids, After(ids, Apply(ids, s, Begin(users)), accesses), post);
      && s'.phase.Idle?
      && (forall u, d :: u in users ==>
            && Amount(s'.counters, u.uuid, d) == 0
            && BilledTo(s'.billed, u.id, d) == BilledTo(s.billed, u.id, d) + Amount(s.counters, u.uuid, d))
      && (forall id, d :: id in ids && !Lists(users, id) ==>
            && Amount(s'.counters, id, d) == Amount(s.counters, id, d)
            && BilledTo(s'.billed, ids[id], d) == BilledTo(s.billed, ids[id], d))
  {
    var g := Apply(ids, s, Begin(users));
    var s' := Apply(ids, After(ids, g, accesses), post);
    InvKept(ids, s, Begin(users));
    forall id, d | id in ids ensures Settled(ids, s, s', users, id, d) {
      ReadsReadOut(ids, g, accesses, id, d);
      OneUserIsBilled(ids, s, users, After(ids, g, accesses), post, id, d);
    }
    forall u, d | u in users
      ensures Amount(s'.counters, u.uuid, d) == 0
      ensures BilledTo(s'.billed, u.id, d) == BilledTo(s.billed, u.id, d) + Amount(s.counters, u.uuid, d)
    {
      var i :| 0 <= i < |users| && users[i] == u;
      assert Lists(users, u.uuid) && Settled(ids, s, s', users, u.uuid, d);
    }
    forall id, d | id in ids && !Lists(users, id)
      ensures Amount(s'.counters, id, d) == Amount(s.counters, id, d)
      ensures BilledTo(s'.billed, ids[id], d) == BilledTo(s.billed, ids[id], d)
    {
      assert Settled(ids, s, s', users, id, d);
    }
  }

  lemma OneUserIsBilled(ids: map<Uuid, int>, s: State, users: seq<User>, read: State, post: Event, id: Uuid, d: Direction)
    requires Injective(ids) && Inv(ids, read) && id in ids && Enabled(ids, s, Begin(users))
    requires read.billed == s.billed && ReadsOut(Apply(ids, s, Begin(users)), read, id, d)
    requires Enabled(ids, read, post) && post.Post? && post.ok
    ensures Settled(ids, s, Apply(ids, read, post), users, id, d)
  {
    PostBills(ids, read, post, id, d);
    PostDoubts(ids, read, post, id, d);
  }

  // How many accesses are still to be made before the push.
  function Outstanding(s: State): int {
    match s.phase
    case Gathering(todo, _) => 4 * |todo|
    case Torn(todo, _, _, done) => 4 * |todo| - done
    case _ => 0
  }

  lemma OneReadLess(s: State)
    requires Enabled(map[], s, Read) && (s.phase.Torn? ==> 1 <= s.phase.done <= 3)
    ensures Outstanding(ReadStep(s)) == Outstanding(s) - 1
  {
  }

  /** The reads of a round come to an end: four for each user of the list, whatever arrives. */
  lemma ReadsComeToAnEnd(ids: map<Uuid, int>, s: State, e: Event)
    requires Inv(ids, s) && Enabled(ids, s, e)
    ensures e.Read? ==> Outstanding(Apply(ids, s, e)) == Outstanding(s) - 1
    ensures e.Arrive? ==> Outstanding(Apply(ids, s, e)) == Outstanding(s)
    ensures e.Begin? ==> Outstanding(Apply(ids, s, e)) == 4 * |e.users|
    ensures e.Post? ==> Outstanding(s) == 0
  {
    if e.Read? {
      OneReadLess(s);
    }
  }

  // The user at this place has traffic and is the first of the list with this uuid.
  predicate HasTraffic(m: Totals, users: seq<User>, i: nat)
    requires i < |users|
  {
    && (Get(m, users[i].uuid).up > 0 || Get(m, users[i].uuid).down > 0)
    && forall j :: 0 <= j < i ==> users[j].uuid != users[i].uuid
  }

  // The readings of the first k users of the list.
  ghost predicate ReadingsOf(m: Totals, users: seq<User>, k: nat, readings: seq<Reading>)
    requires k <= |users|
  {
    && (forall i :: 0 <= i < k && HasTraffic(m, users, i) ==> Reading(users[i], Get(m, users[i].uuid)) in readings)
    && (forall r :: r in readings ==>
          r.b == Get(m, r.user.uuid) && exists i :: 0 <= i < k && users[i] == r.user && HasTraffic(m, users, i))
    && (forall i, j :: 0 <= i < j < |readings| ==> readings[i].user.uuid != readings[j].user.uuid)
  }

  lemma OneMoreReading(m: Totals, users: seq<User>, k: nat, readings: seq<Reading>)
    requires k < |users| && ReadingsOf(m, users, k, readings) && HasTraffic(m, users, k)
    ensures ReadingsOf(m, users, k + 1, readings + [Reading(users[k], Get(m, users[k].uuid))])
  {
    forall r | r in readings ensures r.user.uuid != users[k].uuid {
      var i :| 0 <= i < k && users[i] == r.user;
      assert users[i].uuid != users[k].uuid;
    }
  }

  lemma NoReading(m: Totals, users: seq<User>, k: nat, readings: seq<Reading>)
    requires k < |users| && ReadingsOf(m, users, k, readings) && !HasTraffic(m, users, k)
    ensures ReadingsOf(m, users, k + 1, readings)
  {
  }

  // What the next read finds: everything the counters hold, unless the uuid was read before.
  lemma NextReadFinds(m: Totals, users: seq<User>, k: nat, b: Bytes)
    requires k < |users| && b == if Lists(users[..k], users[k].uuid) then ZERO else Get(m, users[k].uuid)
    ensures b.up > 0 || b.down > 0 <==> HasTraffic(m, users, k)
    ensures b.up > 0 || b.down > 0 ==> b == Get(m, users[k].uuid)
  {
    if Lists(users[..k], users[k].uuid) {
      var j :| 0 <= j < k && users[..k][j].uuid == users[k].uuid;
      assert users[j].uuid == users[k].uuid;
    } else {
      forall j | 0 <= j < k ensures users[j].uuid != users[k].uuid {
        assert users[..k][j] == users[j];
      }
    }
  }

  /** The gathering loop: it reads every user of the list and nobody else; each one with traffic gives
      one reading with all of it. A uuid listed twice finds nothing the second time. */
  method Gather(c: TrafficCounter, users: seq<User>) returns (readings: seq<Reading>)
    modifies c
    ensures forall i :: 0 <= i < |users| && HasTraffic(old(c.counters), users, i) ==>
              Reading(users[i], Get(old(c.counters), users[i].uuid)) in readings
    ensures forall r :: r in readings ==>
              r.b == Get(old(c.counters), r.user.uuid) &&
              exists i :: 0 <= i < |users| && users[i] == r.user && HasTraffic(old(c.counters), users, i)
    ensures forall i, j :: 0 <= i < j < |readings| ==> readings[i].user.uuid != readings[j].user.uuid
    ensures forall id :: Get(c.counters, id) == if Lists(users, id) then ZERO else Get(old(c.counters), id)
  {
    readings := [];
    for k := 0 to |users|
      invariant ReadingsOf(old(c.counters), users, k, readings)
      invariant forall id :: Get(c.counters, id) == if Lists(users[..k], id) then ZERO else Get(old(c.counters), id)
    {
      var b := c.GetUserTraffic(users[k].uuid, true);
      NextReadFinds(old(c.counters), users, k, b);
      if b.up > 0 || b.down > 0 {
        OneMoreReading(old(c.counters), users, k, readings);
        readings := readings + [Reading(users[k], b)];
      } else {
        NoReading(old(c.counters), users, k, readings);
      }
      assert users[..k + 1] == users[..k] + [users[k]];
      ListsOneMore(users[..k], users[k]);
    }
    assert users[..|users|] == users;
  }

  lemma ListsOneMore(users: seq<User>, u: User)
    ensures forall id :: Lists(users + [u], id) <==> Lists(users, id) || id == u.uuid
  {
    forall id | Lists(users, id) || id == u.uuid ensures Lists(users + [u], id) {
      if id == u.uuid {
        assert (users + [u])[|users|].uuid == id;
      } else {
        var i :| 0 <= i < |users| && users[i].uuid == id;
        assert (users + [u])[i].uuid == id;
      }
    }
  }

  // --- A run that loses a byte ---------------------------------------------------------------------------

  const Someone := Uuid("u")

  lemma {:induction false} OneStepMore(ids: map<Uuid, int>, s: State, es: seq<Event>, e: Event)
    requires IsRun(ids, s, es) && Enabled(ids, After(ids, s, es), e)
    ensures IsRun(ids, s, es + [e]) && After(ids, s, es + [e]) == Apply(ids, After(ids, s, es), e)
    decreases |es|
  {
    if es == [] {
      assert [] + [e] == [e] && [e][1..] == [];
    } else {
      assert (es + [e])[1..] == es[1..] + [e];
      OneStepMore(ids, Apply(ids, s, es[0]), es[1..], e);
    }
  }

  lemma LoadsTheFirst(ids: map<Uuid, int>, es: seq<Event>)
    requires ids == map[Someone := 1] && es == [] + [Arrive(Someone, Bytes(1, 0))] + [Begin([User(1, Someone)])] + [Read]
    ensures var one := map[Someone := Bytes(1, 0)];
      && IsRun(ids, Init, es)
      && After(ids, Init, es) == State(one, Torn([User(1, Someone)], [], Bytes(1, 0), 1), one, map[], map[], map[])
  {
    var one, users := map[Someone := Bytes(1, 0)], [User(1, Someone)];
    var e1 := [] + [Arrive(Someone, Bytes(1, 0))];
    var e2 := e1 + [Begin(users)];
    OneStepMore(ids, Init, [], Arrive(Someone, Bytes(1, 0)));
    assert After(ids, Init, e1) == State(one, Idle, one, map[], map[], map[]);
    OneStepMore(ids, Init, e1, Begin(users));
    assert After(ids, Init, e2) == State(one, Gathering(users, []), one, map[], map[], map[]);
    OneStepMore(ids, Init, e2, Read);
  }

  lemma ArrivesOnTop(ids: map<Uuid, int>, s: State)
    requires s.counters == s.counted == map[Someone := Bytes(1, 0)]
    ensures var s' := Apply(ids, s, Arrive(Someone, Bytes(1, 0)));
      && s'.counters == s'.counted == map[Someone := Bytes(2, 0)]
      && s'.phase == s.phase && s'.billed == s.billed && s'.unsure == s.unsure && s'.lost == s.lost
  {
  }

  lemma SecondArrives(ids: map<Uuid, int>, first: seq<Event>)
    requires ids == map[Someone := 1] && IsRun(ids, Init, first)
    requires var one := map[Someone := Bytes(1, 0)];
      After(ids, Init, first) == State(one, Torn([User(1, Someone)], [], Bytes(1, 0), 1), one, map[], map[], map[])
    ensures var es := first + [Arrive(Someone, Bytes(1, 0))];
      && IsRun(ids, Init, es) && After(ids, Init, es).phase == Torn([User(1, Someone)], [], Bytes(1, 0), 1)
      && After(ids, Init, es).counters == After(ids, Init, es).counted == map[Someone := Bytes(2, 0)]
      && After(ids, Init, es).lost == map[]
  {
    OneStepMore(ids, Init, first, Arrive(Someone, Bytes(1, 0)));
    ArrivesOnTop(ids, After(ids, Init, first));
  }

  lemma ReadsOn(s: State)
    requires s.counters == map[Someone := Bytes(2, 0)] && s.lost == map[]
    requires s.phase == Torn([User(1, Someone)], [], Bytes(1, 0), 1)
    ensures ReadStep(s).phase == Torn([User(1, Someone)], [], Bytes(1, 0), 2)
    ensures ReadStep(ReadStep(s)).phase == Torn([User(1, Someone)], [], Bytes(1, 0), 3)
    ensures var s3 := ReadStep(ReadStep(ReadStep(s))); s3.counted == s.counted && Amount(s3.lost, Someone, Up) == 1
  {
    assert ReadStep(ReadStep(s)).lost[Someone] == Bytes(1, 0);
  }

  // The second byte arrives after the upload counter was loaded and before it is zeroed.
  predicate IsTornArrival(es: seq<Event>) {
    es == [Arrive(Someone, Bytes(1, 0)), Begin([User(1, Someone)]), Read, Arrive(Someone, Bytes(1, 0)),
           Read, Read, Read]
  }

  /** One byte is counted and read, a second one is counted and gone. */
  lemma TornArrivalIsLost(ids: map<Uuid, int>, es: seq<Event>)
    requires ids == map[Someone := 1] && IsTornArrival(es)
    ensures IsRun(ids, Init, es)
    ensures var s := After(ids, Init, es); Amount(s.counted, Someone, Up) == 2 && Amount(s.lost, Someone, Up) == 1
  {
    var e3 := [] + [Arrive(Someone, Bytes(1, 0))] + [Begin([User(1, Someone)])] + [Read];
    var e4 := e3 + [Arrive(Someone, Bytes(1, 0))];
    LoadsTheFirst(ids, e3);
    SecondArrives(ids, e3);
    ReadsOn(After(ids, Init, e4));
    OneStepMore(ids, Init, e4, Read);
    OneStepMore(ids, Init, e4 + [Read], Read);
    OneStepMore(ids, Init, e4 + [Read] + [Read], Read);
    assert es == e4 + [Read] + [Read] + [Read];
  }
}
