# V2bX protocols, verified

V2bX connects proxy cores (xray, sing-box, hysteria2) to a panel: it pulls the node settings and the
user list, limits what users may do, counts their traffic and reports traffic and online devices back.
Most of it is glue, but the glue holds several small stateful protocols. This project models those
protocols in Dafny and proves what each of them is for, over every input and every run. For the state
that several goroutines fight over most, the periodic task, a user's limit record and dynamic limit, the
connection count and the traffic counters, the runs are the interleavings of single atomic steps. Everywhere else a
method is one step, and the last section names the operations for which that leaves something open.

Each `.dfy` file models one component. Where the original changes state in place, the model is a class
whose methods are proved against functions on values (`View()` gives the value of an object), and the
properties of whole runs are lemmas about those functions.

| module | models |
|---|---|
| `PeriodicTask` | the periodic task: start, close, timer, self-restarting body |
| `Limiters`, `LimiterRuns` | admission check, device window, speed bucket cache, user updates |
| `LimitRecord` | the copy-on-write record of one user's limits and its compare-and-swap loops |
| `ConnLimiting` | the two tables of the connection limiter, call by call |
| `ConnRaces` | the connection count when calls overlap |
| `Admissions` | the connection limiter behind the admission check and the cores that release its slots |
| `DynamicLimits` | dynamic limits set while a check drops an expired one |
| `OnlineRegistries` | reference-counted online devices with expiry, and the push and expiry windows |
| `OnlineReports` | deduplication, device payload and the protocol that clears offline users |
| `Traffic` | counters, torn read-and-reset, push over candidate paths, restore |
| `UserSync` | comparison of user lists and the incremental update of core and limiter |
| `Json5` | the in-place comment and trailing comma stripper |
| `LogDedupe` | suppression of repeated log entries |
| `Selectors`, `Splitting` | choice of a core for a node; splitting a config; generated names |
| `Xhttp` | the rewriting of XHTTP settings |
| `CachedReaders` | the sniffing reader |
| `Sorting`, `Decimal`, `Texts`, `Wrappers` | orders and sorting, decimal numbers, text helpers, optional values |

## Where the code does less than its comments say

These properties are false of the code. Each has a lemma with a concrete input or run that breaks it
and, for all inputs, the exact condition under which it holds.

- **A task never runs two chains** (comment at common/task/task.go:84-86). `fire` clears whatever
  handle is current, so an expired goroutine that takes the lock after a Close and a Start erases the
  new timer's handle: `PeriodicTask.LateClearDoublesTheChain`. The chain is single exactly when no clear
  strikes a pending timer (`SingleChainExactly`).
- **A started task runs until it is closed or its body fails.** A body that began before a Close and a
  Start clears the running flag when it fails (common/task/task.go:71-75), and the restarted task dies
  with it: `PeriodicTask.OldBodyStopsTheRestart`. After a start, with no close and no other start since,
  the task is running exactly when no body has failed (`RunsUntilABodyFailsIff`).
- **The connection count is rolled back on rejection** (comment at limiter/conn.go:139-142). It is not
  when `checkLimit` refuses a TCP connection for its device or for a missing record, after the slot was
  taken (limiter/limiter.go:313-340), nor when a rule turns an admitted connection away
  (core/sing/hook.go:55-72): `Admissions.RefusedDeviceLocksTheUserOut`, and no later event gives the
  slots back (`LockedOutForGood`). And a packet connection that the IP limit rejects takes back a slot
  it never had: `ConnLimiting.PacketRejectionLetsInOneTooMany`. With calls one after the other the counts
  are the connections carried exactly when none of this happens (`Admissions.CountsCarriedIff`); the
  connection limiter on its own miscounts in the last way only (`ConnLimiting.CountsOpenExactly`).
- **The connection limit limits connections** when calls overlap. The count is loaded and stored in
  separate operations: `ConnRaces.BothPassTheLimit`, `IncrementIsLost`. The count is right exactly when
  no store is overtaken by another and no packet connection takes back what it never added
  (`CountsAreRightIff`), the stored number stays within the limit exactly when no call raises a count
  that reached it after the call's check (`CountsStayWithinIff`), and no user has more connections than
  allowed exactly when no call raises the count of a user who has that many (`ConnectionsFitIff`).
- **A dynamic limit lasts until it expires.** A check that found an older one expired drops whatever
  limit it meets in its second operation: `DynamicLimits.NewLimitIsDropped`,
  `NewLimitGoesWithTheRecord`. Limits in force survive exactly when no check acts after one was written,
  as the last thing, since the check decided (`LimitsInForceSurviveIff`).
- **Block comments are stripped.** A star that does not end the comment makes the scanner skip the next
  byte: `Json5.DoubleStarSwallowsTheText`. A comment becomes white space exactly when every star in it
  is followed by white space (`BlockCommentBlankedIff`).
- **Restored traffic is never lost** (comment at common/counter/traffic.go:69-72). Bytes that arrive
  between the load and the zeroing of a counter are wiped: `Traffic.TornArrivalIsLost`. Exactly those
  are lost (`LostIsWhatArrivedTorn`).
- **One message per window** (common/loghook/loghook.go:64-66). With a window above the retention a key
  is forgotten too early: `LogDedupe.ForgetsTooEarly`; exact condition in `WindowGuaranteeIff`.
- **Generated names are unique** (comment at cmd/split.go:327-328). "a", "a", "a-2" give "a-2" twice:
  `Splitting.TwoSameNamesAndANumberedOne`; exact condition in `GeneratedNamesAreUniqueIff`.
- **The split keeps the cores a node can end up on** (comment at cmd/split.go:177-182). A core spelled
  "Xray" is ignored by the instance (conf/node.go:120-140) and honoured by the split:
  `Splitting.CapitalisedCoreChangesTheChoice`. A node without an include file keeps its choice exactly
  when it has a core name, a core spelled canonically or none, or a misspelt core that is no core's
  type, or is the type of every core that supports the node (`SelectionPreservedIff`).
- **Users that went offline are cleared** (comment at node/user.go:197-203). The node forgets the
  transition before the report is sent, so a lost clearing is never repeated:
  `OnlineReports.LostClearingLeavesTheUser`. The panel is rid of the user exactly when the first report
  without the user arrived or the panel did not show the user before (`OfflineUserIsClearedIff`; for any
  pattern of lost reports, `PanelAgreesIff`). Uids that are not positive are never cleared:
  `NegativeUidIsNeverCleared`; exact conditions in `UntrackedUserAgreesIff` and `PanelAgreesIff`.
- **A reconnecting device is not one device too many** (comment at limiter/limiter.go:371-373). The
  memory of an address can be used up by another user who has it (`LimiterRuns.SharedAddressIsRefused`),
  and it is not consulted at all once the user is back from another address
  (`SecondOwnAddressIsRefused`). Within the memory's time a reconnection is refused exactly when the
  device limit is reached and the address is missing from the user's window or, if the user has none
  yet, was used up (`ReconnectionRefusedIff`). A user with a single address nobody else has is not
  refused within that time (`ReconnectionIsAccepted`).
- **An expired dynamic limit is dropped** (comment at limiter/limiter.go:300-305). A user without a
  static limit loses the whole record with it and is refused from the second connection on:
  `UserSync.ExpiredLimitLocksTheUserOut`, `LockedOutUntilChanged`. The node stays in step with the user
  list, with a record for exactly its users and their limits, exactly when no check meets such a record
  and no dynamic limit is set for a user without a record (`AlwaysAsRebuiltIff`).

## Model

| member | source | states |
|---|---|---|
| PeriodicTask.Task.Close | common/task/task.go:147-156 | the handle after a close: not running, its timer stopped and forgotten |
| PeriodicTask.Task.Arm | common/task/task.go:79-93 | a timer is armed only on a running task whose handle is empty |
| PeriodicTask.Task.Enter | common/task/task.go:125-132 | only one of several starts enters; it marks the task running |
| PeriodicTask.InvKept | common/task/task.go:50-144 | every step of every goroutine keeps: one body under the execution lock, timers known, a running task alive |
| PeriodicTask.EveryCallRunsItsBody | common/task/task.go:43-93 | over every run a start with `first` and an expiry each enter the body once before they leave, a start without `first` never; only a stopped task cuts a call short, and whoever arms has run its body |
| PeriodicTask.StartFromTheBody | common/task/task.go:32-35 | a start of a running task changes nothing; a body that starts its closed task again arms a timer |
| PeriodicTask.FirstBodyThenTimer | common/task/task.go:124-144 | the run of a start with `first`: the body, then the timer |
| PeriodicTask.FirstBodyFails | common/task/task.go:133-142 | the run in which that body fails: stopped, no timer |
| PeriodicTask.FailedStartLeavesNoTimer | common/task/task.go:133-142 | whatever happened meanwhile, the clean-up of a failed start leaves the task stopped without the timer it held |
| PeriodicTask.NeverTwoBodiesNeverSilent | common/task/task.go:27-41 | in every interleaving at most one body runs, and a running task has a pending timer or a goroutine short of its arming decision |
| PeriodicTask.NeverStuck | common/task/task.go:32-35 | no interleaving deadlocks, although bodies close and start their own task |
| PeriodicTask.ChainDoublesIff | common/task/task.go:84-89 | one step breaks the single chain exactly when a late clear strikes a pending timer |
| PeriodicTask.SingleChainExactly | common/task/task.go:79-122 | over every run the handle holds the only pending timer throughout if and only if no clear strikes one |
| PeriodicTask.PromptClearsKeepOneChain | common/task/task.go:115-122 | with expiry and clearing in one step there is never a second chain |
| PeriodicTask.LateClearDoublesTheChain | common/task/task.go:116-119 | the run that ends with two pending timers |
| PeriodicTask.StoppedStaysStopped | common/task/task.go:56-93 | without a start a stopped task stays stopped and arms nothing |
| PeriodicTask.CloseIsFinal | common/task/task.go:61-68 | after Close returns, nothing is armed any more and at most the one body already admitted still runs, however many goroutines are queued |
| PeriodicTask.RunsUntilABodyFailsIff | common/task/task.go:61-93 | after a start, with no close and no other start since, the task is running exactly when no body failed |
| PeriodicTask.OldBodyStopsTheRestart | common/task/task.go:69-76 | the run in which a body of before the restart stops it |
| PeriodicTask.NextDelayInRange | common/task/task.go:95-113 | for every jitter the delay is positive and within that fraction of the interval, at most all of it |
| PeriodicTask.NextDelayIsTheMovedInterval | common/task/task.go:97-113 | the delay is the interval moved by the sampled fraction and truncated, or the interval itself where less than one unit is left |
| LimitRecord.Slot.CompareAndSwap | limiter/limiter.go:219-222 | the swap succeeds exactly on the identical record |
| LimitRecord.InvKept | limiter/limiter.go:200-223 | every atomic step keeps the record equal to the fold of the successful swaps |
| LimitRecord.NoUpdateIsLost | limiter/limiter.go:158-223 | for any number of concurrent updates the record is the last stored one with all swapped mutations applied in order, and no swap changes uid, speed or device limit |
| LimitRecord.FlagConsumedOnce | limiter/limiter.go:179-198 | between two successful consumptions of the over-limit flag it was raised again |
| LimitRecord.FoldKeepsIdentity | limiter/limiter.go:200-206 | no sequence of swaps touches the identity fields |
| LimitRecord.SwapWritesExactly | limiter/limiter.go:158-223 | each update writes its own fields with the given values and no others |
| LimitRecord.LastDynamicWins | limiter/limiter.go:207-223 | after any swaps the dynamic limit and its expiry are those the last swap of them wrote |
| LimitRecord.LastFlagWins | limiter/limiter.go:173-198 | after any swaps the flag is the one the last swap of it wrote |
| DynamicLimits.UndisturbedCheck | limiter/limiter.go:295-311 | the two operations of a check, undisturbed, leave what the whole check leaves |
| DynamicLimits.LimitInForceIsDroppedIff | limiter/limiter.go:295-311 | a check takes away a limit in force exactly when one was the last thing written to the limit between its operations |
| DynamicLimits.LimitsInForceSurviveIff | limiter/limiter.go:295-311 | over every run no limit in force is taken away if and only if there is no such check |
| DynamicLimits.PromptDropIsHarmless | limiter/limiter.go:297-308 | a check that acts at once takes away no limit in force |
| DynamicLimits.NewLimitIsDropped | limiter/limiter.go:302-305 | the interleaving in which a new limit is dropped |
| DynamicLimits.NewLimitGoesWithTheRecord | limiter/limiter.go:306-308 | the interleaving in which the record goes with it |
| ConnLimiting.ConnLimiter.AddConnCount | limiter/conn.go:114-147 | both tables and the verdict after a connection, including the roll back of a rejected one |
| ConnLimiting.ConnLimiter.StoreIp | limiter/conn.go:72-112 | the IP map after a connection, and the rejection at the IP limit |
| ConnLimiting.ConnLimiter.AtIpLimit | limiter/conn.go:87-100 | the counting loop that stops early answers whether the limit is reached |
| ConnLimiting.ConnLimiter.DelConnCount | limiter/conn.go:150-176 | both tables after a disconnection, dropping empty IP maps |
| ConnLimiting.ConnLimiter.ClearOnlineIp | limiter/conn.go:179-208 | the nested sweep leaves the state whose entries `SweepRemovesExactly` lists, with the cutoff one window before now |
| ConnLimiting.SweepRemovesExactly | limiter/conn.go:179-208 | a sweep removes exactly the packet-only entries and those not seen since the cutoff, changes no other entry and no count, and drops a user exactly when no entry is left |
| ConnLimiting.RefusedAfterASweepIff | limiter/conn.go:114-208 | over every run of whole calls in realtime mode: after a sweep the next connection is refused exactly when the count is full or it is from an IP without open connections while as many IPs as allowed have some |
| ConnLimiting.ConnectionMarksItsIp | limiter/conn.go:72-147 | exactly when a connection is refused, on the stored entries; an accepted one marks its IP with its weight or time and changes no other entry |
| ConnLimiting.SeenLasts | limiter/conn.go:72-112 | outside realtime mode, over every run, an entry holds the time of the last connection from its IP until a sweep finds it too old |
| ConnLimiting.StepCountsIff | limiter/conn.go:114-176 | one step keeps every count equal to the open connections exactly when it is no miscounting rejection |
| ConnLimiting.CountsOpenExactly | limiter/conn.go:114-147 | over every run of whole calls on the limiter alone, which takes what it accepts as open: the counts are right throughout if and only if no packet connection is miscounted |
| ConnLimiting.WeightsKept | limiter/conn.go:72-112 | in realtime mode each IP value stays twice its open connections plus a packet bit |
| ConnLimiting.LimitsKept | limiter/conn.go:22-176 | a whole call keeps counts within the connection limit, IPs within the IP limit, and no stored IP map empty |
| ConnLimiting.TheTwoTablesAgree | limiter/conn.go:22-208 | over every run of whole calls on the limiter alone: count of a user = open connections = sum of halved IP values, within both limits |
| ConnLimiting.PacketRejectionLetsInOneTooMany | limiter/conn.go:138-144 | the run in which a user holds one connection more than allowed |
| ConnRaces.StepRightIff | limiter/conn.go:22-45 | one atomic step of overlapping calls keeps every count equal to the calls that raised it exactly when it is no overtaken store and takes back nothing that was not added |
| ConnRaces.CountsAreRightIff | limiter/conn.go:22-45 | in every interleaving the counts are right throughout if and only if no such store happens |
| ConnRaces.StepWithinIff | limiter/conn.go:114-121 | one atomic step keeps the stored numbers within the limit exactly when it does not raise a count loaded at the limit |
| ConnRaces.CountsStayWithinIff | limiter/conn.go:114-121 | in every interleaving no stored number exceeds the limit if and only if no call raises a count that reached the limit after its check |
| ConnRaces.StepFitsIff | limiter/conn.go:114-121 | one atomic step keeps every user within the limit exactly when it does not raise the count of a user who has that many connections |
| ConnRaces.ConnectionsFitIff | limiter/conn.go:114-121 | in every interleaving no user has more counted connections than allowed if and only if there is no such step |
| ConnRaces.RightCountsLimitTheConnections | limiter/conn.go:114-121 | counts that are never wrong and never above the limit keep the connections within it |
| ConnRaces.SerialCallsCountRight | limiter/conn.go:114-154 | calls that are not interrupted while they work on the count keep it right and the connections within the limit |
| ConnRaces.CallIsTheWholeCall | limiter/conn.go:22-45 | an uninterrupted call changes the count as the whole call does |
| ConnRaces.BothPassTheLimit | limiter/conn.go:116-120 | the interleaving in which two connections pass a limit of one |
| ConnRaces.IncrementIsLost | limiter/conn.go:26-27 | the interleaving in which one of two connections is never counted, so that with one allowed both are in |
| Admissions.RefusedLateIff | limiter/limiter.go:281-344 | a check ends in a later refusal exactly when the connection limiter accepts and the record is missing or the device is one too many |
| Admissions.RefusedCheckGivesBackIff | limiter/limiter.go:278-344 | exactly which refused checks leave the user's count as it was |
| Admissions.TurnCountsIff | limiter/limiter.go:278-361 | one check, closing or sweep keeps every count equal to the carried connections exactly when it leaves no slot behind and takes none back |
| Admissions.CountsCarriedIff | core/sing/hook.go:37-92 | over every run every count is the connections the core carries throughout if and only if none of this happens |
| Admissions.TurnWeighsIff | limiter/conn.go:72-112 | one turn keeps the IP values at the carried connections exactly when it leaves no slot behind |
| Admissions.CarriedTablesAgree | limiter/conn.go:22-208 | as long as neither happens both tables agree with the carried connections, within both limits |
| Admissions.LockedOutForGood | limiter/conn.go:114-121 | a user whose slots are all left behind is rejected for ever, over every run |
| Admissions.RefusedDeviceLocksTheUserOut | core/xray/app/dispatcher/default.go:208-219 | the refused second device that takes the one slot of the first |
| Limiters.TighterIsAMonoid | limiter/dynamic.go:32-51 | choosing the tighter limit is commutative and associative with unit 0 and yields the smallest set limit |
| Limiters.Limiter.constructor | limiter/limiter.go:84-116 | a new limiter is in the state that `UserSync.StartingUsersGetTheirLimits` describes field by field |
| Limiters.Limiter.CheckLimit | limiter/limiter.go:278-361 | verdict and whole state after an admission check |
| Limiters.Limiter.TakeLimit | limiter/limiter.go:290-314 | the limit in force, with an expired dynamic one dropped and the record too when there is no static one |
| Limiters.Limiter.EnterDevice | limiter/limiter.go:315-344 | entering a device and taking it out again on a refusal |
| Limiters.Limiter.OldOnlineLookup | limiter/limiter.go:402-415 | a remembered address is found while it is young enough and dropped otherwise |
| Limiters.Limiter.BucketFor | limiter/limiter.go:346-360 | the cached bucket is reused, replaced or dropped |
| Limiters.Limiter.RotateDeviceWindow | limiter/limiter.go:371-400 | after the nested loops every online address is remembered for one of its users, the others are as before, and the window is empty |
| Limiters.Limiter.SweepOldOnline | limiter/limiter.go:428-439 | exactly the addresses older than the window are dropped |
| Limiters.Limiter.AddDynamicSpeedLimit | limiter/dynamic.go:10-30 | a dynamic limit keeps the rest of the record and drops the bucket |
| Limiters.Limiter.UpdateDynamicSpeedLimit | limiter/limiter.go:158-168 | the same, failing for an unknown user without any change |
| Limiters.Limiter.UpdateUser | limiter/limiter.go:134-156 | all tables after removing users and then adding users, which `UserSync.UpdateTouchesExactly` describes field by field |
| LimiterRuns.DeviceRejectedIff | limiter/limiter.go:315-344 | a device is refused exactly when it is unknown and the panel counts as many devices as allowed |
| LimiterRuns.RefusalLeavesTheWindow | limiter/limiter.go:321-344 | every refusal leaves window, alive list and buckets as they were |
| LimiterRuns.OldAddressIsForgotten | limiter/limiter.go:402-439 | an address remembered too long counts as unknown to the device limit, and a sweep drops exactly such addresses |
| LimiterRuns.CheckLeavesTheRecords | limiter/limiter.go:290-314 | a check changes no record but the user's, and that only when its dynamic limit expired: then the limit goes, or the record when there is no static limit |
| LimiterRuns.DynamicLimitIsRecorded | limiter/dynamic.go:15-30 | a dynamic limit and its expiry go into the record and leave its other fields; a user without a record gets one with the uid and no other limit |
| LimiterRuns.RotationHolds | limiter/limiter.go:377-400 | a rotation records the address of a user who has it alone |
| LimiterRuns.StepHolds | limiter/limiter.go:278-439 | every step keeps the device in the window or remembered since the last rotation that saw it |
| LimiterRuns.ReconnectionIsAccepted | limiter/limiter.go:315-439 | a user who connects from one address only, which nobody else uses, is not refused within the memory of the last rotation that recorded it, over every run |
| LimiterRuns.MemoryStep | limiter/limiter.go:332-343 | a step keeps a young remembered address unless it is used up |
| LimiterRuns.MemoryLasts | limiter/limiter.go:371-439 | over every run a recorded address is remembered until somebody uses it up |
| LimiterRuns.ReconnectionRefusedIff | limiter/limiter.go:315-439 | over every run exactly which reconnections from a recorded address are refused |
| LimiterRuns.SharedAddressIsRefused | limiter/limiter.go:332-335 | a shared address used up by the other user |
| LimiterRuns.SecondOwnAddressIsRefused | limiter/limiter.go:321-331 | a second own address, remembered but not consulted |
| LimiterRuns.BucketRateIsTheTightestLimit | limiter/limiter.go:285-361 | no bucket exactly when no limit in force is set, otherwise one with the smallest limit times 125000 |
| LimiterRuns.DynamicLimitIsServed | limiter/dynamic.go:15-30 | over every run, until another one is set or the panel changes the user, connections are served at the tightest of the limits of node, panel and the dynamic one while it has not expired, and without it afterwards |
| LimiterRuns.BucketStep | limiter/limiter.go:346-360 | what every step does to the cached bucket of a user |
| LimiterRuns.BucketIsReusedIff | limiter/limiter.go:346-360 | consecutive accepted connections share the bucket exactly when the rate is unchanged and nothing dropped it in between |
| LimiterRuns.BucketsAreNotShared | limiter/limiter.go:354-356 | no two users are ever served one bucket |
| OnlineRegistries.OnlineRegistry.Touch | limiter/online_registry.go:109-122 | the entry after a touch, with unusable keys and uid 0 ignored |
| OnlineRegistries.OnlineRegistry.Add | limiter/online_registry.go:124-138 | one more reference |
| OnlineRegistries.OnlineRegistry.Del | limiter/online_registry.go:140-155 | one reference less, never below zero, the entry kept |
| OnlineRegistries.OnlineRegistry.DeleteUser | limiter/online_registry.go:157-166 | exactly the user's devices are dropped |
| OnlineRegistries.OnlineRegistry.Sweep | limiter/online_registry.go:168-178 | exactly the unreferenced entries older than the window are dropped |
| OnlineRegistries.OnlineRegistry.Snapshot | limiter/online_registry.go:180-199 | the sorted list of exactly the listed devices |
| OnlineRegistries.OnlineRegistry.SetTTL | limiter/online_registry.go:80-88 | the window is never below its minimum |
| OnlineRegistries.RefsAreOpenConnections | limiter/online_registry.go:124-155 | over every run the references are the connections opened minus those closed |
| OnlineRegistries.TouchedDeviceStaysListed | limiter/online_registry.go:109-199 | a touched device is in every snapshot up to a window later |
| OnlineRegistries.ClosedDeviceStaysListed | limiter/online_registry.go:124-199 | so is a device whose connection opened or closed |
| OnlineRegistries.IdleDeviceExpires | limiter/online_registry.go:168-178 | a device without connections last seen more than a window before a sweep is listed by no later snapshot until it is renewed |
| OnlineRegistries.TouchedDeviceGoes | limiter/online_registry.go:109-178 | over every run the first sweep more than a window after the last touch takes an unconnected device off the list |
| OnlineRegistries.RemovedUserIsGone | limiter/online_registry.go:157-166 | no device of a removed user is listed until it is renewed |
| OnlineRegistries.ListedUnderTheLastUid | limiter/online_registry.go:96-138 | over every run a device is listed under the uid it was last renewed with |
| OnlineRegistries.ReferencedDeviceNeverExpires | limiter/online_registry.go:124-178 | a device with an open connection survives every sweep |
| OnlineRegistries.JitteredPushFits | node/task.go:19-37 | the next report comes at most ten seconds later than the push interval |
| OnlineRegistries.WindowsOfANode | node/task.go:19-95 | the push interval is clamped to 20 to 100 seconds with a minute by default; the window is the timeout, at least a minute more than the push interval |
| OnlineRegistries.NextReportListsTheDevice | node/task.go:76-95 | with the window derived from the push interval a touched device is in the next report, whatever the timeout and the jitter |
| OnlineReports.DedupeOnlineUsersByIP | node/user.go:226-259 | sorted, duplicate free, and exactly the normalised pairs of user and address |
| OnlineReports.DedupeIps | node/user.go:277-291 | one user's addresses, sorted and duplicate free |
| OnlineReports.DedupeOnlineIPMapByIP | node/user.go:261-293 | the same for every user, without users left empty |
| OnlineReports.BuildOnlineIPPayload | node/user.go:322-347 | each user maps to the sorted set of the user's addresses |
| OnlineReports.Controller.TrackOnlineTransition | node/user.go:197-224 | exactly the uids that were online and are not any more, sorted; the new set remembered |
| OnlineReports.Controller.OnlinePart | node/user.go:41-82 | the report says of every uid exactly what it should: devices, an explicit empty list, or nothing |
| OnlineReports.DedupedDevices | node/user.go:232-251 | normalising the deduplicated snapshot again changes nothing |
| OnlineReports.PanelFollowsTheNode | node/user.go:48-104 | when all reports arrive, the panel's list of every user is the deduplicated current snapshot after each report |
| OnlineReports.UntrackedUserAgreesIff | node/user.go:204-210 | for uids that are not positive: shown from the first report that arrives with them on, whatever is lost; when all arrive, right exactly when online now or never |
| OnlineReports.ClearedExactlyOnce | node/user.go:70-82 | an offline transition is cleared in the first report after it and in no other |
| OnlineReports.OfflineUserIsClearedIff | node/user.go:70-104 | over every run an offline user is gone from the panel exactly when the first report without it arrived or the panel did not show it |
| OnlineReports.PanelAgreesIff | node/user.go:48-104 | over every run with any reports lost and for every uid: exactly when the last report that arrived and told of the user had its current devices |
| OnlineReports.LostClearingLeavesTheUser | node/user.go:78-104 | the run of three reports with the clearing one lost |
| OnlineReports.NegativeUidIsNeverCleared | node/user.go:204-210 | the run of two reports with a negative uid |
| OnlineReports.LostClearingStays | node/user.go:78-104 | a clearing that does not arrive is never repeated |
| Traffic.TrafficCounter.Tx | common/counter/traffic.go:98-101 | the upload counter grows, created when missing |
| Traffic.TrafficCounter.Rx | common/counter/traffic.go:93-96 | the download counter grows |
| Traffic.TrafficCounter.Reset | common/counter/traffic.go:55-60 | both counters are zeroed, one after the other |
| Traffic.TrafficCounter.GetUserTraffic | core/hy2/user.go:68-87 | the reading and the reset behind it |
| Traffic.TrafficCounter.Restore | common/counter/traffic.go:66-88 | positive amounts are added back to an existing counter |
| Traffic.Push | api/panel/user.go:264-288 | over any candidate paths and answers the increment is stored at most once, exactly once on success; the next path is tried exactly after a 404 or 405, and the last answer decides |
| Traffic.WithOnlineRows | node/user.go:84-94 | online users without traffic get one empty row, and no reading is overwritten |
| Traffic.PayloadIsTheRows | api/panel/user.go:255-262 | with distinct uids the payload carries every row and nothing else |
| Traffic.PushBody | api/panel/user.go:255-262 | the loop fills the body under the text key of every row |
| Traffic.LastRowOfAKeyIsSent | api/panel/user.go:255-262 | under each key, a row's own or its written uid, the bytes of the last row with it are sent |
| Traffic.NothingElseIsSent | api/panel/user.go:255-262 | nothing is sent under other keys |
| Traffic.BodyIsThePayload | api/panel/user.go:255-262 | keyed by the written uid the body says the same as keyed by the uid |
| Traffic.PayloadCarries | node/user.go:25-39 | of every user the payload carries exactly the bytes read |
| Traffic.Gather | node/user.go:25-39 | the loop reads every user of the list: exactly those with traffic give a reading, of all they had, listed counters end at zero and others are kept |
| Traffic.RoundBillsEveryUser | node/user.go:21-123 | a round from any reachable state in which nothing arrives and the push succeeds bills every user of the list exactly what the counters held, leaves them at zero and touches nobody else |
| Traffic.ReadsComeToAnEnd | node/user.go:25-39 | a round pushes after exactly four accesses for every user of the list, whatever arrives |
| Traffic.InvKept | node/user.go:13-123 | every step of arrivals, torn reads, pushes and restores keeps the balance |
| Traffic.TornStep | common/counter/traffic.go:55-60 | a step wipes exactly the arrivals between load and zeroing |
| Traffic.TrafficIsConserved | node/user.go:21-123 | over every run each counted byte is billed, in a counter, in the reading under way, or wiped; nothing else is billed but what an ambiguous push stored |
| Traffic.LostIsWhatArrivedTorn | common/counter/traffic.go:55-88 | between rounds the wiped bytes are exactly those that arrived torn |
| Traffic.TornArrivalIsLost | common/counter/traffic.go:55-60 | the run in which one of two counted bytes is lost |
| UserSync.CompareKeyInjective | node/user.go:295-297 | the comparison key identifies the user even when uuids contain the separator |
| UserSync.CompareUserList | node/user.go:299-320 | comparing by key finds exactly the difference of the lists |
| UserSync.UnpairedUsers | node/user.go:306-313 | with distinct uuids the added users are exactly the new ones not in the old list |
| UserSync.Hysteria2.AddUsers | core/hy2/user.go:34-42 | the user map after adding users in order |
| UserSync.Hysteria2.DelUsers | core/hy2/user.go:44-52 | the user map after removing users |
| UserSync.Hysteria2.Authenticate | core/hy2/user.go:20-27 | accepted exactly when in the map |
| UserSync.Controller.CheckUsers | node/task.go:336-393 | one round of the user monitor, with "not modified" changing nothing |
| UserSync.RoundKeepsSync | node/task.go:342-386 | a round brings limiter and core in step with the pulled list: records for exactly its users with their uid and limits, and exactly their uuids in the core |
| UserSync.StartingUsersGetTheirLimits | limiter/limiter.go:84-116 | a new limiter has a record for exactly its users, each with uid, speed limit and device limit of the list, no dynamic limit and a clear flag |
| UserSync.UpdateTouchesExactly | limiter/limiter.go:134-156 | added users get such records; removed ones leave no record, window, bucket or device count; others keep all |
| UserSync.SyncedIsAsRebuilt | limiter/limiter.go:84-116 | a node is in step with its list exactly when it looks like one started with it |
| UserSync.UnchangedUserKeepsAll | limiter/limiter.go:134-156 | an unchanged user keeps record, dynamic limit, device window and bucket |
| UserSync.AlwaysAsRebuilt | node/task.go:336-393 | over pulled lists and limiter steps in any order a node no step upsets is in step with the latest list |
| UserSync.StepKeepsTheIndexIff | limiter/limiter.go:295-311 | a limiter step keeps the index exactly when it meets no expired dynamic limit without a static one and adds no record |
| UserSync.TurnKeepsSyncIff | node/task.go:336-393 | one round or limiter step keeps the node in step with its list exactly when it is not such a step |
| UserSync.AlwaysAsRebuiltIff | node/task.go:336-393 | over every run the node is in step with its list throughout if and only if there is no such step |
| UserSync.LockedOutUntilChanged | limiter/limiter.go:306-314 | a listed user without a record is refused, over any number of rounds, until the panel changes the user or a dynamic limit is set |
| UserSync.ExpiredLimitLocksTheUserOut | limiter/limiter.go:297-314 | the user who loses the record to an expired limit |
| UserSync.StartIsSynced | limiter/limiter.go:97-108 | a node just started is in step with its list |
| UserSync.CheckKeepsTheIndexIff | limiter/limiter.go:297-311 | a connection check removes a record exactly when a dynamic limit expired and there is no static one |
| Decimal.DecReadsBack | node/user.go:296-296 | a number is written in decimal digits without leading zeros, negative ones behind a minus sign |
| Decimal.DecInjective | node/user.go:296-296 | different numbers are written differently |
| Json5.ConsumeComment | common/json5/json5.go:21-47 | blanks in place what the comment scan blanks, on every buffer, and stays in bounds |
| Json5.CommaAhead | common/json5/json5.go:70-85 | looks past white space and comments and blanks a trailing comma in place |
| Json5.Prep | common/json5/json5.go:49-93 | the buffer ends as the stripped text of its old contents |
| Json5.PrepIsCleaned | common/json5/json5.go:49-93 | the position-based scan of the whole buffer equals the text-based definition |
| Json5.CleanedOnlyBlanks | common/json5/json5.go:49-93 | on every text whatsoever characters are kept or replaced by spaces |
| Json5.BlockCommentBlankedIff | common/json5/json5.go:29-45 | a block comment ends at its terminator and leaves only white space exactly when every star in it is followed by white space |
| Json5.DoubleStarSwallowsTheText | common/json5/json5.go:34-43 | a comment that does not end |
| Json5.LookAheadStrips | common/json5/json5.go:68-85 | the look-ahead finds a closing bracket exactly when the next significant segment is one |
| Json5.StripsSegments | common/json5/json5.go:49-93 | for every text of literals, comments, commas and other characters: literals verbatim, comments white space, a comma blank exactly before a closing bracket, same length |
| LogDedupe.Deduper.Suppress | common/loghook/loghook.go:67-99 | memory and outcome of one entry |
| LogDedupe.Deduper.Prune | common/loghook/loghook.go:101-112 | exactly the keys not seen for the retention are forgotten, at most once per window |
| LogDedupe.WrittenEntriesAreApart | common/loghook/loghook.go:64-66 | two written entries of one key are at least a window apart |
| LogDedupe.SuppressedRepeatsAWrittenOne | common/loghook/loghook.go:64-66 | a suppressed entry repeats one written less than a window before |
| LogDedupe.SuppressedIff | common/loghook/loghook.go:64-97 | within the retention an entry is suppressed exactly when its key was written less than a window before |
| LogDedupe.RecentKeyIsRemembered | common/loghook/loghook.go:101-112 | a key written or suppressed less than the retention ago is remembered |
| LogDedupe.ReportsWhatWasSuppressed | common/loghook/loghook.go:88-97 | the reported number is exactly what was suppressed since the last write, unless forgotten |
| LogDedupe.MemoryIsRecent | common/loghook/loghook.go:101-112 | what is remembered was seen within retention and one window |
| LogDedupe.WindowGuaranteeIff | common/loghook/loghook.go:101-112 | the guarantee holds on every log exactly when the window does not exceed the retention |
| LogDedupe.ForgetsTooEarly | common/loghook/loghook.go:107-111 | with a longer window two entries are written within one window |
| Selectors.Selector.PickLocked | core/selector.go:119-147 | the first core with the name, else the first running eligible core, else the first eligible one |
| Selectors.Selector.StartLocked | core/selector.go:77-92 | a running core is left alone, a failed start leaves nothing behind |
| Selectors.Selector.AddNode | core/selector.go:149-176 | the node is on the chosen core, which runs; no other core and, on a refusal, no node is touched |
| Selectors.Selector.DelNode | core/selector.go:178-188 | the node leaves the table exactly when it was there and the core removed it |
| Selectors.Selector.Close | core/selector.go:94-108 | no core runs afterwards |
| Selectors.IsSupported | core/selector.go:110-117 | the search loop answers membership |
| Selectors.PickUnique | core/selector.go:121-147 | the choice is determined |
| Selectors.PickIs | core/selector.go:119-147 | the choice by cases on the fields of the cores: first by name, else the first running one that suits, else the first that suits, else none |
| Selectors.NoSecondCoreIsStarted | core/selector.go:119-120 | a node that does not name its core starts none while an eligible one runs |
| Splitting.SplitNodeCores | cmd/split.go:183-228 | keeps, in order, exactly the cores the node's own fields name, or all |
| Splitting.KeptAreTheNamed | cmd/split.go:183-228 | exactly which cores are kept, by cases on the node: options or the fields beside them, a core name or a type, an unnamed core under its type |
| Splitting.InstanceReads | conf/node.go:120-140 | the names the instance goes by for the same core and node |
| Splitting.FirstAmongKept | core/selector.go:130-146 | the first match among kept positions is the first match of all when no match is dropped |
| Splitting.EligibleCoresAreKept | cmd/split.go:177-228 | for canonically written nodes every core the selector might choose is kept |
| Splitting.SplitKeepsTheChoice | core/selector.go:121-147 | keeping all eligible cores preserves the choice for every set of running cores |
| Splitting.DroppedCoreIsMissed | core/selector.go:139-141 | dropping an eligible core changes the choice for some set of running cores |
| Splitting.ChoiceKeptIff | core/selector.go:121-147 | for a node without a core name the choice is the same for all sets of running cores exactly when every eligible core is kept |
| Splitting.SplitPreservesSelection | cmd/split.go:177-228 | for every core list, canonically written node and running set the same core is chosen from the split config |
| Splitting.IncludePreservesSelection | cmd/split.go:188-190 | for a node with an include file the same, whatever options the file holds |
| Splitting.SelectionPreservedIff | cmd/split.go:177-228 | exactly which nodes and core lists keep their choice for all sets of running cores |
| Splitting.CapitalisedCoreChangesTheChoice | cmd/split.go:217-220 | the node and cores for which it is not |
| Splitting.SanitizedIsClean | cmd/split.go:305-325 | the result can be a file and instance name; exactly such names are left alone |
| Splitting.SanitizedIs | cmd/split.go:305-325 | the name from its first to its last letter or digit, an underscore for each character that is not plain, or "node" when nothing is left |
| Splitting.UsedNames.UniqueSplitName | cmd/split.go:329-336 | the number of uses grows and is appended from the second use on |
| Splitting.UniqueSplitNames | cmd/split.go:114-117 | every node's generated name, by how often its name came before |
| Splitting.GeneratedNamesAreUniqueIff | cmd/split.go:327-336 | the generated names differ exactly when no name reads like a numbered form that is used |
| Splitting.TwoSameNamesAndANumberedOne | cmd/split.go:327-336 | the names of which two come out the same |
| Xhttp.PickHeaderString | core/xray/inbound.go:448-458 | the first of the keys that holds a text |
| Xhttp.HeadersArrayToMap | core/xray/inbound.go:423-446 | the loop computes the header map |
| Xhttp.LastElementWins | core/xray/inbound.go:423-446 | a header maps to the value of the last element that names it |
| Xhttp.NoOtherHeaders | core/xray/inbound.go:426-443 | there are no other headers |
| Xhttp.HeaderOfIsGiven | core/xray/inbound.go:423-458 | which header an element gives: the text at its first colon, or the first of its name keys and value keys that hold a text, trimmed |
| Xhttp.NormalizeXHTTPValue | core/xray/inbound.go:396-421 | the recursion computes the tree that `NormalizedRewrites` describes |
| Xhttp.NormalizedRewrites | core/xray/inbound.go:396-446 | on every tree: same keys and lengths; a header array becomes the object of exactly the headers its original elements give, each with the value of the last; an array under the five other keys becomes the empty object; all else is the rewriting of its own child |
| Xhttp.RewritingIsUnique | core/xray/inbound.go:396-446 | that description fits one tree only |
| Xhttp.NormalizedIsNormal | core/xray/inbound.go:396-421 | afterwards no array is left under a key that needs an object, at any depth |
| Xhttp.NormalizedKeepsExactlyNormal | core/xray/inbound.go:396-421 | exactly the normal trees are left alone; a second pass changes nothing |
| Xhttp.HeadersSeeTheOriginal | core/xray/inbound.go:399-405 | rewriting the elements first makes no difference to the headers |
| Xhttp.NormalizeXHTTPModeCompat | core/xray/inbound.go:374-394 | download settings are dropped in stream-one mode |
| Xhttp.CompatDropsOnlyDownloads | core/xray/inbound.go:374-394 | outside stream-one mode nothing changes; in it exactly the download settings of root and extra go |
| Xhttp.CompatIsCompat | core/xray/inbound.go:381-391 | neither root nor extra keep them, and nothing else is lost from normal form |
| Xhttp.NormalizeXHTTPSettings | core/xray/inbound.go:354-372 | the two passes in sequence |
| Xhttp.SettingsReachTheNormalForm | core/xray/inbound.go:354-394 | the whole pass reaches the normal form, is idempotent and leaves exactly the trees in that form alone |
| Texts.CutIsFirst | core/xray/inbound.go:433-437 | cutting is at the first separator and loses nothing else |
| Texts.TrimSpaceIs | core/xray/inbound.go:453-454 | trimming takes white space off both ends and nothing else |
| CachedReaders.CachedReader.Cache | core/xray/app/dispatcher/default.go:42-63 | the payload buffer holds the whole cached prefix, however small it was; a failure changes nothing |
| CachedReaders.CachedReader.ReadMultiBuffer | core/xray/app/dispatcher/default.go:65-94 | the cache is delivered first and whole, then the source |
| CachedReaders.SniffingIsTransparent | core/xray/app/dispatcher/default.go:42-94 | delivered, cached and unread bytes are together always the original stream |
| CachedReaders.DrainedMeansDelivered | core/xray/app/dispatcher/default.go:78-94 | a drained reader has delivered exactly the stream |
| CachedReaders.EveryCallMovesOn | core/xray/app/dispatcher/default.go:42-94 | a read delivers what is held back, or else the next bytes of the source; a cache call holds back those too; a failing source changes nothing |
| CachedReaders.ReadingOnDelivers | core/xray/app/dispatcher/default.go:65-94 | reading on delivers the whole stream after boundedly many successful reads |
| CachedReaders.SniffedPrefixGrows | core/xray/app/dispatcher/default.go:47-60 | sniffers see a growing prefix of the stream |

## Left out

- HTTP transport, JSON decoding and the panel's own logic: a panel is a response to a request.
- The internals of xray, sing-box and hysteria2, inbound and outbound building, TLS and certificates.
- Address normalisation is a parameter of the models (the connection and device limits take addresses already normalised); the device protocol asks that normalising an address of the snapshot twice changes nothing.
- Clocks and random numbers are parameters; memory-model effects below atomic operations are not modelled.
- Integers are unbounded: 64-bit overflow of counters and of limits in bytes per second is not modelled.
- Text is ASCII where case matters: Unicode case folding in core types, header keys and modes is not modelled, and the stripper works on characters that stand for bytes.
- ConnLimiting.CountsOpenExactly: whole calls are single steps, and what the limiter accepts is open until it closes; overlapping calls on the count are modelled in `ConnRaces`, later refusals in `Admissions`.
- ConnLimiting.LimitsKept: whole calls are single steps; for overlapping calls see `ConnRaces` for the count, while the IP limit holds only for calls on one user that do not overlap.
- ConnLimiting.TheTwoTablesAgree: whole calls are single steps, so the IP values are right only when calls on one user do not overlap; later refusals are in `Admissions`.
- Admissions.CountsCarriedIff: whole checks and closings are single steps; that every carried connection is closed once is taken from the cores.
- ConnRaces.CountsAreRightIff: leaves the answers of the IP table open; the loads and stores of overlapping calls on that table are not modelled.
- Limiters.Limiter.CheckLimit: is one step, so checks of one user that overlap each other or a rotation, and their loads and stores on the window and the bucket cache, are not modelled; updates of the record are, in `LimitRecord`.
- Limiters.Limiter.UpdateUser: does not touch the online registry, which is a component of its own (`OnlineRegistries`); neither does the check.
- Limiters.Limiter.RotateDeviceWindow: runs as one step, so connections that arrive during a rotation are not modelled.
- UserSync.Controller.CheckUsers: the core is the hysteria2 one, whose updates cannot fail; error returns of other cores, the full reload of a node and the traffic records of the dynamic limit are not modelled.
- Xhttp.NormalizeXHTTPValue: works on values, so the update of maps and slices in place is not modelled; a decoded JSON tree shares no part with another.
- OnlineReports.Controller.OnlinePart: the traffic filter of ppanel is not modelled; such a node does not clear users.
- OnlineReports.DedupeOnlineIPMapByIP: visits the users in any order, because they do not affect each other.
- Selectors.Selector.AddNode: fills in no options of the node; a core that fails is one that does not work, without its error text.
- Splitting.SplitNodeCores: works on decoded fields with exact names; log and DNS file rewriting is not modelled.
- Splitting.UniqueSplitNames: takes the sanitised names; deriving a name from host, type and id is not modelled.
- CachedReaders.CachedReader.Cache: multi-buffers are flat byte sequences, and `Interrupt`, which throws the cache away with the connection, is not modelled.
- LogDedupe.Deduper.Suppress: keys stand for level, message and fields; the text of the message is not modelled.
- Simple clamps and setters that no listed property needs.
