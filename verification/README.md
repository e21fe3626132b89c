# Verified model of the backend's stateful core

A Dafny 4.11 model of the parts of the backend whose correctness is a property of whole runs
rather than of single functions. `dafny verify dfyconfig.toml` checks it.

**Live-chat dispatch.** Sessions are open or closed and assigned or waiting; operators are
online, away or busy, and may be supervisors. `OperatorRotation` is the round-robin list and the
service around it, `RotationFairness` and `RotationRaces` say what it promises over runs and
under interleaving. `ChatDispatch` is the protocol as a state with steps, `WorkConservation`,
`EventEffects`, `DispatchRuns`, `CapacityRuns`, `TurnTaking`, `VisitorWaiting` and `SessionStamps`
are its promises, `UndrainedSteps` and `AssignmentLimits` the exact conditions where it promises
less, `DispatchInputs` runs that meet them, and `ChatGateway` the gateway as an object whose
handlers are proved to take exactly those steps.

**Timers and limits.** `Countdowns` (the two-stage warn-then-close countdowns), `KeyedTimers` and
`RateLimiting`, each with a virtual clock.

**Forests.** `Forests` (parent pointers), `MediaFolders`, `FolderEffects`, `MediaFiles`,
`FolderPaths` and `SlugMeaning` (slugs and paths on disk), `PostCategories` and `CategoryEffects`.

**Others.** `CivilDates`, `BusinessTime` and `ZoneShifts` (date filters in the business time zone),
`HistoryExport`, `PageSlugs` and `HtmlEscape`.

## How to read it

- A class models an object that changes in place, its methods written as the source writes them,
  loops included. Each method's contract equates the new state with a function of the old one;
  what the source promises is then proved about that function, over all states and all runs.
- Handlers are atomic steps. Whatever a step does not determine is a parameter of the step: the
  start time of a session, the order in which equal start times are served, when a due timeout
  fires, the clock, the host's `toLowerCase`, the time zone's offsets.
- The step set (`InStepSet`) of `WorkIsConserved`, `NobodyOvertakes` and `RunKeeps` is
  visitor:start, claims by hand and by message, operator:join, set_status, going offline, closes by
  visitors and timeouts, closes by an operator of the own or of an unassigned session, reopening a
  session that has an operator, time passing, and a server restart, in which the in-memory maps are
  lost while the rows and the Redis list survive. All other results are about events of any kind,
  which besides these are closes by others, reopening a session without operator, and the REST
  writes: creating, assigning, closing and deleting a session.
- The cap, the supervisor flags and the operator accounts are fixed over a run.
- A step frees a usable slot when it takes an open session away from an eligible operator who is
  not above the cap.
- Ids are positive, as autoincrement columns give them out, so tests like `if (drainFor)` are
  tests for presence.

## What the code does not promise

These are stated as exact conditions or as counterexamples, next to the property they limit.

- The steps of `UndrainedSteps` break work conservation in the states named there
  (`ConservesIff`; `StrandedByRest`, `StrandedBySupervisor`, `StrandedByRestStart`, `StrandedByReopening`). In
  particular the comment at src/modules/chat/chat.gateway.ts:1361-1363 says that it is the closer
  whose capacity changed; in fact the slot is freed for the assignee.
- A REST assignment looks at neither the cap nor the supervisor flag nor the status
  (`LoadGrowsWithinCap`, `MovesClosedIff`, `OverloadedByRest`).
- `drainQueue` passes an operator without an entry in the presence map, so a close can assign
  waiting visitors to somebody offline (`AssignsToAbsentIff`, `ServedByAbsent`).
- `operator:message` assigns an unassigned session even when it is closed, and the cap it checks
  does not count closed sessions (`MovesClosedIff`, `ClosedClaimsAddUpLater`, `ClaimedWhileClosed`, `AnyNumberOfChats`).
- The schema makes alias slugs unique, so a slug can be left only once as long as its alias
  exists: renaming a page A, B, A, B fails at the last step, and two languages cannot exchange
  slugs in one update (`UpdateSucceedsIff`, `SecondDepartureFails`, `SwapFails`, `SecondDepartureRefused`, `SwapRefused`).
- The unique index on (slug, parent) does not cover folders without a parent, and `move` does not
  look for siblings: two top-level folders can end up with the same slug (`TopLevelSlugs`,
  `TwinsAtTheTop`).
- A folder whose name gives an empty slug or one longer than 50 characters gets its files stored
  under another path than its slug chain (`UploadFollowsBreadcrumbs`, `NamelessFolder`,
  `LongNamedFolder`).
- `zonedTimeToUtc` corrects once. Its comment (src/modules/chat/application/timezone.util.ts:18-19)
  calls that correct across DST transitions; for some hours around one it is not
  (`WrongNearShift`, `FiveBecomesSix`).
- `Date.UTC` takes the years 0 to 99 for 1900 to 1999, so bare dates before the year 100 are read as
  days of the twentieth century (`BareDateBoundIff`, `TwoDigitYears`, `FiftyIsNineteenFifty`).
- `move` checks the level of the folder itself only, so the folders it carries along can end up below
  level 5 (`WithinDepthIff`, `TooDeep`).
- The rate limiter drops hits that a clock stepping back would make recent again
  (`AsIfNothingWasDroppedIff`, `ClockSteppingBack`).

## Model

| member | source | states |
|---|---|---|
| DispatchRuns.WorkIsConserved | src/modules/chat/chat.gateway.ts:384-504 | over every run of the step set from a fresh start, if a visitor waits then every eligible operator holds at least the maximum number of open chats |
| UndrainedSteps.WorkIsConservedIff | src/modules/chat/chat.gateway.ts:384-504 | over every run of events of any kind, REST writes and closes by others included, work is conserved in all its states if and only if each event is harmless where it happens, as the state before it says |
| UndrainedSteps.ConservesIff | src/modules/chat/chat.gateway.ts:384-504 | one event of any kind keeps work conservation if and only if it is harmless in the state before it |
| DispatchRuns.NobodyOvertakes | src/modules/chat/chat.gateway.ts:425-504 | over every run, no automatic assignment (the direct one at visitor:start included) is made while an older session waits, to a full operator, or to a supervisor |
| CapacityRuns.NobodyIsOverloaded | src/modules/chat/chat.gateway.ts:408-504 | over every run of events of any kind, an operator who never opens a waiting chat by hand, has no closed chat of its own reopened and is handed no chat over REST never holds more than the cap, and a supervisor none |
| CapacityRuns.LoadGrowsWithinCap | src/modules/chat/chat.gateway.ts:1238-1306 | the only steps that raise an operator's load: a closed chat of its own reopened, an open chat handed to it over REST, or for non-supervisors an assignment within the cap or a chat opened by hand, which the cap does not limit |
| DispatchRuns.QueueAlwaysTracks | src/modules/chat/chat.gateway.ts:402-406 | over every run without a restart, inside the step set or not, the queue shown to supervisors lists exactly the eligible operators, once each, after every handler |
| DispatchRuns.NextTracks | src/modules/chat/chat.gateway.ts:402-406 | every handler that syncs re-establishes that from any duplicate-free list (so after a restart too), and no other handler breaks it |
| DispatchRuns.RunKeeps | src/modules/chat/chat.gateway.ts:936-1395 | presence map shape, work conservation and fairness are kept from any state that has them, over every run |
| DispatchRuns.EventIsFair | src/modules/chat/chat.gateway.ts:425-504 | in a conserving state every assignment a handler makes on its own takes the oldest waiting session, to an operator below the cap who may be served |
| EventEffects.PresenceAfter | src/modules/chat/chat.gateway.ts:1139-1233 | a status sent takes effect for whoever is present, a join keeps a reconnecting operator's preference and starts a new one online, leaving ends the entry, and no other event touches anybody's |
| EventEffects.EligibleAfter | src/modules/chat/chat.gateway.ts:384-394 | so whoever is away, busy or gone is not eligible, and whoever is online and no supervisor is |
| EventEffects.ConnectedAfter | src/modules/chat/chat.gateway.ts:639-648 | a new connection goes to the end of the map's order, a gone one leaves it, the others keep theirs |
| EventEffects.EligibleInOrder | src/modules/chat/chat.gateway.ts:384-394 | the eligible ids come in the order of connection |
| EventEffects.RotationAfter | src/modules/chat/chat.gateway.ts:402-423 | changes of eligibility re-sync the list, newcomers in front; a start re-syncs it and moves the first free in line to the back; everything else leaves it |
| EventEffects.RowAfter | src/modules/chat/chat.gateway.ts:1238-1375 | a row closes, stamped, and reopens exactly by the events that say so; it changes hands exactly by a claim that meets its conditions, by the drain that takes it or by a REST assignment; its start time stays |
| EventEffects.NewRowAfter | src/modules/chat/chat.gateway.ts:936-953 | a new session is open; over REST it waits, by visitor:start it waits if and only if nobody eligible has room |
| EventEffects.RowsAfter | src/modules/chat/application/chat.service.ts:331-333 | rows come by starts only and go by deletion only |
| AssignmentLimits.AssignsToAbsentIff | src/modules/chat/chat.gateway.ts:483-504 | an event assigns to an operator without a presence entry if and only if it is a close that drains for such an operator, no supervisor and with room after the close, while somebody else waits; every other automatic assignment is to an eligible operator |
| AssignmentLimits.MovesClosedIff | src/modules/chat/chat.gateway.ts:1298-1318 | a closed session gets another operator or loses its own if and only if a non-supervisor below the cap messages it while it has none, or a REST assignment names somebody else or nobody |
| AssignmentLimits.ClosedClaimsAddUpLater | src/modules/chat/chat.gateway.ts:1298-1318 | such a claim changes nobody's load, and the session's reopening, allowed by the step set, adds one |
| DispatchInputs.AnyNumberOfChats | src/modules/chat/chat.gateway.ts:1298-1318 | so for every n there is a run of the step set that ends with n chats of one operator under a cap of one |
| VisitorWaiting.VisitorsTurnComes | src/modules/chat/chat.gateway.ts:483-504 | over every run, while a visitor waits the queue is served at most as often as there are sessions that started no later, plus those that enter ahead meanwhile |
| VisitorWaiting.NextIsOwn | src/modules/chat/chat.gateway.ts:483-504 | with nobody ahead, the next service is that visitor's |
| VisitorWaiting.OwnCloseServes | src/modules/chat/chat.gateway.ts:543-592 | every close of an eligible operator's own open chat is such a service, unless the operator was above the cap |
| TurnTaking.TurnComes | src/modules/chat/chat.gateway.ts:402-423 | over every run, an operator who stays eligible, is below the cap at every visitor:start and is never picked has seen at most its position plus the operators who became eligible meanwhile start |
| TurnTaking.TurnComesInRuns | src/modules/chat/chat.gateway.ts:402-423 | the same from a fresh start, with the number of other eligible operators as the position |
| SessionStamps.FirstPickupStays | src/modules/chat/application/chat.service.ts:383-396 | over every run the pickup stamp, once there, stays while the row exists, through REST reassignments, losing the operator, closes and reopenings |
| SessionStamps.NextStamps | src/modules/chat/application/chat.service.ts:383-500 | every event: assigned rows have a pickup stamp, rows are closed exactly when they have a closing stamp, and a pickup stamp appears only as the present moment together with an operator |
| WorkConservation.DrainEffect | src/modules/chat/chat.gateway.ts:483-504 | drainQueue assigns exactly min(spare capacity, waiting) distinct waiting sessions to the one operator (none if already over, away, busy or supervisor) and changes nothing else |
| WorkConservation.DrainTakesOldest | src/modules/chat/chat.gateway.ts:494-500 | it never takes a session while an older one that it has not taken waits, however ties in the start time fall |
| WorkConservation.DrainFills | src/modules/chat/chat.gateway.ts:483-504 | afterwards the operator is full or nobody waits, entry in the presence map or not |
| WorkConservation.DrainConserves | src/modules/chat/chat.gateway.ts:483-504 | a drain restores work conservation whenever everybody else was already full |
| WorkConservation.PickedMeaning | src/modules/chat/chat.gateway.ts:408-423 | pickAvailableOperator answers null exactly when no eligible operator has spare capacity, and otherwise one who has |
| WorkConservation.StartConserves | src/modules/chat/chat.gateway.ts:936-953 | a new visitor is assigned directly only when nobody waits, and conservation holds afterwards either way |
| WorkConservation.NextConserves | src/modules/chat/chat.gateway.ts:543-592 | every handler of the step set keeps work conservation |
| WorkConservation.NextKeepsShape | src/modules/chat/chat.gateway.ts:1139-1233 | every handler keeps the presence map and its insertion order in agreement |
| UndrainedSteps.RestStart | src/modules/chat/api/chat.controller.ts:137-140 | creating a session over REST keeps work conservation if and only if nobody eligible has spare capacity |
| UndrainedSteps.RestClose | src/modules/chat/api/chat.controller.ts:360-374 | closing over REST keeps it if and only if no usable slot is freed while somebody waits |
| UndrainedSteps.HardDelete | src/modules/chat/application/chat.service.ts:331-333 | deleting the row keeps it under the same condition |
| UndrainedSteps.CloseByAnother | src/modules/chat/chat.gateway.ts:1355-1375 | a close by somebody other than the assignee keeps it if and only if no usable slot is freed or the closer's own drain empties the queue |
| UndrainedSteps.ReopenUnassigned | src/modules/chat/chat.gateway.ts:1380-1395 | reopening a closed session that has no operator keeps it if and only if nobody eligible has spare capacity |
| UndrainedSteps.RestReassign | src/modules/chat/api/chat.controller.ts:382-386 | giving a session to an operator over REST keeps it if and only if no usable slot is freed while somebody waits; so it always does for a waiting session |
| UndrainedSteps.RestUnassign | src/modules/chat/api/chat.controller.ts:382-386 | taking an open session away from its operator keeps it if and only if nobody has spare capacity and no usable slot is freed |
| DispatchInputs.StrandedByRest | src/modules/chat/api/chat.controller.ts:360-386 | a run from a fresh start after which a REST close, delete, reassignment and unassignment each leave a visitor waiting beside a free operator |
| DispatchInputs.StrandedBySupervisor | src/modules/chat/chat.gateway.ts:1355-1375 | the same for a close by a supervisor |
| DispatchInputs.StrandedByRestStart | src/modules/chat/api/chat.controller.ts:137-140 | a run after which a session created over REST waits beside a free operator |
| DispatchInputs.StrandedByReopening | src/modules/chat/chat.gateway.ts:1380-1395 | a run after which a reopened session waits beside a free operator |
| DispatchInputs.OverloadedByRest | src/modules/chat/api/chat.controller.ts:382-386 | a run after which a REST assignment gives an operator a second chat under a cap of one, or a supervisor a first |
| DispatchInputs.PickupSurvivesReassignment | src/modules/chat/application/chat.service.ts:383-396 | a run in which a session loses its operator and gets another later, with the pickup stamp of the first |
| DispatchInputs.ServedByAbsent | src/modules/chat/chat.gateway.ts:483-504 | a run of the step set in which a visitor's close gives a waiting session to an operator who left |
| DispatchInputs.ClaimedWhileClosed | src/modules/chat/chat.gateway.ts:1298-1318 | a run of the step set in which an operator claims a closed session by message and ends up with two chats under a cap of one |
| ChatGateways.ChatGateway.GetNextQueuedSession | src/modules/chat/application/chat.service.ts:558-564 | none exactly when no open session is unassigned, otherwise one with the smallest start time |
| ChatGateways.ChatGateway.AssignOperator | src/modules/chat/application/chat.service.ts:383-414 | the operator of that one row is replaced; the first pickup is stamped, later ones are not |
| ChatGateways.ChatGateway.ComputeEligibleOperatorIds | src/modules/chat/chat.gateway.ts:384-394 | the online, non-supervisor entries in insertion order |
| ChatGateways.ChatGateway.BroadcastQueue | src/modules/chat/chat.gateway.ts:402-406 | the rotation list becomes the synced one, and its order is what is sent |
| ChatGateways.ChatGateway.PickAvailableOperator | src/modules/chat/chat.gateway.ts:408-423 | the pick and the list it leaves are those PickedMeaning is about |
| ChatGateways.ChatGateway.DrainQueue | src/modules/chat/chat.gateway.ts:483-504 | the loop assigns one of the sequences DrainEffect and DrainTakesOldest are about |
| ChatGateways.ChatGateway.HandleVisitorStart | src/modules/chat/chat.gateway.ts:936-953 | takes the protocol's VisitorStart step |
| ChatGateways.ChatGateway.HandleOperatorJoin | src/modules/chat/chat.gateway.ts:1139-1192 | takes the OperatorJoin step; an existing preference survives a reconnect |
| ChatGateways.ChatGateway.HandleSetStatus | src/modules/chat/chat.gateway.ts:1200-1233 | takes the SetStatus step; nothing for an operator without an entry |
| ChatGateways.ChatGateway.HandleOperatorJoinSession | src/modules/chat/chat.gateway.ts:1238-1272 | takes the JoinSession step: an open unassigned session is claimed without regard to the cap, never by a supervisor |
| ChatGateways.ChatGateway.HandleOperatorMessage | src/modules/chat/chat.gateway.ts:1280-1320 | takes the OperatorMessage step: an unassigned session, open or closed, is claimed below the cap, never by a supervisor |
| ChatGateways.ChatGateway.MarkOperatorOffline | src/modules/chat/chat.gateway.ts:639-648 | takes the GoOffline step (grace expiry and logout) |
| ChatGateways.ChatGateway.CloseSessionAndBroadcast | src/modules/chat/chat.gateway.ts:543-592 | closes and stamps the row and drains for the given operator, by default the assignee |
| ChatGateways.ChatGateway.HandleClose | src/modules/chat/chat.gateway.ts:664-677 | takes the Close step with the check the path makes first (abandoned visitor; queue abandonment; visitor, contact and inactivity closes) |
| ChatGateways.ChatGateway.HandleCloseSession | src/modules/chat/chat.gateway.ts:1355-1375 | takes the OperatorClose step, draining for the closer |
| ChatGateways.ChatGateway.HandleReopenSession | src/modules/chat/application/chat.service.ts:494-500 | takes the ReopenSession step: open again, closing stamp cleared, operator kept |
| ChatGateways.ChatGateway.StartSession | src/modules/chat/api/chat.controller.ts:137-140 | takes the PostSession step: an open waiting row, nobody picked |
| ChatGateways.ChatGateway.AssignSession | src/modules/chat/api/chat.controller.ts:382-386 | takes the PatchAssign step: cap, status and supervisor flag are not looked at |
| ChatGateways.ChatGateway.CloseSession | src/modules/chat/api/chat.controller.ts:360-374 | takes the PostClose step: closed and stamped, nobody drained for |
| ChatGateways.ChatGateway.HardDeleteSession | src/modules/chat/application/chat.service.ts:331-333 | takes the DeleteSession step |
| OperatorRotation.PickNextMeaning | src/modules/chat/application/operator-rotation.service.ts:41-57 | null, with the synced queue untouched, exactly when no eligible operator is under capacity; otherwise the first such operator in queue order, who ends up last while cyclic order is kept |
| OperatorRotation.SyncedShape | src/modules/chat/application/operator-rotation.service.ts:69-99 | a sync leaves exactly the eligible operators, newcomers in front, survivors in their order, without duplicates |
| OperatorRotation.NewcomersInOrder | src/modules/chat/application/operator-rotation.service.ts:82-96 | newcomers stand in the order of the eligible ids, not reversed by the pushes |
| OperatorRotation.SyncedIsStable | src/modules/chat/application/operator-rotation.service.ts:77 | a list that holds exactly the eligible operators is not touched |
| OperatorRotation.SyncAfterPickIsIdle | src/modules/chat/chat.gateway.ts:408-423 | the broadcast's sync right after a pick changes nothing |
| OperatorRotation.HoppedIsCyclic | src/modules/chat/application/operator-rotation.service.ts:112-115 | k hops move the first k entries to the back, in order |
| OperatorRotation.WrittenDistinct | src/modules/chat/application/operator-rotation.service.ts:86-97 | however stale its plan, a write leaves no duplicate |
| OperatorRotation.WrittenToSameMembers | src/modules/chat/application/operator-rotation.service.ts:69-99 | a plan written to a permuted list still leaves exactly its eligible set, newcomers first |
| OperatorRotation.OperatorRotationService.Sync | src/modules/chat/application/operator-rotation.service.ts:69-99 | the removals and the reversed remove-then-push loop compute the synced list |
| OperatorRotation.OperatorRotationService.RotateOnce | src/modules/chat/application/operator-rotation.service.ts:112-115 | head to tail, answering it; none on an empty list |
| OperatorRotation.OperatorRotationService.PickNext | src/modules/chat/application/operator-rotation.service.ts:41-57 | the loop of at most one hop per entry computes what PickNextMeaning is about; an empty eligible set returns before syncing |
| RotationFairness.BoundedWaiting | src/modules/chat/application/operator-rotation.service.ts:41-99 | for any sequence of calls, an operator who stays eligible and under capacity but is never picked has seen at most position + insertions picks |
| RotationFairness.AheadGoesFirst | src/modules/chat/application/operator-rotation.service.ts:41-99 | while both stay eligible and the one ahead is free, the one behind is not picked first |
| RotationFairness.NoSecondTurn | docs/chat.md:96 | after an operator's turn it gets no second one while another listed operator is free and has not had one |
| RotationFairness.PickPosition | src/modules/chat/application/operator-rotation.service.ts:50-56 | a pick of somebody else brings a free operator strictly closer, newcomers aside |
| RotationFairness.SyncPosition | src/modules/chat/application/operator-rotation.service.ts:59-68 | a sync puts at most its newcomers ahead of a member that stays and keeps the order of staying members |
| RotationRaces.NeverDuplicates | src/modules/chat/application/operator-rotation.service.ts:87-97 | any interleaving of reads, writes and hops of any number of callers leaves the list without duplicates |
| RotationRaces.SyncAcrossHops | src/modules/chat/application/operator-rotation.service.ts:69-99 | a sync with only hops between its read and its write leaves exactly its eligible set, newcomers first, survivors in their current order |
| Countdowns.OneTimeoutPerSession | src/modules/chat/chat.gateway.ts:681-756 | over every run of arm, clear and fire a session has at most one live timeout, referred to by its map entry |
| Countdowns.AutoCloseIsEarned | src/modules/chat/chat.gateway.ts:709-739 | an automatic close fires only if the latest arm or clear is an arm with closing enabled, at least warning delay + close delay ago |
| Countdowns.CountdownIsOnCourse | src/modules/chat/chat.gateway.ts:681-756 | over every run and for each session on its own, what is pending is exactly what its history says: after an arm the warning, due after its delay; once that fired, with closing on, the close, due after its delay; otherwise nothing; and the entry goes with the countdown |
| Countdowns.ArmedSessionCloses | src/modules/chat/chat.gateway.ts:709-739 | if timeouts fire when due and nobody arms or clears the session again, its close fires exactly both delays after the arm |
| Countdowns.QuietAfterClearOrClose | src/modules/chat/chat.gateway.ts:842-849 | a clear, or the close itself, leaves nothing of the session pending |
| Countdowns.NextKeeps | src/modules/chat/chat.gateway.ts:851-880 | each arm, clear, warning and close keeps the correspondence of map, live timeouts and history |
| Countdowns.RunKeeps | src/modules/chat/chat.gateway.ts:842-880 | and so does every run |
| Countdowns.TwoStageTimers.ArmTimer | src/modules/chat/chat.gateway.ts:695-739 | clear, then start the warning timeout, unless both messages are off |
| Countdowns.TwoStageTimers.ClearTimer | src/modules/chat/chat.gateway.ts:683-690 | both timeouts of the entry and the entry go |
| Countdowns.TwoStageTimers.FireTimeout | src/modules/chat/chat.gateway.ts:726-739 | the warning callback starts the close timeout and records it if the entry is there; the close callback drops the entry |
| KeyedTimers.OnlyTheLatestRuns | src/common/scheduling/keyed-timer-registry.ts:25-50 | over every run, tasks that arm and cancel included, a timeout fires only while it is its key's latest armed, uncancelled one; entries and live timeouts match one to one |
| KeyedTimers.LiveIsPending | src/common/scheduling/keyed-timer-registry.ts:25-50 | the live timeouts are exactly the latest armed, uncancelled ones |
| KeyedTimers.RegistryIsOnCourse | src/common/scheduling/keyed-timer-registry.ts:25-50 | over every run and for each key on its own, what is registered and pending is exactly what the calls say, with the task and the delay asked for |
| KeyedTimers.FiresWhenAsked | src/common/scheduling/keyed-timer-registry.ts:25-32 | a timeout that may fire was armed for its key with its task at least the delay ago, and is due at just that distance (delays below one count as one) |
| KeyedTimers.ArmedTaskRuns | src/common/scheduling/keyed-timer-registry.ts:25-32 | if timeouts fire when due and nobody else touches the key, the task runs exactly its delay after the arm |
| KeyedTimers.RearmSurvives | src/common/scheduling/keyed-timer-registry.ts:20-32 | a task that re-arms its own key keeps the new timer |
| KeyedTimers.NextKeeps | src/common/scheduling/keyed-timer-registry.ts:25-50 | every call and every firing, with whatever its task does, keeps the correspondence |
| KeyedTimers.KeyedTimerRegistry.ArmTimer | src/common/scheduling/keyed-timer-registry.ts:25-32 | replaces whatever was armed for the key |
| KeyedTimers.KeyedTimerRegistry.CancelTimer | src/common/scheduling/keyed-timer-registry.ts:35-40 | clears the key's timeout and entry, nothing when there is none |
| KeyedTimers.KeyedTimerRegistry.CancelAllTimers | src/common/scheduling/keyed-timer-registry.ts:47-50 | the loop clears every registered timeout |
| KeyedTimers.KeyedTimerRegistry.FireTimeout | src/common/scheduling/keyed-timer-registry.ts:27-30 | the entry goes before the task runs |
| RateLimiting.AsIfNothingWasDropped | src/common/rate-limit/sliding-window-rate-limiter.ts:29-41 | with a non-decreasing clock every decision of every run equals that of a limiter keeping the full accepted history |
| RateLimiting.AsIfNothingWasDroppedIff | src/common/rate-limit/sliding-window-rate-limiter.ts:29-41 | for any clock, the same holds of a run if and only if no attempt finds room only because dropped hits are inside the window again |
| RateLimiting.FiltersAlikeIff | src/common/rate-limit/sliding-window-rate-limiter.ts:31-40 | the pruned and the full history of a key filter alike at a time if and only if no hit that an earlier attempt dropped is inside the window then; otherwise the full one counts exactly those more |
| RateLimiting.MapHoldsTheRest | src/common/rate-limit/sliding-window-rate-limiter.ts:31-40 | for any clock, the map holds exactly the accepted attempts that no later attempt was a window or more after |
| RateLimiting.AcceptedAreSpaced | src/common/rate-limit/sliding-window-rate-limiter.ts:23-41 | after every run, accepted attempts of a key (since it was last forgotten) that are maxHits apart in order are at least windowMs apart |
| RateLimiting.AcceptedOnTimeIff | src/common/rate-limit/sliding-window-rate-limiter.ts:29-41 | with a non-decreasing clock, an attempt is let through if and only if fewer than maxHits attempts of its key were accepted inside the trailing window |
| RateLimiting.AcceptedIff | src/common/rate-limit/sliding-window-rate-limiter.ts:29-41 | for any clock, the same of those accepted attempts that are still held |
| RateLimiting.RefusedLeaveNoTrace | src/common/rate-limit/sliding-window-rate-limiter.ts:23-36 | deleting any refused attempts from a run changes no other decision |
| RateLimiting.SlidingWindowRateLimiter.TryConsume | src/common/rate-limit/sliding-window-rate-limiter.ts:29-41 | the answer and the whole map afterwards |
| RateLimiting.SlidingWindowRateLimiter.ForgetKey | src/common/rate-limit/sliding-window-rate-limiter.ts:44-46 | one key is dropped |
| RateLimiting.SlidingWindowRateLimiter.ResetAll | src/common/rate-limit/sliding-window-rate-limiter.ts:48-50 | everything is dropped |
| MediaFolders.ReachableIsValid | src/modules/media/application/media-folders.service.ts:106-242 | over every run of folder and file operations from an empty tree: an acyclic forest without dangling parents, no file (trashed or not) in a missing folder, sibling slugs below the top level unique, every slug of toSlug's shape |
| MediaFolders.RunKeepsValid | src/modules/media/application/media-folders.service.ts:106-242 | the same from any valid tree |
| MediaFolders.OpKeepsValid | src/modules/media/application/media-folders.service.ts:106-242 | each of create, rename, move and delete, and each upload, re-filing, trashing, restoring and purging of a file, keeps it |
| FolderEffects.CreateRefusedIff | src/modules/media/application/media-folders.service.ts:106-126 | a create is refused if and only if the tree with the new folder would lose its shape, have two siblings of one slug, or the folder below level 5 |
| FolderEffects.RenameRefusedIff | src/modules/media/application/media-folders.service.ts:141-155 | a rename of an existing folder is refused if and only if it would leave two siblings of one slug |
| FolderEffects.MoveRefusedIff | src/modules/media/application/media-folders.service.ts:177-205 | a move of an existing folder is refused if and only if it would break the forest, put the folder below level 5, or, below the top level, beside a namesake |
| FolderEffects.DeleteRefusedIff | src/modules/media/application/media-folders.service.ts:219-234 | a delete of an existing folder is refused if and only if a folder would lose its parent or a visible file its folder |
| FolderEffects.FolderErrorMeans | src/modules/media/application/media-folders.service.ts:106-234 | what each kind of refusal says about the tree |
| FolderEffects.FolderAfter | src/modules/media/application/media-folders.service.ts:141-242 | a rename changes name and slug, a move the parent, a delete takes the row; nothing else changes, nor when refused |
| FolderEffects.FolderCreated | src/modules/media/application/media-folders.service.ts:118-125 | a created folder is as sent, and nothing else adds one |
| FolderEffects.RelocationIff | src/modules/media/application/media-folders.service.ts:168-172 | exactly accepted renames and moves of cms folders hand on to the disk, with the chains before and after |
| FolderEffects.FileAfter | src/modules/media/application/media.service.ts:40-352 | what becomes of a file: visible where uploaded, moved by re-filing, hidden by the trash and back where it was by a restore, gone by purging, folderless once its folder is deleted |
| FolderEffects.FileRefusedIff | src/modules/media/application/media.service.ts:40-352 | a file operation is refused if and only if the file is not there, or not visible where that matters, or the folder named is not there |
| MediaFolders.DeleteTouchesOnlyTrash | src/modules/media/application/media-folders.service.ts:219-242 | a delete succeeds only without visible files; the trashed files in the folder, and no others, lose it |
| MediaFolders.RestoredOutsideItsFolder | src/modules/media/application/media-folders.service.ts:219-242 | a folder with one file is refused, can go once the file is trashed, and the file restored later is in no folder |
| MediaFolders.MoveRewritesSubtree | src/modules/media/application/media-folders.service.ts:199-208 | a move swaps the old prefix for the new chain in exactly the moved subtree; all other chains stay; the new chain is the target's chain and the own slug |
| MediaFolders.RenameRewritesSubtree | src/modules/media/application/media-folders.service.ts:157-166 | a rename swaps the prefix in exactly the subtree, and the shortcut (old chain, last slug replaced) is the chain recomputed from the parents |
| MediaFolders.PlacedWithinDepth | src/modules/media/application/media-folders.service.ts:65-83 | a folder just created or moved sits at level at most 5 |
| MediaFolders.WithinDepthIff | src/modules/media/application/media-folders.service.ts:177-217 | the whole tree stays within 5 levels through an operation if and only if it is no accepted move of a subtree that does not fit below its target |
| MediaFolders.LevelAfterMove | src/modules/media/application/media-folders.service.ts:177-217 | the level of every folder after a move, carried descendants included |
| MediaFiles.TooDeep | src/modules/media/application/media-folders.service.ts:177-217 | a run from an empty tree in which a move takes a folder to level 6 |
| MediaFolders.TopLevelSlugs | prisma/schema.prisma:611 | at the top level, which the unique index does not cover, slugs stay distinct if and only if the operation is not a move to the top level next to a folder of the same slug |
| MediaFiles.TwinsAtTheTop | src/modules/media/application/media-folders.service.ts:177-217 | a run from an empty tree that ends with two top-level folders of the same name and slug |
| MediaFolders.ChainSplits | src/modules/media/application/media-folders.service.ts:43-59 | a chain starts with the chain of each ancestor |
| MediaFolders.ChainUnfold | src/modules/media/application/media-folders.service.ts:43-59 | a chain is the parent's chain and the own slug |
| MediaFolders.TrailSlugs | src/modules/media/application/media-folders.service.ts:246-267 | the slugs of the breadcrumbs are the slug chain |
| MediaFolders.UploadFollowsBreadcrumbs | src/modules/media/application/media.service.ts:55-61 | in every valid tree, a file is stored under exactly its folder's chain if and only if every slug of the chain has 1 to 50 characters |
| MediaFiles.NamelessFolder | src/modules/media/infrastructure/storage.service.ts:488-503 | a folder created as !!! has the empty slug, and its files are stored under general |
| MediaFiles.LongNamedFolder | src/modules/media/infrastructure/storage.service.ts:488-503 | a folder of 51 letters keeps its slug, and its files are stored under the first 50 |
| MediaFiles.MediaService.DirectoryOf | src/modules/media/application/media.service.ts:55-58 | the joined and sanitized slug chain; none exactly for a missing folder |
| MediaFiles.MediaService.UploadFile | src/modules/media/application/media.service.ts:40-92 | refused for an invalid file, not found for a missing folder, otherwise the new row and the directory |
| MediaFiles.MediaService.UpdateFile | src/modules/media/application/media.service.ts:171-217 | not found for an invisible file or a missing folder; the row, and where the file moves if its folder changes |
| MediaFiles.MediaService.SoftDelete | src/modules/media/application/media.service.ts:294-309 | not found for an invisible file, otherwise the mark |
| MediaFiles.MediaService.RestoreFile | src/modules/media/application/media.service.ts:314-328 | not found for a missing row, otherwise the mark is cleared |
| MediaFiles.MediaService.HardDelete | src/modules/media/application/media.service.ts:334-352 | not found for a missing row, otherwise the row goes, trashed or not |
| MediaFolders.MediaFoldersService.GetSlugChain | src/modules/media/application/media-folders.service.ts:43-59 | the walk ends and collects the chain; nothing for a folder that does not exist |
| MediaFolders.MediaFoldersService.AssertDepth | src/modules/media/application/media-folders.service.ts:65-83 | the walk ends and passes exactly when the parent is missing or above level 5 |
| MediaFolders.MediaFoldersService.IsDescendant | src/modules/media/application/media-folders.service.ts:89-102 | the walk ends and answers exactly whether the ancestor lies on it |
| MediaFolders.MediaFoldersService.GetBreadcrumbs | src/modules/media/application/media-folders.service.ts:246-267 | one breadcrumb per folder on the walk, root first; not found exactly for a missing folder |
| MediaFolders.MediaFoldersService.CreateFolder | src/modules/media/application/media-folders.service.ts:106-126 | which of the errors, or the new tables |
| MediaFolders.MediaFoldersService.RenameFolder | src/modules/media/application/media-folders.service.ts:141-175 | which error, or the new tables and the chains handed on for cms folders |
| MediaFolders.MediaFoldersService.MoveFolder | src/modules/media/application/media-folders.service.ts:177-217 | which error, or the new tables and the chains handed on for cms folders |
| MediaFolders.MediaFoldersService.DeleteFolder | src/modules/media/application/media-folders.service.ts:219-242 | which error, or the new tables; trashed files lose their folder |
| Forests.ReparentKeepsForest | src/modules/media/application/media-folders.service.ts:190-195 | putting a row under one that is not below it keeps the forest |
| Forests.ReparentBelowItself | src/modules/post-category/application/post-category.service.ts:148-153 | putting it under one that is always closes a circle |
| FolderPaths.ToSlugShape | src/modules/media/application/media-folders.service.ts:30-37 | a slug has only [a-z0-9_-] and no two hyphens in a row |
| FolderPaths.SlugShapedIsFixed | src/modules/media/application/media-folders.service.ts:30-37 | the strings of that shape are exactly those toSlug leaves alone |
| FolderPaths.ToSlugIdempotent | src/modules/media/application/media-folders.service.ts:30-37 | toSlug twice is toSlug once |
| SlugMeaning.SlugOfWords | src/modules/media/application/media-folders.service.ts:30-37 | the slug of words set apart by white space, with any around, is the words joined by single hyphens |
| SlugMeaning.SlugBetween | src/modules/media/application/media-folders.service.ts:30-37 | between two neighbouring kept characters there is one hyphen if white space or a hyphen stood there, and nothing otherwise |
| SlugMeaning.SlugSolids | src/modules/media/application/media-folders.service.ts:30-37 | hyphens aside, the slug is exactly the kept characters of the lowered name, in order |
| SlugMeaning.ToSlugScans | src/modules/media/application/media-folders.service.ts:30-37 | the chain of replacements is one left-to-right pass over the trimmed lowered name |
| SlugMeaning.SanitizedSegment | src/modules/media/infrastructure/storage.service.ts:488-491 | a sanitized segment is the first 50 of the safe characters, or general if there are none |
| SlugMeaning.KeepSafeAround | src/modules/media/infrastructure/storage.service.ts:489 | safe characters stay in order, others go, wherever they stand |
| FolderPaths.SplitJoin | src/modules/media/infrastructure/storage.service.ts:497-502 | splitting a '/'-join of segments without slash gives the segments back |
| FolderPaths.SanitizeChainParts | src/modules/media/infrastructure/storage.service.ts:497-503 | sanitizing keeps the number of segments and sanitizes each |
| FolderPaths.SanitizeChainIdempotent | src/modules/media/infrastructure/storage.service.ts:488-503 | sanitizing twice is sanitizing once |
| FolderPaths.StoredUnderItsChain | src/modules/media/infrastructure/storage.service.ts:229-235 | the join of slugs is left alone, and splits back into them, if and only if each has 1 to 50 characters |
| PostCategories.TreeIsExact | src/modules/post-category/application/post-category.service.ts:132-139 | buildTree of any list of rows of an acyclic table holds each listed category whose whole ancestor chain is listed exactly once, under its own parent, and nothing else |
| CategoryEffects.TreeInListOrder | src/modules/post-category/application/post-category.service.ts:132-139 | siblings in the tree stand in the order of the list, the roots and the children of every node |
| CategoryEffects.TreeIsSorted | src/modules/post-category/application/post-category.service.ts:132-139 | rows that arrive by sort order give levels by sort order |
| PostCategories.TreeOccurs | src/modules/post-category/application/post-category.service.ts:132-139 | the same for the subtrees under any parent |
| PostCategories.ReachableIsForest | src/modules/post-category/infrastructure/prisma-post-category.aggregate.repository.ts:37-113 | over every run from an empty table the categories are an acyclic forest, with the measure on which buildTree ends |
| PostCategories.RunKeepsForest | src/modules/post-category/infrastructure/prisma-post-category.aggregate.repository.ts:37-113 | the same from any forest |
| PostCategories.UpdateKeepsForest | src/modules/post-category/application/post-category.service.ts:77-98 | an accepted update keeps it |
| PostCategories.DeleteKeepsForest | src/modules/post-category/infrastructure/prisma-post-category.aggregate.repository.ts:102-113 | re-rooting the children and deleting keeps it |
| PostCategories.CycleCheckIsExact | src/modules/post-category/application/post-category.service.ts:90-95 | an existing parent is refused if and only if accepting it would close a circle |
| CategoryEffects.UpdateRefusedIff | src/modules/post-category/application/post-category.service.ts:77-98 | an update of an existing row is refused if and only if it would leave a table that is no forest or has a slug twice |
| CategoryEffects.CreateRefusedIff | src/modules/post-category/application/post-category.service.ts:64-75 | a create is refused if and only if the table with the new row would be so, or a language is sent twice |
| CategoryEffects.RowAfter | src/modules/post-category/infrastructure/prisma-post-category.aggregate.repository.ts:37-113 | an update sets exactly what was sent, the parent to none for null; deleting makes the children roots; all other rows stay |
| CategoryEffects.NewRow | src/modules/post-category/infrastructure/prisma-post-category.aggregate.repository.ts:13-35 | a new row is as sent, order 0 and active by default |
| CategoryEffects.ErrorMeans | src/modules/post-category/application/post-category.service.ts:64-107 | what each kind of refusal says about the table |
| PostCategories.IsDescendantMeaning | src/modules/post-category/application/post-category.service.ts:157-162 | the recursive walk answers exactly whether the row lies strictly above |
| PostCategories.PostCategoryStore.CreateCategory | src/modules/post-category/application/post-category.service.ts:64-75 | duplicate slug, missing parent, two translations for a language, or the new row with its defaults |
| PostCategories.PostCategoryStore.UpdateCategory | src/modules/post-category/application/post-category.service.ts:77-98 | which error in which order, or the new row: slug, parent, sort order, activity and the replaced translations |
| PostCategories.PostCategoryStore.ReplaceTranslations | src/modules/post-category/infrastructure/prisma-post-category.aggregate.repository.ts:55-91 | deleting what is not sent and upserting the rest leaves exactly the languages sent, each with what was sent for it last |
| PostCategories.PostCategoryStore.DeleteCategory | src/modules/post-category/infrastructure/prisma-post-category.aggregate.repository.ts:102-113 | not found, or the new table |
| BusinessTime.RangeIsByLocalDate | src/modules/chat/application/timezone.util.ts:91-100 | for a fixed whole-second offset, an instant passes the filter for bare dates exactly when its local calendar date is between them; also with one bound only |
| BusinessTime.DaysTile | src/modules/chat/application/timezone.util.ts:91-100 | one-day ranges of consecutive days meet without gap or overlap, month and leap-year ends included |
| BusinessTime.BareDateBound | src/modules/chat/application/timezone.util.ts:62-86 | a bare date means the first or the last millisecond of that local day |
| BusinessTime.BareDateBoundIff | src/modules/chat/application/timezone.util.ts:20-86 | every valid bare date from year 0 to 9999 is read as that local day if and only if its year is at least 100 and the boundary shifted by the offset is in year 100 or later |
| BusinessTime.TimedBound | src/modules/chat/application/timezone.util.ts:62-86 | a date with a time, with or without seconds, with T or a blank, means that local moment, both as an upper and as a lower bound |
| BusinessTime.PaddingIsIgnored | src/modules/chat/application/timezone.util.ts:62-70 | white space around a date is ignored |
| BusinessTime.DateAndTail | src/modules/chat/application/timezone.util.ts:62-77 | what follows a date is read as a time if it has the form of one, and otherwise ignored |
| BusinessTime.TwoDigitYears | src/modules/chat/application/timezone.util.ts:30 | bare dates of the years 0 to 99 are always read as the same month and day 1900 years later |
| BusinessTime.FiftyIsNineteenFifty | src/modules/chat/application/timezone.util.ts:30 | 0050-06-15 is read as 15 June 1950 |
| BusinessTime.UsableDates | src/modules/chat/application/timezone.util.ts:62-86 | the dates these results speak of: every valid one from year 100 to 9999 for any offset shorter than a day, but possibly the very first |
| BusinessTime.OneCorrectionStep | src/modules/chat/application/timezone.util.ts:20-60 | the correction subtracts the offset in force at the guess if and only if the guess falls in local year 100 or later |
| ZoneShifts.WrongNearShift | src/modules/chat/application/timezone.util.ts:16-60 | with one offset change in the day around a requested local time, the result shows that wall clock if and only if the local time lies neither between the change's local time by the old offset and its UTC time, nor between its UTC time and its local time by the new offset |
| ZoneShifts.ExistsUnlessSkipped | src/modules/chat/application/timezone.util.ts:16-60 | of these local times only those skipped by the change are shown by no instant within a day, so the other wrong ones had a right answer |
| ZoneShifts.FiveBecomesSix | src/modules/chat/application/timezone.util.ts:16-60 | 05:00 on 10 March 2024 in New York is answered with the instant that shows 06:00 |
| BusinessTime.ReadBackExact | src/modules/chat/application/timezone.util.ts:34-57 | reading the formatted wall clock back is exact from local year 100 on and never before |
| BusinessTime.RenderMatches | src/modules/chat/application/timezone.util.ts:62-70 | every YYYY-MM-DD string is read as its own date |
| CivilDates.YearLength | src/modules/chat/application/timezone.util.ts:30 | day numbers of years step by 365 or 366 as the leap-year rule says (ECMA-262, 21.4.1) |
| CivilDates.DayNumberOfDate | src/modules/chat/application/timezone.util.ts:30 | every day number has a valid date that has that day number |
| CivilDates.DateOfDayNumber | src/modules/chat/application/timezone.util.ts:30 | every valid date is recovered from its day number |
| CivilDates.OrderIsDayOrder | src/modules/chat/application/timezone.util.ts:30 | field-by-field order of valid dates is the order of day numbers |
| CivilDates.NextDayNumber | src/modules/chat/application/timezone.util.ts:30 | the calendar's next day has the next day number |
| CivilDates.MonthLengths | src/modules/chat/application/timezone.util.ts:30 | the months have their lengths |
| CivilDates.EpochIsDayZero | src/modules/chat/application/timezone.util.ts:30 | day 0 is 1 January 1970 |
| CivilDates.MakeDayCarries | src/modules/chat/application/timezone.util.ts:30 | months and days beyond their range carry on |
| HistoryExport.IterateChatHistoryForExport | src/modules/chat/application/chat.service.ts:218-246 | the cursor loop ends; its non-empty batches concatenate to all matching rows in descending id order; batch size 0 exports nothing |
| HistoryExport.NextBatch | src/modules/chat/application/chat.service.ts:231-244 | the query through the cursor of the last exported row continues exactly after it |
| HistoryExport.PagesArePrefix | src/modules/chat/application/chat.service.ts:187-211 | pages 1 to n of the listing are the first 20n rows by closing time |
| HistoryExport.ExportIsWhatIsListed | src/modules/chat/application/chat.service.ts:187-246 | all pages together hold exactly the exported rows, each once, although the orders differ |
| HistoryExport.OrdersMean | src/modules/chat/application/chat.service.ts:199-241 | the export goes by falling id, the listing by closing time, latest first |
| HistoryExport.PageRow | src/modules/chat/application/chat.service.ts:187-211 | row k of a page is row 20(page - 1) + k of the listing |
| PageSlugs.OldLinksResolve | src/modules/pages/infrastructure/prisma-page-aggregate.repository.ts:193-207 | over every run, a slug that a surviving page ever had in a language still resolves in it, to a page that has it or once had it there |
| PageSlugs.NextKeeps | src/modules/pages/infrastructure/prisma-page-aggregate.repository.ts:264-450 | each operation, refused or not, keeps the slugs of translations unique and every slug ever held by a surviving page in one of the two tables |
| PageSlugs.PlaceAfter | src/modules/pages/infrastructure/prisma-page-aggregate.repository.ts:264-537 | after an accepted create, update or restore every place of the page is called what was sent last for its language; all others, and what was not sent, stay; a hard delete ends the page's |
| PageSlugs.AliasesAfter | src/modules/pages/infrastructure/prisma-page-aggregate.repository.ts:264-537 | aliases come only by slugs left in an update, pointing at its page, and go with their page; a refused operation changes nothing |
| PageSlugs.PagesAfter | src/modules/pages/infrastructure/prisma-page-aggregate.repository.ts:264-471 | which pages there are |
| PageSlugs.FindsOne | src/modules/pages/infrastructure/prisma-page-aggregate.repository.ts:193-207 | findBySlug's answer is unique |
| PageSlugs.UpdateSucceedsIff | src/modules/pages/infrastructure/prisma-page-aggregate.repository.ts:339-403 | a whole update goes through if and only if each translation in its turn finds its slug free and replaces a slug that was left neither before nor earlier in the update, all read off the request and the old state |
| PageSlugs.SwapFails | src/modules/pages/infrastructure/prisma-page-aggregate.repository.ts:339-403 | two languages of a page cannot exchange their slugs in one update |
| PageSlugs.SecondDepartureFails | src/modules/pages/infrastructure/prisma-page-aggregate.repository.ts:355-363 | so a page renamed away and back cannot be renamed away a second time |
| PageSlugs.SwapRefused | src/modules/pages/infrastructure/prisma-page-aggregate.repository.ts:339-403 | a run from empty tables after which an exchange of slugs is refused |
| PageSlugs.SecondDepartureRefused | src/modules/pages/infrastructure/prisma-page-aggregate.repository.ts:339-403 | a run from empty tables that renames a page away and back, after which renaming it away again is refused |
| PageSlugs.PageAggregateRepository.UpdatePage | src/modules/pages/infrastructure/prisma-page-aggregate.repository.ts:339-403 | the loop leaves exactly the aliases and slugs of the specification, or the state as it was |
| PageSlugs.PageAggregateRepository.CreatePage | src/modules/pages/infrastructure/prisma-page-aggregate.repository.ts:264-315 | the same for inserts |
| PageSlugs.PageAggregateRepository.RestorePageVersion | src/modules/pages/infrastructure/prisma-page-aggregate.repository.ts:525-537 | an update with the snapshot's translation |
| PageSlugs.PageAggregateRepository.HardDeletePage | src/modules/pages/infrastructure/prisma-page-aggregate.repository.ts:469-471 | the page, its translations and its aliases go |
| PageSlugs.PageAggregateRepository.FindBySlug | src/modules/pages/infrastructure/prisma-page-aggregate.repository.ts:193-207 | translations first, then aliases, both by slug and language |
| HtmlEscape.EscapeIsSubstitution | src/common/mail/template-helpers.ts:11-18 | the five successive replacements are one character-by-character substitution |
| HtmlEscape.EscapeHtmlAppend | src/common/mail/template-helpers.ts:11-18 | escaping distributes over concatenation |
| HtmlEscape.EscapeRoundTrip | src/common/mail/template-helpers.ts:11-18 | a decoder of the five entities undoes it, on all strings |
| HtmlEscape.EscapeInjective | src/common/mail/template-helpers.ts:11-18 | different strings are escaped differently |
| HtmlEscape.EscapeLeavesNoMarkup | src/common/mail/template-helpers.ts:11-18 | no angle bracket or quote is left |

## Left out

- Concurrency of gateway handlers: overlapping visitor:start calls may read the same counts, so cap, fairness and work conservation are claims about handlers run one after the other; only the rotation list is modelled with interleavings.
- RotateUntilFree: alone, the list cannot empty during the loop, so the early null of a concurrent sync (src/modules/chat/application/operator-rotation.service.ts:53) has no counterpart.
- ChatGateways.ChatGateway.HandleOperatorMessage: models the claim only; saving, sanitizing and sending the message, the rate-limit check before it and the refusal for sessions of others change no dispatch state.
- ChatGateways.ChatGateway.HandleOperatorJoin: models a join that registers; watching without an operator id changes nothing here.
- ChatGateways.ChatGateway.CloseSessionAndBroadcast: does not model the resolution tag, the closing operator and contact details, which nothing here reads, nor the timers it clears, which are modelled on their own.
- ChatGateways.ChatGateway.BroadcastQueue: the order is a result; sending it to sockets is not modelled.
- DispatchRuns.WorkIsConserved: does not cover REST creation, close, assignment and deletion, reopening a session without operator, and closes by others, because it is false there; UndrainedSteps.WorkIsConservedIff covers them by their exact conditions.
- AssignmentLimits.MovesClosedIff: takes the operator accounts as fixed; deleting an account, which clears it from its sessions through the foreign key, is no event of the model, and neither is assigning to an account that does not exist, which the foreign key refuses.
- Maximum number of chats and supervisor flags are fixed over a run; changing them has no drain either. Trashing and restoring a session touches neither its status nor its operator.
- Timers inside the gateway: the countdowns are modelled on their own, with no claim that a pending timer means an open session (messages to closed sessions arm timers, REST closes leave them); the disconnect grace timers are uses of KeyedTimers.
- Countdowns.AutoCloseIsEarned: arming is one step, because every caller of armInactivityTimer supplies the language; the lookup for callers that do not is not modelled.
- Timer delays above 2^31 - 1 ms, which the runtime would shorten: configured delays are at most a day.
- Disk moves and updatePathPrefix: no claim that paths on disk and in the media table agree, since moving looks for a prefix that saveFile no longer writes.
- FolderPaths.ToSlugShape: toLowerCase belongs to the host; used of it is that no ASCII capital is left and that ASCII text without capitals stays.
- MediaFiles.MediaService.UploadFile: the check of the file's contents is a parameter, and the stored metadata is not modelled.
- MediaFiles.MediaService.UpdateFile: the legacy folder string, tags and captions are not modelled, nor failures of the disk; the directory is a result, since later folder moves and renames are not followed to disk.
- Folder order, names shown in errors, listing and lookup endpoints.
- BusinessTime.RangeIsByLocalDate: is for a fixed offset; changing ones are covered for single local times by ZoneShifts; offsets come from a function, and Intl's own tables are not modelled.
- Strings that do not match the date pattern are parsed by the host and stay uninterpreted (`HostParsed`); formatInTbilisi is display only.
- HistoryExport.ExportIsWhatIsListed: starts from the rows that match the filter and stay the same meanwhile; equal closing times are broken by one fixed order, and the collation of string ids is an integer rank.
- PageSlugs.OldLinksResolve: pages are their slugs; content, blocks, versions' contents, menus, trash and restore are not modelled, and ids are never reused.
- Authentication, permissions, DTO validation, mail, reports, seed scripts: short branches over libraries, or easy members.
