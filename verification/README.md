# Meshtastic BLE gateway: a verified model

The gateway relays a Meshtastic node's traffic between Bluetooth and MQTT. A supervisor keeps one
disposable worker process alive, the worker holds the radio link and polls it, and a SQLite store
remembers what was heard and traced. This project models the parts of it whose correctness spans several
functions, several threads or whole runs, and proves what those parts keep.
`dafny verify dfyconfig.toml` checks everything.

## What is modelled

**Automatic traceroute** (`NodeIds`, `LocalTime`, `TracerouteStore`, `TracerouteScheduler`,
`TracerouteCoordinator`, `TracerouteRuns`, `TracerouteResults`, `TracerouteTiming`, `TracerouteBudget`,
`TracerouteLimits`, `TracerouteDays`, `TracerouteWait`, `TracerouteBlocking`).
The scheduler, the coordinator and the table are classes whose methods are proved against functions. Whole
runs are sequences of atomic steps built from those functions: the poll loop decides, reads the clock,
sends, registers and arms a timer in five separate steps; the receive thread and the timers take entries
out of the dictionary; taking out and emitting are separate steps, because only the blocks under the lock
are atomic; sessions die and come back; the table is pruned. The guards of the scheduler read rows that
are written only when a request *ends*, so budget and spacing rest on an invariant over requests in
flight, rows, ticks and deaths. That a request ends in time is proved, from the deadline of its timer and
three elementary delays. A step may choose any target that the guards allow, so the results hold for
every selection policy; `PollStep`, `StartStep`, `ReceiveStep` and `TimeoutStep` tie the objects to the steps.
A timer may run late, and also after it was cancelled. The blocking mode of the API is composed with these
runs: its wait reads, by packet id, the table that a run leaves. Where a guard promises less than it seems to,
there is a run that shows it and a condition under which it keeps its word.

**Supervision** (`Tiers`, `Environment`, `Supervisor`). The supervisor's nested loops run against a world
that is free within stated bounds: workers beat and exit when they like, OS calls take up to their bound,
the stop flag answers yes an unknown finite number of times. Pings, the log and the session history carry
the whole-run claims: watchdog gap, handover, freeze detection, on-window, backoff, telemetry announcements.
`Environment.Bounds` names the bounds; `Supervisor.MaxGap` adds them up.

**Packet counting** (`PacketTable`, `PacketCounts`, `PacketHistory`). Two counters, two separate drains,
two inserts that each read their own clock, and worker kills at any point; then the SQL histogram,
built group by group and compared with the plain sum that each group stands for.

**Worker session and command channel** (`Session`, `CommandChannel`). The poll loop with its two-variable
cadence, and the two FIFO queues between supervisor and worker over whole sequences of commands.

`Arithmetic` and `Options` are shared by all of them.

## Assumptions

- Instants and durations are `real`. Clocks never go back and the offset from UTC is constant. The API's
  monotonic clock and the worker's wall clock advance together.
- Time passes in sleeps and OS calls only; reading a clock, a heartbeat counter or a flag takes none, but a
  worker may beat or exit between two reads.
- Store writes succeed. The traceroute table and the packet tables start empty.
- Strings are ASCII: `str.strip` and `int(text, 16)` are modelled on their ASCII alphabet, with sign, `0x`
  and underscores. `LIKE 'scheduler:%'` is modelled as a prefix; SQLite also ignores case there, and the only
  sources the gateway writes are `api` and `scheduler:<policy>`.
- The radio does not return a packet id twice in one session (`TracerouteRuns.Fresh`).
  `RegisterNeedsAFreeId` shows what breaks otherwise: registering under an id that is still waiting, and only
  that, loses a request. Ids may repeat from one session to the next; `WhatALookFinds` says what that does.
- Timed results (`Run(.., true)`) assume bounds on three elementary delays and nothing about when a request
  ends: `sendWithin` from a decision to the armed timer or the failed send, `timerLag` from a timer's deadline
  to its callback, `emitLag` from taking a request out to its row. `TimeIsNeverStuck` shows that every run can
  meet them for ever. `TicksOutlastRequests` is the one relation between settings that budget and spacing use:
  a tick is longer than these three and the 30 s timeout together.
- `keep` and `fraction` are parameters, not restrictions: prunes keep rows at least `keep` old, and no decision
  is taken later than `fraction` into a second. Results that depend on `keep` say so in an implication, and a
  result that does not mention `fraction` is about all clocks when it is taken to be 1. `keep` is at least one
  day as soon as `retention_days >= 1`.

## Where the code and its documentation differ

- `docs/traceroute.md:184-194` presents the gaps and the daily budget as limits that survive restarts. A request
  in flight when a worker dies is never recorded (`src/mbg/session.py:76-116`), so the next session does not
  see it. `SendsAreSpaced` and `DailyBudgetHolds` say what is left; `LostRequestsEscapeTheGuards` gives the run
  in which every gap is broken, and `EveryDeathCostsOne` the runs in which n deaths cost the budget n sends.
- An API request counts for the minimum gap only once its row is written: `ApiInFlightIsNotSeen` has the scheduler
  send in the very instant of an API send. `SendsAreSpaced` covers every API request that must have ended.
- `docs/traceroute.md:187` resets the budget at local midnight. The computed midnight keeps the fraction of the
  second of `now` (`src/mbg/traceroute_scheduler.py:166-168`), so a send in the first fraction of a day does not
  count against the sends that follow it. `FractionsEscapeTheBudget` spends the whole budget once more after such
  a send, on any day and however small the fraction. `WholeSecondsAreTheCondition`: when the quiet hours leave
  midnight and enough of the day open, every local day keeps its budget exactly when decisions fall on whole
  seconds. `QuietMidnightsKeepTheBudget`: when no decision can be taken around midnight, every clock keeps it, and
  the default quiet hours (`src/mbg/config.py:81`) are such a case. `AnyDayIsBounded`: in no case is it exceeded
  by more than one send and the lost ones. `DailyBudgetHolds` is about the part of the day that is counted.
- The per-node guard compares the configured target text with the recorded canonical id
  (`src/mbg/traceroute_scheduler.py:157-159`, `src/mbg/traceroute.py:230`), so it is blind to a target written
  without its `!` or in upper case. `PerNodeGuardNeedsCanonicalTargets` is an equivalence over any table;
  the per-node clause of `SendsAreSpaced` is about targets written as their canonical id, and nothing else is.
- `docs/monitoring.md:149-150` promises that every bin of `/hops` adds up to the same bin of `/packets`. The flush
  drains twice and stamps twice (`src/mbg/worker.py:101-102`). Totals are always conserved
  (`PacketsAreConserved`); the per-bin promise is kept by a flush exactly under the condition of
  `FlushKeepsBinsIff`.
- `submit` never compares ids (`src/mbg/process_backend.py:47-61`), so after a timeout it may return the answer to
  an older command. `MatchIffNothingOwed` says exactly when, over any sequence of commands, and
  `MismatchPersists` that it can go on for ever.
- The blocking traceroute looks its row up by packet id over all sessions (`src/mbg/storage.py:385-392`), so a row
  that another session left under the same id answers at once (`WhatALookFinds`); `ShadowsHappen` is such a run.
  If there is none when the request is armed there will be none (`RunNoShadow`), and `BlockingTraceroute` then
  returns the request's own row.
- A worker killed as frozen may still beat in the instant between the last look and the kill
  (`src/mbg/supervisor.py:235-247`). Soundness of a kill is stated up to that look, and a session counts as
  productive by what was seen then.
- `select_tier` is a clamp for every hysteresis that is not negative; `ClampFailsOnlyAbove` gives the
  exact exception for a negative one.

## Model

| member | source | states |
|---|---|---|
| LocalTime.MidnightIsLateByTheFraction | src/mbg/traceroute_scheduler.py:166-168 | the computed midnight is the true one plus the fraction of the second of `now`, nothing else |
| LocalTime.DayIsAnInterval | src/mbg/traceroute_scheduler.py:166-168 | an instant belongs to a local day iff it lies between the two true midnights around it |
| NodeIds.NormalizePrinted | src/mbg/traceroute.py:37-68 | round trip: printing any single-node number and normalising it, with or without `!`, or as an integer, gives the same number and id |
| NodeIds.ReadHexOfHex | src/mbg/traceroute.py:58-61 | eight printed digits read back as the number |
| NodeIds.ReadSpellings | src/mbg/traceroute.py:58-61 | any number of digits reads back as the number, leading zeros and all, and so it does behind a sign or `0x` |
| NodeIds.ReadHexIgnoresBlanks | src/mbg/traceroute.py:58-61 | `int` skips blanks around its text |
| NodeIds.ReadIgnoresUnderscores | src/mbg/traceroute.py:58-61 | and an underscore between any two digits |
| NodeIds.NormalizeSpelled | src/mbg/traceroute.py:42-68 | a target with fewer digits than are printed, or more, is the same target; it is accepted iff its number is one node's |
| NodeIds.NormalizeIgnoresCase | src/mbg/traceroute.py:52-61 | no text, accepted or not, is treated differently for the case of its digits |
| NodeIds.NormalizeIgnoresBlanks | src/mbg/traceroute.py:53 | nor for the blanks around it |
| NodeIds.NormalizeIsIdempotent | src/mbg/traceroute.py:42-68 | whatever is accepted yields a single-node number and an id that normalises to itself |
| NodeIds.HexIdSeparatesNumbers | src/mbg/traceroute.py:37-39 | two numbers print alike iff their low 32 bits agree |
| NodeIds.BareHexIsNotCanonical | src/mbg/traceroute.py:53-55 | for every node, the text without `!` is accepted but differs from its canonical id |
| TracerouteStore.LastSent | src/mbg/storage.py:394-398 | the latest send epoch: absent iff the table is empty, attained, and exceeded by no row |
| TracerouteStore.LastAttempt | src/mbg/storage.py:400-406 | the latest send epoch to a node, whatever its status; absent iff there is no row to it |
| TracerouteStore.LastSuccess | src/mbg/storage.py:408-414 | the latest send epoch to a node that was answered; absent iff no answered row is to it |
| TracerouteStore.ByRequestId | src/mbg/storage.py:385-392 | a row of that request with the latest send epoch, absent iff there is none |
| TracerouteStore.Table.Record | src/mbg/storage.py:337-355 | one row is appended, the others stay |
| TracerouteStore.Table.Prune | src/mbg/storage.py:497-505 | exactly the rows sent before the cutoff go |
| TracerouteStore.PruneIsRowByRow | src/mbg/storage.py:504-505 | pruning keeps the order of the rows it keeps, and every copy of them |
| TracerouteStore.CountIsExact | src/mbg/storage.py:416-426 | the count is the number of rows sent since the instant whose source has the prefix |
| TracerouteStore.PruneKeepsRecentCounts | src/mbg/storage.py:416-426 | no prune changes a count whose window opens at the cutoff or later |
| TracerouteScheduler.QuietHoursGoRoundTheClock | src/mbg/traceroute_scheduler.py:51-58 | quiet hours are the minutes met going round the clock from start to end, midnight or not |
| TracerouteScheduler.QuietMeans | src/mbg/traceroute_scheduler.py:174-178 | it is quiet iff the whole minutes since the true local midnight are met going round the clock from start to end |
| TracerouteScheduler.SelectStatic | src/mbg/traceroute_scheduler.py:61-75 | the loop returns the target and next index of the scan specification, in all three exits |
| TracerouteScheduler.ScanIsCyclicallyFirst | src/mbg/traceroute_scheduler.py:61-75 | the chosen index is the cyclically first eligible one; none iff no target is eligible |
| TracerouteScheduler.NobodyWaitsPastItsDistance | src/mbg/traceroute_scheduler.py:217-222 | an index eligible at every call is chosen before more calls than its distance from the rotation have gone by |
| TracerouteScheduler.RoundRobinIsFair | src/mbg/traceroute_scheduler.py:217-222 | with eligibility free to vary, an index eligible at every one of n calls is chosen |
| TracerouteScheduler.RotationMovesPastTheChoice | src/mbg/traceroute_scheduler.py:61-75 | the index moves to the one after the choice, round the end, and stays when no target is eligible |
| TracerouteScheduler.SelectStaleness | src/mbg/traceroute_scheduler.py:78-97 | the loop returns the first candidate of highest score, none iff there is no candidate |
| TracerouteScheduler.NeverTracedComesFirst | src/mbg/traceroute_scheduler.py:89-97 | a never-traced node beats every traced one, priority included, while ages stay under half the sentinel |
| TracerouteScheduler.OldestSuccessComesFirst | src/mbg/traceroute_scheduler.py:89-97 | among traced candidates of equal priority the chosen one has the oldest success, and the first of them on a tie |
| TracerouteScheduler.PriorityDoublesTheAge | src/mbg/traceroute_scheduler.py:89-97 | a traced candidate without priority is chosen over one with it only if its success is at least twice as old, and one with priority only if at least half as old; strictly so over an earlier candidate |
| TracerouteScheduler.PriorityComesFirstAmongUntraced | src/mbg/traceroute_scheduler.py:89-97 | if some never-traced candidate has priority, the chosen one is such, and no later than it |
| TracerouteScheduler.NeverTracedIsAnAge | src/mbg/traceroute_scheduler.py:89-97 | between a traced and a never-traced candidate the choice is as if the latter were 1e12 seconds old, priority doubling either |
| TracerouteScheduler.StalestOnRecord | src/mbg/traceroute_scheduler.py:224-229 | told from the rows: over a candidate never answered for, only another such is offered; over one of equal priority, only one whose latest answered row is no later |
| TracerouteScheduler.PerNodeGuardNeedsCanonicalTargets | src/mbg/traceroute_scheduler.py:157-159 | over any table of canonical ids with a recent row of the target's node, the guard lets the target through iff its text is not canonical |
| TracerouteScheduler.PerNodeMeans | src/mbg/traceroute_scheduler.py:157-159 | the per-node guard is open iff every row to the node is at least the interval old |
| TracerouteScheduler.MinGapMeans | src/mbg/traceroute_scheduler.py:153-155 | the minimum gap is over iff every row, of whatever source, is at least the gap old, jitter included |
| TracerouteScheduler.BudgetMeans | src/mbg/traceroute_scheduler.py:161-168 | budget is left iff the scheduler's rows since the computed midnight are fewer than the budget |
| TracerouteScheduler.CandidatesAreEligible | src/mbg/traceroute_scheduler.py:231-245 | an id is a candidate iff it is the user id, or else the printed number, of some node that is not the local one, was heard within the window, and to which every row is at least the interval old |
| TracerouteScheduler.CandidatesKeepTheOrder | src/mbg/traceroute_scheduler.py:231-245 | the candidates come in the order of the node database, each node by itself |
| TracerouteScheduler.Scheduler.Due | src/mbg/traceroute_scheduler.py:139-144 | due iff a tick has elapsed, and only then does the tick restart |
| TracerouteScheduler.Scheduler.EligibleRecent | src/mbg/traceroute_scheduler.py:231-245 | the loop over the node database returns the candidate list |
| TracerouteScheduler.Scheduler.Select | src/mbg/traceroute_scheduler.py:209-229 | a target iff the policy has one, always one that passes the per-node guard; rotation moves only under `static` |
| TracerouteScheduler.Scheduler.Decide | src/mbg/traceroute_scheduler.py:170-207 | a command iff it is not quiet, every row is a jittered gap old, the day's rows are fewer than the budget, the channel is free, and some configured target or eligible node has only rows an interval old; jitter is redrawn only then |
| TracerouteScheduler.Scheduler.Poll | src/mbg/traceroute_scheduler.py:146-151 | a command iff a tick has elapsed and those conditions hold of the rows; nothing moves inside a tick |
| TracerouteCoordinator.Coordinator.Start | src/mbg/traceroute.py:216-244 | bad target: no trace; failed send: one `error` row, no entry, no timer; success: one entry, one timer with its deadline, no row |
| TracerouteCoordinator.Coordinator.OnPacket | src/mbg/traceroute.py:246-278 | a traceroute packet under the id of a waiting request and from its node ends it, with one row that is `ok` iff readable, and stops its timer; any other packet changes nothing |
| TracerouteCoordinator.Coordinator.OnTimeout | src/mbg/traceroute.py:295-311 | a timer ends its request with one `timeout` row, or finds it gone and does nothing |
| TracerouteCoordinator.Coordinator.CancelAll | src/mbg/traceroute.py:339-344 | nothing waits any more, the timers of what waited are stopped and no row is written |
| TracerouteRuns.YoungerIsPrune | src/mbg/storage.py:504-505 | pruning the results of a run is the table's own prune of their rows |
| TracerouteRuns.PollStep | src/mbg/session.py:84-90 | a poll of the scheduler object moves nothing, or is a tick of a run with the same last tick and jitter after it: with a send when the target is readable, else without one and with the session about to die; the command bears the policy's source and timeout |
| TracerouteRuns.StartStep | src/mbg/traceroute.py:216-244 | a call of `start` on the coordinator object leaves the dictionary, timer and row of the run's stamp and failed send, or stamp, send, registration and timer; a bad target leaves everything as it was |
| TracerouteRuns.ReceiveStep | src/mbg/traceroute.py:246-278 | a packet handled by the coordinator object leaves the dictionary of the run's reply step and writes its row |
| TracerouteRuns.TimeoutStep | src/mbg/traceroute.py:295-311 | a callback of the coordinator object leaves the dictionary of the run's timer step and writes its row |
| TracerouteResults.StepInv | src/mbg/traceroute.py:230-344 | every step of every thread keeps each request in exactly one place, under the id it was sent with |
| TracerouteResults.RunInv | src/mbg/traceroute.py:230-344 | and so does every run |
| TracerouteResults.AtMostOneResult | src/mbg/traceroute.py:254-259 | in every interleaving no request gets two results |
| TracerouteResults.ExactlyOneResult | src/mbg/traceroute.py:295-311 | a request whose timer ran and that nobody dropped has exactly one result, emitted or in hand |
| TracerouteResults.TimerEndsTheRequest | src/mbg/traceroute.py:238-244 | in any run, whatever was received early or late, the timer of a live request can run from its deadline on and leaves it with exactly one result |
| TracerouteResults.MatchingReplyEndsTheRequest | src/mbg/traceroute.py:246-278 | in any run, a reply under the id of a waiting request and from its node ends it at once, with exactly one result and the row of that reply, `ok` iff readable |
| TracerouteResults.OkNeedsTheMatchingReply | src/mbg/traceroute.py:254-278 | an `ok` result comes only from a readable reply under the id of that very send and from the traced node |
| TracerouteResults.RegisterNeedsAFreeId | src/mbg/traceroute.py:240-241 | registering keeps every request accounted for iff its packet id is not already waiting |
| TracerouteTiming.StepPunctual | src/mbg/traceroute.py:230-337 | every step keeps each request within the delays of the place it is in |
| TracerouteTiming.RunPunctual | src/mbg/traceroute.py:230-337 | and so does every timed run |
| TracerouteTiming.UnresolvedIsRecent | src/mbg/traceroute.py:238-244 | a request without a row is younger than its timeout and the three delays, told from its decision and from its timer's deadline |
| TracerouteTiming.RequestsEndInTime | src/mbg/traceroute.py:230-337 | in every timed run a request of the scheduler or the API that nobody dropped has exactly one result once its timeout and the delays are over |
| TracerouteTiming.TimeIsNeverStuck | src/mbg/traceroute.py:230-337 | any timed run can go on to any later moment without death or cancellation: each delay assumed is of something the code can always do |
| TracerouteBudget.CountCoversRequests | src/mbg/storage.py:416-426 | the SQL count is never less than the number of distinct scheduler requests on record |
| TracerouteBudget.EarlierRequestIsOnRecord | src/mbg/traceroute_scheduler.py:139-144 | at a tick, every earlier scheduler request has its row, was lost, or is older than what prunes keep; its timer has seen to it |
| TracerouteBudget.TodayIsCounted | src/mbg/traceroute_scheduler.py:161-164 | at a tick, the sends of the day are at most the rows the budget counts plus the lost requests |
| TracerouteBudget.StepGuarded | src/mbg/traceroute_scheduler.py:170-207 | every step keeps budget, spacing and one scheduler request in flight at most |
| TracerouteBudget.RunGuarded | src/mbg/session.py:76-102 | and so does every run |
| TracerouteBudget.DailyBudgetHolds | src/mbg/traceroute_scheduler.py:161-164 | for any targets, scheduler sends in the counted part of a local day never exceed the budget by more than those lost without a row, at most one per death or cancellation |
| TracerouteBudget.WholeSecondsCoverTheDay | src/mbg/traceroute_scheduler.py:166-168 | on whole-second clocks the covered part of a day is the day |
| TracerouteBudget.SendsAreSpaced | src/mbg/traceroute_scheduler.py:153-159 | a scheduler send comes a minimum gap after any earlier scheduler send and any API send that must have ended by then, and a per-node interval after those to the same node when its target was written canonically, unless the earlier was lost |
| TracerouteBudget.SendsOfASessionAreSpaced | src/mbg/traceroute_scheduler.py:153-159 | within the session in progress, while nothing is cancelled, no request is lost and that spacing has no such exception |
| TracerouteBudget.QuietHoursAreKept | src/mbg/traceroute_scheduler.py:174-178 | no scheduler request of any run, timed or not, was decided in the quiet hours |
| TracerouteLimits.LostRequestsEscapeTheGuards | src/mbg/session.py:76-116 | for any gaps and any target that `start` accepts, however written, a run with two sends to its node at one instant and one death between |
| TracerouteLimits.ApiInFlightIsNotSeen | src/mbg/storage.py:394-398 | for any gaps and any accepted target, a run in which the scheduler sends to the node of an API request at the instant of its send, nothing lost |
| TracerouteLimits.EveryDeathCostsOne | src/mbg/session.py:76-116 | for every number of deaths and every budget that a day has room for, a run whose sends of one day exceed the budget by exactly that number, each lost |
| TracerouteLimits.FractionsEscapeTheBudget | src/mbg/traceroute_scheduler.py:161-168 | for any fraction above zero, offset, day and budget that the day has room for, a run with one send more than the budget on that day, nothing lost |
| TracerouteDays.WholeSecondsAreTheCondition | src/mbg/traceroute_scheduler.py:161-168 | for any budget, if the quiet hours leave midnight open and room for the budget after it: every run keeps the budget of every local day, lost requests aside, iff decisions fall on whole seconds |
| TracerouteDays.WholeSecondsWithoutQuietHours | src/mbg/traceroute_scheduler.py:161-168 | the same without quiet hours, the room being that as many gaps as the budget fit in a day |
| TracerouteDays.AnyDayIsBounded | src/mbg/traceroute_scheduler.py:153-168 | on every clock whose fraction the minimum gap covers, scheduler sends of a whole local day never exceed the budget by more than one and those lost |
| TracerouteDays.QuietMidnightsKeepTheBudget | src/mbg/traceroute_scheduler.py:161-178 | if no decision can be taken where its send could fall in the first fraction of a day, the budget of every local day is kept on every clock, lost requests aside |
| TracerouteDays.QuietNights | src/mbg/traceroute_scheduler.py:51-58 | quiet hours that span midnight, by a send before it and the fraction after it, are such a case |
| TracerouteDays.DefaultQuietHoursKeepTheBudget | src/mbg/config.py:81 | from 22:00 to 06:00 they are, while a send takes two hours at most |
| TracerouteWait.TracerouteReader.Wait | src/mbg/api.py:60-69 | terminates with what its last look under the id found; gives up only when that look ended at the deadline or later; returns within a bound, and within one look and one poll of the moment from which a row is there to stay |
| TracerouteBlocking.RowIsReadable | src/mbg/storage.py:385-392 | once its timer's deadline and the lags are over, a live request is found under its packet id, until a prune may take its row |
| TracerouteBlocking.WhatALookFinds | src/mbg/storage.py:385-392 | before a result is recorded a look finds something iff another request left a row under the id; without one it only ever finds the own row |
| TracerouteBlocking.ShadowsAreOlder | src/mbg/storage.py:385-392 | such a row comes from an earlier session, or from a failed send under id 0 |
| TracerouteBlocking.ShadowsHappen | src/mbg/storage.py:385-392 | for any accepted target and any id, a run with a request armed and unanswered under whose id a look finds a row, that of the session before |
| TracerouteBlocking.RunNoShadow | src/mbg/storage.py:385-392 | a request that has an id other than 0 and no such row beside it never gets one while its session lives |
| TracerouteBlocking.OwnRowPrevails | src/mbg/storage.py:385-392 | once its own row is recorded a look finds it, or a row sent in the very same instant by an earlier session |
| TracerouteBlocking.BlockingTraceroute | src/mbg/api.py:122-138 | beside a timed run in which the session lives on, the wait returns a row under the id whenever the lags and one look stay under the margin, at the latest two looks and a poll after the result can be read: the own row if the id was clear when the request was armed, else possibly one another request left there |
| Tiers.CountBelow | src/mbg/tiers.py:52-54 | the count is the index of the tier: a threshold is above the level iff its index is below the count |
| Tiers.SelectIsAClamp | src/mbg/tiers.py:57-73 | a reading clamps the current index between the two counts |
| Tiers.ClampFailsOnlyAbove | src/mbg/tiers.py:67-73 | with any hysteresis, the clamp fails iff the raised count is under the plain one and that is not above the current index |
| Tiers.FirstReading | src/mbg/tiers.py:18-50 | a first reading leads straight to its tier: the duty cycle under 25, and cadences of 3600, 1800 and 900 seconds from 25, 50 and 75 on |
| Tiers.ChangeNeedsDistance | src/mbg/tiers.py:67-73 | two consecutive changes in opposite directions have readings more than the hysteresis apart |
| Tiers.ReversalsAreBounded | src/mbg/tiers.py:57-73 | over any sequence of readings, reversals times hysteresis is at most the total variation |
| Tiers.OneWayIsShort | src/mbg/tiers.py:57-73 | without a reversal the tier travels one way, in at most three changes |
| Tiers.NoFlapping | src/mbg/tiers.py:57-73 | readings spread by at most the hysteresis cause no reversal and at most three changes |
| Tiers.TraceAppend | src/mbg/tiers.py:57-73 | one more reading moves the tier from where the readings before led |
| Supervisor.Supervisor.PlanTier | src/mbg/supervisor.py:133-143 | the tier follows from the latest reading of the store and the tier before; static and unremembered when tiers are off |
| Supervisor.Supervisor.Wait | src/mbg/supervisor.py:153-158 | a pause of any length keeps every ping gap within the bound, lasts its duration unless a stop is asked for, and overruns it by one tick at most |
| Supervisor.Supervisor.Kill | src/mbg/supervisor.py:270-276 | the worker is dead on return, having beaten at most in the instant of the kill, and its link is dropped after the kill |
| Supervisor.Supervisor.Look | src/mbg/supervisor.py:225-235 | after a whole tick, the watch says truly that the window is over, the worker is gone, or how far it has beaten; a window that is over once a heartbeat was seen is always said to be, and a worker gone before is never said to be seen |
| Supervisor.Tracking | src/mbg/supervisor.py:235-243 | over one tick, either progress is seen or the silence since the last progress is bounded by grace and tick |
| Supervisor.Supervisor.KillFrozen | src/mbg/supervisor.py:241-247 | the kill comes after the grace and in time, told from the last look |
| Supervisor.Supervisor.WatchOnce | src/mbg/supervisor.py:225-247 | one turn either ends the watch with a true verdict, in time, or keeps what is known of the worker: alive and inside its window |
| Supervisor.Supervisor.Supervise | src/mbg/supervisor.py:221-248 | kills only a worker that, when last looked at, had been silent for longer than its grace; leaves none silent for longer than its grace and a tick past the last progress seen; ends within one look of the end of the window (or of a first heartbeat after it) and of the worker's death, and never without such a reason; takes at most as many turns as heartbeats seen and grace allow; pings stay regular |
| Supervisor.Supervisor.StopWorker | src/mbg/supervisor.py:278-280 | afterwards the worker is dead; its link is dropped iff it had to be killed |
| Supervisor.Supervisor.ReconcileBle | src/mbg/supervisor.py:250-268 | a disconnect and its settling time iff opted in and the host still holds the link, within the stated time |
| Supervisor.Supervisor.Open | src/mbg/supervisor.py:190-196 | the new worker is alone, exposed, started at the tier's cadence and with the announcement the rule asks for |
| Supervisor.Supervisor.Attend | src/mbg/supervisor.py:197-199 | whatever the verdict, the worker is gone, its link is released and the API no longer reaches it; the session is productive iff the worker ever beat, but for a beat in the very instant in which the watch ended |
| Supervisor.Supervisor.Serve | src/mbg/supervisor.py:190-201 | one session continues the history: no worker left, link log and announcement up to date; under a duty-cycle tier it ended within one look of `duty_on`, or of a first heartbeat after it |
| Supervisor.Supervisor.RecordLink | src/mbg/supervisor.py:204-206 | the session is closed on the timeline with its rank, when there is a store |
| Supervisor.Supervisor.Rest | src/mbg/supervisor.py:207-217 | duty-cycle wait or backoff, slept in full unless a stop is asked for and one overrun longer at most, leaving room for the next start before the watchdog bound |
| Supervisor.Supervisor.Continue | src/mbg/supervisor.py:204-217 | the loop invariant holds again with one more session, the delay being the closed form's |
| Supervisor.Supervisor.Turn | src/mbg/supervisor.py:190-217 | one turn of the loop keeps the whole-run invariant or ends the run properly |
| Supervisor.Supervisor.Run | src/mbg/supervisor.py:175-219 | every run: ping gaps within MaxGap, a well-formed log, tiers that follow the readings, announcements that follow the history, backoffs on the closed form, pauses slept in full and little longer, sessions that end in time, never without a reason, and are productive iff their worker beat (but for the instant in which the watch ended), no worker alive at the end |
| Supervisor.CleanHandover | src/mbg/supervisor.py:190-210 | in a well-formed log no worker is spawned beside a live one, every kill is followed by one disconnect and then the API lets go |
| Supervisor.LinksCountSessions | src/mbg/supervisor.py:204-206 | the recorded reconnections are exactly 1, 2, ..., n |
| Supervisor.NextDelay | src/mbg/supervisor.py:217 | doubling and capping is one step along the closed form, and never exceeds the larger of the two delays |
| Supervisor.StreakAppend | src/mbg/supervisor.py:207-217 | duty-cycle sessions leave the rank of the backoff unchanged, productive ones restart it |
| Supervisor.DelayClosedForm | src/mbg/supervisor.py:188 | the backoff of rank k is the base delay times two to the k, capped |
| Supervisor.HistoryIsATrace | src/mbg/supervisor.py:133-143 | the tiers of a session history are those its readings lead to from the highest tier |
| Supervisor.ReversalsCostSwings | src/mbg/supervisor.py:133-143 | over a run, tier reversals times hysteresis is at most the total variation of its readings |
| Supervisor.SmallSwingsCauseNoReversal | src/mbg/supervisor.py:133-143 | a run whose readings stay within the hysteresis never reverses and changes tier at most three times |
| PacketTable.BumpAddsOne | src/mbg/node.py:297-299 | counting adds one under its key, none elsewhere, and one to the total |
| PacketTable.StampKeepsCounts | src/mbg/storage.py:214-221 | the rows of a flush add exactly what the counter held, key by key and in total |
| PacketCounts.KnownHops | src/mbg/node.py:32-54 | a hop count is shown iff the packet had a budget and spent between zero and seven of it, a missing limit being zero |
| PacketCounts.SenderMeans | src/mbg/node.py:281-289 | the sender is the decoded id, or else the printed number, and unknown iff there is neither |
| PacketCounts.HopsMeans | src/mbg/node.py:293-296 | bucket h from zero on iff the sender is not the local node, the packet set out with a budget, and spent h of it, seven at most, a missing limit being zero; the local bucket iff the sender is the local node |
| PacketCounts.NodeLink.LocalNodeId | src/mbg/node.py:301-317 | resolved once, never changed afterwards |
| PacketCounts.NodeLink.CountPacket | src/mbg/node.py:259-299 | exactly the sender's count and exactly the bucket of the hops spent grow by one, or neither does |
| PacketCounts.NodeLink.DrainPacketCounts | src/mbg/node.py:319-328 | everything comes out, nothing stays, the other counter is untouched |
| PacketCounts.NodeLink.DrainPacketHopCounts | src/mbg/node.py:330-340 | everything comes out, nothing stays, the other counter is untouched |
| PacketCounts.StepConserves | src/mbg/worker.py:94-102 | every step of counting, flushing or dying keeps the balance |
| PacketCounts.PacketsAreConserved | src/mbg/worker.py:94-102 | in every interleaving, the packets of each sender and of each bucket are those in memory, in transit, recorded or lost, and in total; none is lost without a kill; every recorded hop key is legal, whatever the packets' fields |
| PacketCounts.FlushKeepsBinsIff | src/mbg/worker.py:101-102 | the steps of a flush, packets being counted anywhere between them, keep the two series equal in every bin iff none came between the drains and both inserts share a bin or there was nothing to write |
| PacketCounts.UndisturbedBinsAgree | src/mbg/worker.py:94-102 | over runs of such flushes every bin agrees between flushes |
| PacketHistory.HistoryShape | src/mbg/storage.py:256-260 | one line per bin and key, sorted by bin |
| PacketHistory.HistoryIsGroupedSum | src/mbg/storage.py:256-260 | each line is the sum of the raw rows of its bin and key since the cutoff; there is a line iff there is a row |
| PacketHistory.BinContains | src/mbg/storage.py:257 | on epochs a bin is the half-open interval of its width starting at its name |
| PacketHistory.BinsMirrorAtZero | src/mbg/storage.py:257 | before the epoch a bin is named by its end, the cast truncating toward zero |
| PacketHistory.BinOfBin | src/mbg/storage.py:257 | binning the name of a bin into a multiple of its width is binning the instant |
| PacketHistory.RebinningIsConsistent | src/mbg/storage.py:306-315 | querying a multiple of the width directly, or regrouping the finer histogram, shows the same lines and counts |
| PacketHistory.HistoryConservesTotals | src/mbg/storage.py:306-315 | binning loses and duplicates nothing |
| PacketHistory.SplitFlushIsInvisible | src/mbg/storage.py:207-221 | writing a count in one flush or two of the same bin shows the same |
| PacketHistory.PruneKeepsTheYounger | src/mbg/storage.py:317-334 | exactly the rows of the cutoff or later survive a prune |
| PacketHistory.PruneIsInvisible | src/mbg/storage.py:317-334 | pruning changes no histogram whose window opens at the cutoff or later |
| Session.PollsPerMonitor | src/mbg/session.py:69-73 | zero iff monitoring is off, else at least one poll |
| Session.PeriodIsNearest | src/mbg/session.py:69-73 | the period in polls is the nearest to the interval, to within half a poll, one poll at least |
| Session.AnswerCommands | src/mbg/session.py:81-83 | replies in order under the drained ids, up to the first write that raises |
| Session.TakePoll | src/mbg/session.py:81-101 | the restarting counter and the first-sample flag sample at the ranks that the period divides; the poll completes iff no write, start or due sample raises |
| Session.RunSession | src/mbg/session.py:76-116 | the effects are those of the completed polls; a session that ends by itself has started every target chosen, answered every command, beaten once a poll and flushed once iff it was given a flush |
| Session.SessionAccounting | src/mbg/session.py:91-101 | n completed polls: n heartbeats, ceil(n / period) samples, no flush yet |
| Session.PollCounts | src/mbg/session.py:91-101 | any poll, completed or not, samples iff its rank is due and nothing raised before, beats iff nothing raised at all, and never flushes |
| Session.PollIsInOrder | src/mbg/session.py:81-101 | replies come first, then the traceroute, then the sample, and the heartbeat last |
| Session.PollTells | src/mbg/session.py:81-90 | any poll answers its commands up to the first write that raises, each with its own result, and starts the scheduler's target iff there is one and nothing raised |
| Session.EveryChoiceIsStarted | src/mbg/session.py:84-90 | over completed polls the targets started are those the scheduler chose, in order and once each |
| Session.EveryCommandIsAnswered | src/mbg/session.py:81-83 | every drained command is answered once, with its own result and under its id, in order |
| CommandChannel.Channel.Drain | src/mbg/worker.py:41-47 | the queue is emptied into the batch in order |
| CommandChannel.Channel.WorkerRuns | src/mbg/worker.py:41-50 | whatever the worker does, it answers a prefix of what is unanswered, in order |
| CommandChannel.WorkerHandle.Purge | src/mbg/process_backend.py:50-55 | terminates with no stale result, owing exactly the commands the worker had not answered |
| CommandChannel.WorkerHandle.Submit | src/mbg/process_backend.py:47-61 | the result answers the oldest command unanswered at the purge, and is this command's own iff there was none; a timeout iff no answer came |
| CommandChannel.WorkerHandle.SubmitAll | src/mbg/process_backend.py:47-61 | over any commands sent one after another, each result answers the command as many places before as were owed at the purge |
| CommandChannel.MatchIffNothingOwed | src/mbg/process_backend.py:50-61 | the k-th result is the answer to the k-th command iff nothing older was owed when the queue was purged |
| CommandChannel.NoMismatchBeforeATimeout | src/mbg/process_backend.py:50-61 | until a first timeout every result answers its own command |
| CommandChannel.MismatchPersists | src/mbg/process_backend.py:50-61 | after one timeout, a worker that stays one answer behind makes every submit return the answer to the command before |

`Supervise`, `Serve` and `Turn` are one loop body of the source each, cut into several methods (`WatchOnce`,
`Look`, `KillFrozen`, `Prepare`, `Launch`, `Oversee`, `Attend`, `Finish`, `Open`, `Hold`, `Recover`, `Continue`) so
that each proof stays short; `Session.TakePoll` and `SubmitNext` are likewise one turn of a loop.

## Left out

- SendsAreSpaced: excuses an earlier send that was lost without a row (`LostRequestsEscapeTheGuards`) and an API send that may still be waiting (`ApiInFlightIsNotSeen`), because the code sees neither.
- DailyBudgetHolds: covers the day from `fraction` of a second past midnight, and adds the requests lost without a row, because the code counts no others (`FractionsEscapeTheBudget`, `EveryDeathCostsOne`); `AnyDayIsBounded` covers the whole day.
- RunSession: the moments of a session are not modelled, only the order of its effects; the sample that `monitor` takes also flushes, which is not a separate effect here.
- MismatchPersists: one family of runs, in which the worker stays exactly one answer behind; the general case is `MatchIffNothingOwed`.
- BlockingTraceroute: does not promise the request's own row when another request had left one under the same packet id (`ShadowsHappen`), because the look-up does not tell them apart.
- WholeSecondsAreTheCondition: where midnight is open but the quiet hours or the gaps leave no room for the budget in the rest of the day, only `AnyDayIsBounded` is proved.
- Attend: a heartbeat in the instant in which the watch ends does not make a session productive, because the code has read the counter by then.
- A static target that `normalize_dest` refuses: `start` raises out of the poll loop, which the runs show as a tick followed by the death of the session.
- The text of quiet hours (`parse_quiet_hours`), route and SNR decoding, and the fields of a result that no guard reads: formatting and one-branch checks.
- Node names in `/packets`, and the tables for metrics, neighbours and link quality: plain inserts and look-ups.
- SQLite itself (journals, locks, migrations), failing writes and the maintenance thread's schedule; prunes are steps that may come at any time.
- MQTT publication: it follows the recording in `_emit` and its failures are swallowed.
- Unhashable or non-string `fromId` values, and Unicode digits in targets.
- `Supervisor.submit`, which refuses when there is no worker and otherwise delegates to the modelled channel.
- The feeder threads and pipes inside the multiprocessing queues: a result in transit counts as not put yet.
- Changes of the UTC offset, leap seconds and clocks that go back.
- The HTTP API apart from its blocking wait, the MQTT proxy, provisioning, link tuning and configuration: thin wrappers, small clamps and field copies.
