# Verification of LifeMan's concurrent protocols and its routing, scheduling and paging logic

LifeMan is one asyncio process over one SQLite connection. Its coroutines meet at every
`await`; each SQL statement is one atomic step. This project models the parts of it in which
something can go wrong between two such steps, or in arithmetic, text and rule tables, and
proves what they guarantee, for every input, every run and every interleaving.

Protocols are step systems: `Step(s, a)` is what one coroutine does between two awaits,
an action that is not enabled does nothing, and theorems speak about `Run(start, actions)`
for every sequence of actions. The routines themselves follow as classes and methods in
the source's own form; each is proved to take exactly the steps of its protocol.

| file | models |
|---|---|
| `Delivery.dfy`, `DeliveryResults.dfy`, `DeliveryCoroutines.dfy` | the delivery state machine of `emit_output` and `cancel_output` |
| `Scheduler.dfy`, `SchedulerProgress.dfy`, `SchedulerTimes.dfy`, `SchedulerLoop.dfy` | reserve, run, finalise, crash and claw-back of scheduled fires, and the times they write |
| `Recurrence.dfy` | the recurrence arithmetic |
| `EventBus.dfy`, `EventBusObjects.dfy` | the event bus: replay ring, queues, hand-over from replay to live |
| `Routing.dfy`, `RoutingResults.dfy`, `InProcessRouter.dfy`, `SeedRouter.dfy` | the meaning of a rule table, its two interpreters, and the default table |
| `RuleGrowth.dfy`, `RuleProposals.dfy` | LLM proposals, how they arise and what accepting them changes |
| `RateLimit.dfy` | the sliding-window rate limit |
| `PermissionWait.dfy`, `PermissionAnswers.dfy`, `PermissionCoroutines.dfy` | waiting for a permission to be resolved, and which answer comes of which action |
| `Invocation.dfy`, `InvocationRunner.dfy` | background tool invocations |
| `Timestamps.dfy` | text comparison of `isoformat()` timestamps |
| `LikeEscape.dfy` | prefix search through SQL LIKE |
| `Paging.dfy` | cursor paging of missed deliveries |
| `ToolCalls.dfy` | assembly of streamed tool calls |
| `Runs.dfy`, `Common.dfy` | runs of a step system, and helpers |

`dafny verify dfyconfig.toml` checks everything.

## Where the code and its documentation disagree

The model follows the code. Each of these is a lemma, with the exact condition where there is one.

- A channel whose row is inserted after a cancel has run is not cancelled (`LaterChannelEscapesCancel`).
- A `reschedule` that lands while the schedule fires is overwritten (`RescheduleMidFireIsOverwritten`).
- A row whose finalising UPDATE raised does not stay reserved until a restart, as the comment in `_fire` fears;
  it fires again when the reserved time comes (`FailedFinaliseRefires`).
- A weekly schedule whose fire slips past midnight moves to another weekday (`WeeklyKeepsItsDay`).
- Drops that happen while a client is suspended at a drop notice are never reported (`DropsAreErasedAtNotices`).
- Emits that route before any of them has settled pass the rate limit together; the limit holds exactly when
  none do (`BurstIsNotLimited`, `LimitHoldsIffNoOverlap`).
- `await_permission` can return a grant that is not committed, or whose standing grant does not exist, and may
  never come to be (`GrantCommittedIff`, `AlwaysInForceIff`, `AlwaysWithoutGrant`).
- `resolve_permission` does not validate its action: "granted_always" is reported and committed as a permanent grant,
  without a standing grant (`AnswerIsTheAction`, `StatusAsActionGrantsNothing`).
- An awaiter that raises before its `try` leaves its slot behind (`NothingLeftBehind`).
- A spawned invocation stays `running` for ever if its spawner is interrupted before it starts the job, or the
  job is cancelled before its terminal UPDATE (`LeftRunning`, `CancelledJobLeftRunning`, `RunningForEver`).
- Two routes can record the same pick as two open proposals, and a proposal can be promoted twice; each happens
  exactly when a write comes too late after its check (`OneOpenIffNoStaleInsert`, `OnePromotionIffNoLateInsert`).
- The prefix search of `state_list` ignores the case of ASCII letters (`LiteralIffNoLetter`).
- Paging loses rows whose instant ties with the last row of a page (`CompleteIffBoundariesClean`).

## Model

| member | source | states |
|---|---|---|
| DeliveryResults.RecalledAtMostOnce | src/lifeman/outputs/api.py:163-223 | in every interleaving of the emitter with any number of cancels, `channel.cancel` runs at most once per row, only after its `deliver` reported success, and with the id it reported |
| DeliveryResults.FlippedIsRecalledIff | src/lifeman/outputs/api.py:286-306 | in every run, a row that a cancel took from delivered to cancelled has exactly one recall, with the id its channel reported, if that cancel has found and called its channel, and none otherwise |
| DeliveryResults.CancelReplyIsExact | src/lifeman/outputs/api.py:286-307 | the reply of a cancel names, in the order of the calls, exactly the channels that were found and confirmed the recall |
| DeliveryResults.StatusFollowsEdges | src/lifeman/outputs/api.py:171-227 | every step moves a row along an edge of the delivery state machine, and no row disappears |
| DeliveryResults.CancelIsFinal | src/lifeman/outputs/api.py:271-307 | a row that existed at a cancel's claiming UPDATE is not `delivered` when that cancel returns or ever after; once its emitter has left it, it is cancelled, failed, or claimed with the channel reporting non-delivery |
| DeliveryResults.FinalStatus | src/lifeman/outputs/api.py:194-227 | when all coroutines have returned, the channel's answer, the claim and the selection decide the status, in both directions for all four final statuses |
| DeliveryResults.LaterChannelEscapesCancel | src/lifeman/outputs/api.py:163-202 | from any state in which every cancel has returned, the next channel is delivered and its row stays delivered in every continuation without a new cancel |
| DeliveryResults.CancelBeforeFirstRow | src/lifeman/outputs/api.py:271-287 | a reachable state in which that happens: a cancel returns before the first row exists |
| DeliveryResults.ReplyIsConserved | src/lifeman/outputs/api.py:151-227 | `dispatched` and `dropped` interleave to exactly the decision, each resolved channel has exactly one row, and `dispatched` names exactly the rows moved from in flight to delivered |
| Delivery.ClaimIsExact | src/lifeman/outputs/api.py:271-277 | after the claiming UPDATE no row is in flight, exactly the rows that were have changed and only in their status, and claiming again changes nothing |
| Delivery.DeliveredRows | src/lifeman/outputs/api.py:282-286 | the SELECT returns every delivered row and only those |
| DeliveryCoroutines.OutputStore.EmitOutput | src/lifeman/outputs/api.py:151-227 | the dispatch loop, with other coroutines at every await, stays in the protocol and its reply is the protocol's |
| DeliveryCoroutines.OutputStore.HandleChannel | src/lifeman/outputs/api.py:153-227 | one turn of the loop disposes of exactly one channel, in the list its outcome calls for |
| DeliveryCoroutines.OutputStore.InsertRow | src/lifeman/outputs/api.py:163-170 | one in-flight row for the channel, and its id |
| DeliveryCoroutines.OutputStore.Deliver | src/lifeman/outputs/api.py:172-227 | from the answer to the end of the turn: the channel counts as dispatched only if its UPDATE hit the row and it was delivered |
| DeliveryCoroutines.OutputStore.RecallDelivered | src/lifeman/outputs/api.py:204-223 | a delivery that lost against a cancel is recalled, marked cancelled and dropped |
| DeliveryCoroutines.OutputStore.CallCancel | src/lifeman/outputs/api.py:207-210 | the recall names the id the channel reported |
| DeliveryCoroutines.OutputStore.MarkRow | src/lifeman/outputs/api.py:211-223 | the row becomes cancelled whatever it was |
| DeliveryCoroutines.OutputStore.SettleRow | src/lifeman/outputs/api.py:187-201 | the conditional UPDATE of the emitter and its row count |
| DeliveryCoroutines.OutputStore.Claim | src/lifeman/outputs/api.py:271-277 | the cancel remembers how many rows its UPDATE ran over and claims those in flight |
| DeliveryCoroutines.OutputStore.SelectDelivered | src/lifeman/outputs/api.py:282-286 | the rows shown at that moment |
| DeliveryCoroutines.OutputStore.FlipRow | src/lifeman/outputs/api.py:289-297 | the conditional UPDATE of the cancel and its row count |
| DeliveryCoroutines.OutputStore.TellChannel | src/lifeman/outputs/api.py:298-307 | a channel that is still there is called once, with the id of its delivery, and named if it agrees |
| DeliveryCoroutines.OutputStore.RecallFlipped | src/lifeman/outputs/api.py:298-307 | after a hit the channel is told, with others at every await: if it is found, no row that this cancel flipped is left without its recall |
| DeliveryCoroutines.OutputStore.HandlePick | src/lifeman/outputs/api.py:286-307 | one selected row: flipped if it still is delivered, then recalled if its channel is found |
| DeliveryCoroutines.OutputStore.CancelOutput | src/lifeman/outputs/api.py:242-314 | on return no row that existed at the call is in flight or delivered, and if every channel is still there, each row this call flipped has been recalled with the id its channel reported |
| Recurrence.NextFire | src/lifeman/scheduler.py:208-224 | there is a next fire exactly for a recurring spec with fields in range, and it is after now |
| Recurrence.NextFireIsFirstOnGrid | src/lifeman/scheduler.py:295-313 | daily and hourly: the result is the least instant strictly after now at the named time of day, or minute of the hour |
| Recurrence.LateFireSkipsWholePeriods | src/lifeman/scheduler.py:208-224 | a late fire skips whole periods and stays on the grid |
| Recurrence.PunctualRunVisitsEveryOccurrence | src/lifeman/scheduler.py:208-224 | over a run whose fires are each within one period of due, the due times are exactly due0 + k periods |
| Recurrence.WeeklyKeepsItsDay | src/lifeman/scheduler.py:306-313 | however late the fire, the next due time is on the schedule's weekday exactly when the fire happens on that weekday |
| Recurrence.WeeklyIsSevenDaysOn | src/lifeman/scheduler.py:306-313 | it is exactly seven days on when and only when the fire happens on the due UTC day, or on the day a week later before the due time |
| Recurrence.WeeklyMovesWhenFiredAfterMidnight | src/lifeman/scheduler.py:306-313 | fired at 00:10 instead of 23:50, a weekly schedule is next due a day later |
| Recurrence.WeeklyRunOnDueDays | src/lifeman/scheduler.py:306-313 | over a run whose fires happen on their due days, the due times are exactly seven days apart |
| Scheduler.EveryRunIsConsistent | src/lifeman/scheduler.py:92-205 | in every run, with crashes and reschedules at any point, `total_fires` is the number of finalised fires and at most one fire per schedule is in flight |
| Scheduler.OneShotIsFinalisedOnce | src/lifeman/scheduler.py:196-205 | finalising a fire that does not recur retires the schedule for good: nothing that follows finalises it again |
| Scheduler.RetiredForEver | src/lifeman/scheduler.py:95-98 | a cancelled schedule that is not firing never fires again |
| Scheduler.OwedUntilFinalised | src/lifeman/scheduler.py:38-64 | an owed fire stays owed through ticks, failures, crashes and restarts, and whatever happens to other schedules, until it is finalised or the user cancels or reschedules it |
| Scheduler.RestartMakesOwedFiresDue | src/lifeman/scheduler.py:38-58 | whatever a crash interrupted is due after the next reconcile |
| SchedulerProgress.NothingSetsItBack | src/lifeman/scheduler.py:92-205 | no step of anyone moves an owed fire further from its finalisation, be it ready or waiting for the clock, short of a crash or an error of its own |
| SchedulerProgress.HelpfulIsEnabledAndCloser | src/lifeman/scheduler.py:92-205 | for every owed fire there is an enabled step that brings it closer |
| SchedulerProgress.OwedFireIsFinalised | src/lifeman/scheduler.py:92-205 | from every state with an owed fire, finitely many such steps finalise it |
| SchedulerProgress.ServedFireIsFinalised | src/lifeman/scheduler.py:92-205 | in every run without crash, own failure or withdrawal, whatever the others do, an owed fire is finalised once the clock has gone past its wait and the helpful step has been taken as often as the fire is then distant |
| SchedulerProgress.FailedFinaliseRefires | src/lifeman/scheduler.py:150-155 | a fire whose finalising UPDATE raised is fired and finalised again without a restart |
| SchedulerProgress.RescheduleMidFireIsOverwritten | src/lifeman/routes/schedules.py:148-168 | a reschedule while a fire is in flight, before or after its reservation and with any steps in between, survives finalisation exactly when the schedule is live and the new time is the one the selected spec gives for the moment of the reservation |
| SchedulerProgress.RescheduleIsLost | src/lifeman/scheduler.py:128-205 | a run from the start in which a rescheduled one-shot is retired instead |
| SchedulerTimes.ReservationMovesAhead | src/lifeman/scheduler.py:131-141 | before the tool runs, the row moves to the first named minute or time of day after now, weekly to today or seven days on, else an hour ahead; the start is noted, and nothing else changes |
| SchedulerTimes.ReservedIsQuiet | src/lifeman/scheduler.py:128-205 | over any run without crash, start or withdrawal, whether the fire is finalised or its finalising UPDATE raises, the schedule is not due and has no other fire before the time it was moved to |
| SchedulerTimes.RescheduleTakesEffect | src/lifeman/routes/schedules.py:148-168 | an idle schedule carries the new spec and does not fire before the new time, whatever the others do |
| SchedulerTimes.CancelIsForGood | src/lifeman/routes/schedules.py:171-181 | in every continuation, through reschedules, crashes and restarts, a cancelled schedule is never due, and at most the fire that was under way is finalised |
| SchedulerTimes.CrashStopsEverything | src/lifeman/scheduler.py:30-35 | after a crash nothing fires and nothing is finalised until the next start |
| SchedulerTimes.ColumnsAreRight | src/lifeman/scheduler.py:181-205 | in every run `last_fired` is the moment of the last finalisation and `consecutive_no_ops` the number of fires in a row that said so, although both are computed from the selected row |
| SchedulerTimes.FinalisedIsNotClawedBack | src/lifeman/scheduler.py:38-59 | a crash right after finalising and the next start leave the row as it was, and every row that no fire had started |
| SchedulerLoop.Process.Reschedule | src/lifeman/routes/schedules.py:148-168 | spec and time are replaced, whatever the schedule is doing; an unknown id changes nothing |
| SchedulerLoop.Process.CancelSchedule | src/lifeman/routes/schedules.py:171-181 | the schedule is marked cancelled; an unknown id changes nothing |
| SchedulerLoop.Process.Collect | src/lifeman/scheduler.py:99-107 | the loop puts every selected id in flight and makes coroutines for the new ones |
| SchedulerLoop.Process.Boot | src/lifeman/scheduler.py:38-64 | start-up claws back exactly the interrupted, uncancelled rows |
| SchedulerLoop.Process.Tick | src/lifeman/scheduler.py:92-109 | the loop over the selected rows is the protocol's tick |
| SchedulerLoop.Process.Reserve | src/lifeman/scheduler.py:128-141 | the row is reserved until its next fire, or for an hour |
| SchedulerLoop.Process.Finalise | src/lifeman/scheduler.py:180-205 | the fire is recorded, the row rescheduled or retired, and the id released |
| SchedulerLoop.SpawnOfDueIds | src/lifeman/scheduler.py:99-107 | filtering the selected ids by `_in_flight` gives exactly the due schedules that are not firing |
| EventBus.RingIsTailOfHistory | src/lifeman/sse.py:76-91 | the ring holds exactly the last min(256, seq) events, numbered consecutively |
| EventBus.ReplayIsComplete | src/lifeman/sse.py:128-132 | a replay equals filtering the unbounded history exactly when no event the subscriber may see was evicted; always so within the last 256 |
| EventBus.HandOverIsGapless | src/lifeman/sse.py:118-152 | given events increase strictly, replayed ones up to `sync_seq` and live ones above it; each later event the audience may see is taken or queued exactly unless it was dropped; nothing for another device is given |
| EventBus.EventsReachTheirAudience | src/lifeman/sse.py:59-66 | for every subscriber in every run, an event targeted at a device is given or queued only to that device and to masters, and every broadcast, every event of its own, and for a master every event, published after it joined is given or queued exactly once unless dropped |
| EventBus.OutputIsRecorded | src/lifeman/sse.py:134-152 | what a pull yields is what those histories record |
| EventBus.DropsAreAccountedFor | src/lifeman/sse.py:145-151 | drops are the ones told, the ones not shown yet and the ones erased |
| EventBus.NoticesCountDrops | src/lifeman/sse.py:145-151 | over any run, whoever else comes and goes, the notices and the counter account for every drop of a client exactly when it never resumed from a notice during which its queue overflowed again |
| EventBus.DropsAreErasedAtNotices | src/lifeman/sse.py:145-151 | drops are erased exactly when the queue overflowed while the client was at a notice |
| EventBus.SomeDropIsNeverReported | src/lifeman/sse.py:145-151 | a run in which that happens |
| EventBus.FloodFillsQueue | src/lifeman/sse.py:92-102 | a subscriber that is not pulled queues 256 events; every further one is counted as dropped |
| EventBusObjects.Bus.Record | src/lifeman/sse.py:88-91 | the event gets the next number and enters the bounded ring |
| EventBusObjects.Bus.Broadcast | src/lifeman/sse.py:92-102 | every subscriber is offered the event, in place, and nothing else changes |
| EventBusObjects.Subscriber.Put | src/lifeman/sse.py:92-102 | queued if there is room and the audience matches, else dropped or ignored |
| EventBusObjects.Bus.CollectReplay | src/lifeman/sse.py:128-132 | the ring's events after the cursor for the audience, in order |
| EventBusObjects.Bus.RecordAndBroadcast | src/lifeman/sse.py:86-102 | the event is recorded once and every subscriber is offered that one |
| EventBusObjects.Bus.Publish | src/lifeman/sse.py:79-102 | number, ring and every subscriber's queue or drop count change as in the protocol |
| EventBusObjects.Bus.Subscribe | src/lifeman/sse.py:118-132 | the replay and `sync_seq` are taken together with the registration |
| EventBusObjects.Subscriber.Next | src/lifeman/sse.py:134-152 | the generator's next value and state |
| EventBusObjects.Bus.Unsubscribe | src/lifeman/sse.py:153-158 | the subscriber leaves and the others stay |
| Routing.Lookup | src/lifeman/outputs/router.py:261-265 | a lookup finds an installed channel of that name, or there is none |
| Routing.FirstBase | src/lifeman/outputs/router.py:209-225 | a base rule is found exactly when some non-override rule matches |
| Routing.LastOverride | src/lifeman/outputs/router.py:243-255 | an override decides exactly when some matching one does not exempt the urgency |
| Routing.FirstBaseOfConcat | src/lifeman/outputs/router.py:209-225 | the first base rule of a table is the first of its front part if that has one |
| Routing.LastOverrideOfConcat | src/lifeman/outputs/router.py:243-255 | the last override of a table is the last of its back part if that has one |
| Routing.DispatchedIsInstalled | src/lifeman/outputs/router.py:262-288 | every dispatched channel is installed, and unless the fallback chose it, it tolerates the sensitivity, captures the actions and is not rate-limited |
| Routing.RefusalIsPrivacyOrActions | src/lifeman/outputs/registry.py:45-58 | a channel refuses a private or unknown level unless it tolerates private, and a personal one unless it tolerates personal or private; then actions it cannot capture |
| Routing.DispatchedExactly | src/lifeman/outputs/router.py:262-288 | exactly the candidates that tolerate, capture and are not limited are dispatched; if there is none, an urgent event goes to the toast, any to the digest |
| Routing.FilteredExactly | src/lifeman/outputs/router.py:262-274 | exactly the other candidates are filtered, each with the first obstacle it meets |
| InProcessRouter.Scan | src/lifeman/outputs/router.py:209-226 | the loop finds the matched positions, the first base rule's channels and the matching overrides |
| InProcessRouter.ApplyOverrides | src/lifeman/outputs/router.py:243-255 | the loop leaves what the last applicable override says |
| InProcessRouter.FilterChannels | src/lifeman/outputs/router.py:259-273 | the loop keeps the deliverable candidates in order and gives each other one its reason |
| InProcessRouter.Route | src/lifeman/outputs/router.py:192-287 | the whole decision is the table's meaning |
| SeedRouter.Route | src/lifeman/outputs/seed_tools/router_seed.py:78-154 | the seed tool's loops compute its decision |
| SeedRouter.MatchesAgree | src/lifeman/outputs/seed_tools/router_seed.py:49-62 | the two matchers agree on translated rules and events |
| SeedRouter.ScanAgrees | src/lifeman/outputs/seed_tools/router_seed.py:91-102 | the seed tool's single pass finds the same matched rules and base |
| SeedRouter.OverridesAgree | src/lifeman/outputs/seed_tools/router_seed.py:108-119 | its override loop leaves what the last applicable override says |
| SeedRouter.SiftAgrees | src/lifeman/outputs/seed_tools/router_seed.py:123-141 | its filter keeps the same channels and gives the same reasons |
| SeedRouter.InterpretersAgree | src/lifeman/outputs/seed_tools/router_seed.py:78-154 | for every rule table, event, state and channel list the two interpreters decide the same, without LLM pick and rate limits |
| RoutingResults.SeedDispatchedExactly | src/lifeman/outputs/seed_tools/router_seed.py:121-154 | the seed tool keeps the same gate, missing keys meaning personal and no actions |
| RoutingResults.DisagreeingRuleIsInert | src/lifeman/outputs/router.py:171-185 | a rule that asks for anything the event does not have may be taken out of any table without changing any decision |
| RoutingResults.LastOverrideDecides | src/lifeman/outputs/router.py:245-258 | the last override in force decides the candidates, whatever else is in the table |
| RoutingResults.FirstRuleDecides | src/lifeman/outputs/router.py:205-222 | with no override in force, the first rule that agrees decides the candidates |
| RoutingResults.NoRuleDecides | src/lifeman/outputs/router.py:224-243 | with no rule that agrees the pick decides, or the digest; the matched positions are those of the agreeing rules in order |
| RoutingResults.DefaultTable | src/lifeman/outputs/router.py:46-121 | where the default table sends every event, by urgency, category and user state |
| RuleProposals.RuleTables.LoadRules | src/lifeman/outputs/router.py:124-148 | an empty table is seeded with the defaults; rules come in table order |
| RuleProposals.RuleTables.BeginRoute | src/lifeman/outputs/router.py:199-233 | the LLM is asked exactly when the event has not expired and no base rule of the table matches |
| RuleProposals.RuleTables.SeekProposal | src/lifeman/outputs/router.py:398-407 | the loop over the table remembers the first open proposal with the key, or none |
| RuleProposals.RuleTables.WriteProposal | src/lifeman/outputs/router.py:408-420 | the row found is bumped, or a new one added, whatever the table now holds |
| RuleProposals.RuleTables.RecordProposal | src/lifeman/outputs/router.py:389-423 | the SELECT, anything that others do, then the write that the SELECT's answer calls for |
| RuleProposals.RecordedIsExact | src/lifeman/outputs/router.py:401-421 | only the hits of the row found change; the two statements work as one exactly when the SELECT would still give the same answer, and one open proposal has the key exactly when it would still find one or still find none |
| RuleProposals.HitsAreConserved | src/lifeman/outputs/router.py:401-421 | in every run the hit counts add up to the number of picks that were written |
| RuleProposals.DecidedForEver | src/lifeman/outputs/router.py:402-407 | a proposal once accepted or dismissed is found by no SELECT in any continuation, its key never changes, and it is not accepted twice by a later check |
| RuleProposals.EndedForEver | src/lifeman/outputs/router.py:398-423 | a route that gave up or has written, and a request that raised or has marked, writes nothing in any continuation |
| RuleProposals.AskedIffNoRuleDecides | src/lifeman/outputs/router.py:193-233 | the LLM is asked exactly about an unexpired event for which no rule of the table, or of the defaults if it is empty, decides |
| RuleProposals.OneOpenIffNoStaleInsert | src/lifeman/outputs/router.py:401-421 | all along a run no key has two open proposals exactly when no route inserts one that has appeared since its SELECT |
| RuleProposals.BothPicksAreInserted | src/lifeman/outputs/router.py:401-421 | a run in which two routes insert, be it the same pick |
| RuleProposals.RuleTables.AcceptProposal | src/lifeman/routes/outputs.py:157-196 | an error and no change, or check, rule and mark with anything that others do in between; afterwards the proposal is accepted |
| RuleProposals.RuleTables.InsertRule | src/lifeman/routes/outputs.py:175-190 | one rule at position 100, made of the proposal as the request read it |
| RuleProposals.OnePromotionIffNoLateInsert | src/lifeman/routes/outputs.py:166-195 | no proposal is promoted twice exactly when no INSERT of the run comes after its proposal was marked, or while or after another request for it stood between its two writes |
| RuleProposals.TwoRequestsPromoteTwice | src/lifeman/routes/outputs.py:166-195 | from every state, two requests that check the same open proposal before either marks it put its rule in twice |
| RuleProposals.RuleTables.DismissProposal | src/lifeman/routes/outputs.py:200-212 | one mark, or an error and no change |
| RuleProposals.ProposalsMeetNoDefault | src/lifeman/outputs/router.py:228-238 | in every reachable state, no category default matches any event of a recorded proposal's category and urgency |
| RuleProposals.AcceptanceTakesEffectIff | src/lifeman/routes/outputs.py:175-190 | over every reachable table, the rule of an accepted proposal decides the events of its pair when no override applies, from its INSERT on and in every continuation, and loses exactly to an earlier promotion of the same pair |
| RuleProposals.SecondAcceptanceLoses | src/lifeman/routes/outputs.py:175-190 | a run in which that happens with two different picks |
| RuleGrowth.GrownTable | src/lifeman/outputs/router.py:127-130 | a table grown from the defaults reads: the category defaults, what was accepted in order of acceptance, the two overrides |
| RuleGrowth.TableOrderIsSorted | src/lifeman/outputs/router.py:127-130 | table order is by position |
| RuleGrowth.TableOrderKeepsRows | src/lifeman/outputs/router.py:127-130 | table order is a permutation of the rows |
| RuleGrowth.AcceptanceCharacterised | src/lifeman/routes/outputs.py:175-190 | acceptance changes an event's candidates exactly if it has the proposal's category and urgency, no override applies, and no base rule up to position 100 matched it |
| RuleGrowth.AcceptanceKeepsMatchedEvents | src/lifeman/routes/outputs.py:175-190 | any sequence of acceptances leaves the candidates, filters and dispatch of an already matched event alone |
| RuleGrowth.QuietModesHoldUnderGrowth | src/lifeman/outputs/router.py:101-117 | with only the two default overrides and any accepted proposals, a non-urgent event under do-not-disturb or asleep reaches the digest and nothing else |
| RateLimit.EveryWindowIsWithinTheLimit | src/lifeman/outputs/router.py:426-460 | every half-open window of 60 s or 3600 s holds at most the limit plus the number of dispatches that may be unsettled at a check |
| RateLimit.OneAtATimeHasNoOverlap | src/lifeman/outputs/router.py:258-273 | when everything let through is settled before the next check, none is unsettled at a check |
| RateLimit.OneAtATimeKeepsTheLimit | src/lifeman/outputs/router.py:426-460 | emits that run one at a time keep the limit in every window |
| RateLimit.BurstIsNotLimited | src/lifeman/outputs/router.py:258-273 | for every limit and every overlap, a run whose window holds exactly their sum |
| RateLimit.LimitHoldsIffNoOverlap | src/lifeman/outputs/router.py:426-460 | all runs with a given overlap keep the limit in every window exactly when the overlap is zero |
| RateLimit.LimitedExactly | src/lifeman/outputs/router.py:426-461 | a channel is limited exactly when a limit it has is used up by deliveries of the last minute or hour that reached the user and were not cancelled |
| RateLimit.CancelFreesItsSlot | src/lifeman/outputs/router.py:427-431 | cancelling a delivery that counts frees exactly its slot, in every window |
| RateLimit.FallbackTakesASlot | src/lifeman/outputs/router.py:276-288 | a channel that the fallback chose is delivered to however used up its limits are, and the delivery takes a slot |
| PermissionWait.PendingIsHonest | src/lifeman/permissions_runtime.py:90-99 | "pending" is returned only while no real status has been written |
| PermissionWait.AnswerIsFinal | src/lifeman/permissions_runtime.py:61-99 | any other answer is the row's status, then and ever after |
| PermissionWait.NoLostWakeUp | src/lifeman/permissions_runtime.py:61-99 | once the row holds a real status the awaiter returns that or nothing, in every interleaving with the resolver, the timeout and the timer |
| PermissionWait.NotifiedMeansAwake | src/lifeman/permissions_runtime.py:102-120 | after the notification the awaiter needs only its own steps to return |
| PermissionWait.GrantBeforeCommit | src/lifeman/permissions_runtime.py:74-81 | a run in which a grant is returned before it is committed, by a resolver that may fail |
| PermissionWait.GrantCommittedIff | src/lifeman/permissions_runtime.py:74-99 | a returned status was committed exactly when the return does not fall between the resolver's UPDATE and the next commit on the connection |
| PermissionWait.AlwaysInForceIff | src/lifeman/routes/permissions.py:125-144 | a returned permanent grant has status and standing grant committed exactly when a commit has followed the INSERT |
| PermissionWait.AlwaysWithoutGrant | src/lifeman/routes/permissions.py:125-144 | a run in which a permanent grant is returned and committed, and its standing grant never exists |
| PermissionAnswers.AnswerIsTheAction | src/lifeman/routes/permissions.py:121-128 | over runs from a pending request, an answer other than pending comes of the action written: deny gives denied, allow_once granted_once, allow_always granted_always; and each of the three statuses comes of its action or of the action that is that status itself, and of no other |
| PermissionAnswers.StatusTexts | src/lifeman/routes/permissions.py:121-123 | which actions write the three statuses, for every text |
| PermissionAnswers.StatusAsActionGrantsNothing | src/lifeman/routes/permissions.py:121-144 | a run in which the action "granted_always" is reported and committed, and no continuation has a standing grant |
| PermissionWait.BoxMeansCommitted | src/lifeman/routes/permissions.py:125-160 | a status out of the box is the committed verdict, with its standing grant if the verdict is permanent |
| PermissionWait.NothingLeftBehind | src/lifeman/permissions_runtime.py:73-120 | when the awaiter has ended and the timer, if any, has fired, a slot is left behind exactly when the awaiter raised before its `try` and no notification ever reached its slot |
| PermissionCoroutines.Process.AwaitPermission | src/lifeman/permissions_runtime.py:61-99 | the coroutine stays in the protocol and its answer fits the row before and after |
| PermissionCoroutines.Process.ReadRow | src/lifeman/permissions_runtime.py:74-81 | the first read returns a real status at once and otherwise leads to the wait |
| PermissionCoroutines.Process.LeaveWait | src/lifeman/permissions_runtime.py:83-91 | wake-up and timeout do the same: the slot is popped and a filled box is the answer |
| PermissionCoroutines.Process.RereadRow | src/lifeman/permissions_runtime.py:93-99 | the fallback read answers what the row says, or pending |
| PermissionCoroutines.Process.NotifyResolved | src/lifeman/permissions_runtime.py:102-120 | slot, event, box and timer change as in the protocol |
| PermissionCoroutines.Process.SlotOf | src/lifeman/permissions_runtime.py:55-58 | the registered slot, made if there is none |
| PermissionCoroutines.Process.WriteAnswer | src/lifeman/routes/permissions.py:125-144 | update, standing grant if permanent, commit, with others at every await |
| PermissionCoroutines.Process.ResolvePermission | src/lifeman/routes/permissions.py:106-162 | a pending request gets the verdict, committed, with a standing grant exactly for "allow always"; any other is refused |
| Invocation.AtMostOneTerminalStatus | src/lifeman/routes/tools.py:408-454 | whatever raises, a spawned row goes from running to ok or to error at most once |
| Invocation.FinishedIsFinal | src/lifeman/routes/tools.py:435-449 | a finished row never changes; the crash handler does not overwrite it |
| Invocation.StoppedIffNoStep | src/lifeman/routes/tools.py:421-454 | a job has no step left exactly when it has ended or was cancelled, or its spawner was interrupted |
| Invocation.RunningForEver | src/lifeman/routes/tools.py:421-454 | such a job stays running for ever exactly when its spawner was interrupted, or it found its tool gone, or it was cancelled, or raised along with its crash handler, without its terminal UPDATE having run |
| Invocation.FinishedIffRecordRan | src/lifeman/routes/tools.py:427-449 | whatever raises or is cancelled, a row that the crash handler did not write is finished exactly if its terminal UPDATE has run |
| Invocation.RowSaysWhatHappened | src/lifeman/routes/tools.py:549-703 | in every run, a recorded row says what the validator or the tool said, as failed exactly if there is a non-empty error, and a row of the crash handler says what the last phase raised |
| Invocation.RunningForEverWithGrowingTools | src/lifeman/routes/tools.py:706-780 | with a tools table that only grows, the missing tool drops out |
| Invocation.EveryJobIsRecorded | src/lifeman/routes/tools.py:706-780 | with a tools table that only grows, a job that has ended, other than by losing its crash record, has a terminal status; abandoned, cancelled and unfinished jobs are not meant (that a job ends is `InvocationRunner.Server.RunJob`) |
| Invocation.LeftRunning | src/lifeman/routes/tools.py:420-454 | a run in which no statement fails and no tool is removed, whose row says running in every continuation |
| Invocation.CancelledJobLeftRunning | src/lifeman/routes/tools.py:427-435 | the same for a job that is cancelled at its first await |
| Invocation.MissingToolLeavesRow | src/lifeman/routes/tools.py:732-738 | hypothetically, a tool removed before its job loads it leaves the row as it is |
| InvocationRunner.Server.SpawnInvocation | src/lifeman/routes/tools.py:383-425 | an unknown tool gets a finished error row, a known one a running row and a job |
| InvocationRunner.Server.LoadTool | src/lifeman/routes/tools.py:732-738 | the job goes on exactly if nothing raised and the tool is still there |
| InvocationRunner.Server.ValidateArgs | src/lifeman/routes/tools.py:742-752 | a verdict leads to a rejection, none to the sandbox |
| InvocationRunner.Server.Finish | src/lifeman/routes/tools.py:677-703 | the row is the recorded one unless its UPDATE raised, whatever raises after it |
| InvocationRunner.Server.RecordRow | src/lifeman/routes/tools.py:549-558 | the terminal UPDATE for a rejected or a finished job |
| InvocationRunner.Server.RecordCrash | src/lifeman/routes/tools.py:435-449 | the guarded UPDATE of the crash handler |
| InvocationRunner.Server.ExecuteTool | src/lifeman/routes/tools.py:706-780 | which row and which exception each combination of faults leaves |
| InvocationRunner.Server.RunJob | src/lifeman/routes/tools.py:427-454 | a job that is not cancelled ends; whatever other tasks do meanwhile, the row it leaves behind is the one the phases' answers determine |
| Timestamps.TextOrderIsTimeOrder | src/lifeman/scheduler.py:94-98 | comparing two `isoformat()` texts is comparing their instants, with or without fractions; equal texts are equal instants |
| Timestamps.TextOrderNeedsAnEarlyZone | src/lifeman/outputs/router.py:445-456 | among zone designators, the order is right for all instants exactly when the designator sorts before a point |
| Timestamps.TextReadsBack | src/lifeman/scheduler.py:94-98 | the text of every datetime has the form of `isoformat()`, without the fraction exactly when it is zero, and all seven fields can be read back from it |
| LikeEscape.ChainIsSinglePass | src/lifeman/tool_socket.py:434-438 | the three chained replaces are one pass that puts a backslash before each special character |
| LikeEscape.PatternIsPrefix | src/lifeman/tool_socket.py:434-443 | the pattern accepts exactly the keys that begin with the prefix, up to ASCII case |
| LikeEscape.LiteralIffNoLetter | src/lifeman/tool_socket.py:432-443 | the match is literal for every key exactly when the prefix has no ASCII letter |
| LikeEscape.StateListIsByPrefix | src/lifeman/tool_socket.py:426-450 | a tool gets its own keys with the prefix and no others |
| Paging.ListPending | src/lifeman/routes/outputs.py:237-284 | the events of one page in order, and the cursor of its last row |
| Paging.CursorAdvances | src/lifeman/routes/outputs.py:242-284 | a non-empty page moves the cursor strictly forward and leaves strictly fewer rows, so following cursors ends |
| Paging.VisitedIsWalk | src/lifeman/routes/outputs.py:242-263 | asking the whole table with each cursor gives the same as cutting pages off what is left |
| Paging.CompleteIffBoundariesClean | src/lifeman/routes/outputs.py:242-284 | following the cursors visits every row once and in order exactly when no tie straddles a page boundary |
| Paging.PagingIsCompleteIffDistinct | src/lifeman/routes/outputs.py:221-236 | paging is complete for every page size exactly when the instants are pairwise distinct |
| Paging.DeviceSeesItsOwn | src/lifeman/routes/outputs.py:237-284 | whatever page size and cursor, a device sees only delivered rows of its own channel later than the cursor, and with distinct instants all of them |
| ToolCalls.Accumulator.MergeDeltas | src/lifeman/llm.py:97-120 | the loop over the fragments, its growing list and its IndexError |
| ToolCalls.Accumulator.MergeFragment | src/lifeman/llm.py:105-119 | room is made for the index and one slot is updated in place |
| ToolCalls.SlotIsItsFragments | src/lifeman/llm.py:105-119 | with non-negative indices nothing raises and a slot is what its own fragments make of it |
| ToolCalls.ChunkingDoesNotMatter | src/lifeman/llm.py:97-120 | merging in pieces is merging the concatenation, failures included |
| ToolCalls.CallsAreConcatenations | src/lifeman/llm.py:105-119 | from an empty list, slot i's name and arguments are the in-order concatenation of its fragments, and the length is one plus the largest index |
| ToolCalls.IdAndKindAreLastGiven | src/lifeman/llm.py:110-113 | a call's id and type are the last non-empty ones |
| ToolCalls.CallsStartAsFunctions | src/lifeman/llm.py:105-113 | from an empty list, id and type are the last non-empty ones of the fragments with that index, 0 if they carry none, and otherwise empty and "function" |
| ToolCalls.InterleavingDoesNotMatter | src/lifeman/llm.py:105-119 | only the order within each index matters |
| ToolCalls.NeighboursCommute | src/lifeman/llm.py:105-119 | fragments of different indices commute |
| ToolCalls.RaisesIffTooFar | src/lifeman/llm.py:106-109 | merging raises exactly when a negative index reaches back before the first slot |

## Left out

- HTTP routes, authentication, the PTY and WebSocket bridge, sandbox command lines, templates: plumbing without semantics of their own.
- Input, memory and observation routers, user-state merging, pairing codes, backup pruning: true but easy.
- The LLM: its pick is an arbitrary list of names or none; the sorting of a proposal's channels before it is stored is not modelled.
- RuleProposals.RuleTables.LoadRules: seeding the empty table is one step; two first routes that seed at once would store the defaults twice.
- Malformed rules, which `load_rules` skips.
- Exceptions or cancellation inside `emit_output` and `cancel_output`, and a process crash: rows can then stay `in_flight`.
- Invocation.RunningForEver: the death of the process is not modelled; it leaves every unfinished row `running`, and nothing at start-up looks for such rows.
- InvocationRunner.Server.RunJob: the cancellation of the job itself is in `Invocation` only.
- Columns that no property reads: texts of notes and reasons, `cancelled_at` of deliveries, audit entries.
- `is_expired`: whether an event is expired at routing time is an input; parsing the deadline is library work.
- A channel's own `can_deliver`: the default is modelled, overrides of it are not.
- DeliveryResults.CancelIsFinal: speaks about one output, whose rows one emitter inserts; several outputs do not share rows.
- SchedulerProgress.ServedFireIsFinalised: that the event loop does take the helpful step again and again is its premise.
- Scheduler.EveryRunIsConsistent: one process; select and reserve are separate statements, so two processes could both fire.
- Scheduler.OwedUntilFinalised: starts from states in which no reschedule of this very schedule has come between its selection and its reservation (`RescheduleMidFireIsOverwritten` says what happens then).
- SchedulerLoop.Process.Tick: `stop`, which cancels the loop task, is not modelled; a crash is.
- Recurrence.NextFireIsFirstOnGrid: `at` is given as two numbers; reading "HH:MM", relative durations and ISO timestamps is not modelled, nor a `when` object that carries both `recur` and `in`.
- EventBus.HandOverIsGapless: `publish` is one step, as it does not suspend after it has the lock; the 15-second keep-alive of the HTTP layer is not modelled.
- SeedRouter.InterpretersAgree: compares the two `route` functions; the seed tool's standard input carries other keys than the framework sends.
- RateLimit.EveryWindowIsWithinTheLimit: assumes that a delivery is stamped no earlier than its routing; a channel that stamps its own past time escapes the window.
- PermissionWait.NoLostWakeUp: one awaiter and one resolver per request; two resolvers can both pass the check, as check and update are separate statements.
- Invocation.AtMostOneTerminalStatus: the synchronous path, which inserts its own row, and the automatic completion output, whose exceptions are swallowed, are not modelled.
- Timestamps.TextOrderIsTimeOrder: assumes that every stored text is an `isoformat()` of a UTC datetime; a channel that reports its own `delivered_at` in another form is outside it.
- LikeEscape.PatternIsPrefix: SQLite's limit on the pattern length and NUL characters are not modelled.
- Paging.PagingIsCompleteIffDistinct: the table does not change between pages, and every row has its event and a readable payload.
- ToolCalls.Accumulator.MergeDeltas: an index that is present is an integer; a null or non-numeric one raises TypeError in the source.
- Slots, rows and call dictionaries that the source updates in place are values in fields that the methods reassign; only the event bus has objects of its own.
