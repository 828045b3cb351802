# SmartNPC: a verified model of the agent control core

SmartNPC drives non-player characters with language models. Around every model call sits a
deterministic core: it keeps the day's plan as text, one action in flight and a queue behind
it, a buffer of outbound messages for reconnects, a queue of world events, the state of a
combat handover, and the conversation history that is sent with each call. This project models
that core in Dafny and proves what it promises. Model output, messages from the game, clocks
and random draws are inputs that may be anything.

Where the code changes fields step by step, a class with those fields has a method per critical
section, each proved against a function of the old state; the theorems are then about every run
of those functions. Where the code computes values, it is functions and lemmas.

| file | part of the system |
|---|---|
| `Text`, `SlotUtil`, `PlanItems` | string operations, clock times and slots, the slot in force |
| `DailyPlan`, `PlanCoverage` | normalizing a parsed plan, and which minutes the result covers |
| `PlanJitter`, `PlanPipeline` | moving the boundaries of a plan by random offsets, and the plan as it is stored |
| `PlanText`, `PlanRevision` | the plan as text, the goal in force, the mid-day revision |
| `AgentState`, `ActionRuns`, `QueuePath`, `ActionRace` | the action in flight, its queue and its races |
| `SendBuffer` | replay after a reconnect |
| `WorldEvents`, `Reaction`, `CombatYield`, `CancelRegistry` | world events and what they interrupt |
| `Conversation`, `StreamAssembly`, `TacticalPasses` | history, streamed tool calls, action lists |

Several promises of the code's own comments do not hold on all inputs. For each, the model
follows the code, a lemma gives the exact condition and, where that does not show it by itself,
another an input that fails:

- The comment on `normalizeDailyPlan` (strategic.go:304-320) says no blank remains wherever the
  plan ends. A last slot that starts before 06:00 can lose its day (`DayIsCovered`,
  `DayIsLost`), and a daytime slot in last place leaves the night open (`NightOfLaid`,
  `NightIsCovered`, `NightIsLost`).
- The comment on `jitterPlanNodes` (strategic.go:359-364) bounds every offset
  (`OffsetsAreBounded`, `CrowdedStrays`), keeps midnight-crossing slots crossing
  (`CrossingSurvives`, `CrossingIsLost`) and keeps slots from overlapping (strategic.go:351-352;
  `SlotsStayDisjoint`, `SlotsOverlap`).
- Slots of zero length are dropped first of all because they match at every minute
  (strategic.go:239-250), and later steps write them again (`ZeroLengthExactly`,
  `SlotCollapses`).
- `clampNightEnd` after the jitter (strategic.go:323-331) is there to keep the night until
  06:00; it does not when the night's start was moved past midnight (`NightEndIsKept`,
  `NightEndIsLost`).
- `replayFrom` (server.go:497-499) says lost messages are reported; with an empty buffer they
  are not (`LossIsReported`, `UnreportedLoss`).
- The recheck in `recordActionStarted` (main.go:802-812) leaves one schedule in which a finished
  action stays tracked (`EveryInterleaving`, `StrandingSchedule`).
- The note of a completion that finds no timer is meant to be consumed when the timer is armed
  (main.go:408-415); composite actions are never armed and their notes stay for good
  (`CompositeNoteStays`).
- A completion that arrives late for a stashed action blanks the source of the current one
  (agent_state.go:528-546; `SourceLostExactly`, `SourceIsLost`).
- A handback that falls inside the takeover check stops the same action twice
  (world_event_dispatch.go:1418-1440; `DividedCheck`, `StoppedTwice`), and the expiry check can
  take the body back right after a new attack (world_event_dispatch.go:862-890;
  `DividedExpiry`, `TakenBackTooSoon`). A repeat attack during which the body is taken back
  begins a yield that remembers nothing (world_event_dispatch.go:545-604; `DividedDetach`).
- The completion caused by the worker's own stop is to be recognized as such
  (main.go:1331-1342); it is not when it comes between the stop and its mark, which then stays
  set (`SelfStopIsRecognized`, `UnrecognizedStop`).
- A deferred stop is sent after its completion exactly if the worker had taken it off the agent
  before (`StopAfterCompletion`, `LateStop`).
- A reaction is to be interrupted by a more severe one only (event_router.go:557-569); verdicts
  that pass the guard together lower the bar (`LoweredExactly`, `LadderIsLowered`), and any
  number of them pass (`TogetherAllPass`).
- The low bar of a social window (event_router.go:614-628) does not stop social interrupts of
  severity three from following each other (`SocialAfterSocial`).
- Cancelling the in-flight call (world_event_dispatch.go:72-84) misses an older live call once
  the newest has deregistered (`CancelInFlight`, `OlderCallIsMissed`).
- An injection that falls between the appends of one turn breaks the pairing the turn sets up
  (agentic_loop.go:263-272; `InjectionInsideTurn`, `BrokenTurn`), and compaction loses what was
  appended while the summary was being written (compaction.go:143-169; `Compact`).
- Events that arrive between the prompt's snapshot and the clearing of the queue are cleared
  unseen (tactical.go:192, tactical.go:267; `ClearedBeyondSnapshot`,
  `NothingUnseenIsCleared`, `UnseenIsCleared`).
- A fragment index of -1 suppresses an announcement or fails (client.go:473-484;
  `AnnouncedOnce`, `SilencedCall`, `ParseStream`).

## Model

| member | source | states |
|---|---|---|
| SlotUtil.Atoi | agenttown-mcp/pkg/prompt/slotutil.go:138-151 | the loop returns the number its digits denote, wrapped to 64 bits, and -1 on anything else |
| SlotUtil.TimeExactly | agenttown-mcp/pkg/prompt/slotutil.go:114-151 | a time is two numbers around the first colon, of any size, and anything else is none |
| SlotUtil.SlotExactly | agenttown-mcp/pkg/prompt/slotutil.go:100-111 | a slot is two times around the first dash |
| SlotUtil.ParseOfFmt | agenttown-mcp/pkg/prompt/slotutil.go:114-135 | parsing a printed minute gives it modulo 1440, for every integer |
| SlotUtil.SplitOfSlotText | agenttown-mcp/pkg/prompt/slotutil.go:100-111 | a printed slot splits back into its two minutes modulo 1440 |
| SlotUtil.ExpiryWindow | agenttown-mcp/pkg/prompt/slotutil.go:47-85 | exactly when a slot reads as expired: to midnight within the day, to the midpoint of the gap for a crossing slot, never for one ending at 00:00 |
| PlanItems.MatchAtFindsFirst | agenttown-mcp/cmd/agenttown-mcp/strategic.go:510-540 | the lookup returns the first slot in force, and finds one exactly when there is one |
| DailyPlan.SortByStart | agenttown-mcp/cmd/agenttown-mcp/strategic.go:268-273 | some permutation ascending by start |
| DailyPlan.SortedHoldsUsable | agenttown-mcp/cmd/agenttown-mcp/strategic.go:232-273 | what is sorted holds every item that parses and has a length as often as the plan does, and no other |
| DailyPlan.NormalizeDailyPlan | agenttown-mcp/cmd/agenttown-mcp/strategic.go:231-321 | the rewriting loops compute the normalization of some sorted arrangement of the usable slots |
| PlanCoverage.FinalSlot | agenttown-mcp/cmd/agenttown-mcp/strategic.go:304-347 | where the last slot ends after the night extension and the clamp |
| PlanCoverage.DayIsCovered | agenttown-mcp/cmd/agenttown-mcp/strategic.go:231-321 | for every plan whose starts are before 24:00, each minute from the first start to 22:00 is covered if and only if the last merged slot is not pulled back to 06:00 before it began the day, or an earlier one is long enough and not cut short by its successor |
| PlanCoverage.MorningPlanCoversDay | agenttown-mcp/cmd/agenttown-mcp/strategic.go:231-321 | so every plan made and starting from 06:00 on covers the day to 22:00 |
| PlanCoverage.DayIsLost | agenttown-mcp/cmd/agenttown-mcp/strategic.go:304-347 | a plan that loses its day |
| PlanCoverage.LateStartLosesDay | agenttown-mcp/cmd/agenttown-mcp/strategic.go:293-303 | a plan with a start past 24:00, which parses, that loses its day |
| PlanCoverage.NightOfLaid | agenttown-mcp/cmd/agenttown-mcp/strategic.go:304-320 | from 06:00 on and for any slots, the night to 06:00 is covered if and only if the last merged slot crosses midnight or ends between 22:00 and 06:00, or an earlier crossing one starts with its successor |
| PlanCoverage.NightIsCovered | agenttown-mcp/cmd/agenttown-mcp/strategic.go:304-320 | the same in terms of the plan itself when only its latest slot may cross midnight: it reaches 22:00, or it crosses without being the only one left and reaching back before its own end |
| PlanCoverage.NightIsLost | agenttown-mcp/cmd/agenttown-mcp/strategic.go:304-320 | a plan that leaves its night open |
| PlanCoverage.ZeroLengthExactly | agenttown-mcp/cmd/agenttown-mcp/strategic.go:231-321 | when a normalized plan has a slot of zero length: if and only if the last merged slot ends up at its own start, or one that crosses midnight starts with its successor, or one at 00:00 was merged |
| PlanCoverage.SlotCollapses | agenttown-mcp/cmd/agenttown-mcp/strategic.go:231-321 | 06:00-23:00 alone becomes 06:00-06:00, in force at every minute and never expired |
| PlanCoverage.NormalizedGoals | agenttown-mcp/cmd/agenttown-mcp/strategic.go:231-321 | the goals of the result are the goals in start order, each run of equal ones once |
| PlanCoverage.MatchedWhereCovered | agenttown-mcp/cmd/agenttown-mcp/strategic.go:510-540 | matchPlanSlot succeeds exactly at the covered minutes |
| PlanJitter.JitterPlanNodes | agenttown-mcp/cmd/agenttown-mcp/strategic.go:368-425 | every item is carried by the one offset map of the plan's boundaries |
| PlanJitter.NodesExactly | agenttown-mcp/cmd/agenttown-mcp/strategic.go:372-385 | the boundaries are the starts and ends of the plan's slots and nothing else |
| PlanJitter.InvalidStays | agenttown-mcp/cmd/agenttown-mcp/strategic.go:401-424 | a text that is no slot stays as it is, and so does a slot of zero length unless others share its start and the same minute of the next day |
| PlanJitter.MovedIsLeast | agenttown-mcp/cmd/agenttown-mcp/strategic.go:386-400 | the jittered boundaries are the least that grant every draw and keep half an hour between neighbours |
| PlanJitter.OneIncreasingMap | agenttown-mcp/cmd/agenttown-mcp/strategic.go:359-364 | the map is strictly increasing with gaps of at least 30, never back by more than maxJitter, never before minStart |
| PlanJitter.OffsetsAreBounded | agenttown-mcp/cmd/agenttown-mcp/strategic.go:359-364 | all offsets stay within maxJitter for all draws if and only if the boundaries were spaced by 30 and minStart is within reach |
| PlanJitter.SlotMoves | agenttown-mcp/cmd/agenttown-mcp/strategic.go:401-424 | every valid slot is rewritten with the images of its own boundaries |
| PlanJitter.SlotsMoveTogether | agenttown-mcp/cmd/agenttown-mcp/strategic.go:344-366 | touching slots still touch as printed, disjoint ones keep their order on the line of boundaries, none becomes shorter than 30 minutes |
| PlanJitter.JitteredShareExactly | agenttown-mcp/cmd/agenttown-mcp/strategic.go:344-366 | for every draw that keeps two successive slots within a day each, they share a printed minute if and only if the later one was moved around into the earlier one |
| PlanJitter.SlotsStayDisjoint | agenttown-mcp/cmd/agenttown-mcp/strategic.go:351-352 | for all draws two successive slots share no printed minute, if and only if they cannot be drawn longer than a day together or the earlier one not to before 07:00; for a later slot that starts before midnight and lasts at most a day under every draw |
| PlanJitter.SlotsOverlap | agenttown-mcp/cmd/agenttown-mcp/strategic.go:344-425 | 06:40-22:00 and 22:00-06:40 moved so that both cover 06:45 |
| PlanJitter.CrossingSurvives | agenttown-mcp/cmd/agenttown-mcp/strategic.go:363-364 | for all draws a slot between two boundaries still reads as that stretch over midnight, if and only if its start cannot be drawn past midnight, its end not back before it, and its length not up to a day |
| PlanJitter.SplitIsLongest | agenttown-mcp/cmd/agenttown-mcp/strategic.go:386-400 | the draw that makes a stretch between two boundaries longest |
| PlanJitter.CrossingIsLost | agenttown-mcp/cmd/agenttown-mcp/strategic.go:386-424 | 23:50-06:00 moved to 00:05-05:50 |
| PlanPipeline.StoredPlanCovers | agenttown-mcp/cmd/agenttown-mcp/strategic.go:158-164 | the jittered and clamped plan covers every minute from its first start to its last, for every draw that leaves no earlier slot longer than a day |
| PlanPipeline.NormalizedIsChained | agenttown-mcp/cmd/agenttown-mcp/strategic.go:231-321 | when only the latest slot may cross midnight, each slot of the normalized plan is valid and reaches the next, if and only if the last merged slot does not end up at its own start |
| PlanPipeline.NightEndIsKept | agenttown-mcp/cmd/agenttown-mcp/strategic.go:323-347 | for all draws the second clamp keeps the last slot in force until 06:00, if and only if its start cannot be drawn past midnight nor its end back before it, a start at midnight sharp aside |
| PlanPipeline.StoredPlanFromSorted | agenttown-mcp/cmd/agenttown-mcp/strategic.go:158-164 | from the parsed plan to the stored one: with boundaries half an hour apart, a plan made from 06:00 on covers every minute from its first start to its last, for every draw up to three hours |
| PlanPipeline.StoredNightFromSorted | agenttown-mcp/cmd/agenttown-mcp/strategic.go:158-164 | and its night is kept for all draws exactly as NightEndIsKept says |
| PlanPipeline.NightEndIsLost | agenttown-mcp/cmd/agenttown-mcp/strategic.go:323-347 | a stored plan whose night ends at 05:50 |
| PlanText.ParseFormattedPlan | agenttown-mcp/cmd/agenttown-mcp/strategic.go:486-506 | the loop keeps exactly the lines that parse, in order |
| PlanText.ParseLineExactly | agenttown-mcp/cmd/agenttown-mcp/strategic.go:486-506 | a line parses to an item exactly when, white space around it aside, it is that item's printed line |
| PlanText.FormatIsLines | agenttown-mcp/cmd/agenttown-mcp/strategic.go:438-450 | the printed plan is one line per item, slot, colon, space and goal |
| PlanText.RoundTrip | agenttown-mcp/cmd/agenttown-mcp/strategic.go:438-506 | printing and parsing a plan is the identity if and only if every item is printable |
| PlanText.ReparseIsStable | agenttown-mcp/cmd/agenttown-mcp/strategic.go:438-506 | what any text parses to survives another round unchanged |
| PlanText.PrintableSlot | agenttown-mcp/cmd/agenttown-mcp/strategic.go:438-506 | with a clock-time slot, the printable goals are the nonempty single-line ones without trailing white space |
| PlanRevision.ChosenIsFirstInForce | agenttown-mcp/cmd/agenttown-mcp/tactical.go:962-989 | a goal is chosen if and only if the time parses, is not within 06:00-07:00 and some item is in force; goal, slot and index are those of the first item in force |
| PlanRevision.ChosenIsNotExpired | agenttown-mcp/cmd/agenttown-mcp/tactical.go:962-989 | the goal chosen at a time of day never belongs to a slot expired at that time, for every plan text |
| PlanRevision.RevisionReadsBack | agenttown-mcp/cmd/agenttown-mcp/strategic_replan.go:145-181 | the revised text parses to the ended old slots followed by the new plan, so countPastSlots is the index of its first slot |
| PlanRevision.EndedAreKept | agenttown-mcp/cmd/agenttown-mcp/strategic_replan.go:145-181 | wherever an old item stands, it is kept in its place exactly when it lies within the day and its end is reached |
| PlanRevision.RevisionTakesOver | agenttown-mcp/cmd/agenttown-mcp/strategic_replan.go:126-135 | at the time of the revision the new plan alone decides the goal, at an index moved by countPastSlots |
| AgentState.Agent.RecordActionCompletion | agenttown-mcp/pkg/agentstate/agent_state.go:484-560 | clears the current action or consumes the stash, and reports which |
| AgentState.Agent.ClearForSlotSwitch | agenttown-mcp/pkg/agentstate/agent_state.go:775-812 | stashes the current action, if any, and drops the queue |
| AgentState.Agent.ClearInFlightKeepQueue | agenttown-mcp/pkg/agentstate/agent_state.go:820-852 | the same, keeping the queue |
| AgentState.Agent.ClearInFlightAction | agenttown-mcp/pkg/agentstate/agent_state.go:606-616 | untracks the action without a stash |
| AgentState.Agent.PopActionIfIdle | agenttown-mcp/pkg/agentstate/agent_state.go:1003-1017 | takes the head of the queue and the deferred stop together, only when nothing is in flight |
| ActionRuns.EveryStartIsSettled | agenttown-mcp/pkg/agentstate/agent_state.go:392-616 | over every run, each start of an id is reported once, discarded once, or still tracked |
| ActionRuns.ReportedOnce | agenttown-mcp/pkg/agentstate/agent_state.go:484-560 | a fresh id is reported in flight at most once, and once its completion arrives exactly once unless its record was discarded |
| ActionRuns.OwnRecord | agenttown-mcp/pkg/agentstate/agent_state.go:506-533 | what is reported is the cmd, params, start and tool call of that id's own start |
| ActionRuns.ToolCallStays | agenttown-mcp/pkg/agentstate/agent_state.go:606-616 | untracking without a stash leaves the tool call behind until the next start or stashing clear |
| ActionRuns.SourceLostExactly | agenttown-mcp/pkg/agentstate/agent_state.go:521-546 | over every run in which an action stays tracked, it loses its source if and only if the action stashed at the beginning completes |
| ActionRuns.SourceIsLost | agenttown-mcp/pkg/agentstate/agent_state.go:521-546 | a run in which it happens |
| QueuePath.StepKeeps | agenttown-mcp/cmd/agenttown-mcp/main.go:1320-1411 | every step of the worker and of the threads beside it keeps the queue invariant |
| QueuePath.QueueIsConserved | agenttown-mcp/cmd/agenttown-mcp/main.go:1320-1411 | over every run each placed action is in exactly one place, the queue is in placement order, and dispatch follows it |
| QueuePath.FatesAreCounted | agenttown-mcp/cmd/agenttown-mcp/main.go:1340-1411 | over every run as many actions are lost as sends failed while no tactical action was in flight, as many rejected as mappings failed, as many dispatched as acknowledged |
| QueuePath.BusySendsLoseNothing | agenttown-mcp/cmd/agenttown-mcp/main.go:1373-1388 | nothing is lost in a run whose sends fail only while a tactical action is in flight |
| QueuePath.FailedSend | agenttown-mcp/cmd/agenttown-mcp/main.go:1373-1388 | behind a tactical action a failed one returns to the front of the queue; otherwise it is lost and never returns |
| QueuePath.FateHasCause | agenttown-mcp/cmd/agenttown-mcp/main.go:1320-1411 | every change of an action's fate has its one cause |
| QueuePath.PopsWhenIdle | agenttown-mcp/pkg/agentstate/agent_state.go:1003-1017 | actions leave the queue from the front and only while nothing is tracked |
| QueuePath.QueueRunTracks | agenttown-mcp/pkg/agentstate/agent_state.go:392-616 | every run of the queue path is a run of the tracked-action bookkeeping |
| QueuePath.FateIsFinal | agenttown-mcp/cmd/agenttown-mcp/main.go:1340-1411 | an action that was dispatched, rejected, lost or dropped never returns |
| QueuePath.StopsAreConserved | agenttown-mcp/cmd/agenttown-mcp/main.go:1328-1344 | each request for a deferred stop is sent once, forgotten once, or still owed |
| QueuePath.StopAfterCompletion | agenttown-mcp/cmd/agenttown-mcp/main.go:1323-1344 | after the completion is recorded its stop is sent, and then once, if and only if the worker held it already and goes on to send |
| QueuePath.LateStop | agenttown-mcp/cmd/agenttown-mcp/main.go:1323-1344 | a run from the start in which that happens |
| QueuePath.SelfStopIsRecognized | agenttown-mcp/cmd/agenttown-mcp/main.go:1336-1342 | the first completion of an action the worker stopped is recognized as its own doing if and only if it comes after the stop is marked, and no other stop is marked in between |
| QueuePath.PendingStopIsReported | agenttown-mcp/pkg/agentstate/agent_state.go:534-541 | a completion that finds its own stop pending says so, and leaves neither that nor a mark behind |
| QueuePath.UnrecognizedStop | agenttown-mcp/cmd/agenttown-mcp/main.go:1336-1342 | a run in which it is not, and the mark stays |
| QueuePath.ClearedExceptInHand | agenttown-mcp/cmd/agenttown-mcp/main.go:1320-1411 | after a slot switch clears the queue, an action placed before can still be dispatched or put back if and only if the worker holds it |
| ActionRace.EveryInterleaving | agenttown-mcp/cmd/agenttown-mcp/main.go:770-813 | over all interleavings no timer and no early completion is left behind, and the action stays tracked in exactly one kind of schedule |
| ActionRace.StrandingSchedule | agenttown-mcp/cmd/agenttown-mcp/main.go:770-813 | a schedule that leaves the finished action in the way of the queue |
| ActionRace.NotedIsNotRecorded | agenttown-mcp/cmd/agenttown-mcp/main.go:770-790 | an action whose completion was noted before the check is never recorded |
| ActionRace.CompositeNoteStays | agenttown-mcp/cmd/agenttown-mcp/main.go:408-415 | without arming, the note of a completion is there at the end of a run if and only if it was there before or the completion came in it |
| ActionRace.Coordination.NoteCompletion | agenttown-mcp/cmd/agenttown-mcp/main.go:408-415 | stops the timer, or notes a completion that came before it |
| ActionRace.Coordination.Arm | agenttown-mcp/cmd/agenttown-mcp/main.go:1213-1235 | consumes the note, or keeps the timer |
| SendBuffer.RetainedAgain | agenttown-mcp/wsserver/server.go:470-495 | compacting in place agrees with retaining from the full history |
| SendBuffer.Server.Evict | agenttown-mcp/wsserver/server.go:481-495 | the two loops drop exactly what is no longer retained |
| SendBuffer.Server.SendEnvelope | agenttown-mcp/wsserver/server.go:412-479 | after every send the buffer is what the whole history retains |
| SendBuffer.Server.ReplayFrom | agenttown-mcp/wsserver/server.go:500-540 | sends again the retained messages beyond the resume point, in order, after a notice that ends where they begin |
| SendBuffer.ReplayIsTheTail | agenttown-mcp/wsserver/server.go:500-540 | replayed and dropped messages together are everything sent beyond the resume point |
| SendBuffer.BeyondExactly | agenttown-mcp/wsserver/server.go:500-515 | wherever a message stands, it is selected in its place exactly when it is beyond the resume point |
| SendBuffer.NoticeIsTheGap | agenttown-mcp/wsserver/server.go:515-528 | a notice is given if and only if the buffer leaves a gap behind the resume point; it names exactly the numbers before the first replayed message, and counts them |
| SendBuffer.LossIsReported | agenttown-mcp/wsserver/server.go:515-528 | every missed message lies in the reported range if and only if the buffer is not empty or nothing was missed |
| SendBuffer.LossIsNotUndercounted | agenttown-mcp/wsserver/server.go:517-525 | whenever something is missed and something is left there is a notice, counting no fewer messages than were missed |
| SendBuffer.UnreportedLoss | agenttown-mcp/wsserver/server.go:515-528 | a run in which a message is lost without a notice |
| WorldEvents.RememberedFor256 | agenttown-mcp/pkg/agentstate/world_event_queue.go:52-70 | an accepted id is remembered until exactly 256 further ids were accepted |
| WorldEvents.WindowIsDistinct | agenttown-mcp/pkg/agentstate/world_event_queue.go:52-70 | the remembered ids are distinct |
| WorldEvents.WorldEventQueue.MarkSeen | agenttown-mcp/pkg/agentstate/world_event_queue.go:52-81 | an id is fresh exactly when it is empty or not among the last 256 accepted |
| WorldEvents.WorldEventQueue.Enqueue | agenttown-mcp/pkg/agentstate/world_event_queue.go:87-103 | refuses exactly the remembered ids, and evicts the oldest event only at 64 |
| WorldEvents.WorldEventQueue.Echo | agenttown-mcp/pkg/agentstate/active_situations.go:77-84 | appends without the window, every arrival accounted for |
| WorldEvents.WorldEventQueue.Drain | agenttown-mcp/pkg/agentstate/world_event_queue.go:110-116 | hands over everything pending, in arrival order |
| WorldEvents.WorldEventQueue.Remove | agenttown-mcp/pkg/agentstate/world_event_queue.go:151-164 | removes the first pending event with the id and nothing else |
| WorldEvents.EmptyIdIsNoId | agenttown-mcp/pkg/agentstate/world_event_queue.go:52-164 | an empty id is neither remembered, refused nor removed, and an echo is not remembered |
| WorldEvents.SettleOne | agenttown-mcp/pkg/agentstate/world_event_queue.go:87-164 | settling one arrival takes exactly it out of the queue |
| WorldEvents.ClearedBeyondSnapshot | agenttown-mcp/cmd/agenttown-mcp/tactical.go:192-267 | after any enqueues, echoes, removals and marks the clearing takes what is left of the snapshot and, unseen, exactly the later arrivals still pending |
| WorldEvents.StepParts | agenttown-mcp/pkg/agentstate/world_event_queue.go:87-164 | what each operation does to what is left of the snapshot and to the later arrivals, at capacity and under removal |
| WorldEvents.AcceptedAreCleared | agenttown-mcp/cmd/agenttown-mcp/tactical.go:192-267 | as many events are cleared unseen as were accepted in between, up to 64, less the removals |
| WorldEvents.AcceptedAreAccounted | agenttown-mcp/cmd/agenttown-mcp/tactical.go:192-267 | over every run each accepted event is taken out again or cleared unseen, so nothing unseen is cleared if and only if as many later arrivals were taken out as accepted |
| WorldEvents.NewestAreCleared | agenttown-mcp/cmd/agenttown-mcp/tactical.go:192-267 | without removals the queue at the clearing is the newest 64 of snapshot and later arrivals, and the newest 64 of those are unseen |
| WorldEvents.NothingUnseenIsCleared | agenttown-mcp/cmd/agenttown-mcp/tactical.go:192-267 | without removals nothing unseen is cleared if and only if no event in between was echoed or enqueued with an id not remembered |
| WorldEvents.UnseenIsCleared | agenttown-mcp/cmd/agenttown-mcp/tactical.go:192-267 | an event cleared without having been in the snapshot |
| Reaction.ReactionGuard.Guard | agenttown-mcp/cmd/agenttown-mcp/event_router.go:557-569 | which verdicts pass the guard |
| Reaction.ReactionGuard.Arm | agenttown-mcp/cmd/agenttown-mcp/event_router.go:616-632 | what window a verdict leaves |
| Reaction.ResolutionEndsReaction | agenttown-mcp/cmd/agenttown-mcp/event_router.go:161-218 | a wanted end of a situation passes every bar and closes the window |
| Reaction.SocialStaysLow | agenttown-mcp/cmd/agenttown-mcp/event_router.go:161-218 | a social event is refused by every bar from three on, and by a lower one unless its score rounds to more, and leaves the bar at two |
| Reaction.UrgencyClimbs | agenttown-mcp/cmd/agenttown-mcp/event_router.go:161-218 | any other wanted event passes exactly when its score rounds to more than the bar, and leaves its own severity |
| Reaction.UnwantedIsRefused | agenttown-mcp/cmd/agenttown-mcp/event_router.go:161-218 | nothing else passes |
| Reaction.LoweredExactly | agenttown-mcp/cmd/agenttown-mcp/event_router.go:562-632 | whatever happens between a verdict's guard and its arming, the arming lowers the bar if and only if the window was changed in between and last to a higher bar |
| Reaction.LadderIsLowered | agenttown-mcp/cmd/agenttown-mcp/event_router.go:562-632 | severities nine and five pass together and leave the bar at five |
| Reaction.TogetherAllPass | agenttown-mcp/cmd/agenttown-mcp/event_router.go:562-632 | any number of verdicts judged before the first one arms pass |
| Reaction.LadderIsBounded | agenttown-mcp/cmd/agenttown-mcp/event_router.go:562-632 | over every interleaving between two clears and without force events at most eleven urgent interrupts are armed, and eleven more for each overtaken verdict; without an overtaken one the bar never falls |
| Reaction.LadderIsTight | agenttown-mcp/cmd/agenttown-mcp/event_router.go:562-632 | eleven are armed without an overtaken one |
| Reaction.SocialAfterSocial | agenttown-mcp/cmd/agenttown-mcp/event_router.go:614-632 | in a row of social verdicts, one at a time, after a social interrupt exactly those of severity three pass, however many come |
| CombatYield.CombatGuard.HandleCombatDetach | agenttown-mcp/cmd/agenttown-mcp/world_event_dispatch.go:544-615 | an entry remembers the action and the baseline, a repeat attack only refreshes |
| CombatYield.CombatGuard.CheckTakeoverStop | agenttown-mcp/cmd/agenttown-mcp/world_event_dispatch.go:1418-1440 | stops the remembered action once, after the grace window |
| CombatYield.CombatGuard.CheckExpiry | agenttown-mcp/cmd/agenttown-mcp/world_event_dispatch.go:862-890 | latches the clock or reclaims the body |
| CombatYield.OneStopOrCompletion | agenttown-mcp/cmd/agenttown-mcp/world_event_dispatch.go:1373-1440 | over every run an action in flight at entry gets one stop attempt or one seen completion, never both |
| CombatYield.EntryIsRemembered | agenttown-mcp/cmd/agenttown-mcp/world_event_dispatch.go:1373-1394 | through repeat attacks baseline and action stay those of first entry, forgotten exactly by a stop or its completion |
| CombatYield.LatestAttackIsEchoed | agenttown-mcp/cmd/agenttown-mcp/world_event_dispatch.go:1373-1408 | over every run a yielded body remembers the latest attack |
| CombatYield.BaselineLatches | agenttown-mcp/cmd/agenttown-mcp/world_event_dispatch.go:1373-1394 | however often a yield is begun again, the first baseline stays |
| CombatYield.TakeoverStopTiming | agenttown-mcp/cmd/agenttown-mcp/world_event_dispatch.go:1418-1440 | the takeover stop comes exactly from two seconds after the last attack on |
| CombatYield.ReclaimTiming | agenttown-mcp/cmd/agenttown-mcp/world_event_dispatch.go:862-890 | a reclaim without combat_exit happens exactly from 120 game minutes after the anchor on |
| CombatYield.AttackExtends | agenttown-mcp/cmd/agenttown-mcp/world_event_dispatch.go:1373-1394 | every attack keeps the body for 120 game minutes more |
| CombatYield.DividedCheck | agenttown-mcp/cmd/agenttown-mcp/world_event_dispatch.go:1418-1440 | when other threads act inside the takeover check, the end state is that of an undivided one but for the forgotten action of a new yield, and the action is stopped twice if and only if control is handed back inside before its completion |
| CombatYield.StoppedTwice | agenttown-mcp/cmd/agenttown-mcp/world_event_dispatch.go:1418-1440 | a run in which that happens |
| CombatYield.DividedExpiry | agenttown-mcp/cmd/agenttown-mcp/world_event_dispatch.go:862-890 | when other threads act inside the expiry check, it takes the body from a yield that has not expired if and only if the latest attack inside comes after the latest handback |
| CombatYield.TakenBackTooSoon | agenttown-mcp/cmd/agenttown-mcp/world_event_dispatch.go:862-890 | a run in which that happens |
| CombatYield.DividedDetach | agenttown-mcp/cmd/agenttown-mcp/world_event_dispatch.go:544-615 | with other threads between its reading and its beginning, a detach does what an undivided one does, if and only if the body was not yielded, or not taken back, or there is nothing to remember |
| CancelRegistry.Registry.Register | agenttown-mcp/cmd/agenttown-mcp/world_event_dispatch.go:54-70 | the newest call is the one that can be cancelled |
| CancelRegistry.Registry.Deregister | agenttown-mcp/cmd/agenttown-mcp/world_event_dispatch.go:61-68 | a stale call never clears a newer registration |
| CancelRegistry.Registry.CancelInFlight | agenttown-mcp/cmd/agenttown-mcp/world_event_dispatch.go:76-84 | hits the newest call exactly when it has not deregistered, and no other |
| CancelRegistry.OlderCallIsMissed | agenttown-mcp/cmd/agenttown-mcp/world_event_dispatch.go:54-84 | a live call that a cancel misses |
| Conversation.PairedIsProtocol | agenttown-mcp/cmd/agenttown-mcp/agentic_loop.go:246-273 | reading a history from the front decides exactly the rule of the model service |
| Conversation.SanitizeToolCallsForHistory | agenttown-mcp/cmd/agenttown-mcp/agentic_loop.go:289-306 | keeps exactly the calls with a name, an id and valid arguments, in order |
| Conversation.CleanAreKept | agenttown-mcp/cmd/agenttown-mcp/agentic_loop.go:289-306 | wherever a call stands, it is kept in its place exactly when it has a name, an id and valid arguments |
| Conversation.SplitTailRounds | agenttown-mcp/cmd/agenttown-mcp/compaction.go:264-287 | splits the history in front of an assistant message, leaving exactly the asked rounds, or keeps it whole |
| Conversation.CutAtAssistant | agenttown-mcp/cmd/agenttown-mcp/compaction.go:264-287 | such a cut takes no pair apart |
| Conversation.FourRoundsStay | agenttown-mcp/cmd/agenttown-mcp/compaction.go:139-169 | what compaction keeps is the end of the history from the fourth last assistant message on |
| Conversation.Conversation.RecordTurn | agenttown-mcp/cmd/agenttown-mcp/agentic_loop.go:246-274 | a turn appends user, assistant and one placeholder per clean call, and keeps the rule |
| Conversation.TurnReadsBack | agenttown-mcp/cmd/agenttown-mcp/agentic_loop.go:246-274 | a turn adds the question to what was said, and the answer with its calls to what was answered, in that order |
| Conversation.Conversation.Inject | agenttown-mcp/cmd/agenttown-mcp/main.go:347-362 | an injected result keeps the rule |
| Conversation.Conversation.Compact | agenttown-mcp/cmd/agenttown-mcp/compaction.go:139-181 | compaction keeps the rule and leaves the last four rounds of the snapshot, losing exactly what was appended during the summarizing call; without a summary or with too few rounds it changes nothing |
| Conversation.InjectionInsideTurn | agenttown-mcp/cmd/agenttown-mcp/agentic_loop.go:263-272 | an injection among the appends of a turn keeps the rule if and only if it is not between the assistant and its last placeholder |
| Conversation.BrokenTurn | agenttown-mcp/cmd/agenttown-mcp/agentic_loop.go:263-272 | a turn broken by an injection |
| StreamAssembly.RunsAreMaximal | agenttown-mcp/pkg/venus/client.go:473-484 | fragments are cut exactly where the index changes |
| StreamAssembly.RunsAreUnique | agenttown-mcp/pkg/venus/client.go:473-484 | there is only one such cut |
| StreamAssembly.AnyFragmentationReassembles | agenttown-mcp/pkg/venus/client.go:471-495 | any way of sending a list of calls in pieces, with differing neighbour indices, reassembles to it |
| StreamAssembly.AnnouncedOnce | agenttown-mcp/pkg/venus/client.go:473-484 | the announced calls are the final ones, each once, if and only if no run but the last has index -1 |
| StreamAssembly.SilencedCall | agenttown-mcp/pkg/venus/client.go:473-484 | a call that is never announced |
| StreamAssembly.FramingIsRobust | agenttown-mcp/pkg/venus/client.go:440-470 | lines after the marker and lines that are no chunk change nothing |
| StreamAssembly.ParseStream | agenttown-mcp/pkg/venus/client.go:425-532 | the loop gives back the text the chunks make up and a call per run of fragments, or the error of an empty or refused stream, and announces the calls |
| StreamAssembly.MeaningAnswers | agenttown-mcp/pkg/venus/client.go:505-560 | the text comes back unchanged with a call per run; an empty stream gives one error with the marker and another without |
| StreamAssembly.StreamComesBack | agenttown-mcp/pkg/venus/client.go:425-560 | any text and any calls come back from any stream that sends them, however they are cut into chunks and fragments |
| StreamAssembly.PayloadExactly | agenttown-mcp/pkg/venus/client.go:440-456 | the payload of a data line is the rest less one space, and other lines have none |
| TacticalPasses.FillDefaultDurationForRest | agenttown-mcp/cmd/agenttown-mcp/tactical.go:291-309 | gives rests without a duration the default, in place |
| TacticalPasses.FillDefaultDurationForWork | agenttown-mcp/cmd/agenttown-mcp/tactical.go:376-394 | the same for work |
| TacticalPasses.ForceConversationDuration | agenttown-mcp/cmd/agenttown-mcp/tactical.go:408-420 | sets the window of every conversation |
| TacticalPasses.InsertRestBetweenDuplicateWork | agenttown-mcp/cmd/agenttown-mcp/tactical.go:447-465 | the loop builds the list with its rests |
| TacticalPasses.UntimedGets | agenttown-mcp/cmd/agenttown-mcp/tactical.go:280-420 | an untimed rest gets half an hour, work an hour and a half, a conversation an hour, and nothing else a duration |
| TacticalPasses.TimedKeeps | agenttown-mcp/cmd/agenttown-mcp/tactical.go:280-420 | a given duration stays, except on a conversation |
| TacticalPasses.RestsAreNeeded | agenttown-mcp/cmd/agenttown-mcp/tactical.go:447-465 | as many rests are inserted as work is repeated |
| TacticalPasses.RepeatsExactly | agenttown-mcp/cmd/agenttown-mcp/tactical.go:422-465 | when two jobs count as repeated |
| TacticalPasses.PassesTogether | agenttown-mcp/cmd/agenttown-mcp/tactical.go:272-275 | after all passes every work, rest and conversation is timed, no work repeats in place, and without the rests the list is the given one |
| TacticalPasses.PostProcess | agenttown-mcp/cmd/agenttown-mcp/tactical.go:272-275 | runs the four passes in order, with that result |

## Left out

- Model prompts, retries, back-off, summaries and metrics: nondeterministic or plain text; a turn succeeds or fails.
- WebSocket, HTTP, JSON, persistence, profiles and knowledge bases: input and output, and foreign code.
- The plan's JSON parsing (`parseDailyPlan`), capability lookup, `mapTacticalAction`, percentiles, token estimates: not part of this model; the outcomes they decide are inputs.
- PlanJitter.Moved: does not model 64-bit wrap-around, which clock times cannot reach; parsing and slot ranges do.
- DailyPlan.SortByStart: stands for the library sort, which is not stable; the theorems hold for every arrangement it may return.
- SendBuffer.Server.SendEnvelope: one send is one step, although numbering and buffering are two in the code, so concurrent sends may be buffered out of order there.
- QueuePath.StepKeeps: recording an acknowledged action is one step here; its own race with the completion is in ActionRace.
- PlanCoverage.DayIsCovered: requires every start before 24:00, because a later one is reprinted modulo a day; LateStartLosesDay is a plan that fails without it.
- PlanCoverage.NightOfLaid: requires planning and every start from 06:00 on; before that the early morning is day and night at once. NightIsCovered inherits it.
- PlanPipeline.NightEndIsKept: requires that every draw leaves the last slot's start at or after 06:00, its length within a day and its end within two; outside of that the printed slot is another one.
- ActionRace.EveryInterleaving: the timer does not fire and no other thread clears the action during the race.
- CombatYield.OneStopOrCompletion: every check is one step; DividedCheck and DividedExpiry say what other threads can do inside them.
- CombatYield.CombatGuard.CheckTakeoverStop: one step, as above.
- CombatYield.CombatGuard.CheckExpiry: one step, as above.
- CombatYield.CombatGuard.HandleCombatDetach: only the yield, begun in one step (DividedDetach says what can come in between); the clearing, cancelling and dispatching at entry are left out, the first of them modelled in AgentState.
- Conversation.Conversation.RecordTurn: a turn is one step; InjectionInsideTurn says what happens otherwise.
- Reaction.LadderIsBounded: the score is a real number.
- PlanJitter.SlotsStayDisjoint: requires that no draw moves the later slot's start past midnight or its length past a day; beyond that JitteredShareExactly still decides every single draw with lengths of at most a day.
- PlanPipeline.StoredPlanCovers: requires that no earlier slot is moved to more than a day; StoredPlanFromSorted shows it for boundaries half an hour apart.
- SendBuffer.Server.ReplayFrom: selecting and sending again are one step; in the code messages sent in between may reach the peer before the replayed ones.
- AgentState.Agent.ClearForSlotSwitch: leaves out the slot, the re-decomposition counter and persistence.
- AgentState.Agent.RecordActionCompletion: leaves out the task progress, how the last action ended, queue status and slot fields, which nothing here reads.
- StreamAssembly.ParseStream: leaves out text deltas as they arrive, usage counts, response ids and reader errors.
- Replan-slot exclusion, the re-decomposition counter, the strategic throttle, and situations with their expiry: easy, or not guaranteed by the code.
