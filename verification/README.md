# A verified model of the conversation server's protocols and stores

The repository runs coding agents for many users: conversation managers on several nodes share agent loops through Redis, a controller drives an agent by delivering events to it, and a set of stores keeps users, organisations, tokens, budgets and device codes consistent while requests race with each other. This project models the parts where that is hard and proves what they promise.

| files | what they model |
|---|---|
| `Lease.dfy` | Redis keys with an expiry, the basis of both distributed locks |
| `Cluster.dfy`, `ConversationManager.dfy` | the lease protocol by which nodes share conversations, as a timed transition system over all nodes, and one node's methods |
| `StuckSpec.dfy`, `StuckMeaning.dfy`, `StuckDetector.dfy`, `StuckRecovery.dfy` | when an agent counts as stuck and what that means for the events, the detector that finds out, and what loop recovery keeps and drops |
| `ControllerSpec.dfy`, `ControllerLaws.dfy`, `AgentController.dfy`, `ControllerRuns.dfy` | the agent controller as a transition system over event deliveries, what each operation does, its handlers, and what holds over every run |
| `RecoveryRuns.dfy`, `ControllerWitnesses.dfy` | loop recovery over runs, and runs that show what can happen |
| `Replay.dfy` | replaying a trajectory |
| `TokenRefresh.dfy` | refreshing tokens under a row lock |
| `UserCreation.dfy` | looking up and migrating users under the creation lock |
| `Credits.dfy`, `SettingsMigration.dfy` | what migrating a user does to budgets and to language model settings |
| `Orgs.dfy` | cascade deletion of organisations and the current-organisation invariant |
| `ProactiveStore.dfy`, `WebhookReplay.dfy`, `Eviction.dfy`, `DeviceCodes.dfy` | once-only notification, duplicate detection, making room for conversations, device codes |
| `Events.dfy`, `Options.dfy`, `Sequences.dfy`, `Strings.dfy` | shared vocabulary |

Sources that change state step by step appear twice: as a class whose methods assign fields in the order of the source, and as functions on values that those methods are proved to compute. The results over whole runs are proved about the functions. Concurrent code is cut at its `await`s: what happens between two of them is one step, and all interleavings of the steps are runs.

## Assumptions

- Cluster: delays are bounded by four parameters (registering a claimed loop, sleeping between refreshes, landing a pipeline, landing a delete). `Timing.Fits` says that their worst chain fits into one 15-second lease; `ExclusionExactlyWhenTimingFits` shows that this is exactly what mutual exclusion needs. Each conversation belongs to one user, so its id names its key; ids are not empty.
- User creation: a process stays in its critical section for at most `limit`, which includes the landing of its delete even if the process dies first; the results need `limit` to be at most the 30-second lease, and `TwoInSectionWhenTooSlow` shows why. Redis is available.
- Token refresh: the provider never hands out the same refresh token twice. Losing a transaction between the provider's answer and the commit is modelled; `EachTokenUsedOnce` holds for runs without it and `LostAnswerRepeatsToken` shows that it is needed.
- Controller: a delivery is handled without interruption, `add_event` appends under the next id, and events added during a delivery are delivered later. The agent, the security analyzer, the control flags and an active delegate may do anything.
- Organisations: organisation ids are never reused, and the database enforces its foreign keys.

## Where the code differs from what one would expect

- The recovery point of a loop is looked up with `==` in the filtered history and then used as an index into the raw one. It therefore never lies after the repetition, but it may lie well before it, and repeated observations that precede the repeated actions may survive; `StuckRecovery.ObservationDroppedExactly` says which.
- `is_stuck` leaves an old analysis in place when fewer than three events are considered. Recovery that is asked for after that drops newer events although no loop was found among them (`RecoveryRuns.AnalysisIsFreshExactly`, `RecoveryRuns.StaleRecovery`).
- A billing margin from before version 4 is applied on every migration, because neither migrating nor downgrading changes the stored version. A cycle of migrating and downgrading conserves the credit only if the margin does not apply or there is no credit (`Credits.CycleConservesExactly`).
- Assignments to `llm_base_url` of an organisation have no effect, since the column is called `default_llm_base_url`. So the base URL of every user survives the migration (`SettingsMigration.LoadedAfterMigration`).
- Downgrading somebody who signed up later and migrating them again does not always restore the settings; `SettingsMigration.DowngradeRoundTrip` has the exact condition. Among others it fails for an empty string in the membership, for a missing model with a custom base URL, and after sign-up as soon as the default model has changed.
- Downgrading somebody who had been migrated keeps the old settings row and takes only the keys from the membership, so later changes of model and base URL are lost (`SettingsMigration.MigratedRoundTrip`).
- The LiteLLM team of an organisation is deleted before the commit. If the commit fails the database is restored and the team is gone (`Orgs.OrgStore.DeleteOrgCascade`).
- Removing a membership does not maintain the current organisation; the exact condition is `Orgs.RemovingMembership`.
- With a conversation limit below one, making room for a conversation closes everything and then raises an error (`Eviction.Trim`).
- A controller that waits for confirmation can leave that state without the user, with the action still pending: by an agent message that waits for a response, a finish or a reject that was already on the stream, and by nothing else (`ControllerRuns.WaitEndsExactly`, `ControllerWitnesses.WaitEndsUnasked`). The gate still holds, because none of the states it goes to allows a step.
- The stream keeps a serialised copy of an action. Browse, file edit and file read actions have no field for the confirmation state, so their copies do not show that they wait for confirmation, nor what the user decided (`ControllerRuns.StreamShowsWaiting`, `ControllerRuns.ConfirmationGate`).
- Deciding on a device code reads the row without a lock, so overlapping decisions overturn each other, and a refused code may name a user (`DeviceCodes.OverlapOverturns`). Recording a poll does so as well, so overlapping slow-downs lose increments (`DeviceCodes.OverlapIsStale`, `DeviceCodes.CodeHistory`).

## Model

| member | source | states |
|---|---|---|
| Lease.SetIfAbsent | enterprise/storage/user_store.py:131-135 | `SET NX EX` succeeds exactly when the key is not live, leaves it live, and does not affect the liveness of other keys |
| Cluster.StepKeepsExclusive | enterprise/server/clustered_conversation_manager.py:389-404 | after every step at most one party (a starting loop, a registered loop, a deletion in flight) is entitled to a conversation's key |
| Cluster.KeyIsKept | enterprise/server/clustered_conversation_manager.py:615-651 | no step, and in particular no unconditional delete, removes or shortens the lease of somebody else's claim |
| Cluster.DueIsMet | enterprise/server/clustered_conversation_manager.py:435-483 | two-phase refreshes: a step never postpones the time by which a loop's next refresh is due, unless it has just refreshed the key |
| Cluster.StepKeepsBacking | enterprise/server/clustered_conversation_manager.py:435-483 | every claim's key outlives its next refresh and a deletion after it |
| Cluster.StepKeepsInvariant | enterprise/server/clustered_conversation_manager.py:421-483 | all thirteen steps of the protocol keep the whole invariant |
| Cluster.EveryRunHasOneOwner | enterprise/server/clustered_conversation_manager.py:397-404 | in every reachable state at most one node starts or runs a conversation, and its key is live, despite stale refreshes, late deletes and crashes |
| Cluster.HeldUntilReleased | enterprise/server/clustered_conversation_manager.py:389-404 | a node that won a conversation keeps it through any run in which it does not close it, give it up or vanish |
| Cluster.RestartsAreSeparated | enterprise/server/clustered_conversation_manager.py:713-752 | between two successful claims of a conversation the first winner has closed it, given up or vanished: of racing nodes one starts it, and none while a live owner refreshes |
| Cluster.ReleasedIsNotHeld | enterprise/server/clustered_conversation_manager.py:642-651 | a node that closes, gives up or vanishes does not hold the conversation any more, and a close has its deletion in flight |
| Cluster.TakeoverSucceeds | enterprise/server/clustered_conversation_manager.py:397-404 | any node can take over a conversation whose key is not live, and then holds it |
| Cluster.TakeoverFails | enterprise/server/clustered_conversation_manager.py:397-404 | while the key is live a claim has no effect |
| Cluster.CommandsLaw | enterprise/server/clustered_conversation_manager.py:482-483 | commands that land or are lost are not in flight any more, and a new node has nothing |
| Cluster.VanishedHolderLeavesNoClaim | enterprise/server/clustered_conversation_manager.py:161-178 | when a holder vanishes nobody is entitled to the key any more |
| Cluster.ExpiryFollowsLastSet | enterprise/server/clustered_conversation_manager.py:397-401 | in every run a key expires 15 seconds after the last claim, refresh or late pipeline that set it |
| Cluster.StaysUnclaimed | enterprise/server/clustered_conversation_manager.py:505-516 | once nobody is entitled to a key, nobody becomes so, and nobody deletes it, until a restart succeeds |
| Cluster.AbandonedKeyIsFrozen | enterprise/server/clustered_conversation_manager.py:505-516 | if no pipeline with it is in flight either, nobody touches the key of an abandoned conversation until it is restarted |
| Cluster.AbandonedKeyExpires | enterprise/server/clustered_conversation_manager.py:43-47 | after any run in which an owner vanishes, whatever is in flight: until a restart nobody is entitled to the key, and it is live exactly for 15 seconds after it was last set, before or after the owner vanished |
| Cluster.TwoOwnersWhenTooSlow | enterprise/server/clustered_conversation_manager.py:642-651 | whenever the delays do not fit into one lease, some run has two owners of a conversation |
| Cluster.ExclusionExactlyWhenTimingFits | enterprise/server/clustered_conversation_manager.py:40-47 | mutual exclusion in all runs holds if and only if the delays fit into one lease |
| ConversationManager.Manager.Claim | enterprise/server/clustered_conversation_manager.py:397-401 | performs the protocol's claim step on this node and on Redis |
| ConversationManager.Manager.Register | openhands/server/conversation_manager/standalone_conversation_manager.py:352-364 | performs the registration step |
| ConversationManager.Manager.BuildPipeline | enterprise/server/clustered_conversation_manager.py:455-465 | snapshots exactly the local loops with a non-empty id |
| ConversationManager.Manager.ExecutePipeline | enterprise/server/clustered_conversation_manager.py:482-483 | renews the lease of every key of the snapshot and of no other |
| ConversationManager.Manager.PopSession | enterprise/server/clustered_conversation_manager.py:642-650 | only a node that runs the loop goes on to delete its key |
| ConversationManager.Manager.DeleteKey | enterprise/server/clustered_conversation_manager.py:651-651 | performs the unconditional delete |
| ConversationManager.Manager.GetRunningAgentLoops | enterprise/server/clustered_conversation_manager.py:239-248 | the shortcut that skips Redis gives the same answer as the union: exactly the loops, local or scanned, of the given user (or of everybody) within the filter |
| ConversationManager.ScanKeys | enterprise/server/clustered_conversation_manager.py:256-282 | collects exactly the scanned conversations of the user and the filter |
| StuckSpec.EqNoPidSymmetric | openhands/controller/stuck.py:464-488 | the comparison of events is symmetric |
| StuckSpec.EqNoPidTransitive | openhands/controller/stuck.py:464-488 | it is transitive |
| StuckSpec.EqNoPidReflexive | openhands/controller/stuck.py:470-477 | it is reflexive exactly on events that are not edits of fewer than three lines |
| StuckSpec.OneComparisonSuffices | openhands/controller/stuck.py:153-159 | comparing all events with one of them is the same as comparing them pairwise |
| StuckSpec.Detect | openhands/controller/stuck.py:106-138 | some scenario is reported, and it applies, exactly when one applies |
| StuckMeaning.ComparisonMeans | openhands/controller/stuck.py:464-488 | command outputs are compared by command and exit code, edits by their first three lines, everything else as a whole |
| StuckMeaning.KeepMeans | openhands/controller/stuck.py:73-85 | exactly which events are considered |
| StuckMeaning.ConsideredMeans | openhands/controller/stuck.py:56-72 | the whole history without an interactive user, else what follows the last user message |
| StuckMeaning.PairLoopMeans | openhands/controller/stuck.py:151-159 | scenario 1 applies if and only if the last four actions and the last four observations are interchangeable |
| StuckMeaning.ErrorLoopMeans | openhands/controller/stuck.py:184-244 | scenario 2 if and only if the last three actions are, and the last three observations are failures or the same syntax error |
| StuckMeaning.MonologueMeans | openhands/controller/stuck.py:324-347 | scenario 3 if and only if the last three agent messages are equal with no observation between them |
| StuckMeaning.AlternationLoopMeans | openhands/controller/stuck.py:365-396 | scenario 4 if and only if every other one of the last six actions, and of the last six observations, is interchangeable |
| StuckMeaning.CondensingMeans | openhands/controller/stuck.py:426-460 | scenario 5 if and only if of at least ten condensations two are neighbours with at most ten from there on |
| StuckMeaning.SameErrorLineMeans | openhands/controller/stuck.py:289-316 | the same error in the third line from the end, above the two lines of the runtime |
| StuckMeaning.SameInvalidSyntaxMeans | openhands/controller/stuck.py:246-287 | moreover the same first line of a syntax error, with at least six lines |
| StuckMeaning.RepeatedOutputsAgree | openhands/controller/stuck.py:481-485 | repeated command outputs have the same command and the same exit code |
| StuckMeaning.FirstThatApplies | openhands/controller/stuck.py:106-138 | the scenario with the smallest number that applies is reported |
| StuckMeaning.TimesCountSteps | openhands/controller/stuck.py:165-169 | the reported number of repetitions is that of the repeated steps, or pairs of steps |
| StuckMeaning.DifferencesLeftOut | openhands/controller/stuck.py:464-488 | texts of command outputs never change the verdict, and edits after the third line never change which loop is reported |
| StuckDetector.CollectNewest | openhands/controller/stuck.py:91-104 | the backward scan finds the newest k actions and the newest k observations of the filtered history |
| StuckDetector.NewestAllSame | openhands/controller/stuck.py:187-188 | the comparison with the newest action means that the last ones are pairwise the same |
| StuckDetector.FourComparisonsSuffice | openhands/controller/stuck.py:380-396 | the four comparisons of scenario 4 cover all pairs of equal parity |
| StuckDetector.CheckConsistentLineError | openhands/controller/stuck.py:289-316 | true exactly when all three outputs report the error on the same line |
| StuckDetector.CheckConsistentInvalidSyntax | openhands/controller/stuck.py:246-287 | true exactly when moreover all start with the same first line of a syntax error |
| StuckDetector.AreErrors | openhands/controller/stuck.py:189-244 | true exactly when the three observations are errors or consistent syntax errors |
| StuckDetector.FindUninterrupted | openhands/controller/stuck.py:436-460 | finds the first adjacent pair among the last ten condensations |
| StuckDetector.FindLastUserMessage | openhands/controller/stuck.py:59-67 | finds the position after the last user message |
| StuckDetector.Detector.IsStuckRepeatingActionObservation | openhands/controller/stuck.py:140-171 | scenario 1 fires exactly on its declarative pattern and records its start |
| StuckDetector.Detector.IsStuckRepeatingActionError | openhands/controller/stuck.py:173-244 | scenario 2 likewise |
| StuckDetector.Detector.IsStuckMonologue | openhands/controller/stuck.py:318-357 | scenario 3 likewise |
| StuckDetector.Detector.IsStuckActionObservationPattern | openhands/controller/stuck.py:359-407 | scenario 4 likewise |
| StuckDetector.Detector.IsStuckContextWindowError | openhands/controller/stuck.py:409-462 | scenario 5 fires exactly when two of the last ten condensations are adjacent |
| StuckDetector.Detector.IsStuck | openhands/controller/stuck.py:45-138 | the detector answers the declarative verdict, and leaves the analysis alone when fewer than three events are considered |
| StuckRecovery.RepetitionStartsAtOrAfter | openhands/controller/stuck.py:161-168 | the start of a loop never lies after any of its repeated actions, messages or condensations |
| StuckRecovery.RecoveryDropsRepetition | openhands/controller/agent_controller.py:1298-1331 | truncating at the verdict keeps a strict prefix of the raw history, and every repeated action, message or condensation lies behind it, in both modes |
| StuckRecovery.KeptPrefixHasNoCulprit | openhands/controller/stuck.py:163-168 | in the kept part of the considered range, once filtered, no event equals the repeated action |
| StuckRecovery.RecoveryPointExactly | openhands/controller/stuck.py:161-168 | the recovery point is the raw position of the first considered event equal to the culprit, less the number of events left out before it |
| StuckRecovery.ObservationDroppedExactly | openhands/controller/agent_controller.py:1298-1331 | a repeated observation is dropped if and only if its distance to that event is at most the number of events left out before it; if none were, if and only if it follows that event |
| StuckRecovery.ObservationsMaySurvive | openhands/controller/stuck.py:106-110 | four equal observations followed by four equal actions are a loop, and recovery keeps all the observations |
| StuckRecovery.NullsDoNotMatter | openhands/controller/stuck.py:73-85 | removing null events anywhere does not change what is considered |
| StuckRecovery.OnlyAfterUserMessageMatters | openhands/controller/stuck.py:57-68 | in interactive mode nothing up to a user message matters |
| StuckRecovery.VerdictIgnores | openhands/controller/stuck.py:56-85 | hence neither changes the verdict |
| AgentController.Agent.ResetPending | openhands/controller/agent_controller.py:629-668 | computes the reset: the search through the history decides whether an error observation is added |
| AgentController.Agent.SetAgentStateTo | openhands/controller/agent_controller.py:670-722 | computes the change of state with its side effects |
| AgentController.Agent.OnObservation | openhands/controller/agent_controller.py:539-567 | computes the handling of an observation |
| AgentController.Agent.OnMessage | openhands/controller/agent_controller.py:569-608 | computes the handling of a message |
| AgentController.Agent.OnAction | openhands/controller/agent_controller.py:512-537 | computes the handling of an action |
| AgentController.Agent.TruncateMemory | openhands/controller/agent_controller.py:1319-1331 | keeps the history up to the recovery point |
| AgentController.Agent.PerformLoopRecovery | openhands/controller/agent_controller.py:1298-1317 | computes loop recovery |
| AgentController.Agent.RestartWithLastUserMessage | openhands/controller/agent_controller.py:1342-1383 | computes the restart with the last user message, or recovery if there is none |
| AgentController.Agent.ReactToException | openhands/controller/agent_controller.py:355-374 | computes the reaction to an exception |
| AgentController.Agent.IsStuck | openhands/controller/agent_controller.py:1123-1133 | asks the verified detector |
| AgentController.Agent.StepWithExceptionHandling | openhands/controller/agent_controller.py:860-1029 | computes a step of the agent, for every outcome of asking it |
| AgentController.Agent.OnEvent | openhands/controller/agent_controller.py:485-503 | computes the delivery of one event |
| ControllerRuns.SetStateFacts | openhands/controller/agent_controller.py:681-718 | what a change of state does to the pending action, and that the only action it puts on the stream is the pending one that the user decided on |
| ControllerRuns.ResetAnswersPending | openhands/controller/agent_controller.py:634-667 | a reset leaves an observation that carries the metadata of the pending tool call |
| ControllerRuns.MessageFacts | openhands/controller/agent_controller.py:575-608 | a user message leaves the controller running with a pending retrieval |
| ControllerRuns.HandledFacts | openhands/controller/agent_controller.py:489-494 | handling keeps the invariant, and clears the pending action only on a matching observation or a reset |
| ControllerRuns.EveryRunIsValid | openhands/controller/agent_controller.py:690-691 | at every event boundary a stopped or failed controller has nothing pending, and the stream has the serialised copy of a pending action under its id |
| ControllerRuns.SteppedFacts | openhands/controller/agent_controller.py:1016-1029 | a runnable action is performed only from Running with nothing pending, is then pending itself and newest on the stream |
| ControllerRuns.MoveKeepsPending | openhands/controller/agent_controller.py:870-878 | nothing but a matching observation or a reset frees the controller, and until then it performs no runnable action |
| ControllerRuns.PendingSurvives | openhands/controller/agent_controller.py:697-708 | through any run without these the pending action stays, up to the user's decision, unless a user message takes its place |
| ControllerRuns.StepsAreSeparated | openhands/controller/agent_controller.py:862-878 | between two runnable actions the first, or the retrieval that replaced it, got its observation or was reset |
| ControllerRuns.MatchingObservationResumes | openhands/controller/agent_controller.py:556-564 | when the awaited observation arrives at a running or confirmed controller, the agent's next runnable action is performed |
| ControllerRuns.WhoMustBeConfirmed | openhands/controller/agent_controller.py:975-1015 | exactly which actions a step makes wait for confirmation |
| ControllerRuns.StreamShowsWaiting | openhands/events/serialization/event.py:100-134 | the copy on the stream says that an action waits for confirmation exactly for commands and cells |
| ControllerRuns.UnaskedRun | openhands/controller/agent_controller.py:557-559 | while nobody asks for anything, a controller that waits for confirmation stays unable to step |
| ControllerRuns.WaitEndsExactly | openhands/controller/agent_controller.py:516-535 | while nobody asks for anything, the wait for confirmation ends if and only if an agent message that waits, a finish or a reject is delivered, and the action stays pending |
| ControllerRuns.UnaskedRunExactly | openhands/controller/agent_controller.py:556-567 | over any such run: the controller still waits if and only if no such event was delivered, and the action is still pending if and only if its observation was not |
| ControllerWitnesses.WaitEndsUnasked | openhands/controller/agent_controller.py:516-535 | for each of these events, a run from the start in which it ends the wait |
| ControllerRuns.OnlyDecisionsReissue | openhands/controller/agent_controller.py:697-708 | besides steps, an agent's runnable action gets onto the stream only as the pending action just decided on, under a fresh id |
| ControllerRuns.ConfirmationGate | openhands/controller/agent_controller.py:1018-1029 | after an action that needs confirmation no agent action follows until somebody asks, and the first to ask puts a runnable action on the stream outside steps only by a decision on this one while it is still pending: the same kind and code, without the thought, as confirmed if the user confirmed and as rejected if the user rejected, under a fresh id |
| ControllerRuns.ReissuedOnlyByDecision | openhands/controller/agent_controller.py:697-708 | over arbitrary runs, with any requests in between, in which the action is neither freed nor superseded: outside steps the agent's runnable action on the stream is this one, decided on just now, under a fresh id |
| ControllerLaws.DecisionLaw | openhands/controller/agent_controller.py:697-708 | a decision puts the pending action on the stream again and keeps it pending, as confirmed exactly for a confirmation; the stream shows which for commands and cells |
| ControllerLaws.ResetLaw | openhands/controller/agent_controller.py:634-668 | stopping and failing answer the pending action with an error observation that has its cause and tool call and says which of the two it was, unless the history has an answer |
| ControllerLaws.PlainChangeLaw | openhands/controller/agent_controller.py:681-718 | every other change of state is announced and has no other effect |
| ControllerLaws.MessageLaw | openhands/controller/agent_controller.py:569-608 | what user messages, agent messages and other messages lead to: the text of the retrieval, the state, the stream |
| ControllerLaws.EndLaw | openhands/controller/agent_controller.py:530-535 | a finish leads to the finished, a reject to the rejected state |
| ControllerLaws.RecoveryLaw | openhands/controller/agent_controller.py:610-627 | option 1 waits for input, option 3 stops, option 2 is like option 1 without a user message, nothing happens without an analysis |
| ControllerLaws.RestartLaw | openhands/controller/agent_controller.py:1342-1383 | option 2 runs again with the text of the last user message |
| ControllerLaws.RecoveryMove | openhands/controller/agent_controller.py:489-494 | the same for the delivery of a request with option 1 or 3 |
| ControllerLaws.RestartMove | openhands/controller/agent_controller.py:489-494 | the same for the delivery of a request with option 2 |
| ControllerLaws.DelegationLaw | openhands/controller/agent_controller.py:518-528 | starting a delegate hands it its task |
| ControllerLaws.DelegateLaw | openhands/controller/agent_controller.py:793-858 | while a delegate is active its parent stands still; when it ends, it is reported with the tool call of the last delegation |
| ControllerLaws.ObservationLaw | openhands/controller/agent_controller.py:556-567 | the awaited observation leads from confirmed to running and from rejected to waiting for input, and changes nothing but the pending action in other states; other observations change nothing |
| ControllerLaws.RejectedActionEnds | openhands/controller/agent_controller.py:565-566 | after a rejected action has got its observation the controller waits for the user with nothing pending |
| ControllerLaws.HistoryLaw | openhands/controller/state/state_tracker.py:47-56 | exactly which delivered events are recorded |
| ControllerLaws.HiddenLaw | openhands/controller/agent_controller.py:485-487 | hidden events are skipped |
| ControllerLaws.ActionsThatStep | openhands/controller/agent_controller.py:418-436 | exactly which actions make the agent step |
| ControllerLaws.ObservationsThatStep | openhands/controller/agent_controller.py:437-449 | exactly which observations do |
| ControllerLaws.FaultLaw | openhands/controller/agent_controller.py:355-374 | which faults lead to the rate-limited and which to the error state |
| ControllerLaws.StepLaw | openhands/controller/agent_controller.py:889-1029 | state, pending action and stream after every outcome of a step |
| ControllerLaws.StuckLaw | openhands/controller/agent_controller.py:888-892 | a loop that is found ends the step in the error state |
| ControllerLaws.NoStepLaw | openhands/controller/agent_controller.py:862-878 | nothing happens while the controller does not run or something is pending |
| RecoveryRuns.AnalysisIsFreshExactly | openhands/controller/stuck.py:87-89 | a step leaves the verdict on the history behind if and only if at least three events are considered or there was no analysis before |
| RecoveryRuns.RecoveryTruncates | openhands/controller/agent_controller.py:610-627 | recovery and restart both cut the history, with the request in it, at the start that the analysis names |
| RecoveryRuns.RecoveryAfterDetection | openhands/controller/agent_controller.py:489-494 | if no step and no other recovery comes between, recovery leaves exactly the truncation of the history on which the loop was found |
| ControllerWitnesses.StaleAnalysis | openhands/controller/stuck.py:87-89 | a run from the start after which the history has no verdict and an old analysis is still there |
| RecoveryRuns.StaleRecovery | openhands/controller/agent_controller.py:610-627 | recovery then drops what the user has said since |
| Replay.ReplayManager.constructor | openhands/controller/replay.py:30-57 | loads the events that are to be replayed, none but the last waiting for a response |
| Replay.ReplayManager.ShouldReplay | openhands/controller/replay.py:66-80 | says whether an action is left, and skips nothing but observations |
| Replay.ReplayManager.Step | openhands/controller/replay.py:82-87 | returns the next action and consumes it |
| Replay.ReplayAll | openhands/controller/agent_controller.py:903-906 | stepping until the end terminates and performs exactly the trajectory's replayable actions, in order, once each |
| Replay.ReplayedFaithfully | openhands/controller/replay.py:42-54 | the replayed actions are the trajectory's own up to the flag, and only its last event may wait for a response |
| Replay.ReplaysWhatWasIssued | openhands/controller/replay.py:30-41 | apart from the flags exactly the actions that are not from the environment are replayed, all of them, in order |
| Replay.OnlyTheLastMayWait | openhands/controller/replay.py:42-54 | a flag that survives belongs to the last event that is neither from the environment nor a null observation |
| Replay.TheLastKeepsWaiting | openhands/controller/replay.py:42-54 | that event is replayed as it is |
| TokenRefresh.StepKeepsInv | enterprise/storage/auth_token_store.py:101-113 | the lock holder's view is the row, and the row's refresh token is unused unless it is being replaced |
| TokenRefresh.EachTokenUsedOnce | enterprise/storage/auth_token_store.py:83-87 | in every interleaving that loses no answer, each refresh token is used at most once |
| TokenRefresh.CallersSeeTheRow | enterprise/storage/auth_token_store.py:147-156 | every caller returns what the row holds when its lock is released |
| TokenRefresh.LostAnswerRepeatsToken | enterprise/storage/auth_token_store.py:119-145 | losing any answer before its commit lets the next caller use the same refresh token again |
| TokenRefresh.UninterruptedCall | enterprise/storage/auth_token_store.py:99-156 | begin, lock, refresh and commit of one call, without interruption, replace the row by the answer and use its old refresh token, or do neither |
| TokenRefresh.TokenRow.LoadTokens | enterprise/storage/auth_token_store.py:99-156 | the code of one call has the effect of that run on the row and on the used tokens, and returns the row |
| TokenRefresh.RowLaw | enterprise/storage/auth_token_store.py:119-145 | an aborted call leaves the row as it was and frees it; tokens of a new login replace it |
| UserCreation.EnteringTakesTheLock | enterprise/storage/user_store.py:722-729 | a process enters its critical section only by a successful claim of the lock |
| UserCreation.StepKeepsLocks | enterprise/storage/user_store.py:137-154 | the lock of a process in its section lives until the process and its delete are through, although releases delete unconditionally |
| UserCreation.OneMigrationAtATime | enterprise/storage/user_store.py:731-769 | in every run at most one process per user is in its section, and no migration collides with an existing user |
| UserCreation.TwoInSectionWhenTooSlow | enterprise/storage/user_store.py:35-36 | with sections longer than the lease two processes can be in the section at once |
| UserCreation.CommitsAreSeparated | enterprise/storage/user_store.py:292-295 | between two committed migrations of a user there is a downgrade |
| UserCreation.ReadingSawNoRow | enterprise/storage/user_store.py:731-740 | a lookup goes on to the old settings only if it sees no user row while it holds the lock |
| UserCreation.AnswersAreTrue | enterprise/storage/user_store.py:733-767 | a lookup answers with an existing user, with none if there is nothing to migrate, and fails only if its migration fails |
| UserCreation.UninterruptedLookup | enterprise/storage/user_store.py:711-769 | with the lock free a lookup finds an existing user, migrates and finds one with old settings, reports anybody else as missing, and leaves the lock free |
| UserCreation.DowngradedUserComesBack | enterprise/storage/user_store.py:602-609 | after a downgrade the user is gone, and the next lookup migrates them again and finds them |
| UserCreation.SignedUpUserIsFound | enterprise/storage/user_store.py:711-720 | a user who signed up is found at once |
| UserCreation.FailedMigrationLeavesNoTrace | enterprise/storage/user_store.py:756-769 | a failed migration leaves the rows and the lock alone and raises |
| UserCreation.CollisionLaw | enterprise/storage/user_store.py:292-295 | a migration that meets an existing row raises and changes nothing |
| UserCreation.VanishLaw | enterprise/storage/user_store.py:137-154 | what a process that dies leaves behind: the lock, and a delete in flight if it was releasing |
| Credits.MigrateScales | enterprise/storage/lite_llm_manager.py:142-229 | a first migration multiplies the credit by the margin, a second changes nothing |
| Credits.InterruptedMigration | enterprise/storage/lite_llm_manager.py:197-229 | a migration that breaks off after any request and is repeated yields the same credit |
| Credits.CycleRestoresKeys | enterprise/storage/lite_llm_manager.py:392-417 | undoing a migration removes the team and moves every key back |
| Credits.KeysAreMoved | enterprise/storage/lite_llm_manager.py:225-229 | a first migration moves every key to the team, a downgrade moves every key back, and no key is lost |
| Credits.KeysAlwaysFollowTeam | enterprise/storage/lite_llm_manager.py:392-417 | over any sequence of operations all keys are in the team exactly while there is one |
| Credits.MigratedAmounts | enterprise/storage/lite_llm_manager.py:142-223 | a first migration leaves the user unlimited, and a team and a membership whose budget is the scaled credit |
| Credits.DowngradedAmounts | enterprise/storage/lite_llm_manager.py:337-390 | a downgrade takes budget and spending from the membership if it has a budget, else from the team |
| Credits.ExistingTeamIsRenewed | enterprise/storage/lite_llm_manager.py:197-223 | a migration that finds a team renews its budget and keeps its spending and membership |
| Credits.RequestsLaw | enterprise/storage/lite_llm_manager.py:197-229 | an interrupted migration is tried again exactly if the user has not been marked; the keys move last |
| Credits.FactorLaw | enterprise/storage/lite_llm_manager.py:146-164 | the margin applies before version 4 only, and 0 does not count |
| Credits.CycleConservesExactly | enterprise/storage/lite_llm_manager.py:146-164 | a cycle multiplies the credit by the margin, so it conserves it exactly when the margin does not apply or there is no credit |
| Credits.CreditIsConserved | enterprise/storage/lite_llm_manager.py:337-376 | over any sequence of migrations, downgrades and requests the credit shrinks by exactly what was spent, and not below zero |
| Credits.LiteLlm.MigrateEntries | enterprise/storage/lite_llm_manager.py:124-229 | computes the migration of an account |
| Credits.LiteLlm.DowngradeEntries | enterprise/storage/lite_llm_manager.py:324-417 | computes the downgrade of an account |
| Credits.LiteLlm.UpdateUserKeys | enterprise/storage/lite_llm_manager.py:760-784 | moves every key of the user |
| SettingsMigration.NotCustomExactly | enterprise/storage/user_store.py:1005-1034 | exactly who does not count as having custom settings |
| SettingsMigration.LastPartMeans | enterprise/storage/user_store.py:1024-1030 | the name of a model is what follows the last slash |
| SettingsMigration.NormalizedMeans | enterprise/storage/user_store.py:1005-1012 | blank values count as missing, others without the white space around them |
| SettingsMigration.LoadedAfterMigration | enterprise/storage/user_store.py:234-289 | what every user with a key loads after the migration: the same base URL; the same model for custom users with one and users of the current version; else the current default |
| SettingsMigration.ModelSurvivesExactly | enterprise/storage/saas_settings_store.py:84-117 | exactly when the model survives |
| SettingsMigration.CustomDefaultsStay | enterprise/storage/user_store.py:239-243 | migrating a custom user fixes the defaults of the organisation for all later deployments |
| SettingsMigration.Validate | enterprise/storage/org_store.py:82-93 | a loaded organisation has the current version; an older one gets the current default model and keeps its base URL, a current one is unchanged |
| SettingsMigration.DowngradeRoundTrip | enterprise/storage/user_store.py:919-955 | for every organisation and membership: downgrading and migrating again restores the effective settings if and only if the base URL and the model come back, by a condition on the stored rows |
| SettingsMigration.SignUpRoundTrip | enterprise/storage/user_store.py:55-101 | for rows written at sign-up, if and only if the default model has not changed since |
| SettingsMigration.MigratedRoundTrip | enterprise/storage/user_store.py:449-476 | for people with an old settings row, if and only if the model and base URL in use are still those of the old row |
| SettingsMigration.UnchangedRoundTrip | enterprise/storage/user_store.py:449-476 | in particular if nothing has changed since the migration |
| SettingsMigration.EmptyModelIsNotRestored | enterprise/storage/user_store.py:926-933 | an empty string in the membership breaks that round trip |
| SettingsMigration.MissingModelIsFilledIn | enterprise/storage/user_store.py:234-243 | so does a missing model with a custom base URL |
| Orgs.OrgStore.DeleteOrgCascade | enterprise/storage/org_store.py:264-388 | deletion either leaves no mention of the organisation, moves its users to other organisations of theirs and touches nothing else, or leaves the database as it was; it succeeds exactly without failures and orphans; after an error the LiteLLM team is gone exactly if the commit failed |
| Orgs.OwnedRowsAreGone | enterprise/storage/org_store.py:292-322 | after the first n statements exactly the organisation's rows of the tables treated so far are gone |
| Orgs.ConversationsAreGone | enterprise/storage/org_store.py:271-302 | the conversation data goes before the rows that say whose it is, so all of it is found |
| Orgs.ReassignUsers | enterprise/storage/org_store.py:342-354 | every affected user gets another organisation they belong to, others keep theirs |
| Orgs.DeletionKeepsInv | enterprise/storage/org_store.py:324-363 | deletion leaves no dangling reference and keeps everybody in an organisation of theirs |
| Orgs.DeletionKeepsConversationsOwned | enterprise/storage/org_store.py:271-302 | deletion leaves no conversation data without the row that says whose it is |
| Orgs.CurrentOrgIsAlwaysAMembership | enterprise/storage/org_service.py:915-933 | in every reachable state of sign-ups, new organisations, memberships, two-phase switches and deletions, the current organisation exists and is a membership |
| Orgs.SwitchTakesEffect | enterprise/storage/org_service.py:915-933 | a member who switches gets the organisation as current |
| Orgs.LateSwitchFails | enterprise/storage/user_store.py:788-802 | a switch to an organisation that is gone by now has no effect |
| Orgs.CreationLaw | enterprise/storage/user_store.py:80-104 | what signing up, persisting an organisation, joining and starting a conversation write |
| Orgs.NothingDangles | enterprise/storage/saas_conversation_store.py:106-127 | in every reachable state no row refers to an organisation, a user or a conversation that is gone |
| Orgs.RemovingMembership | enterprise/storage/org_member_store.py:106-106 | removing a membership keeps that exactly when it is not the current organisation |
| ProactiveStore.ProactiveConversationStore.StoreWorkflowInformation | enterprise/storage/proactive_conversation_store.py:49-131 | computes one delivery |
| ProactiveStore.ReadyMeans | enterprise/storage/proactive_conversation_store.py:90-131 | ready means that nothing is pending and something has failed |
| ProactiveStore.FrozenOnceSent | enterprise/storage/proactive_conversation_store.py:73-75 | after the notification the stored runs never change |
| ProactiveStore.NotifiesExactlyOnce | enterprise/storage/proactive_conversation_store.py:90-131 | exactly the first delivery after which the folded runs have no pending and some failed run returns them |
| ProactiveStore.AtMostOneNotification | enterprise/storage/proactive_conversation_store.py:73-75 | no later delivery returns anything |
| WebhookReplay.IntegrationManager.CheckReplay | apollosai/integrations/base.py:84-95 | reports remembered ids, remembers new ones and forgets the oldest beyond the bound |
| WebhookReplay.MemoryIsRecentHistory | apollosai/integrations/base.py:79-95 | over any calls the memory is the most recent accepted ids, in order, without duplicates, within the bound |
| WebhookReplay.NothingForgottenWithinBound | apollosai/integrations/base.py:155-164 | while no more ids than the bound were accepted, none is accepted twice |
| WebhookReplay.AcceptedAgainExactly | apollosai/integrations/base.py:84-95 | of any number of different ids, one that is delivered again is accepted again if and only if at least the bound of others came after it |
| Eviction.Sorted | enterprise/server/saas_nested_conversation_manager.py:833-833 | the sort: a permutation of the conversations, newest first |
| Eviction.InsertKeepsOrder | enterprise/server/saas_nested_conversation_manager.py:833-833 | putting a conversation into its place keeps the list sorted |
| Eviction.Trim | enterprise/server/saas_nested_conversation_manager.py:835-853 | the loop ends, keeps the front of the list and closes the rest from the end; it raises exactly if the limit is below one |
| Eviction.MakeRoom | enterprise/server/saas_nested_conversation_manager.py:823-853 | does so for the sorted conversations when there are too many running |
| Eviction.ClosesTheOldest | enterprise/server/saas_nested_conversation_manager.py:1208-1212 | exactly max(n - m + 1, 0) are closed, each once, and no closed conversation is newer than a kept one |
| Eviction.MissingCountsAsOldest | enterprise/server/saas_nested_conversation_manager.py:1208-1212 | a missing timestamp counts as older than any after the epoch, timestamps count as they are |
| Eviction.MissingAreClosedFirst | enterprise/server/saas_nested_conversation_manager.py:835-853 | if a conversation with a timestamp is closed, none without one is kept |
| DeviceCodes.DeviceCode.CheckRateLimit | enterprise/storage/device_code.py:74-97 | says whether the client polls too fast, and advertises exactly the interval that the update will store |
| DeviceCodes.DeviceCode.UpdatePollTime | enterprise/storage/device_code.py:99-109 | records the poll and raises the interval up to the cap |
| DeviceCodes.DeviceCode.AuthorizeBy | enterprise/storage/device_code.py:60-64 | records status, user and time |
| DeviceCodes.DeviceCode.DenyIt | enterprise/storage/device_code.py:66-68 | records the status and leaves the user |
| DeviceCodes.DeviceCodeStore.CreateDeviceCode | enterprise/storage/device_code_store.py:48-73 | creates the first candidate that is free in both columns, fails exactly if none is, and changes nothing else |
| DeviceCodes.RunKeepsInv | enterprise/storage/device_code_store.py:93-142 | in every interleaving codes stay unique and authorised codes have a user and were found valid; if decisions do not overlap, only authorised codes have a user |
| DeviceCodes.EveryReachableState | enterprise/storage/device_code_store.py:48-73 | so it is in every state reachable from the empty store |
| DeviceCodes.NoLateDecision | enterprise/storage/device_code_store.py:111-115 | nobody starts to decide on an expired or decided code |
| DeviceCodes.CodeHistory | enterprise/storage/device_code_store.py:144-167 | in every interleaving of recordings that read and later write, the interval grows by at most one increment for each recorded slow-down, up to the cap; by exactly that if, and below the cap only if, no recording writes over an interval that has changed since it read it |
| DeviceCodes.IntervalFollowsSlowDowns | enterprise/storage/device_code.py:91-95 | after k slow-downs the interval is min(5 + 5k, 60), in that sense |
| DeviceCodes.OverlapIsStale | enterprise/storage/device_code_store.py:156-165 | of two slow-downs whose recordings read the same row, the second to be written loses its increment, below the cap |
| DeviceCodes.AdvertisedExactly | enterprise/server/routes/oauth_device.py:138-157 | whatever comes between a poll and its recording, the advertised interval is the one stored if and only if the interval is still the same or both are at the cap; among recordings that are not stale, if and only if no other slow-down was recorded or the cap is reached |
| DeviceCodes.DecisionsAreFinal | enterprise/storage/device_code_store.py:103-115 | if decisions on a code do not overlap, a decided code keeps its status and user in every continuation |
| DeviceCodes.OverlapOverturns | enterprise/storage/device_code_store.py:128-140 | if two do, the later write overturns the earlier one if and only if they differ, and a refusal keeps the user of an authorisation |
| DeviceCodes.DecisionsMayOverlap | enterprise/storage/device_code_store.py:103-115 | any two decisions on a pending code can overlap |
| DeviceCodes.CreatedCode | enterprise/storage/device_code_store.py:48-73 | a new code is pending, valid for the given time, with an interval of five seconds |
| DeviceCodes.DecisionTakesEffect | enterprise/storage/device_code_store.py:93-142 | an uninterrupted decision takes effect exactly on a pending, unexpired code |
| DeviceCodes.TooFastMeans | enterprise/storage/device_code.py:74-97 | the first poll is never too fast; a later one is if and only if less time than the interval has passed since the last |
| DeviceCodes.RecordedLaw | enterprise/storage/device_code.py:99-109 | what recording a poll writes: its time, and after a slow-down the interval that was read plus five, up to the cap |
| DeviceCodes.IdleLaw | enterprise/storage/device_code.py:47-54 | waiting lets time pass, a dropped transaction leaves no trace |

## Left out

- Connection keys, the choice of which sessions to close for inactivity, and `get_connections`: they do not influence who owns a conversation.
- A refresh pipeline that fails counts as still in flight; the immediate retry with a new snapshot is not modelled.
- The limit check in `_handle_remote_conversation_stopped` and the disconnecting of clients; a restart is the claim step.
- Delegates beyond what they do to their parent: while one is active its parent is frozen and the delegate may emit any events. Failures to start a delegate are not modelled.
- Recall types, the reason text of error states, `end_id`, metrics, iteration and budget limits (their effect is the outcome `LimitHit`), and saving state.
- Replay.ReplayManager.constructor: the source clears flags in the caller's event objects; the model copies the events, so that aliasing is not captured.
- Python's full notion of white space: `Strings.Strip` knows blanks, tabs and line breaks.
- TokenRefresh.TokenRow.LoadTokens: expiry checks are the callback's and appear only as its answer; lock waits and aborts are in the transition system.
- `store_tokens` racing with another first insertion of the same row.
- Creating and verifying LiteLLM keys, HTTP status handling, Stripe, and members of teams other than the personal one.
- The tables that `migrate_user` and `downgrade_user` rewrite besides the user, organisation, membership and settings rows.
- `clean_old_convos`, which deletes notification rows and thereby allows another notification.
- Signature checks and parsing of webhooks, URL validation, encryption, routers and the user interface: declarative or foreign code that would add only easy claims.
