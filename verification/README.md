# Verification of the agent backend

This project models the state machines and concurrency protocols of the Rust backend in
`src-tauri/src` and proves what they promise. Every lock-protected critical section is one atomic
step. A pure function specifies the step; a class with the original's fields carries it out and is
proved to do exactly what the function says; the theorems are about all runs, all interleavings or
all inputs of those functions.

`dafny verify dfyconfig.toml` checks the whole project.

- `Approvals` - pending approvals, answered in two halves around an unlocked responder call, racing
  with timeouts, cancellation and closing.
- `ClaudeInputLifecycle` - the ledger that correlates accepted inputs with the provider's events,
  with an interrupt bracket that can be withdrawn.
- `LoginRegistry`, `LoginSession`, `LoginProtocol` - the hand-off between login sessions over any
  number of threads, one session's announcement and result, and the two provider conversations.
- `CliDiscovery`, `OutputBudget` - the generation-guarded environment cache, and the output budget
  its shell readers share.
- `CliVersion`, `RecencyQueue` - the version cache and the bounded queues it keeps.
- `CatalogService` - the command catalog cache with its in-flight guards.
- `AttachmentClaim`, `AttachmentRaces`, `AttachmentSweep`, `Sorting` - the transactional claim with
  rollback, claims and releases that overlap, the ordered eviction, and the resumable sweep.
- `Framing`, `ChunkObserver`, `QuestionReader`, `StatusPoll`, `SkillsPoll` - line framing of chunked
  output, machines that observe it, and the polls built on it.
- `Text`, `EndpointOrigin`, `McpDetail`, `ServersDomain` - normalising provider text and building
  snapshots that always validate.
- `JpegScan` - reading the dimensions of a JPEG image.
- `Interactions` - observers released during a settlement, and shared sequence numbers.

Conventions. Instants are natural numbers and their differences saturate at zero, as in the
original. Identifiers are wrapped strings or numbers. Strings are sequences of Unicode scalar
values; their order by code point is the byte order of their UTF-8 encodings, and lengths in bytes
follow section 3 of RFC 3629. A hash map's traversal order is an arbitrary parameter or an
arbitrary choice, and no result depends on it. Counters of 64 bits are bounded where the original
checks or saturates them (`CliDiscovery`, `CliVersion`, the result counter of
`ClaudeInputLifecycle`).

Assumptions. In `Approvals` a request id is registered at most once, so that an answer finds its own
entry again, and a timer that cannot be spawned expires the entries in the same step. In
`LoginRegistry` the wait for a replaced session does not time out, and a state query that empties
the slot counts as a cancel. In `AttachmentClaim` and `AttachmentRaces` renames back succeed. In
`AttachmentSweep` the listing keeps its order, gains no files, and deletions succeed. In
`CliVersion`, `CatalogService` and `CliDiscovery` locks are never poisoned; a panic of whoever holds
a guard is the step `Unwind`.

Where something expected is false of the code, the project shows a run and the exact condition:
a closed ledger can become pending again (`ClosedWithPendingInput`, `ClosedLedgerReopensIff`); a
cancel lets two login bodies overlap (`CancelLetsBodiesOverlap`, `SessionsOverlapIff`); a
second shutdown can return before the body has ended (`SecondShutdownMayReturnEarly`,
`AllSettledIff`, `FinalOnceLastSettled`); an answer whose decision was delivered can report an
expired approval (`DeliveredAnswerMayBeLost`, `DeliveredAnswerIsRecordedIff`); a failed claim loses
files it had already overwritten (`FailedClaimLosesOverwrittenFile`, `FailedRenamesRestoreIff`); a
catalog just installed can be the one evicted (`NewcomerIsEvictedAtOnce`,
`InstalledIsCachedUnlessOldest`); a caller can be rejected after it changed the cache
(`InstallerMayBeRejected`, `ChangedCacheIff`); a chunk with an oversized line loses the
lines completed in it (`OversizedLineHidesReply`, `ClaudeCutMakesNoDifferenceIff`,
`CodexCutMakesNoDifferenceIff`); and the sanitizer returns empty text below four bytes
(`NarrowLimitLeavesNothing`, `SanitizedIsBoundedIff`), a limit no caller uses.

## Model

| member | source | states |
|---|---|---|
| Approvals.RespondersAreInvokedAtMostOnce | src-tauri/src/agent_approvals.rs:353-457 | over every interleaving of registering, the two halves of answers, responder calls, timeouts, cancelling, expiring, finishing and closing, no responder is invoked twice |
| Approvals.ShownDecisionsWereDelivered | src-tauri/src/agent_approvals.rs:353-428 | an entry shows Approved or Denied exactly when it holds a decision, and then that decision was offered and an answer delivered it with success |
| Approvals.SettledEntriesKeepTheirFate | src-tauri/src/agent_approvals.rs:305-428 | an entry that is settled and not being answered stays as it is until evicted; one settled while its answer is in flight is overwritten only by a delivered decision |
| Approvals.RegistryStaysBounded | src-tauri/src/agent_approvals.rs:195-253 | ids stay distinct, at most 16 entries are pending and 32 retained, a responder is held exactly while an entry awaits its answer, an awaiting entry implies a running timer while the registry is open, and the retention limit error cannot be returned |
| Approvals.RunKeepsInv | src-tauri/src/agent_approvals.rs:305-489 | every reachable state keeps the registry, timer and delivery invariants, and two answers are never in flight for one request |
| Approvals.LookupStep | src-tauri/src/agent_approvals.rs:305-457 | how any one step may change the entry that a request id finds |
| Approvals.DeliveredAnswerIsRecordedIff | src-tauri/src/agent_approvals.rs:383-428 | a decision its responder accepted ends up shown exactly when the entry is still retained at the second half of the answer; otherwise the answer reports an expired approval |
| Approvals.OnlySettledEntriesAreForgotten | src-tauri/src/agent_approvals.rs:195-253 | over any run a pending entry, so one being answered, is forgotten only after it has been settled |
| Approvals.DeliveredAnswerMayBeLost | src-tauri/src/agent_approvals.rs:383-400 | a run in which a cancel and 32 further requests overtake an answer: its decision is delivered, and the answer reports an expired approval |
| Approvals.TimesOutIffDue | src-tauri/src/agent_approvals.rs:430-457 | in every run a look for overdue entries times out exactly the entries that await an answer and whose deadline has come, queues their denials and changes no other entry |
| Approvals.NothingTimesOutEarly | src-tauri/src/agent_approvals.rs:195-253 | over every run, an entry shown as timed out, and a responder denied without an answer, was registered at least the whole timeout before the registry looked, unless a timer could not be spawned |
| Approvals.RegistrationDecides | src-tauri/src/agent_approvals.rs:195-242 | each refusal of a registration exactly when it applies, in their order; an accepted one appends a pending entry, evicting the first settled entry exactly when 32 are retained |
| Approvals.AnswerIsSubmittedIff | src-tauri/src/agent_approvals.rs:353-388 | in every run an answer reaches the responder exactly when its decision is offered by an entry that awaits one in an open registry; repeating the decision shown is replayed, and anything else is refused and changes nothing |
| Approvals.AnswerEnds | src-tauri/src/agent_approvals.rs:389-428 | what an entry becomes when its responder has returned, and the result reported for it |
| Approvals.SettlingReaches | src-tauri/src/agent_approvals.rs:285-347 | a cancel and a close also settle entries being answered, an expiry and a finish spare them; whatever is reached loses its responder, and nothing else changes |
| Approvals.TimeoutsDeny | src-tauri/src/agent_approvals.rs:430-457 | a responder taken out by a timeout is told to deny, once, and that leaves the registry alone |
| Approvals.TimerStopsIff | src-tauri/src/agent_approvals.rs:459-489 | in every run the timer stops exactly when the registry is closed or nothing awaits a timeout |
| Approvals.ApprovalRegistry.Add | src-tauri/src/agent_approvals.rs:195-242 | registers a request, evicting the first settled entry when the registry is full, or refuses and changes nothing |
| Approvals.ApprovalRegistry.Settle | src-tauri/src/agent_approvals.rs:305-327 | settles one entry, or leaves it when it is settled or being answered |
| Approvals.ApprovalRegistry.Close | src-tauri/src/agent_approvals.rs:285-347 | closes the registry and settles every entry in place |
| Approvals.ApprovalRegistry.TakeOverdue | src-tauri/src/agent_approvals.rs:430-457 | times out every overdue entry and hands out their ids in order |
| Approvals.ApprovalRegistry.StartAnswer | src-tauri/src/agent_approvals.rs:360-388 | the first half of an answer: replay, refusal, or taking the responder out |
| Approvals.ApprovalRegistry.FinishAnswer | src-tauri/src/agent_approvals.rs:389-428 | the second half of an answer: records a delivered decision, even over a cancellation, and releases the entry otherwise |
| Approvals.ApprovalRegistry.StopTimerWhenIdle | src-tauri/src/agent_approvals.rs:459-489 | the timer stops exactly when the registry is closed or nothing awaits a timeout |
| ClaudeInputLifecycle.DischargedIff | src-tauri/src/agent_claude_input_lifecycle.rs:35-199 | without interrupt or abandonment, a reserved input has left the ledger exactly when its trace holds a completion anywhere and a result after a start that the counter could still count |
| ClaudeInputLifecycle.DischargedIffBelowSaturation | src-tauri/src/agent_claude_input_lifecycle.rs:35-199 | below saturation of the result counter the second condition is simply a result strictly after a start; earlier results, foreign ids and duplicates never discharge |
| ClaudeInputLifecycle.WithdrawnInterruptIsTransparent | src-tauri/src/agent_claude_input_lifecycle.rs:112-134 | opening an interrupt, observing any events and withdrawing it gives the same pending inputs, results, support and closed flag as observing the events without it and abandoning refused inputs |
| ClaudeInputLifecycle.RunKeepsInvariant | src-tauri/src/agent_claude_input_lifecycle.rs:28-141 | over all runs with fresh ids: interrupting means nothing pending, not interrupting means nothing withdrawable, pending and interrupted ids are disjoint, the bounds 32 and 64 hold, every withdrawable id is still remembered, and nothing pending is finished |
| ClaudeInputLifecycle.AwaitedInputsAreNamed | src-tauri/src/agent_claude_input_lifecycle.rs:95-104 | every pending or withdrawable input is recognised as a command of this session, despite forgetting the oldest interrupted ones |
| ClaudeInputLifecycle.ClosedLedgerReopensIff | src-tauri/src/agent_claude_input_lifecycle.rs:122-187 | of all operations exactly the withdrawal of an interrupt with an unfinished input makes a settled, closed ledger pending again |
| ClaudeInputLifecycle.ClosedWithPendingInput | src-tauri/src/agent_claude_input_lifecycle.rs:122-187 | a run that ends closed with an input pending |
| ClaudeInputLifecycle.RememberAllKeepsLatest | src-tauri/src/agent_claude_input_lifecycle.rs:28-34 | remembering ids one by one keeps exactly the most recent ones within the bound |
| ClaudeInputLifecycle.RefusedIff | src-tauri/src/agent_claude_input_lifecycle.rs:142-199 | a message is refused exactly when it cancels, discards or refuses a pending input, and then only the knowledge of support may change |
| ClaudeInputLifecycle.WithdrawableDroppedIff | src-tauri/src/agent_claude_input_lifecycle.rs:142-199 | a withdrawable input is dropped exactly by an accepted event that cancels, discards or refuses it |
| ClaudeInputLifecycle.OwnEventsAreNoted | src-tauri/src/agent_claude_input_lifecycle.rs:142-199 | an input that stays in the ledger has taken note of an event of its own - the results at its first start, its completion - and of no other |
| ClaudeInputLifecycle.LeavesPendingIff | src-tauri/src/agent_claude_input_lifecycle.rs:35-40 | under an accepted message a pending input leaves the ledger exactly when it has completed and a result was counted since it started |
| ClaudeInputLifecycle.SupportedIff | src-tauri/src/agent_claude_input_lifecycle.rs:142-173 | commands become known to be supported exactly when the initial one is queued or started, for good |
| ClaudeInputLifecycle.ReservedIff | src-tauri/src/agent_claude_input_lifecycle.rs:72-86 | each refusal of a reservation exactly when it applies; an admitted input begins without progress |
| ClaudeInputLifecycle.InputLifecycle.RememberInterrupted | src-tauri/src/agent_claude_input_lifecycle.rs:28-34 | the oldest interrupted id is dropped once 64 are remembered |
| ClaudeInputLifecycle.InputLifecycle.DischargeFinished | src-tauri/src/agent_claude_input_lifecycle.rs:35-40 | every finished input leaves pending |
| ClaudeInputLifecycle.InputLifecycle.TryReserve | src-tauri/src/agent_claude_input_lifecycle.rs:72-86 | admits an input, or says whether a stop is under way or the session cannot be steered |
| ClaudeInputLifecycle.InputLifecycle.DropAllPending | src-tauri/src/agent_claude_input_lifecycle.rs:105-111 | drains the pending inputs into the remembered ids, in an arbitrary order |
| ClaudeInputLifecycle.InputLifecycle.RememberEach | src-tauri/src/agent_claude_input_lifecycle.rs:105-121 | draining a hash map remembers each id once, in some order |
| ClaudeInputLifecycle.InputLifecycle.OpenInterrupt | src-tauri/src/agent_claude_input_lifecycle.rs:112-121 | drains the pending inputs and keeps them withdrawable |
| ClaudeInputLifecycle.InputLifecycle.RetractInterrupt | src-tauri/src/agent_claude_input_lifecycle.rs:122-134 | restores the withdrawable inputs that are not finished and forgets their ids |
| ClaudeInputLifecycle.InputLifecycle.RestoreEach | src-tauri/src/agent_claude_input_lifecycle.rs:122-134 | moving the inputs back one by one restores all of them, in any order |
| ClaudeInputLifecycle.InputLifecycle.DropPending | src-tauri/src/agent_claude_input_lifecycle.rs:135-141 | an abandoned input leaves pending |
| ClaudeInputLifecycle.InputLifecycle.Receive | src-tauri/src/agent_claude_input_lifecycle.rs:142-173 | one observed event: support, progress of pending and withdrawable inputs, results, discharge, and refusal |
| ClaudeInputLifecycle.InputLifecycle.TryClose | src-tauri/src/agent_claude_input_lifecycle.rs:180-187 | closes exactly when nothing is pending |
| ClaudeInputLifecycle.InputLifecycle.Names | src-tauri/src/agent_claude_input_lifecycle.rs:95-104 | tells whether an id names the initial command, a pending or a remembered one |
| LoginRegistry.BodiesRunAfterAllEarlierSessions | src-tauri/src/agent_mcp_server_login_registry.rs:233-265 | in every run of begins and shutdowns, a session whose body is about to run, running or returning has all sessions installed before it settled |
| LoginRegistry.BodiesNeverOverlap | src-tauri/src/agent_mcp_server_login_registry.rs:233-265 | in those runs at most one thread is between its last check and its settlement |
| LoginRegistry.ShutdownIsFinal | src-tauri/src/agent_mcp_server_login_registry.rs:233-328 | once the first shutdown has returned, every session installed before it took the slot has settled, and no body runs or starts ever after |
| LoginRegistry.AllSettledIff | src-tauri/src/agent_mcp_server_login_registry.rs:233-328 | in every run of begins and shutdowns, from the moment the first shutdown took the slot: all sessions installed before that have settled exactly when the last of them has |
| LoginRegistry.RunningKeepsLastUnsettled | src-tauri/src/agent_mcp_server_login_registry.rs:233-328 | after that moment a body that may still run is of such a session, and the last of them has not settled |
| LoginRegistry.FinalOnceLastSettled | src-tauri/src/agent_mcp_server_login_registry.rs:233-328 | a shutdown, the first or a later one, is final from the moment that last session has settled: all of them have, and no body runs or starts ever after |
| LoginRegistry.WaitingNeverDeadlocks | src-tauri/src/agent_mcp_server_login_registry.rs:181-186 | in every run, cancels included: whoever waits for a session waits for a cancelled one, and some thread that owes a settlement can go on |
| LoginRegistry.OnlyCancelsLetSessionsOverlap | src-tauri/src/agent_mcp_server_login_registry.rs:225-312 | in every run, cancels included, a session left unsettled when a later body may run is at or below one taken out by a cancel that has not settled either |
| LoginRegistry.SessionsOverlapIff | src-tauri/src/agent_mcp_server_login_registry.rs:225-312 | in every run, some earlier session is unsettled when a body may run exactly when some earlier session taken out by a cancel is |
| LoginRegistry.CancelLetsBodiesOverlap | src-tauri/src/agent_mcp_server_login_registry.rs:309-312 | a run in which a cancel empties the slot and two bodies run at once |
| LoginRegistry.SecondShutdownMayReturnEarly | src-tauri/src/agent_mcp_server_login_registry.rs:324-328 | a run in which a second shutdown returns while a body still runs, the session that the first one took not having settled |
| LoginRegistry.RunKeepsInv | src-tauri/src/agent_mcp_server_login_registry.rs:208-328 | in every reachable state, at or above any unsettled session that a thread has passed lies an unsettled session taken out of the slot without a successor, and each installed session is settled or owed a settlement by a thread |
| LoginRegistry.CancelledSessionsNeverRun | src-tauri/src/agent_mcp_server_login_registry.rs:233-265 | a session that is cancelled while its thread is at or before the check of that flag never runs its body, whatever happens afterwards, and has settled when its thread gives up |
| LoginRegistry.UnspawnedSessionsNeverRun | src-tauri/src/agent_mcp_server_login_registry.rs:233-265 | nor does a session whose worker could not be spawned, or that finds the registry closed at its last check |
| LoginRegistry.ClosedRegistryStartsNothing | src-tauri/src/agent_mcp_server_login_registry.rs:233-328 | once the registry is closed, no thread that has not passed its last check ever runs a body |
| LoginRegistry.BodyStartsIff | src-tauri/src/agent_mcp_server_login_registry.rs:233-265 | a session that has reaped its predecessor and goes on alone starts its body exactly when it is not cancelled, the registry is open and the worker can be spawned; otherwise it settles |
| LoginRegistry.AdmittedIffOpen | src-tauri/src/agent_mcp_server_login_registry.rs:241-243 | a call that begins is admitted exactly while the registry is open |
| LoginRegistry.RefusedSessionLeavesSlot | src-tauri/src/agent_mcp_server_login_registry.rs:314-317 | a refused session leaves the slot if it is still there, which cancels it, and no other session is touched |
| LoginRegistry.CancelWaitsForItsTarget | src-tauri/src/agent_mcp_server_login_registry.rs:309-312 | a cancel takes out only its target, marks it cancelled, and returns exactly when that has settled |
| LoginRegistry.BodyCanStart | src-tauri/src/agent_mcp_server_login_registry.rs:233-265 | with the slot free and the registry open a new session reaches its body |
| LoginRegistry.AgentMcpLoginRegistry.Exchange | src-tauri/src/agent_mcp_server_login_registry.rs:221-223 | puts a session into the slot and hands out the one before |
| LoginRegistry.AgentMcpLoginRegistry.TakeWhenHolding | src-tauri/src/agent_mcp_server_login_registry.rs:225-231 | empties the slot only when it holds the session asked for |
| LoginRegistry.AgentMcpLoginRegistry.Close | src-tauri/src/agent_mcp_server_login_registry.rs:324-328 | closes the registry and empties the slot |
| LoginSession.StateFollowsHistory | src-tauri/src/agent_mcp_server_login_registry.rs:45-157 | the state of a session is determined by its history: the first announcement offered, whether an uncancelled wait has collected it, the first result, and the two flags |
| LoginSession.TakenExactlyByFirstCollector | src-tauri/src/agent_mcp_server_login_registry.rs:115-136 | a wait takes the announcement exactly when it is the first wait after an announcement and before any cancel |
| LoginSession.AnnouncementIsHandedOutOnce | src-tauri/src/agent_mcp_server_login_registry.rs:115-136 | at most one wait takes the announcement |
| LoginSession.FirstAnnouncementIsHandedOut | src-tauri/src/agent_mcp_server_login_registry.rs:89-157 | what is taken is the first announcement offered, by the provider or by settling |
| LoginSession.ResultIsFinal | src-tauri/src/agent_mcp_server_login_registry.rs:83-97 | a recorded result never changes |
| LoginSession.SettledSessionsAnswer | src-tauri/src/agent_mcp_server_login_registry.rs:89-173 | after settling, which happens however the body ends, everybody who waits gets an answer |
| LoginSession.SucceededIff | src-tauri/src/agent_mcp_server_login_registry.rs:138-145 | success is reported exactly when the first result was one and is younger than the retention |
| LoginSession.WaitAnswers | src-tauri/src/agent_mcp_server_login_registry.rs:115-136 | what a wait answers, by the history alone: a cancel comes first, then a step taken before, then the first step offered, and only then the deadline |
| LoginSession.McpLoginSession.Cancel | src-tauri/src/agent_mcp_server_login_registry.rs:76-81 | sets the cancelled flag |
| LoginSession.McpLoginSession.RecordFinish | src-tauri/src/agent_mcp_server_login_registry.rs:83-87 | records the first result only |
| LoginSession.McpLoginSession.PublishStep | src-tauri/src/agent_mcp_server_login_registry.rs:149-156 | records the first announcement only |
| LoginSession.McpLoginSession.Settle | src-tauri/src/agent_mcp_server_login_registry.rs:89-97 | offers a failure, records a failed result unless there is one, and marks the session settled |
| LoginSession.McpLoginSession.TakeStep | src-tauri/src/agent_mcp_server_login_registry.rs:115-136 | one turn of the wait for the announcement |
| CliDiscovery.StoredSnapshotIsFresh | src-tauri/src/agent_cli_discovery.rs:292-344 | a stored snapshot is of the current generation, and no invalidation took effect since its build was admitted |
| CliDiscovery.OneBuilderWhileMarked | src-tauri/src/agent_cli_discovery.rs:321-343 | at most one build guard is outstanding, exactly while the cache is marked, and the mark is its generation; every exit, a panic included, releases it |
| CliDiscovery.HandInAnswersUnlessInvalidated | src-tauri/src/agent_cli_discovery.rs:293-319 | no snapshot is ever present when a build is handed in, and the build is answered with its own result exactly when no invalidation took effect while it ran |
| CliDiscovery.AnswersAreFresh | src-tauri/src/agent_cli_discovery.rs:376-390 | every environment handed out was built without an invalidation between the start of its build and the answer, and is of a generation no lower than when the call began |
| CliDiscovery.RunKeepsInv | src-tauri/src/agent_cli_discovery.rs:273-504 | over all interleavings the cache invariant holds, and an outstanding guard is of an older generation exactly when an invalidation followed its admission |
| CliDiscovery.BuiltEnvironmentIsShared | src-tauri/src/agent_cli_discovery.rs:293-319 | once a successful build is handed in, and as long as no invalidation takes effect, nobody builds and every waiting call is answered at once with that environment |
| CliDiscovery.FailedBuildIsRetried | src-tauri/src/agent_cli_discovery.rs:293-319 | a failed build is answered with its failure, or starts over after an invalidation; it is not stored, and the next waiting call builds anew for the generation of the moment |
| CliDiscovery.BuildsCarryTheirContents | src-tauri/src/agent_cli_discovery.rs:376-390 | a build that succeeds is of the generation and the time of its admission; one that does not gives its error |
| CliDiscovery.BuildsIffNobodyElseDoes | src-tauri/src/agent_cli_discovery.rs:480-504 | with nothing stored, a waiting call builds exactly when nobody else does, given the environment thrown away last |
| CliDiscovery.InvalidationTakesEffect | src-tauri/src/agent_cli_discovery.rs:464-478 | an invalidation raises the generation and retires the snapshot, leaving the mark of a build alone; at the largest generation it changes nothing |
| CliDiscovery.DiscoveryCache.TryBegin | src-tauri/src/agent_cli_discovery.rs:480-504 | one turn of the admission loop: cached, build, or wait |
| CliDiscovery.DiscoveryCache.Finish | src-tauri/src/agent_cli_discovery.rs:321-327 | clears the mark of this guard only |
| CliDiscovery.DiscoveryCache.SettleBuild | src-tauri/src/agent_cli_discovery.rs:293-319 | the three outcomes of handing in a build |
| CliDiscovery.DiscoveryCache.Discard | src-tauri/src/agent_cli_discovery.rs:464-478 | advances the generation and retires the snapshot, or fails at the largest generation and changes nothing |
| OutputBudget.KeptIsWhatFits | src-tauri/src/agent_cli_discovery.rs:922-944 | once all readers have ended, the outputs together are as long as everything read, cut at one byte past the limit |
| OutputBudget.TestRejectsExactlyTooMuch | src-tauri/src/agent_cli_discovery.rs:862-865 | the final length test rejects exactly the runs that read more than the limit |
| OutputBudget.ClaimsAreKept | src-tauri/src/agent_cli_discovery.rs:926-943 | a reader keeps what it claimed as far as the limit and one byte more reach, and ends exactly when it went past the limit |
| OutputBudget.OutputsArePrefixes | src-tauri/src/agent_cli_discovery.rs:922-944 | at any time a reader has kept a prefix of its own stream, and what its loop computes from the counter values it was given |
| OutputBudget.AcceptedOutputsAreComplete | src-tauri/src/agent_cli_discovery.rs:862-944 | in an accepted run every output is its whole stream |
| OutputBudget.CounterStaysBounded | src-tauri/src/agent_cli_discovery.rs:934-934 | the counter passes the limit by at most one buffer for each reader |
| OutputBudget.ReadAll | src-tauri/src/agent_cli_discovery.rs:926-943 | the reader loop keeps what is accepted of each read and stops after the one that passes the limit |
| RecencyQueue.QueueHoldsMostRecent | src-tauri/src/agent_cli_version.rs:278-330 | the retain, push and pop loop leaves exactly the 16 most recently pushed keys, each with its latest value |
| RecencyQueue.PushFinds | src-tauri/src/agent_cli_version.rs:278-330 | a pushed value is found; any other key keeps its value or has been dropped |
| RecencyQueue.Retain | src-tauri/src/agent_cli_version.rs:319-330 | keeps the entries of every other key in order |
| RecencyQueue.DropOldest | src-tauri/src/agent_cli_version.rs:319-330 | drops from the front while there are too many |
| RecencyQueue.PushBack | src-tauri/src/agent_cli_version.rs:319-330 | the whole update of the queue |
| CliVersion.WritersNeverGoBack | src-tauri/src/agent_cli_version.rs:260-330 | for each key the generation of whoever installs a result never decreases |
| CliVersion.SupersededProbesNeverInstall | src-tauri/src/agent_cli_version.rs:260-330 | a probe admitted before a forced refresh never installs its result once that refresh has been admitted, however the queues evict |
| CliVersion.QueuesStayBounded | src-tauri/src/agent_cli_version.rs:260-330 | both queues keep distinct keys and at most 16 entries, and the cache holds the latest installed results |
| CliVersion.RefreshedResultIsServed | src-tauri/src/agent_cli_version.rs:216-317 | a forced refresh that nothing overtook installs its result, and the next probe reads it back under the same generation |
| CliVersion.ForcedAdmissionIsNew | src-tauri/src/agent_cli_version.rs:260-298 | in every run a forced admission gets a generation above every other admitted or installed and no cached result, and fails exactly at the largest one |
| CliVersion.UnforcedAdmissionJoins | src-tauri/src/agent_cli_version.rs:260-298 | in every run any other admission joins the generation of its key, or opens the next when there is none, and sees the cached result |
| CliVersion.InstalledIffCurrent | src-tauri/src/agent_cli_version.rs:300-330 | in every run a result is installed exactly under the generation admitted for its key, and is then found |
| CliVersion.AgentCliVersionRegistry.AdmitProbe | src-tauri/src/agent_cli_version.rs:260-298 | joins the admitted generation or opens a new one; fails at the largest generation and changes nothing |
| CliVersion.AgentCliVersionRegistry.Remember | src-tauri/src/agent_cli_version.rs:300-330 | installs a result only under the generation admitted for its key |
| CatalogService.OneProbePerKey | src-tauri/src/agent_command_catalog_service.rs:118-223 | a root and provider are in flight exactly while one caller holds their guard, however it leaves |
| CatalogService.AnswersBelongToTheirCaller | src-tauri/src/agent_command_catalog_service.rs:194-223 | a catalog returned was fetched for exactly that root, workspace, provider and generation |
| CatalogService.AnsweredWhileCurrent | src-tauri/src/agent_command_catalog_service.rs:171-223 | at the last check the provider still had the generation of the catalog returned |
| CatalogService.LookUpServes | src-tauri/src/agent_command_catalog_service.rs:145-169 | fresh catalogs are younger than the time to live; stale ones are served only while another caller probes for the key; a probe starts only when none runs |
| CatalogService.FailuresLeaveCacheAlone | src-tauri/src/agent_command_catalog_service.rs:194-223 | over every run a step that changes the cache is that of a caller whose probe returned, whose output was parsed and whose generation was then current, and it installs that very catalog |
| CatalogService.ChangedCacheIff | src-tauri/src/agent_command_catalog_service.rs:194-223 | a caller that ends with an answer or a refusal has changed the cache exactly when its probe and parse succeeded and its generation was current at the check after them |
| CatalogService.InstallerMayBeRejected | src-tauri/src/agent_command_catalog_service.rs:213-223 | a run in which a caller is rejected although it has changed the cache, because its generation moved on after the check |
| CatalogService.CacheStaysBounded | src-tauri/src/agent_command_catalog_service.rs:80-106 | cached keys stay distinct, at most 16, and each catalog is cached under the owner and generation it was fetched for |
| CatalogService.PlaceReplacesItsKey | src-tauri/src/agent_command_catalog_service.rs:89-92 | installing replaces the entry of its key and leaves every other as it was |
| CatalogService.InstalledIsCachedUnlessOldest | src-tauri/src/agent_command_catalog_service.rs:93-105 | a catalog just installed is cached unless its key is new, the cache is full and everything cached is younger |
| CatalogService.NewcomerIsEvictedAtOnce | src-tauri/src/agent_command_catalog_service.rs:80-106 | a run with sixteen catalogs cached in which the newcomer, the oldest by its time of asking, is the one evicted |
| CatalogService.LookUpDecides | src-tauri/src/agent_command_catalog_service.rs:145-169 | in every run a catalog cached for the caller within the last minute is served; an older one exactly while a probe for its key runs; otherwise the caller probes, or is told that loading is under way |
| CatalogService.InstalledIsServed | src-tauri/src/agent_command_catalog_service.rs:80-106 | a catalog that was installed and not evicted is served to its owner for a minute |
| CatalogService.ServingDecides | src-tauri/src/agent_command_catalog_service.rs:194-223 | what is served is answered exactly while its generation is current; otherwise the caller is told whether the provider changed or was disabled |
| CatalogService.ProbeReturnDecides | src-tauri/src/agent_command_catalog_service.rs:194-223 | a probe that returns goes on with its catalog; one that fails is rejected with its error and frees its key |
| CatalogService.CheckDecides | src-tauri/src/agent_command_catalog_service.rs:171-223 | after the probe the caller goes on exactly under the current generation, and is turned away with its key freed otherwise |
| CatalogService.UnwindingFrees | src-tauri/src/agent_command_catalog_service.rs:118-125 | a caller that unwinds frees its own key and no other |
| CatalogService.EvictDropsOldest | src-tauri/src/agent_command_catalog_service.rs:93-105 | what eviction drops is no younger than anything it keeps |
| CatalogService.AgentCommandCatalogService.Find | src-tauri/src/agent_command_catalog_service.rs:145-169 | the lookup and its mark |
| CatalogService.AgentCommandCatalogService.Store | src-tauri/src/agent_command_catalog_service.rs:80-106 | the replacement and the eviction loop |
| CatalogService.AgentCommandCatalogService.Release | src-tauri/src/agent_command_catalog_service.rs:118-125 | the drop of a guard |
| AttachmentClaim.ClaimSucceedsIff | src-tauri/src/agent_attachment_store.rs:263-285 | a claim succeeds exactly when the ids are few, well formed, distinct and pending for the workspace, the directory can be made and no single rename has an obstacle |
| AttachmentClaim.ClaimRefusedForIds | src-tauri/src/agent_attachment_store.rs:932-945 | more than eight ids, or the first one that is malformed or a repetition, decide the error before anything is touched |
| AttachmentClaim.ClaimRefusedForRecords | src-tauri/src/agent_attachment_store.rs:473-497 | the first id that is not pending for the workspace decides the error, and nothing is touched |
| AttachmentClaim.ClaimRefusedByDirectory | src-tauri/src/agent_attachment_store.rs:263-276 | a directory that cannot be made refuses a claim with nothing else against it, and everything is put back |
| AttachmentClaim.ClaimRefusedByRename | src-tauri/src/agent_attachment_store.rs:517-552 | the first attachment whose path or file stands in the way decides the error, the path coming first |
| AttachmentClaim.FailedClaimRestores | src-tauri/src/agent_attachment_store.rs:263-285 | a claim that fails, at whatever point, leaves registry and files exactly as before, provided its targets were free |
| AttachmentClaim.FailedRenamesRestoreIff | src-tauri/src/agent_attachment_store.rs:517-552 | a failed batch leaves the files as they were exactly when no file moved before the failure had overwritten one; otherwise precisely those are lost |
| AttachmentClaim.FailedClaimLosesOverwrittenFile | src-tauri/src/agent_attachment_store.rs:517-552 | a claim of two attachments whose first target exists and whose second rename is refused: everything is put back but the overwritten file |
| AttachmentClaim.SuccessfulClaimMoves | src-tauri/src/agent_attachment_store.rs:263-552 | a successful claim takes exactly its records out of pending, moves exactly their files into the thread and reports them in order |
| AttachmentClaim.SuccessfulClaimRecords | src-tauri/src/agent_attachment_store.rs:506-515 | after a successful claim every attachment is recorded for the thread, within the bound of 512 |
| AttachmentClaim.RollBackUndoesMoves | src-tauri/src/agent_attachment_store.rs:954-958 | renaming back in reverse order restores every file but those overwritten |
| AttachmentClaim.RestoreUndoesReserve | src-tauri/src/agent_attachment_store.rs:473-504 | restoring what was reserved gives the pending map back |
| AttachmentClaim.IdSetAccepted | src-tauri/src/agent_attachment_store.rs:932-945 | an id set is accepted exactly when it has at most eight, well formed, distinct ids |
| AttachmentClaim.EvictionTakesOldest | src-tauri/src/agent_attachment_store.rs:960-970 | eviction removes exactly the excess, and everything it removes comes before all it keeps by sequence and id, whatever order the map is traversed in |
| AttachmentClaim.ClaimedStaysBounded | src-tauri/src/agent_attachment_store.rs:506-515 | the claimed map never exceeds 512 records |
| AttachmentClaim.MovesElsewhere | src-tauri/src/agent_attachment_store.rs:517-552 | a path that is neither source nor target of a batch is left alone |
| AttachmentClaim.AgentAttachmentStore.ReservePending | src-tauri/src/agent_attachment_store.rs:473-497 | reserves all records or none |
| AttachmentClaim.AgentAttachmentStore.RestorePending | src-tauri/src/agent_attachment_store.rs:499-504 | puts reserved records back |
| AttachmentClaim.AgentAttachmentStore.RollBackRenames | src-tauri/src/agent_attachment_store.rs:954-958 | the reverse loop |
| AttachmentClaim.AgentAttachmentStore.RenameIntoThread | src-tauri/src/agent_attachment_store.rs:517-552 | renames one by one and rolls back at the first obstacle |
| AttachmentClaim.AgentAttachmentStore.EvictOldestClaimed | src-tauri/src/agent_attachment_store.rs:960-970 | sorts and drops the excess |
| AttachmentClaim.AgentAttachmentStore.EnterClaimed | src-tauri/src/agent_attachment_store.rs:506-515 | makes room and records the claim |
| AttachmentClaim.AgentAttachmentStore.ClaimAttachments | src-tauri/src/agent_attachment_store.rs:263-285 | the whole claim |
| AttachmentRaces.NoAttachmentIsTakenTwice | src-tauri/src/agent_attachment_store.rs:449-504 | over every interleaving of claims and releases, no attachment is held by two calls, nor pending while held |
| AttachmentRaces.EveryAttachmentIsAccountedFor | src-tauri/src/agent_attachment_store.rs:254-515 | over every interleaving each staged record is pending as it was staged, held by a call, or claimed or released, and only one of these |
| AttachmentRaces.ClaimsAreIsolated | src-tauri/src/agent_attachment_store.rs:263-552 | whatever runs at the same time, a claim that records has moved exactly its own files with the contents of the reservation, and one that gives up leaves its files as at the reservation, but for overwritten targets |
| AttachmentRaces.StartIsReservation | src-tauri/src/agent_attachment_store.rs:473-497 | what a claim remembers is its own files at the very step that reserved them |
| AttachmentRaces.UninterruptedClaimIsClaim | src-tauri/src/agent_attachment_store.rs:263-552 | step by step and uninterrupted, from any state that other calls have left, a claim does exactly what the claim as a whole does, with the same error or success |
| AttachmentRaces.ReleaseGoesOn | src-tauri/src/agent_attachment_store.rs:254-261 | a release of another workspace's attachment is refused, of nothing pending does nothing, and otherwise drops the record first and then the file |
| AttachmentRaces.ClaimedKeepsItsBound | src-tauri/src/agent_attachment_store.rs:506-515 | the claimed map stays within 512 over every interleaving |
| AttachmentSweep.DirectoryFinishes | src-tauri/src/agent_attachment_store.rs:693-737 | with a stable listing and successful deletions, a directory of n files is finished after exactly max(1, ceil(n/512)) sweeps; all before the last report that they were cut short, and the last rewinds the cursor |
| AttachmentSweep.EntryStaysIff | src-tauri/src/agent_attachment_store.rs:693-737 | a file stays exactly when it had not expired at the time its window was examined |
| AttachmentSweep.CursorMeetsUnexamined | src-tauri/src/agent_attachment_store.rs:701-713 | after each sweep that was cut short the cursor points at the first file not yet examined |
| AttachmentSweep.SweepNextWindow | src-tauri/src/agent_attachment_store.rs:701-736 | one more sweep examines exactly the next window of 512 |
| AttachmentSweep.ExpiredIff | src-tauri/src/agent_attachment_store.rs:972-979 | a file expires exactly an hour after its last change when it is a partial one, and a day after it otherwise |
| AttachmentSweep.ForgottenIff | src-tauri/src/agent_attachment_store.rs:714-748 | the records forgotten are exactly those of the files removed |
| AttachmentSweep.PendingSweeper.Examine | src-tauri/src/agent_attachment_store.rs:714-734 | the loop over one window: what stays, what is removed, which records are forgotten |
| AttachmentSweep.PendingSweeper.SweepPending | src-tauri/src/agent_attachment_store.rs:693-748 | one sweep, its cursor and its result |
| Text.SanitizedIsBounded | src-tauri/src/agent_command_catalog_domain.rs:182-214 | with room for one character, sanitized text is not empty, within its bytes, trimmed and without controls |
| Text.SanitizingIsIdempotent | src-tauri/src/agent_command_catalog_domain.rs:182-214 | sanitizing twice is sanitizing once |
| Text.NarrowLimitLeavesNothing | src-tauri/src/agent_command_catalog_domain.rs:202-214 | below four bytes a wide character leaves an empty text, which is not bounded text |
| Text.SanitizedIsBoundedIff | src-tauri/src/agent_command_catalog_domain.rs:182-214 | for any limit, sanitized text is bounded text exactly when the first character that is no separator fits |
| Text.WordsOfJoin | src-tauri/src/agent_command_catalog_domain.rs:183-197 | cutting joined words into words again gives the words |
| Text.SanitizedWords | src-tauri/src/agent_command_catalog_domain.rs:182-214 | text joined of words is sanitized to those words, cut off at the end only when there is no room |
| Text.SanitizedIsLongest | src-tauri/src/agent_command_catalog_domain.rs:182-214 | of the beginnings of the joined words that are bounded text, the sanitized text is the longest: nothing is cut off that there is room for |
| Text.SanitizedHasOnlyItsCharacters | src-tauri/src/agent_command_catalog_domain.rs:182-214 | the sanitizer adds no character but spaces |
| Text.Flatten | src-tauri/src/agent_command_catalog_domain.rs:183-197 | the single pass with a pending space is the join of the words |
| Text.SanitizedText | src-tauri/src/agent_command_catalog_domain.rs:182-214 | the sanitizer, pass and truncation |
| Text.PrefixOnBoundary | src-tauri/src/agent_command_catalog_domain.rs:202-209 | walking back to a character boundary gives the longest prefix within the bytes |
| EndpointOrigin.OriginIsIdempotent | src-tauri/src/agent_mcp_servers_domain.rs:176-191 | the origin of an origin is itself |
| EndpointOrigin.OwnOriginIff | src-tauri/src/agent_mcp_servers_domain.rs:154-191 | an address is its own origin exactly when the validity check accepts it and it is in lower case |
| EndpointOrigin.OriginShape | src-tauri/src/agent_mcp_servers_domain.rs:176-191 | an origin is http or https followed by a lowered, valid authority |
| EndpointOrigin.OriginDropsUserAndPath | src-tauri/src/agent_mcp_servers_domain.rs:185-191 | user information, path, query and fragment make no difference to the origin |
| EndpointOrigin.OriginCharacters | src-tauri/src/agent_mcp_servers_domain.rs:130-174 | an origin holds no user information, query, fragment or back slash |
| EndpointOrigin.OriginOfParts | src-tauri/src/agent_mcp_servers_domain.rs:154-191 | the origin of an address with or without user information and tail: scheme and host in lower case, exactly when the host is a name or a bracketed address with an optional port and the origin has at most 256 bytes |
| EndpointOrigin.OriginNeedsHttp | src-tauri/src/agent_mcp_servers_domain.rs:176-183 | only an address of the schemes http and https, in either case, has an origin |
| EndpointOrigin.AuthorityIff | src-tauri/src/agent_mcp_servers_domain.rs:130-164 | the check by first bracket and last colon accepts exactly a named or bracketed host with an optional port |
| EndpointOrigin.PortIff | src-tauri/src/agent_mcp_servers_domain.rs:137-141 | a port is one to five digits that write a number from 1 to 65535 |
| McpDetail.DetailIsValid | src-tauri/src/agent_mcp_servers_domain.rs:387-412 | whatever a provider sends, a failure detail is valid and holds no user information mark, assignment, back slash or bidirectional control |
| McpDetail.DetailIsHarmless | src-tauri/src/agent_mcp_servers_domain.rs:336-412 | word by word: the detail shows the replacements of the words the provider sent, runs of redactions reduced; each is redacted, or free of separators, paths, assignments, addresses and token runs up to an origin at its end, and only the last may be cut |
| McpDetail.RedactionIsWordByWord | src-tauri/src/agent_mcp_servers_domain.rs:361-385 | the fold with its carried flag redacts every option and whatever follows one, treats each other word on its own, and reduces runs of redactions to one |
| McpDetail.OptionsAreHidden | src-tauri/src/agent_mcp_servers_domain.rs:327-372 | a word of wrapping characters, dashes and a name that begins alphanumeric, unless it writes a negative number, is redacted, and so is the word after it |
| McpDetail.OptionWordIff | src-tauri/src/agent_mcp_servers_domain.rs:327-334 | the test for options finds exactly the words of that form |
| McpDetail.ShownAsSentIff | src-tauri/src/agent_mcp_servers_domain.rs:353-385 | a word without an address is shown as it was sent exactly when it is no option, follows none and holds no path, assignment, user information or token run; any other is redacted |
| McpDetail.AddressIsReducedToOrigin | src-tauri/src/agent_mcp_servers_domain.rs:336-351 | of a word with an address that no option hides, what comes before is shown unless it is telling, and of the address its origin only |
| McpDetail.DetailIff | src-tauri/src/agent_mcp_servers_domain.rs:387-412 | a failed server has a detail exactly when its error, cut to size, holds a visible word |
| McpDetail.LongDetailEndsBetweenWords | src-tauri/src/agent_mcp_servers_domain.rs:387-395 | raw text beyond 4096 bytes is cut at its last separator within them |
| McpDetail.SensitiveRunIff | src-tauri/src/agent_mcp_servers_domain.rs:304-316 | a sensitive run is found exactly when some stretch of token characters is long enough, with a digit or beyond 32 |
| ServersDomain.AssembledIsValid | src-tauri/src/agent_mcp_servers_domain.rs:421-453 | assembling well built candidates never fails: the snapshot validates, is sorted by name with distinct names, and holds exactly the servers kept |
| ServersDomain.ClaudeSnapshotIsValid | src-tauri/src/agent_mcp_servers_domain.rs:455-521 | for every Claude payload the assembled snapshot validates |
| ServersDomain.CodexSnapshotIsValid | src-tauri/src/agent_mcp_servers_domain.rs:523-593 | for every Codex payload the assembled snapshot validates |
| ServersDomain.ChosenIff | src-tauri/src/agent_mcp_servers_domain.rs:426-443 | a server is chosen exactly when it is the first candidate with its valid name |
| ServersDomain.ValidIff | src-tauri/src/agent_mcp_servers_domain.rs:201-236 | a snapshot passes exactly when version, bounds, names and every field are as required, and which error it gets otherwise |
| ServersDomain.TruncatedIff | src-tauri/src/agent_mcp_servers_domain.rs:421-453 | a snapshot counts as truncated exactly when the input was incomplete, more than 128 candidates came, or one was unnamed or a repetition |
| ServersDomain.CodexStatusIff | src-tauri/src/agent_mcp_servers_domain.rs:523-548 | each status of a Codex entry, by its runtime status or, without one, by its signs of trouble and of life |
| ServersDomain.ClaudeServerReflectsEntry | src-tauri/src/agent_mcp_servers_domain.rs:455-509 | an entry becomes a server exactly when it has a name, and each field follows from its own field of the entry |
| ServersDomain.CodexServerReflectsEntry | src-tauri/src/agent_mcp_servers_domain.rs:550-580 | the same for a Codex entry |
| Sorting.TextLeqIff | src-tauri/src/agent_mcp_servers_domain.rs:444-444 | names are ordered by the first character in which they differ, a beginning coming first |
| ServersDomain.Collect | src-tauri/src/agent_mcp_servers_domain.rs:426-443 | the loop keeps the first 128 chosen servers, and reports truncation exactly when the input was incomplete or fewer were kept than there were candidates |
| ServersDomain.Assemble | src-tauri/src/agent_mcp_servers_domain.rs:421-453 | the whole assembly with its final validation |
| ServersDomain.ClaudeServersAreWellBuilt | src-tauri/src/agent_mcp_servers_domain.rs:489-509 | every server built from a Claude entry is valid but for its name |
| ServersDomain.CodexServersAreWellBuilt | src-tauri/src/agent_mcp_servers_domain.rs:564-580 | every server built from a Codex entry is valid but for its name |
| ServersDomain.MarkDisabled | src-tauri/src/agent_mcp_servers_domain.rs:612-622 | marks in place the servers that are not live and disabled by the configuration |
| ServersDomain.MarkMeans | src-tauri/src/agent_mcp_servers_domain.rs:605-622 | a server ends disabled exactly when it was, or when it is configured so and not live |
| ServersDomain.MarkingKeepsValid | src-tauri/src/agent_mcp_servers_domain.rs:612-622 | marking keeps a valid snapshot valid and sorted |
| Framing.FramingIsChunkIndependent | src-tauri/src/agent_mcp_servers_protocol.rs:79-101 | for any split of a stream the pushes overflow exactly when some line is too long, and otherwise return its lines and hold its tail |
| Framing.LinesReassemble | src-tauri/src/agent_mcp_servers_protocol.rs:79-101 | the lines and the tail are the stream cut at its newlines |
| Framing.FrameIsLines | src-tauri/src/agent_mcp_servers_protocol.rs:79-101 | framing from the start gives the lines of the stream, exactly when all fit |
| Framing.BoundedLines.Push | src-tauri/src/agent_mcp_servers_protocol.rs:79-101 | one push: its lines, or the latched overflow that loses them |
| QuestionReader.ReadsResynchronise | src-tauri/src/agent_claude_questions.rs:53-74 | for any split into reads, exactly the terminated lines within the limit are handled, in order, and each longer line that looks like a control request fails the session once |
| QuestionReader.ReaderResynchronises | src-tauri/src/agent_claude_questions.rs:53-74 | the same for a stream observed byte by byte |
| QuestionReader.ClaudeQuestionReader.Read | src-tauri/src/agent_claude_questions.rs:53-74 | the loop over the bytes of one read |
| ChunkObserver.ObservingIsChunkIndependent | src-tauri/src/agent_mcp_server_login_protocol.rs:198-211 | a phase machine behind the framer reaches the same phase and outcome for every split of a stream without oversized lines |
| ChunkObserver.ChunksOutcome | src-tauri/src/agent_mcp_server_login_protocol.rs:198-211 | where any chunks lead: the lines completed before the chunk with an oversized line are handled, those in it are not, and a machine that has not ended by then fails |
| ChunkObserver.CutMakesNoDifferenceIff | src-tauri/src/agent_mcp_server_login_protocol.rs:198-211 | a split agrees with the single chunk exactly when no line is oversized or the lines before that chunk make no difference to the failed machine |
| LoginProtocol.ClaudeLoginIsChunkIndependent | src-tauri/src/agent_mcp_server_login_protocol.rs:198-253 | so does the Claude login, from any state |
| LoginProtocol.CodexLoginIsChunkIndependent | src-tauri/src/agent_mcp_server_login_protocol.rs:359-421 | so does the Codex login, from any state |
| LoginProtocol.ClaudeCutMakesNoDifferenceIff | src-tauri/src/agent_mcp_server_login_protocol.rs:176-253 | for the Claude login with an oversized line: the split makes no difference exactly when the lines completed in earlier chunks neither announced anything of their own nor told of success |
| LoginProtocol.CodexCutMakesNoDifferenceIff | src-tauri/src/agent_mcp_server_login_protocol.rs:341-421 | the same exact condition for the Codex login |
| LoginProtocol.OversizedLineHidesReply | src-tauri/src/agent_mcp_server_login_protocol.rs:198-211 | with an oversized line the split matters: the reply completing a login is lost when it shares a chunk with such a line |
| LoginProtocol.WritesFollowScript | src-tauri/src/agent_mcp_server_login_protocol.rs:213-304 | a login writes a prefix of its script: clearing first only when signing in again, authentication once, then numbered polls |
| LoginProtocol.SucceededIffSeenConnected | src-tauri/src/agent_mcp_server_login_protocol.rs:238-250 | a login has succeeded exactly when an answer to one of its outstanding polls showed its server connected |
| LoginProtocol.FirstNamedDecides | src-tauri/src/agent_mcp_server_login_protocol.rs:159-173 | presence is decided by the first entry of the name |
| LoginProtocol.AuthenticationIsAnnounced | src-tauri/src/agent_mcp_server_login_protocol.rs:140-157 | what an accepted authentication announces and whether polling begins, by the fields of its body; one that says less than it must is a failure |
| LoginProtocol.RefusalEndsLogin | src-tauri/src/agent_mcp_server_login_protocol.rs:213-236 | a refused request ends the login with the reason for it, unless something was announced before |
| LoginProtocol.StatusReplyDecides | src-tauri/src/agent_mcp_server_login_protocol.rs:238-250 | a status reply ends the login with success when the server is connected, without when it is gone, and makes room for the next poll otherwise |
| LoginProtocol.ForeignRepliesAreIgnored | src-tauri/src/agent_mcp_server_login_protocol.rs:213-253 | no reply but the one its phase awaits changes a login |
| LoginProtocol.LoginWritesIff | src-tauri/src/agent_mcp_server_login_protocol.rs:273-304 | each request is written exactly in the phase that asks for it, a poll when none is outstanding and the interval has passed |
| LoginProtocol.CompletionEndsLoginIff | src-tauri/src/agent_mcp_server_login_protocol.rs:325-341 | a notice ends an awaited Codex login exactly when it is of this server and of no other login, with the success it tells |
| LoginProtocol.AcceptedLoginIsAnnounced | src-tauri/src/agent_mcp_server_login_protocol.rs:404-421 | an accepted Codex request announces its address and awaits the notice; without an address it fails |
| LoginProtocol.CodexRepliesDecide | src-tauri/src/agent_mcp_server_login_protocol.rs:370-402 | the handshake leads on, and each refusal ends the login with its reason |
| LoginProtocol.CodexSucceededIffTold | src-tauri/src/agent_mcp_server_login_protocol.rs:325-421 | over every run a Codex login asks at most once, and has succeeded exactly when a notice of this server and of no other login told it so while it waited |
| LoginProtocol.ClaudeMcpLogin.FailWith | src-tauri/src/agent_mcp_server_login_protocol.rs:188-191 | keeps an earlier announcement and ends |
| LoginProtocol.ClaudeMcpLogin.ReceivePoll | src-tauri/src/agent_mcp_server_login_protocol.rs:238-250 | connected and missing end the login, anything else clears the outstanding poll |
| LoginProtocol.ClaudeMcpLogin.Receive | src-tauri/src/agent_mcp_server_login_protocol.rs:213-253 | one reply in each phase |
| LoginProtocol.ClaudeMcpLogin.Advance | src-tauri/src/agent_mcp_server_login_protocol.rs:273-304 | what to write next |
| LoginProtocol.ClaudeMcpLogin.Take | src-tauri/src/agent_mcp_server_login_protocol.rs:198-211 | one chunk of output |
| LoginProtocol.CodexMcpLogin.FailWith | src-tauri/src/agent_mcp_server_login_protocol.rs:354-357 | keeps an earlier announcement and ends |
| LoginProtocol.CodexMcpLogin.Receive | src-tauri/src/agent_mcp_server_login_protocol.rs:370-421 | one message in each phase |
| LoginProtocol.CodexMcpLogin.Advance | src-tauri/src/agent_mcp_server_login_protocol.rs:423-430 | asks for the login once the connection is established |
| LoginProtocol.CodexMcpLogin.Take | src-tauri/src/agent_mcp_server_login_protocol.rs:359-368 | one chunk of output |
| StatusPoll.DoneIsJustified | src-tauri/src/agent_mcp_servers_protocol.rs:228-273 | done means the deadline or the 48 polls are spent, or the accepted snapshots are all the same over a span of at least stable_for with no server connecting |
| StatusPoll.StepIsDoneIff | src-tauri/src/agent_mcp_servers_protocol.rs:236-273 | a step reports done exactly when there is a snapshot and such a reason |
| StatusPoll.StepWritesIff | src-tauri/src/agent_mcp_servers_protocol.rs:250-283 | a step writes exactly when every poll was answered, there is no reason to stop and the interval has passed |
| StatusPoll.PollingIsBounded | src-tauri/src/agent_mcp_servers_protocol.rs:250-283 | at most 48 requests, never two outstanding, spaced by the interval |
| StatusPoll.StaleReplyIsIgnored | src-tauri/src/agent_mcp_servers_protocol.rs:191-218 | a reply to any poll but the outstanding one changes nothing |
| StatusPoll.StepFailsIff | src-tauri/src/agent_mcp_servers_protocol.rs:181-234 | a step reports a failure exactly when some event made the poll fail that way: a line too long, a refused initialization, or a refusal or invalid snapshot in answer to the outstanding poll |
| StatusPoll.InitializedAtFirstReply | src-tauri/src/agent_mcp_servers_protocol.rs:220-226 | a poll counts as initialized from the first reply to its initialization |
| StatusPoll.DoneIsFinal | src-tauri/src/agent_mcp_servers_protocol.rs:260-284 | once done, a poll reports done for good and nothing changes it |
| StatusPoll.ClaudeMcpStatusPoll.Observe | src-tauri/src/agent_mcp_servers_protocol.rs:181-234 | one reply |
| StatusPoll.ClaudeMcpStatusPoll.Advance | src-tauri/src/agent_mcp_servers_protocol.rs:260-284 | one step |
| SkillsPoll.GivesUpOnlyOnTime | src-tauri/src/agent_command_catalog_protocol.rs:215-234 | a poll gives up exactly when its time cap has passed with nothing answered, never for the number of polls alone |
| SkillsPoll.StepIsDoneIff | src-tauri/src/agent_command_catalog_protocol.rs:215-231 | a step reports done exactly when something was answered and it is unchanged for long enough or a cap is reached |
| SkillsPoll.StepWritesIff | src-tauri/src/agent_command_catalog_protocol.rs:215-250 | a step polls again exactly when every poll was answered, no end is reached and the interval has passed |
| SkillsPoll.PollingIsBounded | src-tauri/src/agent_command_catalog_protocol.rs:215-250 | at most 16 polls, one at a time, spaced by the interval |
| SkillsPoll.CutShowsIff | src-tauri/src/agent_command_catalog_protocol.rs:28-171 | output read at one time: its split shows in the next step exactly when a line is too long and a line completed in an earlier chunk had already failed the poll |
| SkillsPoll.FailureIff | src-tauri/src/agent_command_catalog_protocol.rs:171-234 | over every run a poll has failed in some way exactly when some event made it: a line too long, a refused handshake, a refusal or invalid catalog in answer to the outstanding poll, or the time cap with nothing answered |
| SkillsPoll.DoneIsFinal | src-tauri/src/agent_command_catalog_protocol.rs:215-231 | a step that reports done marks the poll, and nothing changes it from then on |
| SkillsPoll.CodexSkillsPoll.ObserveReply | src-tauri/src/agent_command_catalog_protocol.rs:171-213 | one response |
| SkillsPoll.CodexSkillsPoll.Advance | src-tauri/src/agent_command_catalog_protocol.rs:215-251 | one step |
| JpegScan.DimensionsIffLaidOut | src-tauri/src/agent_attachment_image.rs:137-168 | the scan yields dimensions exactly for bytes laid out as fewer than 256 segments, with any fill bytes, followed by a frame header with those dimensions |
| JpegScan.ScanOfLayout | src-tauri/src/agent_attachment_image.rs:137-168 | the scan of a layout finds its frame exactly when the budget outlasts the segments |
| JpegScan.LayoutOfScan | src-tauri/src/agent_attachment_image.rs:137-168 | whatever the scan finds stands at the end of such a layout |
| JpegScan.SkipFillBytes | src-tauri/src/agent_attachment_image.rs:140-142 | skips exactly the fill bytes |
| JpegScan.ReadMarkerAt | src-tauri/src/agent_attachment_image.rs:143-161 | reads one marker without leaving the bytes, and moves on by at least two |
| JpegScan.JpegDimensions | src-tauri/src/agent_attachment_image.rs:137-164 | the loop over segments |
| Interactions.ObserverStaysUntilQuiet | src-tauri/src/agent_interactions.rs:59-129 | an installed observer stays exactly until the first moment at which it has been released and no settlement is under way |
| Interactions.NumbersIncrease | src-tauri/src/agent_interactions.rs:31-49 | the numbers of one task strictly increase, also across the moment it starts to share, and so do those of all sharing tasks together |
| Interactions.AgentInteractionChanges.Install | src-tauri/src/agent_interactions.rs:80-87 | installs an observer and forgets a release |
| Interactions.AgentInteractionChanges.TakeReleased | src-tauri/src/agent_interactions.rs:59-66 | takes a released observer when nothing is being settled |
| Interactions.AgentInteractionChanges.LetGo | src-tauri/src/agent_interactions.rs:89-96 | releases the observer |
| Interactions.AgentInteractionChanges.BeginSettling | src-tauri/src/agent_interactions.rs:98-103 | counts a settlement |
| Interactions.AgentInteractionChanges.DropSettlement | src-tauri/src/agent_interactions.rs:118-127 | ends a settlement and takes a released observer |

## Left out

- Process spawning, pipes, file locks and real clocks: steps, parameters and integer times stand for them; the polling of a child process in `settle_shell` is not part of this model.
- JSON parsing: provider messages are datatypes, and parsing a line is a parameter of the framed machines.
- Path construction and symbolic links (`agent_attachment_paths.rs`): paths are built totally, since ids and extensions are validated before, and the thread id is taken as valid.
- Random identifiers, hashes and fingerprints: fresh or abstract values stand for them.
- Poisoned locks: every lock is taken successfully.
- The combined limit on pending attachments in `reserve_capacity`, which is checked before the file is written and not enforced atomically.
- Staging, sweeping and removing threads while a claim is under way: `AttachmentRaces` interleaves claims and releases only.
- Sweeping whole thread directories (`sweep_orphan_thread_directories`) and resolving attachments for a turn: lookups over the file system only.
- `CodexMcpStatusRequest`: a short handshake over the same framing, whose one change to a snapshot is `ServersDomain.MarkDisabled`.
- `LineAssembler`: it frames as `BoundedLines` does, but its callback has already been called for the lines completed before an overflow; both of its users then drop those lines, which is how `SkillsPoll` models it.
- The catalog's own `assemble`, name checks and provider parsers: smaller versions of what `ServersDomain` proves.
- Question parsing and answering, approval texts and validation of requests: validators without state.
- PNG, GIF and WebP dimensions: fixed offsets only.
- The grammar of version strings in `agent_cli_version.rs`: a validator without state.
- Notifying observers and catching their panics: only how long an observer stays installed is modelled.
- Tauri commands, workspace trust and all of the TypeScript: wiring around these parts.
- `LoginProtocol.WritesFollowScript`: polls are numbered without the saturation at 64 bits, which no run of a login reaches.
