# Verification of the Almirant agent-event pipeline and job scheduler

This project models, in Dafny 4.11, the parts of the repository whose correctness rests on reasoning over many
steps, and proves what they promise for every input and every interleaving. `dafny verify dfyconfig.toml` checks
all of it.

- `DependencyGraph.dfy`: the job dependency scheduler. Cycle detection is correct in both directions; the layers of
  the plan are the jobs' longest-chain lengths, agree with the plain scan, and are as few as possible.
- `JobTurnstile.dfy`, `SequenceGuard.dfy`, `CanonicalDelivery.dfy`, `LegacyDelivery.dfy`: how the web bridge moves
  events from the stream to the database and the renderer. Durable events are modelled as a state machine with
  redelivery, lost responses, retries and crashes: what is safe in every run, and which failures are retried, completed
  or left open. Legacy events are followed end to end from arrival to projection counters, across restarts of the
  bridge: which are sent on, and how they are numbered.
- `EventBatcher.dfy`, `DurableCollector.dfy`: the batching in front of the persistence API. Nothing is lost or
  reordered, it is known exactly when events are left unsent, and every waiting caller is settled exactly once, by the
  request that carried its own event.
- `SessionProjection.dfy`, `SessionStory.dfy`: the reducer that folds canonical events into a session, with its bounded
  window of ids, and what the session shows, told from the accepted events alone.
- `Json.dfy`, `MarkerScan.dfy`, `WaveMarker.dfy`, `MarkerStrip.dfy`, `MarkerForms.dfy`: wave markers, which nest JSON
  strings, POSIX single quotes and a brace scanner. A chain of built commands parses to its events, and is stripped to
  the text around them, under conditions that are proved to be exact; `MarkerForms.dfy` has the laws for any command,
  with markers in double quotes or none, malformed or unclosed.
- `EnvelopeCodec.dfy`: the flat field lists of canonical and native envelopes.
- `SqlLexer.dfy`, `SqlText.dfy`: the lexer behind the currency-rates migration check and the quoting of its `format`
  evaluator, with laws for every kind of token, comment and literal.
- `HandOffQueue.dfy`, `LineSplitter.dfy`: the BullMQ hand-off, and the line splitter with the bounded job log.
- `Characters.dfy`, `Decimal.dfy`, `Separator.dfy`, `Sequences.dfy`, `Wrappers.dfy`: shared helpers.

A run of code between two awaits is one atomic step. A protocol is a total step function on states, in which a step
that cannot happen changes nothing, and its theorems speak about the state after any list of steps. Where the source
updates an object in place, a class with the same fields and methods is proved to do exactly those steps, and where it
loops, a method with the same loop is proved against the function that the theorems are about. The backend insert is
modelled by the contract the code states for it: a row is added only if its (job, sequence) is absent, and the number
of added rows is returned (`services/web-bridge/src/sequence-guard.ts:105`, `services/web-bridge/src/consumer.ts:421`).

Some promises hold only under a condition. Each is stated as an equivalence, with a concrete input that breaks it:

- An event of a wave marker is lost when one of the payload's strings holds an apostrophe and one holds a double quote
  or ends in a backslash: the apostrophe makes the direct parse fail, and the second attempt corrupts the quote
  (`WaveMarker.MarkerGivesEvent`, `WaveMarker.MixedQuotesLoseTheEvent`).
- A marker between double quotes with its quotes escaped, a form that the parser tolerates, loses its event when braces
  in the payload's strings do not balance (`MarkerForms.DoubleQuotedPayloadIsExact`).
- Stripping loses text that begins with a backslash and two single quotes right after a command
  (`MarkerStrip.ChainIsStripped`, `MarkerStrip.ReopenedQuoteIsLost`).
- The collector's key joins job and claim by a space, so job ids with spaces can share a buffer; a waiter can be
  resolved without a request of its own exactly if two keys coincide and events are batched at all
  (`DurableCollector.RoutingNeedsKeysApart`,
  `DurableCollector.SpacelessJobsKeepKeysApart`, `DurableCollector.SharedKeyMisroutes`).
- The bounded window misses a repeat that arrives after 1000 other ids (`SessionProjection.BoundedWindowIsExact`,
  `SessionProjection.LateRepeatIsAccepted`).
- A legacy job that goes on after its terminal cleanup, or after a restart of the bridge, is numbered from 0 again, and
  the projection notices (`LegacyDelivery.CleanExactlyUntilForgotten`, `LegacyDelivery.RestartMidJobIsNoticed`).
- Buffered events of a batcher can be left with no timer and no request, for instance after a destroy that throws
  (`EventBatcher.UncoveredIffStranded`, `EventBatcher.StuckAfterFailedDestroy`).
- A report can settle a newer handler of the same job id than the one whose job was handed out
  (`HandOffQueue.ReportReachesItsHandler`, `HandOffQueue.StaleJobSettlesNewerHandler`).
- A placeholder's value is not a token of its own after text that a string prefix, a comment, a literal or a UESCAPE
  clause carries on into it (`SqlLexer.SettledIsExact`, `SqlLexer.PrefixTakesValue`).
- A string literal whose text is a comma counts as a separator of arguments, and one whose text is a parenthesis as that
  parenthesis (`SqlLexer.SplitUndoesGlue`, `SqlLexer.LiteralArguments`, `SqlLexer.ParenthesisSwallowsArgument`).

## Model

| member | source | states |
|---|---|---|
| DependencyGraph.BuildDependencyGraph | worker/src/dependency-graph.ts:19-39 | the keys are exactly the jobs that have a row or are listed as a dependency; each key's set is exactly what its rows list; every dependency is itself a key |
| DependencyGraph.CycleSearch.Dfs | worker/src/dependency-graph.ts:55-72 | a search from a white job that reports true has met a cycle of the graph; one that reports false leaves the gray stack as it was and the job, like every dependency below it, black; terminates because white jobs only get fewer |
| DependencyGraph.DetectCycles | worker/src/dependency-graph.ts:45-81 | returns true if and only if some job reaches itself by a non-empty dependency path, for every finite graph, also one with dependencies that are not keys |
| DependencyGraph.OrderedMeansAcyclic | worker/src/dependency-graph.ts:70-80 | a list of all jobs in which each comes after its dependencies rules out any cycle; black order is such a list |
| DependencyGraph.BackEdgeClosesCycle | worker/src/dependency-graph.ts:59-64 | an edge from the top of the gray stack to a job on it closes a cycle |
| DependencyGraph.CountDegrees | worker/src/dependency-graph.ts:104-122 | in-degrees equal the number of dependencies; the reverse map lists, for each job, the distinct jobs that depend on it |
| DependencyGraph.ReleaseDependents | worker/src/dependency-graph.ts:140-149 | after a job is processed, every unprocessed job's in-degree is again its number of unprocessed dependencies, and the released jobs are those whose number became zero |
| DependencyGraph.NextRound | worker/src/dependency-graph.ts:137-152 | one round of the loop: the next layer is, without repeats, exactly the jobs released after one more layer, and the unprocessed keys get fewer |
| DependencyGraph.GetExecutionPlan | worker/src/dependency-graph.ts:92-156 | hasCycles if and only if the graph has a cycle, and then one layer with all keys; otherwise no layer is empty or repeats a job, a job is in layer k exactly when its longest dependency chain has length k, and every job that can run is in a layer: the loop never stalls |
| DependencyGraph.GetExecutableJobs | worker/src/dependency-graph.ts:162-187 | the jobs not completed whose dependencies all are, in key order, each once |
| DependencyGraph.ReleaseRound | worker/src/dependency-graph.ts:132-153 | a job is released in round k exactly when its longest dependency chain, none of which reaches a missing job, has length k |
| DependencyGraph.ChainBound | worker/src/dependency-graph.ts:84-91 | in an acyclic graph no dependency chain is longer than the number of jobs |
| DependencyGraph.LongestChainExists | worker/src/dependency-graph.ts:84-91 | in an acyclic graph a job with a chain of length k has a longest chain, at least k long, so layers are well defined |
| DependencyGraph.ClosedMeansAllCanRun | worker/src/dependency-graph.ts:30-34 | in a graph whose dependencies are all keys no job is unreachable, so the plan holds every job |
| DependencyGraph.ExecutableIsNextLayer | worker/src/dependency-graph.ts:132-187 | on an acyclic graph the executable jobs after layers 0 to k - 1 are exactly the jobs of layer k |
| DependencyGraph.PlanRespectsDependencies | worker/src/dependency-graph.ts:88-90 | every dependency of a job in a layer is in an earlier layer |
| DependencyGraph.PlanIsShortest | worker/src/dependency-graph.ts:84-91 | no arrangement into stages that respects the dependencies has fewer stages than the plan has layers |
| DependencyGraph.RunsFinish | worker/src/dependency-graph.ts:158-187 | repeatedly running any non-empty subset of the executable jobs never gets stuck before every job that can run has run, and takes at most as many batches as there are jobs |
| JobTurnstile.GrantedIffEarlierReleased | services/web-bridge/src/consumer.ts:162-170 | with sound links, a caller is let through if and only if every earlier caller of its job has released |
| JobTurnstile.TurnsFollowArrival | services/web-bridge/src/consumer.ts:160-176 | in every interleaving of acquires and releases a caller is let through exactly when all earlier callers of its own job have released: arrival order, no waiting across jobs, no overtaking after an entry is deleted |
| JobTurnstile.AtMostOneHolder | services/web-bridge/src/consumer.ts:160-176 | two holders of one job in the same state are the same caller |
| JobTurnstile.SomeoneHolds | services/web-bridge/src/consumer.ts:160-176 | a job with an unreleased caller always has a holder, whatever other jobs do |
| JobTurnstile.EntriesAreCleanedUp | services/web-bridge/src/consumer.ts:171-174 | the map has an entry for a job exactly while the job has an unreleased caller |
| SequenceGuard.FallbackExceedsEarlier | services/web-bridge/src/sequence-guard.ts:78-96 | between cleanups, a job's counter never goes back and exceeds every number sent for the job before, of either kind; so does the next fallback number |
| SequenceGuard.MarkRejectsOlder | services/web-bridge/src/sequence-guard.ts:98-120 | until a reset or cleanup, a legacy number that is not above one already accepted for the job is a regression |
| CanonicalDelivery.DurableNeverDropped | services/web-bridge/src/sequence-guard.ts:103-109 | whatever the guard has seen, a valid durable event is passed on with its own number and never counted as a regression; an invalid one is an error that leaves the entry pending |
| CanonicalDelivery.RenderKeeps | services/web-bridge/src/consumer.ts:443-448 | rendering after a confirmed insert keeps the invariant: no row is rendered twice and none that is not stored |
| CanonicalDelivery.FailRequestKeeps | backend/packages/bridge-core/src/persistence.ts:219-240 | whatever the failure, its outcome, a retry or giving up (RetriedDeliveryCompletes and FinalFailureLeavesEntryOpen say which), keeps the safety invariant, also if the server still runs the abandoned request |
| CanonicalDelivery.MarkKeeps | backend/packages/stream-consumer/src/stream-reader.ts:185-195 | an entry is marked processed only once its row is stored |
| CanonicalDelivery.ForgetMarkerKeeps | backend/packages/stream-consumer/src/stream-reader.ts:137-147 | clearing a processed marker, or its expiry at any time, keeps the invariant |
| CanonicalDelivery.CrashKeeps | services/web-bridge/src/consumer.ts:421-424 | losing every handler and the guard at any point keeps the invariant |
| CanonicalDelivery.RunKeepsInvariant | services/web-bridge/src/consumer.ts:347-462 | the invariant holds in every reachable state |
| CanonicalDelivery.DeliveryIsSafe | services/web-bridge/src/consumer.ts:347-462 | over every run with redeliveries, lost responses, retries, quarantine, processed markers that are cleared or expire, and crashes between persist, render and ACK: an acknowledged durable entry is in the store, a rendered row is in the store, and no (job, sequence) is rendered twice |
| CanonicalDelivery.CleanDeliveryCompletes | backend/packages/bridge-core/src/persistence.ts:750-790 | from any reachable state one undisturbed redelivery of a pending valid entry, marked or not, acknowledges it, stores its row, and renders it exactly if the row was new |
| CanonicalDelivery.RetriedDeliveryCompletes | backend/packages/bridge-core/src/persistence.ts:219-250 | from any reachable state: a delivery whose request fails retryably up to three times, each time with the server having run it or not, and is then answered, is acknowledged, its row stored, and rendered exactly if the answered request added the row |
| CanonicalDelivery.FinalFailureLeavesEntryOpen | backend/packages/bridge-core/src/persistence.ts:225-240 | from any reachable state: a permanent failure at any attempt, or a fourth failure of any kind, ends the handler; nothing is rendered, marked or acknowledged, and the entry stays open for a redelivery |
| CanonicalDelivery.AtMostFourRequests | backend/packages/bridge-core/src/persistence.ts:225-250 | in every run no handler sends more than four requests |
| CanonicalDelivery.NothingWithoutClient | services/web-bridge/src/consumer.ts:415-419 | without an API client no run stores, renders, marks or acknowledges anything: every entry stays pending |
| CanonicalDelivery.FailedRenderLeavesEntryOpen | services/web-bridge/src/consumer.ts:443-448 | a render that throws, before or after publishing, ends the handler with the entry neither marked nor acknowledged and its row stored |
| CanonicalDelivery.HandlersAreIndependent | services/web-bridge/src/consumer.ts:347-462 | in every run only a step of its own, or a crash, changes or ends a handler; a quarantine sets its entry aside for good and touches nothing else |
| LegacyDelivery.OutboundIdentity | services/web-bridge/src/consumer.ts:64-96 | the outbound envelope of a legacy event has the bridge's number and the event id derived from it, whatever identity the producer gave it |
| LegacyDelivery.DerivedIdsDiffer | backend/packages/canonical-events/src/projection.ts:93-101 | for one job, envelopes with different numbers have different derived ids |
| LegacyDelivery.LegacyJobFoldsCleanly | services/web-bridge/src/consumer.ts:369-413 | across job.started resets, restarting producer numbers, restarts of the bridge and other jobs in between: as long as no event of the job is handled after the guard forgot it, the envelopes sent on (OfferedExactly says which) have the numbers 0, 1, 2, ..., pairwise distinct event ids, and the projection counts no duplicate and nothing out of order |
| LegacyDelivery.OfferedExactly | services/web-bridge/src/consumer.ts:362-413 | in every run: a legacy entry is sent on to database and renderer if and only if it has no producer number, or is a job.started, or its number exceeds every number of its job since the job's last job.started or terminal cleanup, or the last restart of the bridge |
| LegacyDelivery.ResumedAttemptIsComplete | services/web-bridge/src/consumer.ts:362-371 | after a job.started, wherever the producer's numbers start again and whatever other jobs and restarts come in between, every entry of the job whose numbers go up is sent on, in order |
| LegacyDelivery.RunKeepsMarks | services/web-bridge/src/sequence-guard.ts:98-125 | in every run a job's high-water mark is the highest number that counts, and there is none exactly if no number counts |
| LegacyDelivery.CleanExactlyUntilForgotten | services/web-bridge/src/consumer.ts:450-458 | that condition is exact: the projection's two counters are 0 if and only if no event of the job is handled after the guard forgot it, by the terminal cleanup or by a restart that follows an event of the job |
| LegacyDelivery.RestartMidJobIsNoticed | services/web-bridge/src/consumer.ts:291 | a restart of the bridge between any two events of a job, whose guard starts empty, makes one of the two counters positive |
| EventBatcher.RunKeepsSound | backend/packages/bridge-core/src/persistence.ts:373-479 | in every reachable state an open request's events are a prefix of its job's buffer, and a job has at most one open request |
| EventBatcher.EventsAreConserved | backend/packages/bridge-core/src/persistence.ts:489-577 | in every interleaving of adds, flushes, timers, successes and failures, the acknowledged events followed by the buffer are exactly the events added for the job, in order; at most one request per job is open |
| EventBatcher.RequestsAreSentExactly | backend/packages/bridge-core/src/persistence.ts:379-452 | after every run: a step sends a request for a job if and only if a flush (a call, an armed timer, a twentieth event) finds events and no flush under way, or a successful request leaves events behind; at most one, carrying everything then buffered for the job |
| EventBatcher.TwentiethEventSends | backend/packages/bridge-core/src/persistence.ts:416-452 | fewer than twenty events of a job wait under an armed timer; the twentieth sends them all |
| EventBatcher.FailedEventsAreSentAgain | backend/packages/bridge-core/src/persistence.ts:391-413 | after a failed request, whatever else happens, no request of its job goes out before its finally has run; the events stay at the front of the buffer, and the next flush sends them again with all that came since |
| EventBatcher.DestroyLosesNothing | backend/packages/bridge-core/src/persistence.ts:560-575 | a destroy that succeeds finds every event added so far acknowledged |
| EventBatcher.DestroyIsExact | backend/packages/bridge-core/src/persistence.ts:462-477 | destroy succeeds, dropping the buffers, if and only if every event added is acknowledged and no flush is under way; otherwise every buffer keeps its events and loses its timer; it never sends |
| EventBatcher.UncoveredIffStranded | backend/packages/bridge-core/src/persistence.ts:379-478 | in every run, buffered events have neither an armed timer nor an open request if and only if they were stranded and nothing armed a timer or sent the buffer since; what strands them is a request that fails while no timer is armed, a destroy that throws, a flush before the last one's finally, or a new event that finds the handle of a cleared timer |
| EventBatcher.StuckAfterFailedDestroy | backend/packages/bridge-core/src/persistence.ts:462-477 | after a destroy that threw, further events of the job below the batch size start no timer and no request, and the old timer never fires |
| EventBatcher.FlushBeforeFinallyStrands | backend/packages/bridge-core/src/persistence.ts:383-413 | without any failure: an event added between a successful flush and its finally is stranded by another flush in that window |
| DurableCollector.GroupBySequence | backend/packages/bridge-core/src/persistence.ts:655-661 | the loop over the waiters returns the grouping that GroupedIsSound is about |
| DurableCollector.GroupedIsSound | backend/packages/bridge-core/src/persistence.ts:655-661 | groups are non-empty, hold one sequence number each, different groups different ones, and together exactly the waiters |
| DurableCollector.AddLaunchesExactly | backend/packages/bridge-core/src/persistence.ts:703-725 | in every run a new event waits behind those of its key, and one request for all of them goes out at once if and only if their number or the sum of their bytes reaches its limit |
| DurableCollector.TimerLaunchesAll | backend/packages/bridge-core/src/persistence.ts:624-664 | in every run the timer of a buffer sends all its events in one request, for the job whose event opened the buffer |
| DurableCollector.RowsConfirm | backend/packages/bridge-core/src/persistence.ts:647-665 | a confirmed request with one row per group carries, for every waiter, a row with its sequence number and key |
| DurableCollector.EveryWaiterIsAccountedFor | backend/packages/bridge-core/src/persistence.ts:614-727 | under every interleaving of adds, timers and answers: no promise is settled twice; one that is not settled is in an armed buffer under both limits or in a flight whose request is out, never in both, and a settled one in neither; no request has two rows of one sequence number |
| DurableCollector.ResolvedMeansConfirmed | backend/packages/bridge-core/src/persistence.ts:647-694 | with keys that tell (job, claim) pairs apart, a promise is resolved only if the API confirmed a request sent for its own job with a row of its claim and sequence number |
| DurableCollector.SpacelessJobsKeepKeysApart | backend/packages/bridge-core/src/persistence.ts:709 | job ids without a space give such keys, whatever the claims are |
| DurableCollector.SharedKeyMisroutes | backend/packages/bridge-core/src/persistence.ts:709 | with a space in a job id they need not: two jobs share a buffer, and a waiter is resolved although no request was ever sent for its job |
| DurableCollector.CollisionMisroutes | backend/packages/bridge-core/src/persistence.ts:709-723 | for any two events with different sequence numbers whose keys coincide, and any limits that the first alone does not reach: one of the two waiters is resolved although no request was ever sent for its job |
| DurableCollector.RoutingNeedsKeysApart | backend/packages/bridge-core/src/persistence.ts:614-727 | for any limits: in every run over a set of jobs and claims each resolved waiter had a confirmed request of its own job, carrying its row, if and only if the keys of the set are apart or one event alone reaches a limit, so that none ever shares a request |
| DurableCollector.FinallyRejectsNobody | backend/packages/bridge-core/src/persistence.ts:695-699 | when the last single-row request of a flight is answered, settling its group settles everyone still pending, so the finally clause has nobody to reject |
| DurableCollector.AnsweredFlightEnds | backend/packages/bridge-core/src/persistence.ts:624-700 | whatever else happens, each answer to a flight's requests leaves one fewer, the flight is over after at most one answer more than it has sequence numbers, and then every waiter of it is settled |
| DurableCollector.BatchSettlesEveryone | backend/packages/bridge-core/src/persistence.ts:663-677 | in every run: a successful batch request resolves every waiter of its flight, and a retryable failure, or any failure of a single row, rejects every one; either way the flight is over and no further request is sent for it |
| DurableCollector.IsolationIsExact | backend/packages/bridge-core/src/persistence.ts:678-699 | in every run and under every interleaving after a permanent failure of a batch with at least two sequence numbers: one single-row request per number is sent in order, each after the answer to the one before; a waiter is resolved if and only if the single-row request with its number was confirmed, rejected if and only if that one failed, and the flight is over with the last answer |
| DurableCollector.SettledOnce | backend/packages/bridge-core/src/persistence.ts:635-645 | a waiter has one outcome: settlements of the same waiter are equal |
| SessionProjection.ApplyIgnoresCount | backend/packages/canonical-events/src/projection.ts:306-456 | the switch over event kinds neither reads nor changes the duplicate count |
| SessionProjection.WindowRefinesUnbounded | backend/packages/canonical-events/src/projection.ts:178-184 | for any reducer state whose window is the tail of the accepted ids: the fold of a stream is that of the stream without repeats, with the number of removed ones added to duplicateCount, if every repeat arrives within the window |
| SessionProjection.BoundedWindowIsExact | backend/packages/canonical-events/src/projection.ts:281-304 | from the initial projection: the 1000-entry window gives the projection of the stream with repeats removed, except duplicateCount which is the number removed, if and only if each repeat arrives with fewer than 1000 ids accepted since its own |
| SessionProjection.RejectsOnlyRepeats | backend/packages/canonical-events/src/projection.ts:287-292 | the number of events counted as duplicates is at most the number of repeats in the stream |
| SessionProjection.LateRepeatIsMissed | backend/packages/canonical-events/src/projection.ts:178-184 | a repeat outside the window is accepted again, so strictly fewer than all repeats are counted |
| SessionProjection.FirstIdIsForgotten | backend/packages/canonical-events/src/projection.ts:178-184 | after more than 1000 different ids a repeat of the first is outside the window and no duplicate is counted |
| SessionProjection.LateRepeatIsAccepted | backend/packages/canonical-events/src/projection.ts:178-184 | the ids 0 to 1000 and then 0 again are such a stream |
| SessionProjection.MergeKeeps | backend/packages/canonical-events/src/projection.ts:196-201 | merging into the last block keeps tools, neighbours and the concatenated text |
| SessionProjection.UpsertKeeps | backend/packages/canonical-events/src/projection.ts:216-251 | replacing or appending a tool block keeps the index and the block list in agreement and leaves the text alone |
| SessionProjection.ProjectionInvariant | backend/packages/canonical-events/src/projection.ts:186-251 | for every stream: activeToolCalls and the tool blocks agree one to one with equal contents, text blocks (and separately thinking blocks) concatenate to exactly the accepted text in order, and no two neighbours share type and turn |
| SessionProjection.OneThingAwaited | backend/packages/canonical-events/src/projection.ts:281-456 | for every stream: never a question and a follow-up prompt at once, at most 1000 remembered ids, duplicateCount and outOfOrderCount add up to at most the number of events, and a last sequence number that never goes back; the status and what is awaited are the matter of SessionStory |
| SessionProjection.AcceptedIsUnrepeated | backend/packages/canonical-events/src/projection.ts:281-304 | with every repeat inside the window the accepted text is the text of the stream without repeats |
| SessionStory.StreamShows | backend/packages/canonical-events/src/projection.ts:281-456 | for every stream: status, current turn, active question, pending follow-up, tool calls, numbers, time and block list of the projection are those that tables over the accepted events tell, none of which mentions the reducer |
| SessionStory.StatusIsLastAnnounced | backend/packages/canonical-events/src/projection.ts:307-421 | for every stream: the status is the one that the last accepted status-bearing event announces, changed only by a later turn.completed (unless failed or cancelled) or session.idle (unless completed, failed or cancelled) to idle; idle if there is no such event |
| SessionStory.FailureIsShown | backend/packages/canonical-events/src/projection.ts:416-418 | a stream whose last accepted event is job.failed or session.error ends failed |
| SessionStory.TurnIsLastNamed | backend/packages/canonical-events/src/projection.ts:300-340 | for every stream: the current turn is the last one that an accepted event names, and none once a turn.completed of that turn follows |
| SessionStory.ToolShowsItsCalls | backend/packages/canonical-events/src/projection.ts:216-251 | for every stream and call id: there is a tool call if and only if an accepted start or result has its id; its name and status are those of the last such event, firstSequence and lastSequence the numbers of the first and last one |
| SessionStory.ToolShowsLastPreview | backend/packages/canonical-events/src/projection.ts:233-234 | its input and output preview are the last ones that one of its accepted events gave, or none |
| SessionStory.ToolShowsFirstTurn | backend/packages/canonical-events/src/projection.ts:225-229 | its turn is the first one that one of its accepted events belongs to, or none |
| SessionStory.BlocksTellTheStory | backend/packages/canonical-events/src/projection.ts:186-270 | for every stream the block list, read character by character, is exactly: the accepted texts with their kind and turn, a place for each tool call where its first event came, and the captions of the accepted step, file and bash events, all in order of acceptance |
| SessionStory.BlocksStayInPlace | backend/packages/canonical-events/src/projection.ts:186-270 | one more event adds at most one block; earlier blocks keep place and kind, event blocks never change, and only the last block is ever extended, by the event's text and number |
| SessionStory.LastQuestionIsActive | backend/packages/canonical-events/src/projection.ts:367-414 | for every stream: the active question is that of the last accepted event that asks or closes one, with its id, turn, text and options, if that event asks; otherwise there is none |
| SessionStory.LastPromptIsPending | backend/packages/canonical-events/src/projection.ts:308-414 | for every stream: the pending follow-up is the prompt of the last accepted event that prompts or closes one, if that event prompts; otherwise there is none |
| SessionStory.NumbersAreShown | backend/packages/canonical-events/src/projection.ts:294-302 | for every stream: the last sequence number is the highest accepted one, or -1; outOfOrderCount counts the accepted events not above all before them; updatedAt is the time of the last accepted event |
| SessionStory.NormalizeIsStable | backend/packages/canonical-events/src/projection.ts:110-149 | normalizing an envelope twice is normalizing it once, and keeps its event id |
| SessionStory.OwnIdentityComesFirst | backend/packages/canonical-events/src/projection.ts:93-120 | event id, turn id, question id and time are the envelope's own if given and not empty, else those of the metadata, else the derived id, none, the numbered question and the clock |
| SessionStory.SameIdIsDuplicate | backend/packages/canonical-events/src/projection.ts:285-292 | of two new events in a row the second is counted as a duplicate if and only if it has the id of the first, whatever else differs |
| Decimal.ToStringInjective | backend/packages/canonical-events/src/projection.ts:99 | different sequence numbers have different decimal texts |
| Json.ParseText | backend/packages/canonical-events/src/wave-marker.ts:118-129 | reading a printed JSON value gives it back; between POSIX single quotes (section 2.2.2 of the POSIX Shell Command Language) exactly if no string in it holds an apostrophe |
| Json.ParseWhole | backend/packages/canonical-events/src/wave-marker.ts:119-120 | JSON.parse undoes JSON.stringify (RFC 8259) on every value with valid numbers |
| Json.TextIsShortest | backend/packages/canonical-events/src/wave-marker.ts:60-61 | no text of a JSON value is shorter than the printed one |
| Json.ParsedIsValid | backend/packages/canonical-events/src/index.ts:663-668 | every parsed value can be printed and read again |
| Json.CompleteTextEnds | backend/packages/canonical-events/src/wave-marker.ts:118-129 | the text of an object followed by anything but blanks is no JSON text, so a slice that is cut too short or too long never parses |
| MarkerScan.FindMatchingBraceEnd | backend/packages/canonical-events/src/wave-marker.ts:75-98 | returns the index of the brace that closes the first one, counting no brace in a string or after a backslash, or null if there is none |
| MarkerScan.ExecAnchor | backend/packages/canonical-events/src/wave-marker.ts:72-73 | the leftmost sentinel, blanks and brace from an index on |
| MarkerScan.ScanMarkerSpans | backend/packages/canonical-events/src/wave-marker.ts:100-116 | terminates with the spans of all anchors whose brace is closed, resuming after the payload or, without one, after the anchor |
| MarkerScan.SpansAreOrdered | backend/packages/canonical-events/src/wave-marker.ts:100-116 | for every command the spans lie in it, start with the sentinel, run from an opening to a closing brace, and follow one another without overlap |
| MarkerScan.ValueIsNeutral | backend/packages/canonical-events/src/wave-marker.ts:75-98 | a printed JSON value, also between single quotes, leaves the scanner's depth and string state as they were, whatever braces, quotes or sentinels its strings hold |
| MarkerScan.ObjectCloses | backend/packages/canonical-events/src/wave-marker.ts:75-98 | from the first brace of a printed object the matching one is its last character |
| MarkerScan.AnchorIsLocal | backend/packages/canonical-events/src/wave-marker.ts:72-73 | an anchor never runs over a character that can be in none |
| MarkerScan.FirstPiece | backend/packages/canonical-events/src/wave-marker.ts:100-116 | in a chain of echo commands the scan finds the next marker, cuts out exactly its payload, and goes on at the command's closing quote |
| MarkerForms.BraceEndIsFirstBalance | backend/packages/canonical-events/src/wave-marker.ts:75-98 | for every text read as escaped characters, quotes, braces and others: the matching brace is the first place where the braces outside strings come out even, whatever follows |
| MarkerForms.NoBalanceNoEnd | backend/packages/canonical-events/src/wave-marker.ts:75-98 | without such a place there is none, also before a last lone backslash |
| MarkerForms.EveryTextHasSigns | backend/packages/canonical-events/src/wave-marker.ts:75-98 | every text can be read that way, so these two cover all |
| MarkerForms.ClosedMarkerIsRead | backend/packages/canonical-events/src/wave-marker.ts:100-147 | for every command: the first marker, with or without quotes or echo around it and with any blanks before its object, yields what its object reads as, and what follows the object is read as a command of its own |
| MarkerForms.UnclosedMarkerIsPassed | backend/packages/canonical-events/src/wave-marker.ts:105-108 | a marker whose object is never closed yields nothing, and the text from its brace on is read as a command of its own |
| MarkerForms.NoMarkerNoEvents | backend/packages/canonical-events/src/wave-marker.ts:202-205 | a command without an anchor yields nothing; with the two before, every command is covered |
| MarkerForms.EscapedQuotesRead | backend/packages/canonical-events/src/wave-marker.ts:118-128 | a slice in which every quote is escaped reads as the text without the escapes, for every object text without a backslash |
| MarkerForms.DoubleQuotedMarkerIsRead | backend/packages/canonical-events/src/wave-marker.ts:75-128 | a marker between double quotes, its quotes escaped, yields what the unescaped text stands for, if that has no backslash and all its braces, those in strings included, come out even at its end |
| MarkerForms.DoubleQuotedPayloadIsExact | backend/packages/canonical-events/src/wave-marker.ts:75-195 | the double-quoted marker of a payload whose text needs no backslash yields the payload's event if and only if its braces, those in strings included, first come out even at its end; otherwise it yields nothing |
| MarkerForms.DoneIsReadExactly | backend/packages/canonical-events/src/wave-marker.ts:163-181 | an object is read as a given agent_done event if and only if the last fields of these names have these values, success being a boolean; the reason is that of a string field, or absent |
| MarkerForms.EndIsReadExactly | backend/packages/canonical-events/src/wave-marker.ts:183-195 | and as a given wave end if and only if they say so with two numbers |
| MarkerForms.StartIsReadExactly | backend/packages/canonical-events/src/wave-marker.ts:149-161 | and as a wave start if and only if they say so with a list, the agents being those of its entries |
| MarkerForms.NamedAgentIsKept | backend/packages/canonical-events/src/wave-marker.ts:151-159 | an entry that names agent, task and title as strings is kept in its place, whatever is around it |
| MarkerForms.MalformedEntryIsDropped | backend/packages/canonical-events/src/wave-marker.ts:151-159 | any other entry is dropped, and only that one |
| WaveMarker.EscapeText | backend/packages/canonical-events/src/wave-marker.ts:53-54 | the escaping for single quotes turns a printed value into its quoted text |
| WaveMarker.UnescapeEscaped | backend/packages/canonical-events/src/wave-marker.ts:122 | undoing the apostrophes undoes the escaping, for every text |
| WaveMarker.UnescapeCommutes | backend/packages/canonical-events/src/wave-marker.ts:122 | undoing the double quotes before or after escaping apostrophes is the same |
| WaveMarker.QuoteInText | backend/packages/canonical-events/src/wave-marker.ts:122 | a printed value has a backslash right before a double quote exactly if one of its strings holds a double quote or ends in a backslash |
| WaveMarker.SliceParses | backend/packages/canonical-events/src/wave-marker.ts:118-129 | a quoted payload parses back to itself, except if an apostrophe meets such a string; then whatever is parsed has a strictly shorter text |
| WaveMarker.PayloadReadsBack | backend/packages/canonical-events/src/wave-marker.ts:149-193 | a payload read as an object is its own event, and no event at all if a count is not finite |
| WaveMarker.EventIsShortest | backend/packages/canonical-events/src/wave-marker.ts:149-180 | any object that reads as the event of a start or done payload prints no shorter than the payload |
| WaveMarker.MarkerGivesEvent | backend/packages/canonical-events/src/wave-marker.ts:118-147 | one built marker contributes exactly its payload's event if and only if the payload survives: finite counts, and no apostrophe in one string together with a double quote in, or a backslash at the end of, another or the same |
| WaveMarker.ParseWaveMarker | backend/packages/canonical-events/src/wave-marker.ts:202-230 | the loop collects, in order of the spans, the at most one event of each |
| WaveMarker.ChainParsesExactly | backend/packages/canonical-events/src/wave-marker.ts:202-230 | any command made of built markers and text without an anchor of its own parses to exactly the payloads' events in order if and only if every payload survives |
| WaveMarker.MixedQuotesLoseTheEvent | backend/packages/canonical-events/src/wave-marker.ts:118-129 | an agent named by an apostrophe with a task id that is a double quote: the event is lost |
| MarkerStrip.FindEnclosingEchoSpan | backend/packages/canonical-events/src/wave-marker.ts:232-287 | the invocation's start and end as the backward and forward scans define them |
| MarkerStrip.StripWaveMarkers | backend/packages/canonical-events/src/wave-marker.ts:290-305 | the loop returns the command without the invocations around its spans, and a command without spans unchanged |
| MarkerStrip.PlainCommandIsKept | backend/packages/canonical-events/src/wave-marker.ts:290-292 | a command without an anchor is returned unchanged |
| MarkerStrip.EndsAtQuote | backend/packages/canonical-events/src/wave-marker.ts:252-268 | the closing quote of a built command ends its invocation, unless the text after it begins with a backslash and two single quotes |
| MarkerStrip.ChainIsStripped | backend/packages/canonical-events/src/wave-marker.ts:290-305 | stripping a chain of built commands leaves exactly the text around them with the blanks next to each command removed, if and only if no text after a command begins with a backslash and two single quotes |
| MarkerStrip.ReopenedQuoteIsLost | backend/packages/canonical-events/src/wave-marker.ts:255-262 | such a text after a command is lost |
| MarkerForms.SingleQuoteCloses | backend/packages/canonical-events/src/wave-marker.ts:252-268 | the invocation's closing single quote is the first one that does not begin an escaped apostrophe |
| MarkerForms.DoubleQuoteCloses | backend/packages/canonical-events/src/wave-marker.ts:269-281 | its closing double quote is the first one that does not follow an unescaped backslash |
| MarkerForms.InvocationStarts | backend/packages/canonical-events/src/wave-marker.ts:237-249 | an invocation begins at the word echo if only white space separates that from the quote or sentinel, and otherwise at the quote or sentinel, with the blanks before it |
| MarkerForms.InvocationIsStripped | backend/packages/canonical-events/src/wave-marker.ts:232-305 | a command with one marker in any of the forms (single, double or no quotes, with echo or without, with text after the object) is stripped to exactly the text around the invocation without the blanks next to it |
| MarkerForms.OpenInvocationIsStripped | backend/packages/canonical-events/src/wave-marker.ts:252-305 | if the quote is never closed, everything from the invocation on is stripped |
| SqlLexer.ScanString | backend/packages/database/src/currency-rates-preservation.contract-support.ts:67-73 | for a plain, an E'' and a U&'' literal: the loop returns the value and where the literal ends, or nothing if it is not closed or an escape is bad |
| SqlLexer.ScanQuotedWord | backend/packages/database/src/currency-rates-preservation.contract-support.ts:79-85 | the loop returns the text of a quoted identifier, a doubled quote standing for one, or nothing if it is not closed |
| SqlLexer.SkipBlockComment | backend/packages/database/src/currency-rates-preservation.contract-support.ts:54-61 | nested comments are skipped to the matching closer, or the source is rejected |
| SqlLexer.DecodeLoop | backend/packages/database/src/currency-rates-preservation.contract-support.ts:24-37 | the loop over the contents of a U&'' literal returns them with the escapes of a UESCAPE clause decoded, or nothing for a bad one |
| SqlLexer.TakeStep | backend/packages/database/src/currency-rates-preservation.contract-support.ts:45-106 | one turn of the main loop takes the step of the specification, for every kind of token, with the source's own loops; the laws of SqlText say what that step reads or skips |
| SqlLexer.ParseSql | backend/packages/database/src/currency-rates-preservation.contract-support.ts:38-107 | the main loop returns the statements that reading the source step by step gives (SqlText says which texts are tokens, comments and statement ends), or nothing for a source that is too long, has too many tokens, or has an unclosed literal, comment or bad escape |
| SqlLexer.QuotedIsOneToken | backend/packages/database/src/currency-rates-preservation.contract-support.ts:64-87 | where the main loop meets a %I or %L rendering, its next token is exactly the value, whatever the value holds, if and only if no further quote of that kind follows (section 4.1 of the PostgreSQL manual) |
| SqlLexer.QuotedAlone | backend/packages/database/src/currency-rates-preservation.contract-support.ts:38-87 | within the length limit, a source that is one such rendering is one statement with that one token |
| SqlLexer.DollarQuotedIsOneToken | backend/packages/database/src/currency-rates-preservation.contract-support.ts:88-96 | a dollar quote is one string token with exactly the text between its delimiters, whatever quotes, escapes or comments it holds, if and only if no earlier occurrence of the delimiter starts in it |
| SqlLexer.QuotedInContext | backend/packages/database/src/currency-rates-preservation.contract-support.ts:45-107 | in the middle of a source the statement goes on with one more token, and what follows is read as it would be on its own: no semicolon, comment opener or dollar quote of the value counts |
| SqlLexer.StepIsLocal | backend/packages/database/src/currency-rates-preservation.contract-support.ts:45-106 | a step of the main loop that ends before a placeholder's value, tried with a lone apostrophe as the value, is the same whatever the value and the text after it are |
| SqlLexer.PlaceholderIsOneToken | backend/packages/database/src/currency-rates-preservation.contract-support.ts:165-173 | after a settled text, one at whose end the main loop stands when a lone apostrophe is the value there, every value leaves the finished statements alone and adds exactly one token to the current one, unless there are too many tokens |
| SqlLexer.SettledIsExact | backend/packages/database/src/currency-rates-preservation.contract-support.ts:45-107 | that condition on the text before a placeholder is exact: it is settled if and only if every value, before any text that does not begin with its quote, is read there as its own token |
| SqlText.LineCommentIsSkipped | backend/packages/database/src/currency-rates-preservation.contract-support.ts:50-52 | two hyphens, any text without a line end, and a line end are skipped, whatever quotes or statements the text holds: what follows yields the tokens it yields on its own |
| SqlText.LastLineCommentIsSkipped | backend/packages/database/src/currency-rates-preservation.contract-support.ts:50-52 | a line comment may end the source |
| SqlText.BlockCommentIsSkipped | backend/packages/database/src/currency-rates-preservation.contract-support.ts:53-61 | so is every block comment with balanced nested comments, whatever else it holds |
| SqlText.UnclosedCommentIsRejected | backend/packages/database/src/currency-rates-preservation.contract-support.ts:53-61 | a source with a block comment that never comes back to depth 0 is rejected |
| SqlText.SpaceIsSkipped | backend/packages/database/src/currency-rates-preservation.contract-support.ts:49 | white space is skipped |
| SqlText.SemicolonSeparates | backend/packages/database/src/currency-rates-preservation.contract-support.ts:38-47 | for every settled text a, at whose end the main loop stands, and every text b: reading a, a semicolon and b gives the statements of a followed by those of b, or nothing if either is rejected |
| SqlText.PlainStatementsSeparate | backend/packages/database/src/currency-rates-preservation.contract-support.ts:38-107 | in particular for whole sources whose first part has no quote, dollar sign, hyphen or slash |
| SqlText.TextIsOneStatement | backend/packages/database/src/currency-rates-preservation.contract-support.ts:38-47 | text without a semicolon is one statement with exactly that text and all its tokens, or none if it has no token |
| SqlText.StatementsHaveTokens | backend/packages/database/src/currency-rates-preservation.contract-support.ts:42-45 | no statement is empty: white space, comments and semicolons alone give none |
| SqlText.LimitsAreExact | backend/packages/database/src/currency-rates-preservation.contract-support.ts:39-46 | a source is rejected for its length exactly above 8388608 characters, and when it goes on after more than 100000 tokens of one statement |
| SqlText.TextDoesNotMatter | backend/packages/database/src/currency-rates-preservation.contract-support.ts:38-47 | the tokens of what follows do not depend on the text read so far |
| SqlText.WordIsOneToken | backend/packages/database/src/currency-rates-preservation.contract-support.ts:97-100 | an unquoted word, followed by no word character and not a literal prefix, is one word token with its text in lower case |
| SqlText.PairIsOneSymbol | backend/packages/database/src/currency-rates-preservation.contract-support.ts:101-102 | a concatenation or assignment operator is one symbol |
| SqlText.CharacterIsOneSymbol | backend/packages/database/src/currency-rates-preservation.contract-support.ts:101-104 | any character that starts nothing else is a symbol of its own |
| SqlText.DollarQuoteInContext | backend/packages/database/src/currency-rates-preservation.contract-support.ts:88-96 | in the middle of a source a dollar quote is one string token with the text between its delimiters, and what follows is read as on its own |
| SqlText.EscapedLiteralReadsBack | backend/packages/database/src/currency-rates-preservation.contract-support.ts:14-26 | for every way to write each character of a value in an E'' literal, plain, doubled, with a control letter, or with octal, x, u or U digits: the literal is one string token with that value |
| SqlText.UnicodeLiteralReadsBack | backend/packages/database/src/currency-rates-preservation.contract-support.ts:14-26 | for every way to write each character in a U&'' literal, plain, doubled, or with four or six digits: the literal is one string token with that value |
| SqlText.UescapeLiteralReadsBack | backend/packages/database/src/currency-rates-preservation.contract-support.ts:24-37 | and so with a UESCAPE clause, for every escape character that is allowed |
| SqlLexer.PrefixTakesValue | backend/packages/database/src/currency-rates-preservation.contract-support.ts:62-73 | after a lone E no value of a %L placeholder is its own token, whatever it is and whatever follows |
| SqlLexer.PlainTextIsSettled | backend/packages/database/src/currency-rates-preservation.contract-support.ts:45-107 | text without quotes, dollar signs, hyphens and slashes is settled, such as public. or an opening parenthesis, before %L if it does not end in E, e or an ampersand |
| SqlLexer.PiecesFillTemplate | backend/packages/database/src/currency-rates-preservation.contract-support.ts:162-174 | for every template and arguments, also with positions, %s, %% and stray percent signs: format gives the quoted arguments of the %I and %L between the rest of the text, or nothing if an argument is missing |
| SqlLexer.PiecesOfTemplate | backend/packages/database/src/currency-rates-preservation.contract-support.ts:162-174 | a template written out from placeholders and any text, percent signs doubled, has exactly these placeholders with this text between them |
| SqlText.PositionIsRead | backend/packages/database/src/currency-rates-preservation.contract-support.ts:165-173 | a placeholder with a position takes the argument at that position and does not use up the next one |
| SqlText.RawArgumentIsCopied | backend/packages/database/src/currency-rates-preservation.contract-support.ts:165-173 | a %s takes the next argument as it is |
| SqlLexer.HolesAreTokens | backend/packages/database/src/currency-rates-preservation.contract-support.ts:38-107 | for placeholders after settled text whose values are not followed by a quote of their kind: reading the filled-in text gives what reading the text around them gives with one token put in for each value |
| SqlLexer.FormattedValuesAreTokens | backend/packages/database/src/currency-rates-preservation.contract-support.ts:162-174 | for every format call with a known template: if each %I and %L comes after a settled text and is not followed by a quote of its own kind, lexing the call's value, within the length limit, gives each of their arguments back as exactly one token and the statements of the rest of the text |
| SqlLexer.PlainTemplateIsWellPlaced | backend/packages/database/src/currency-rates-preservation.contract-support.ts:162-174 | a template of such plain text, with some of it between any two placeholders, meets these conditions for all values |
| SqlLexer.SplitAt | backend/packages/database/src/currency-rates-preservation.contract-support.ts:146-154 | the loop returns the parts between separators outside parentheses |
| SqlLexer.SplitRejoins | backend/packages/database/src/currency-rates-preservation.contract-support.ts:146-154 | the parts with separators between them are the tokens' texts again |
| SqlLexer.SeparatorSplits | backend/packages/database/src/currency-rates-preservation.contract-support.ts:146-154 | after a balanced text a separator splits, and what is before and after it is split on its own |
| SqlLexer.SplitUndoesGlue | backend/packages/database/src/currency-rates-preservation.contract-support.ts:146-154 | for any arguments, given as token lists and joined by a separator that is no parenthesis: the split gives back exactly these arguments if and only if none has a separator of its own outside parentheses and each but the last is balanced, counting parentheses by the tokens' texts |
| SqlLexer.LiteralArguments | backend/packages/database/src/currency-rates-preservation.contract-support.ts:148-152 | string literals as arguments come back one by one if and only if none is the separator and none before the last is a parenthesis |
| SqlLexer.ParenthesisSwallowsArgument | backend/packages/database/src/currency-rates-preservation.contract-support.ts:164 | in format('%s%s', '(', name) the literal takes the separator after it, and the name is no argument any more |
| EnvelopeCodec.ReadFields | backend/packages/canonical-events/src/index.ts:510-519 | the loop's map holds, for each name, the value of its last pair; a last name without a value is skipped |
| EnvelopeCodec.SerializeCanonicalEnvelope | backend/packages/canonical-events/src/index.ts:611-639 | pushes the fields of the envelope, or throws for invalid sequence protocol metadata |
| EnvelopeCodec.DeserializeCanonicalEnvelope | backend/packages/canonical-events/src/index.ts:641-701 | null for another format, a missing or unparsable event; throws for invalid metadata; otherwise the envelope of the fields |
| EnvelopeCodec.CanonicalHolds | backend/packages/canonical-events/src/index.ts:617-636 | looking a name up in the written list gives exactly the envelope's field, for every name |
| EnvelopeCodec.CanonicalWireNames | backend/packages/canonical-events/src/index.ts:617-636 | each of the fields is found under the name that other programs read it by |
| EnvelopeCodec.CanonicalRoundTrip | backend/packages/canonical-events/src/index.ts:611-701 | an envelope that serialises comes back without its empty optional strings, so unchanged if and only if it has none |
| EnvelopeCodec.CanonicalIsAcceptedExactly | backend/packages/canonical-events/src/index.ts:611-701 | an envelope is written if and only if its protocol metadata is absent or durable.v2 with a non-blank claim; a field list is read if and only if it is a canonical one with such metadata and an event that parses, and reading throws exactly for a canonical one with other metadata |
| EnvelopeCodec.DecodedCanonicalIsStable | backend/packages/canonical-events/src/index.ts:611-701 | whatever decodes serialises again and decodes to itself |
| EnvelopeCodec.AbsentSequenceIsNotANumber | backend/packages/canonical-events/src/index.ts:676-684 | an absent sequence field decodes to NaN and not to 0; a present one to its number |
| EnvelopeCodec.SerializeNativeEnvelope | backend/packages/canonical-events/src/index.ts:475-505 | pushes the fields of the envelope, or throws for invalid protocol or native metadata |
| EnvelopeCodec.NativeWireNames | backend/packages/canonical-events/src/index.ts:482-502 | each field of a native envelope is found under the name that other programs read it by |
| EnvelopeCodec.DeserializeNativeEnvelope | backend/packages/canonical-events/src/index.ts:507-597 | null for another format, a missing required field or an unparsable payload; throws for invalid metadata; otherwise the envelope of the fields |
| EnvelopeCodec.NativeRoundTrip | backend/packages/canonical-events/src/index.ts:475-597 | a native envelope that serialises comes back with its payload wrapped if it is no object, so unchanged if and only if the payload is an object or array |
| EnvelopeCodec.NativeIsWrittenExactly | backend/packages/canonical-events/src/index.ts:408-479 | a native envelope is written if and only if its protocol metadata is sound, its provider absent or an infrastructure provider, and each string field absent or non-empty and within its limit |
| EnvelopeCodec.NativeIsReadExactly | backend/packages/canonical-events/src/index.ts:507-597 | a field list is read as a native envelope if and only if it has format, payload, event type and source format, sound protocol metadata, a payload that parses and metadata within the limits, a foreign provider counting as the AI provider |
| EnvelopeCodec.DecodedNativeIsStable | backend/packages/canonical-events/src/index.ts:475-597 | whatever decodes serialises again and decodes to itself |
| EnvelopeCodec.ValidMetadataIsTruthy | backend/packages/canonical-events/src/index.ts:408-449 | valid native metadata has no empty string that the writer would leave out |
| EnvelopeCodec.NativeAbsentSequenceIsZero | backend/packages/canonical-events/src/index.ts:507-597 | a native envelope, unlike a canonical one, decodes an absent sequence field to 0 |
| EnvelopeCodec.ProviderLanes | backend/packages/canonical-events/src/index.ts:544-557 | a decoded provider is an infrastructure provider; another value in that field becomes the AI provider unless there already is one |
| EnvelopeCodec.IsFormat | backend/packages/canonical-events/src/index.ts:599-609 | whether some pair of the list names this format |
| EnvelopeCodec.FormatsAreToldApart | backend/packages/canonical-events/src/index.ts:599-609 | a written envelope has exactly its own format pair, whatever strings it holds, so no canonical envelope passes for a native one or the other way round |
| HandOffQueue.NoJobIsLost | worker/src/queue/bullmq-queue-adapter.ts:55-77 | in every reachable state claimers wait only while the buffer is empty; the jobs handed out in order followed by the buffer are exactly the jobs enqueued, each once; the truncation after a wait never drops one |
| HandOffQueue.PromisesSettleOnce | worker/src/queue/bullmq-queue-adapter.ts:79-180 | no handler promise is settled twice; one that is not settled is the one registered for its job or was replaced by a later handler of that job; a registered one is neither settled nor replaced |
| HandOffQueue.FirstReportDecides | worker/src/queue/bullmq-queue-adapter.ts:79-101 | in every run, a handler's promise is settled with a completion, then and for ever, if and only if the first step after the handler's start that is a report for its job, a stop or a newer handler of that job is a report with that completion, or a stop and the completion is released; a newer handler leaves it unsettled |
| HandOffQueue.ClaimsAreAnsweredOnce | worker/src/queue/bullmq-queue-adapter.ts:63-77 | in every reachable state each claim made so far was answered exactly once or waits exactly once, never both |
| HandOffQueue.ClaimsGetTheirShare | worker/src/queue/bullmq-queue-adapter.ts:63-77 | in every run no claim gets more jobs than it asked for, nor more than 50; one that gets nothing asked for nothing, was made while stopped, or was woken by a stop |
| HandOffQueue.ClaimTakesAllItCan | worker/src/queue/bullmq-queue-adapter.ts:63-67 | a claim that finds jobs takes them from the front, and leaves some only if it got all it asked for or 50 |
| HandOffQueue.OldestWaiterIsServed | worker/src/queue/bullmq-queue-adapter.ts:55-61 | in every run a new job goes at once, and alone, to the claimer that has waited longest, and the others go on waiting; without one it joins the end of the buffer |
| HandOffQueue.ReportReachesItsHandler | worker/src/queue/bullmq-queue-adapter.ts:79-101 | a report for a job that was handed out settles the handler that enqueued it if and only if that handler is not settled and no newer handler of the same job id took its place |
| HandOffQueue.StaleJobSettlesNewerHandler | worker/src/queue/bullmq-queue-adapter.ts:138-143 | it can happen: the job of the first of two handlers is handed out and its report settles the second |
| HandOffQueue.StopLeavesNobodyWaiting | worker/src/queue/bullmq-queue-adapter.ts:167-180 | after a stop no claimer waits and no handler is registered |
| LineSplitter.ConsumeStream | services/updater/src/spawn.ts:14-42 | returns the whole text; the lines passed on are exactly its newline-split lines without a trailing empty piece, in order, wherever the chunks were cut; without a stream nothing |
| LineSplitter.LinesAreUnique | services/updater/src/spawn.ts:30-40 | a text has exactly one such list of lines |
| LineSplitter.JobLog.AppendLog | services/updater/src/job-runner.ts:303-308 | the stored tail is the last 200 of all lines appended |
| LineSplitter.CutsDoNotMatter | services/updater/src/spawn.ts:22-41 | two ways to cut the same output leave the same stored tail, the last 200 of its lines |
| JobTurnstile.Turnstile.Acquire | services/web-bridge/src/consumer.ts:160-170 | a new caller is linked to the tail its job has in the map at that moment and becomes the tail |
| JobTurnstile.Turnstile.Release | services/web-bridge/src/consumer.ts:171-174 | releasing resolves the caller's own promise and deletes the map entry only if it is still the newest tail |
| SequenceGuard.Guard.ResolveOutboundSequence | services/web-bridge/src/sequence-guard.ts:78-96 | a durable.v2 number is validated, returned unchanged and lifts the fallback counter above it; otherwise the counter is returned and advanced; an invalid durable number is an error that changes nothing |
| SequenceGuard.Guard.IsRegression | services/web-bridge/src/sequence-guard.ts:98-116 | durable numbers are validated and never a regression; others are one exactly if they do not exceed the high-water mark, which they otherwise become |
| SequenceGuard.Guard.ResetHighWater | services/web-bridge/src/sequence-guard.ts:118-120 | forgets the mark of one job and nothing else |
| SequenceGuard.Guard.Cleanup | services/web-bridge/src/sequence-guard.ts:122-125 | forgets counter and mark of one job and nothing else |
| EventBatcher.Batcher.Add | backend/packages/bridge-core/src/persistence.ts:416-452 | a new event joins the end of its job's buffer; a full buffer is flushed, otherwise the timer is armed if it is not |
| EventBatcher.Batcher.DoFlush | backend/packages/bridge-core/src/persistence.ts:379-413 | clears the timer and, if there is something to send and no flush is under way, sends a snapshot of the buffer |
| EventBatcher.Batcher.RequestSucceeded | backend/packages/bridge-core/src/persistence.ts:392-411 | removes exactly the acknowledged prefix and sends again if anything is left |
| EventBatcher.Batcher.DestroyBatcher | backend/packages/bridge-core/src/persistence.ts:462-477 | succeeds if and only if no event is buffered and no flush is under way |
| DurableCollector.Collector.Add | backend/packages/bridge-core/src/persistence.ts:703-725 | the new waiter joins the buffer of its key; at either limit the buffer is detached and sent, otherwise a timer is armed if none is |
| DurableCollector.Collector.Flush | backend/packages/bridge-core/src/persistence.ts:624-664 | detaches the buffer before anything else and sends one row per sequence number |
| DurableCollector.Collector.Settle | backend/packages/bridge-core/src/persistence.ts:635-645 | settles the members of a group that are still pending, in order, each once, and nobody else |
| DurableCollector.Collector.BatchReturned | backend/packages/bridge-core/src/persistence.ts:663-688 | the collector's state takes the step of the specification, of which BatchSettlesEveryone and IsolationIsExact say who is settled: success resolves all; a retryable or single-row failure rejects all; any other failure starts one request per group |
| DurableCollector.Collector.RowReturned | backend/packages/bridge-core/src/persistence.ts:686-699 | a row's answer settles its group; after the last one the flush is over |
| HandOffQueue.Adapter.EnqueueToBuffer | worker/src/queue/bullmq-queue-adapter.ts:55-61 | the job joins the buffer; the first waiting claimer, if any, takes the buffer up to its count |
| HandOffQueue.Adapter.NextJobs | worker/src/queue/bullmq-queue-adapter.ts:63-77 | nothing if stopped or for a count of 0; else up to min(count, 50) buffered jobs, or a place among the waiters |
| HandOffQueue.Adapter.ReportCompletion | worker/src/queue/bullmq-queue-adapter.ts:79-101 | a report settles the registered handler of the job and removes it; any other report does nothing |
| HandOffQueue.Adapter.StopAll | worker/src/queue/bullmq-queue-adapter.ts:167-180 | wakes every claimer empty-handed and releases every registered handler |

## Left out

- Redis, HTTP, Docker, git, S3, Discord, the database driver and `fetch`: only their outcomes appear, as steps.
- Wall-clock values, timer lengths, log output and metrics; a timer is a step that may happen while it is armed.
- Microtask ticks: a settled promise's continuation is a later step, and no order among several is assumed.
- Strings are sequences of Unicode characters, not UTF-16 units: lengths count characters, a lone surrogate reads as
  U+FFFD, and chunks of a stream are already decoded text.
- JSON numbers are kept as their texts, and number conversion in envelopes is a pair of parameters; a number such as
  -0 that does not read back is outside the round trips.
- Objects: names inherited from Object.prototype, such as a tool call id `constructor`, and other metadata keys than
  the ones the code reads.
- CanonicalDelivery.DeliveryIsSafe: does not promise that a stored row is rendered. A request that is retried after
  its response was lost inserts 0 rows, so a row may be stored and never rendered live; the code accepts this.
- LegacyDelivery.LegacyJobFoldsCleanly: is about numbering and identity only. A legacy handler that throws has
  already advanced the high-water mark, so its event is dropped on redelivery.
- LegacyDelivery.CleanExactlyUntilForgotten: is for one bridge process at a time. Two consumers of one group have a
  guard each, and both number the job from 0.
- EventBatcher.EventsAreConserved: does not say that the buffer is empty when `flushJob` returns; an add between the
  end of the flush loop and its `finally` is left for the next call.
- DurableCollector.RoutingNeedsKeysApart: is for payloads whose JSON has at least two characters, as every object's has.
- HandOffQueue.Adapter.StopAll: takes the order in which the map's entries are visited as a parameter, and leaves out
  closing the worker and the queue.
- LineSplitter.ConsumeStream: is about one stream; two streams of a process interleave their calls of the log, for
  which `LineSplitter.JobLog.AppendLog` states the tail.
- WaveMarker.ChainParsesExactly: takes the fields of a payload in the order of the type declaration.
- MarkerForms.DoubleQuotedPayloadIsExact: is about payloads whose JSON text has no backslash. The shell would need a
  backslash doubled between double quotes, and the parser undoes escaped quotes only.
- SqlLexer.ParseSql: takes lower-casing of words as a parameter and reads an escape character outside the basic plane
  as one character.
- The rest of the SQL evaluator (concatenation, variables, lineage) and the DDL policy it serves.
- Single activity of the update job runner, and the job executor and orchestrator of the runner and worker: mostly
  input and output over modules that are not part of this model.
- Terminal statuses of the projection that stay: later text moves a failed session back to running by design, as
  `SessionStory.StatusIsLastAnnounced` says.
- The frontend, authentication, configuration schemas, migrations, feedback widget and HTML sanitiser.
