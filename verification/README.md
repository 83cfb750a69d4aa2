# Ownership protocols of the proxy, verified

The proxy keeps its hard promises with asyncio ownership protocols: a lock-protected or
await-free stretch of code is one atomic step on shared state, and everything between two steps is
up to the scheduler. This project models those protocols and proves what they promise, for every
interleaving of steps, cancellations, clock readings and upstream outcomes.

Each protocol comes in up to four parts:

- a `...Protocol` module: every atomic section as a function on values;
- a class per stateful object (`AdmissionController`, `VoiceRegistry`, `GenerationManager`, ...),
  updated in place as the source updates it, each method proved to compute its section's function;
- a `...System` module: any number of sessions, handoffs, requests or refreshes running those
  sections concurrently, one action per atomic step, cancellation included;
- `...Invariant` and `...Properties` modules, `AdmissionOutcomes` and `GenerationProgress`: what
  every step keeps, what it brings about for whom, and what follows for every reachable state and
  every run.

| part | files |
|---|---|
| provider admission and coordinated recovery | `RetrySession`, `AdmissionProtocol`, `AdmissionController`, `AdmissionAttempts`, `AdmissionRetry`, `AdmissionSystem`, `AdmissionInvariant`, `AdmissionProperties`, `AdmissionOutcomes`, `AdmissionBystanders`, `AdmissionStranding` |
| sliding-window limiter | `SlidingWindow` |
| pending voice notes | `VoiceProtocol`, `VoiceRegistry`, `VoiceSystem`, `VoiceProperties`, `VoiceWaits` |
| provider generations and leases | `GenerationProtocol`, `GenerationManager`, `GenerationSystem`, `GenerationInvariant`, `GenerationProperties`, `GenerationProgress`, `RefreshTiming` |
| lease hand-over to streaming responses | `RequestProtocol`, `RequestSystem`, `RequestProperties`, `ResponseLifetime` |
| stream holdback and early retry | `StreamRecovery` |
| compacting delivery queue | `DeliveryQueue` |
| managed session maps, line splitting | `SessionMaps`, `LineSplitter` |

Verify with `dafny verify dfyconfig.toml`.

## Reading the model

- Locks that are never held across a suspension (the admission condition, the voice registry lock,
  the delivery queue condition) are acquired without suspending, so a section and the await-free
  code before it form one action, and acquiring such a lock is no cancellation point. The lock of
  the provider manager that is held across waits is explicit in `GenerationSystem.Lock`.
- Errors, runtimes and delivered functions are opaque numbers. Time is `real`, jitter any
  non-negative draw. Sessions and entries are compared by identity, as the source compares them.
- Each retry session is driven sequentially: it is inside one call of the controller at a time. An
  abandonment that outlives its cancelled `aclose` has run before its session is used again.
- A task that a handoff's callback starts inherits the callback's claim and may outlive it; an
  operation it runs counts as waiting for its targets on behalf of that handoff (`VoiceSystem.Caller`).
- Claim ids, futures, lease numbers and generated session ids are fresh when drawn.

## Where the code does less than it says

The code is modelled as it is; each of these is a theorem, with the condition under which the code
does keep its promise.

- `StrictSlidingWindowLimiter` promises at most `rate_limit` acquisitions in any interval of
  length `rate_window` (src/codefa/core/rate_limit.py:12-13). That holds for half-open intervals.
  For closed ones it fails (`ClosedWindowOverflows`); an acquisition breaks it if and only if it
  comes exactly a window after the one `rate_limit` places before it
  (`AdmissionKeepsClosedLimitExactly`, part of what `TryAcquire` promises).
- `ManagedStreamingResponse.aclose` promises to release its resource exactly once
  (src/codefa/api/response_streams.py:71). A request that is over has released its lease once if
  and only if the cleanup task was not cut off: cancelled before it ran, or left by a cancellation
  coming out of the body's close (`LeaseIsReleasedOnceUnlessCloseIsCancelled`). The other way round,
  a lease is released under an open body if and only if the cleanup of a stream that has no first
  chunk is cancelled before it runs (`GenerationOutlivesBody`). Both are within reach of a first
  request (`CutOffIsReachable`, `AbandonedBodyIsReachable`).
- A recovery leader that is told to retry and does not come back, or corrects a request shape
  after its last attempt, leaves its episode to nobody; `StrandedExactly` shows these are the only
  two ways. From then on, as long as that session does nothing, the episode stays open, no session
  starts an attempt and everybody waiting goes on waiting (`StrandedForever`,
  `StrandedWaitersStayParked`); `StrandingIsReachable` gives such a run. Both callers of
  `retry_immediately` check for budget first (src/codefa/providers/anthropic/client.py:177,
  src/codefa/providers/openai_chat/provider.py:215), so the second way is not taken in this code.
- `discard` protects nobody. A discard can lead to handoffs that wait for each other in a circle if
  and only if it is hazardous: it runs in, or in a child task of, a running handoff, does not run in
  the discarded handoff's own task, the discarded handoff is live and running, and either the
  caller's claim is still live or the discarded handoff already waits for the caller's
  (`DiscardsDeadlockExactly`; `HazardIsReachable` gives a run). Runs without hazardous discards never
  deadlock (`ReachableWaitsAreAcyclic`); discards from outside handoffs are never hazardous.
- `start_model_list_refresh` takes no lock. Starting a refresh can lead to a hold on a retired
  generation if and only if it schedules one while a replacement is between cancelling the old
  refresh and publishing (`RefreshesGrantRetiredExactly`, `LateRefreshIsReachable`); the hold can
  fall into that generation's cleanup (`UntimelyRefreshEntersCleanup`). The generation theorems
  exclude exactly these starts (`RefreshTimely`); the application starts one only while starting up
  (src/codefa/runtime/application.py:142).

## Model

| member | source | states |
|---|---|---|
| AdmissionProperties.ReachableStatesAreSafe | src/codefa/providers/admission.py:250-378 | in every state any run reaches: at most one probe permit, nobody parked without a pending notification unless another session leads an open episode, no budget overdrawn, no slot lost |
| AdmissionProperties.RunKeepsInvariant | src/codefa/providers/admission.py:250-678 | the protocol invariant and slot conservation hold after every step of every run |
| AdmissionProperties.InitialSatisfiesInvariant | src/codefa/providers/admission.py:222-228 | a new controller satisfies the invariant |
| AdmissionInvariant.StepKeepsProtocol | src/codefa/providers/admission.py:250-675 | every atomic step of every session, cancellations included, keeps the agreement between episode, permits, waiters, budgets and where each session is suspended |
| AdmissionInvariant.GateKeepsProtocol | src/codefa/providers/admission.py:308-353 | any pass through the gate, by an idle or a woken session, keeps the protocol part of the invariant |
| AdmissionProperties.ProbeIsUniqueAndCurrent | src/codefa/providers/admission.py:628-642 | an unresolved probe permit is unique, carries the current generation and leader of an open episode, and exists exactly while `probe_active` is set |
| AdmissionProperties.OutstandingProbeShieldsEpisode | src/codefa/providers/admission.py:413-548 | while a probe is outstanding no other session can replace, close or change its episode; it can only join or leave the waiters |
| AdmissionProperties.StalePermitReenters | src/codefa/providers/admission.py:262-271 | a permit found stale is always a normal one met by an episode, so abandoning it changes nothing and the session just goes back to the gate |
| AdmissionProperties.ClaimsAreExclusive | src/codefa/providers/admission.py:267-273 | an attempt starts exactly when a claim finds its permit current, for the claimant alone; then there is no episode, or the claimant leads a non-terminal one and holds its probe |
| AdmissionProperties.ExhaustionFailsExactlyTheWaiters | src/codefa/providers/admission.py:527-547 | a probe spending the last attempt gives its error to exactly the sessions then waiting, none of which holds a permit or leads; everyone parked is woken and the episode cools down |
| AdmissionProperties.FailedSessionStaysFailed | src/codefa/providers/admission.py:309-311 | a session with a terminal error keeps its budget unchanged through every step, and entering the gate again ends in that error without touching the controller |
| AdmissionProperties.FailedSessionNeverStartsAgain | src/codefa/providers/admission.py:309-311 | over the rest of any run a failed session starts no further attempt |
| AdmissionProperties.ExhaustedWaitersNeverStart | src/codefa/providers/admission.py:527-547 | whoever waited when a probe exhausted its budget carries that error and starts no attempt in the rest of the run |
| AdmissionProperties.NoLostWakeup | src/codefa/providers/admission.py:314-353 | a session parked with no notification pending is a registered waiter of an open episode led by another, itself not parked, session; a leader never waits on its own probe |
| AdmissionProperties.ProbesWaitUntilReady | src/codefa/providers/admission.py:332-342 | the gate grants a probe only once its episode is ready, sends an early leader to sleep for exactly the time missing, and makes everyone else a waiter of a led episode |
| AdmissionProperties.CooldownEndsInFreshProbe | src/codefa/providers/admission.py:320-327 | after an exhausted probe every newcomer before the deadline gets its error and changes nothing; the first one later leads the next generation and probes at once |
| AdmissionProperties.BackoffEndsInProbe | src/codefa/providers/admission.py:363-375 | a leader that sleeps through its back-off always gets the probe of the generation it claimed |
| AdmissionOutcomes.FailureBacksOff | src/codefa/providers/admission.py:500-523 | after a retryable failure with budget of the probe, or of an attempt no episode stands against, nobody is let through before the delay is over: the failed session leads, is told to sleep for exactly what is left, and is granted the probe from then on, everyone else waits behind it, and everyone parked is woken |
| AdmissionOutcomes.OtherFailureJoinsOrInherits | src/codefa/providers/admission.py:518-524 | any other retryable failure with budget makes its session a waiter of the open episode, or gives it the error of the cool-down; the episode is otherwise unchanged |
| AdmissionOutcomes.SpentFailureCoolsDown | src/codefa/providers/admission.py:525-547 | a failure without budget of an attempt that is not the probe changes nothing if an episode stands; if none does, newcomers get its error until the cool-down is over and probe then |
| AdmissionOutcomes.OwnErrorIsRaised | src/codefa/providers/admission.py:309-311 | a session that failed for good is turned away with its own error, whatever episode stands |
| AdmissionOutcomes.AnswerLetsEverybodyThrough | src/codefa/providers/admission.py:413-475 | once the probe is accepted or finally rejected, everybody who has not failed gets a normal permit and everyone parked is woken; the same answer to any other attempt changes nothing |
| AdmissionOutcomes.CorrectionKeepsLead | src/codefa/providers/admission.py:437-450 | a corrected probe may go out again at once, by its leader alone |
| AdmissionOutcomes.AbandonedProbeIsTakenOver | src/codefa/providers/admission.py:644-658 | whoever comes first after a probe was given up leads the same episode and probes at once |
| AdmissionOutcomes.CancelledBackoffIsTakenOver | src/codefa/providers/admission.py:660-675 | whoever comes first after a leader was cancelled in its back-off waits for exactly what is left of it |
| AdmissionOutcomes.OnlyCurrentPermitsWaitForSlots | src/codefa/providers/admission.py:257-266 | whoever waits for a slot found its permit current when the limiter admitted it |
| AdmissionOutcomes.OtherPermitsChangeNothing | src/codefa/providers/admission.py:628-642 | a permit that is not the active probe changes nothing however its attempt is answered or given up, and is current only if it is a normal one and no episode stands |
| AdmissionOutcomes.ReplacedEpisodeIsLeftAlone | src/codefa/providers/admission.py:345-375 | nothing a waiter or a sleeping leader does for an episode that was replaced or closed meanwhile changes anything |
| AdmissionProperties.CancelledFollowerLeavesEpisode | src/codefa/providers/admission.py:343-352 | a cancelled follower is no longer a waiter, and nobody else's membership changes |
| AdmissionProperties.StrandedExactly | src/codefa/providers/admission.py:128-133 | an engaged leader stops being engaged by a step if and only if its driver quits after being told to retry, or corrects with no attempt left |
| AdmissionStranding.StrandedForever | src/codefa/providers/admission.py:329-353 | while a leader that went away does nothing, over any run its episode stays open under it and no session starts an upstream attempt |
| AdmissionStranding.StrandedWaitersStayParked | src/codefa/providers/admission.py:341-353 | whoever waits for a stranded episode goes on waiting, and parks again whenever it is woken, unless it is cancelled |
| AdmissionStranding.StrandingIsReachable | src/codefa/providers/admission.py:493-516 | a run from a new controller ends in a stranded episode: one session, a first attempt that fails retryably, no second |
| AdmissionProperties.BystanderKeepsLeader | src/codefa/providers/admission.py:308-548 | a step of any other session leaves an open episode's leader, its phase and its budget alone |
| AdmissionProperties.DisciplinedRunKeepsLeaderEngaged | src/codefa/providers/admission.py:280-306 | in runs whose drivers come back when told to, every leader of an open episode still has a way to end it |
| AdmissionProperties.TenureSpendsOneBudget | src/codefa/providers/admission.py:493-547 | while one leader keeps an episode, all sessions together start exactly as many attempts as the leader spends, so at most its budget |
| AdmissionProperties.BudgetLimitIsFixed | src/codefa/providers/admission.py:55-67 | no step changes a session's attempt limit |
| AdmissionProperties.HoldersAfterStep | src/codefa/providers/admission.py:265-278 | a step moves at most the acting session's slot, and the free count follows it |
| AdmissionProperties.StepKeepsSlots | src/codefa/providers/admission.py:167-178 | free slots plus openers holding one plus attempts not yet closed always make up `max_concurrency` |
| AdmissionController.ProviderAdmissionController.constructor | src/codefa/providers/admission.py:190-228 | a new controller has no episode, generation 1 next and all slots free |
| AdmissionController.ProviderAdmissionController.NewRetrySession | src/codefa/providers/admission.py:239-248 | a fresh session with a full budget, nothing else changed |
| AdmissionController.ProviderAdmissionController.StartRecoveryEpisode | src/codefa/providers/admission.py:602-626 | a new episode of the next generation replaces the current one |
| AdmissionController.ProviderAdmissionController.PassGate | src/codefa/providers/admission.py:308-353 | one pass of the gate, in place, has the outcome and new state of the section's function that the run theorems are about |
| AdmissionController.ProviderAdmissionController.FollowerCancelled | src/codefa/providers/admission.py:345-352 | the cancelled follower leaves the waiters of the episode it was parked in, if that is still current |
| AdmissionController.ProviderAdmissionController.LeaderReturns | src/codefa/providers/admission.py:365-375 | the probe is granted exactly to the idle leader of the claimed generation |
| AdmissionController.ProviderAdmissionController.LeaderCancelled | src/codefa/providers/admission.py:660-675 | a leader cancelled in its back-off gives up the lead and wakes the waiters, unless it lost the episode meanwhile |
| AdmissionController.ProviderAdmissionController.PermitCurrent | src/codefa/providers/admission.py:397-411 | agrees with the section function on the controller's state |
| AdmissionController.ProviderAdmissionController.MatchingProbe | src/codefa/providers/admission.py:628-642 | the current episode exactly when the permit is its active probe |
| AdmissionController.ProviderAdmissionController.AttemptAnswered | src/codefa/providers/admission.py:413-475 | a success or final rejection closes the episode and notifies exactly when the permit is its probe |
| AdmissionController.ProviderAdmissionController.AttemptCorrected | src/codefa/providers/admission.py:437-450 | a correction keeps the lead and reopens the probe at once, for a current probe only |
| AdmissionController.ProviderAdmissionController.AttemptAbandoned | src/codefa/providers/admission.py:477-491 | an abandoned probe gives up the lead; any other permit changes nothing |
| AdmissionController.ProviderAdmissionController.AttemptFails | src/codefa/providers/admission.py:493-547 | a retryable failure opens, renews, joins, inherits or exhausts recovery in place; what that means for whoever comes to the gate next is `FailureBacksOff`, `OtherFailureJoinsOrInherits` and `SpentFailureCoolsDown` |
| AdmissionController.ProviderAdmissionController.FailWaiters | src/codefa/providers/admission.py:543-544 | the loop gives the error to exactly the waiters and leaves every other session alone |
| AdmissionAttempts.ProviderAttempt.Succeeded | src/codefa/providers/admission.py:120-126 | an attempt reports success at most once, and nothing once it is resolved |
| AdmissionAttempts.ProviderAttempt.RetryImmediately | src/codefa/providers/admission.py:128-133 | a correction takes effect at most once |
| AdmissionAttempts.ProviderAttempt.Retry | src/codefa/providers/admission.py:135-165 | a failure takes effect at most once; a retry is granted only for a retryable error with budget left |
| AdmissionAttempts.ProviderAttempt.Aclose | src/codefa/providers/admission.py:167-178 | however often it is called and whether or not it is cancelled, exactly one slot is released; an unresolved attempt is abandoned, or its abandonment is left scheduled |
| AdmissionAttempts.ClaimSlot | src/codefa/providers/admission.py:265-278 | an opener holding a slot starts an attempt, or gives the slot back and abandons its permit: never both, never neither |
| AdmissionRetry.World.Suspend | src/codefa/providers/admission.py:250-278 | whatever others do through the controller while a caller is suspended, its lead, its episode, its budget and its share of the slots stay as they were; it can at most lose its place as a waiter |
| AdmissionRetry.WaitForGate | src/codefa/providers/admission.py:308-378 | the gate loop with others acting at every wait: a permit it returns is current, a session turned away gets its own error or that of the cool-down, one cancelled neither leads nor waits, and no slot or budget is touched |
| AdmissionRetry.WaitForSlot | src/codefa/providers/admission.py:259-278 | limiter and semaphore wait: one slot is held afterwards and the permit still held, or no slot and the session neither leads nor waits; no slot is waited for under a permit that is stale when the limiter admits, and only a normal one met by an episode is |
| AdmissionRetry.OpenAttempt | src/codefa/providers/admission.py:250-278 | an attempt comes with one slot, one spent attempt and a permit still held, any other end with none of them and out of the recovery; a session with budget left is never told it is exhausted |
| AdmissionRetry.ResolveAttempt | src/codefa/providers/admission.py:280-306 | in fields of the controller: a call that returned or was rejected under the active probe closes the episode with one more notification and under any other permit changes neither; a retryable failure with budget keeps the probe leading, its probe free, until the end of the back-off, opens the next episode, or joins or inherits; one without budget begins the cool-down or changes nothing |
| AdmissionRetry.RunRound | src/codefa/providers/admission.py:280-306 | a round gives its slot back and spends an attempt exactly if it called the operation; a call under a probe leaves the episode closed, led on by the session with the new error, or cooling down with it, as the call ended; a session that is to stop neither leads nor waits |
| AdmissionRetry.RunWithRetry | src/codefa/providers/admission.py:280-306 | the operation is called at most `max_attempts` times, all calls but the last failed retryably, a retryable error escapes only when the budget is spent, a recovery error is the session's own or that of the cool-down; however it ends, cancelled anywhere included, every slot taken is given back, and the session neither leads nor waits unless the closing of a cancelled call was cancelled too |
| AdmissionAttempts.RetryDelayBounds | src/codefa/providers/admission.py:680-685 | a server's retry-after is a floor, cap plus jitter a ceiling above it, and with equal draws later attempts never wait less |
| AdmissionAttempts.RetryDelayDoubles | src/codefa/providers/admission.py:680-685 | the exact delays: the first is the base delay, each further one twice the one before up to the cap, jitter on top, and a longer retry-after replaces it |
| RetrySessions.ProviderRetrySession.ClaimAttempt | src/codefa/providers/admission.py:63-67 | spends one attempt, or refuses when none is left |
| SlidingWindow.StrictSlidingWindowLimiter.TryAcquire | src/codefa/core/rate_limit.py:43-60 | the section admits exactly when fewer than the limit are newer than the cutoff and the condition holds; a refused or waiting admission leaves the history alone; the deque is the history newer than the cutoff; the limit in closed windows is kept exactly unless the admission comes a window after the one `rate_limit` places before it |
| SlidingWindow.StrictSlidingWindowLimiter.Purge | src/codefa/core/rate_limit.py:47-51 | the loop leaves exactly the acquisitions newer than the cutoff |
| SlidingWindow.StrictSlidingWindowLimiter.Acquire | src/codefa/core/rate_limit.py:43-65 | the acquisition loop, others acquiring while it sleeps, waits only while the window is full, and records exactly one time stamp of its own if it is admitted, and none if it is refused or cancelled while waiting |
| SlidingWindow.PurgeIsSuffix | src/codefa/core/rate_limit.py:50-51 | what is newer than the cutoff is a suffix of the sorted history |
| SlidingWindow.LimiterHoldsLimit | src/codefa/core/rate_limit.py:12-13 | for a clock that never runs backwards, no half-open window holds more than `rate_limit` recorded acquisitions |
| SlidingWindow.HalfOpenWindowsHoldLimit | src/codefa/core/rate_limit.py:12-13 | the limit in all half-open windows is the same as acquisitions `rate_limit` places apart being a window apart |
| SlidingWindow.ClosedWindowsHoldLimitExactly | src/codefa/core/rate_limit.py:12-13 | the limit in all closed windows holds if and only if those acquisitions are more than a window apart |
| SlidingWindow.AdmissionKeepsClosedLimitExactly | src/codefa/core/rate_limit.py:53-57 | an admission keeps the limit in closed windows if and only if it does not come exactly a window after the one `rate_limit` places before it |
| SlidingWindow.ClosedWindowOverflows | src/codefa/core/rate_limit.py:12-13 | a limiter of one a second records two acquisitions in a closed second |
| VoiceWaits.ReachableWaitsAreAcyclic | src/codefa/messaging/voice.py:193-251 | in every state that a run without hazardous discards reaches no handoff waits, directly or through others, for itself, and each handoff is waited for by one drain only |
| VoiceWaits.WaitForGraphIsAcyclic | src/codefa/messaging/voice.py:344-366 | waits that can be ranked close into no circle |
| VoiceWaits.StepKeepsWaits | src/codefa/messaging/voice.py:193-251 | every step but a hazardous discard keeps the waits rankable, as protected claims are never selected |
| VoiceWaits.SafeRunKeepsWaits | src/codefa/messaging/voice.py:193-251 | so does every run without hazardous discards |
| VoiceWaits.DrainsNeverDeadlock | src/codefa/messaging/voice.py:292-315 | whenever drains are in progress, one of them waits only for handoffs that can end |
| VoiceProperties.DrainOutlivesHandoffs | src/codefa/messaging/voice.py:292-315 | over any run, once a discard or a cancellation has waited its drain out none of the handoffs it took over runs, then or ever after |
| VoiceWaits.DiscardsDeadlockExactly | src/codefa/messaging/voice.py:181-191 | from any state without hazards so far, a discard can lead to a circle of waits if and only if it is hazardous |
| VoiceWaits.ReachableDiscardsDeadlockExactly | src/codefa/messaging/voice.py:283-290 | in particular after any run from an empty registry without hazards so far |
| VoiceWaits.HazardIsReachable | src/codefa/messaging/voice.py:181-191 | a run from an empty registry ends in a hazardous discard that can deadlock |
| VoiceWaits.OutsideDiscardsAreSafe | src/codefa/messaging/voice.py:181-191 | discards from outside handoffs, and those a handoff's own task makes of its own claim, are not hazardous |
| VoiceProperties.StepKeepsInvariant | src/codefa/messaging/voice.py:89-269 | every step keeps the index consistent, claims live or released, drain targets disjoint, callers started and protection equal to the cancellations running |
| VoiceProperties.RunKeepsInvariant | src/codefa/messaging/voice.py:89-269 | the invariant holds throughout every run |
| VoiceProperties.ReleaserIsUnique | src/codefa/messaging/voice.py:254-269 | a claim is released once, by one of completion, discard and cancel, and is never live again, even after its message is reserved anew |
| VoiceProperties.ReportTellsReleaser | src/codefa/messaging/voice.py:125-179 | a handoff reports completion only if it released the claim itself, cancellation only if somebody else did |
| VoiceProperties.HandoffReportsExactly | src/codefa/messaging/voice.py:165-179 | if nobody cancelled its caller, a handoff reports completion if and only if its callback returned while it owned the entry and nobody cancelled it since, cancellation if and only if it no longer owned it and no fatal error or late cancellation is to be passed on, and raises a callback error in the other cases exactly |
| VoiceProperties.CancelledCallerRaises | src/codefa/messaging/voice.py:150-163 | a handoff whose caller was cancelled passes that on, or a fatal error of its callback, whatever happened to the entry; either way the entry is not live afterwards |
| VoiceProperties.ReleaserIsTheOneActing | src/codefa/messaging/voice.py:181-251 | whoever is recorded as having released a claim took the step that did: its own handoff's end, its discard, or a cancellation |
| VoiceProtocol.RemoveIsByIdentity | src/codefa/messaging/voice.py:368-376 | removing an entry key by key removes exactly the keys that lead to it |
| VoiceProtocol.DropsMakeRemove | src/codefa/messaging/voice.py:368-376 | popping the voice key and then the status key, each only if it is the entry's own, is the removal |
| VoiceProtocol.RemoveAllKeepsIndex | src/codefa/messaging/voice.py:230-238 | taking any set of entries over keeps the index consistent and ends exactly their ownership |
| VoiceProtocol.BindKeepsIndex | src/codefa/messaging/voice.py:106-123 | binding a status message keeps both keys of every live entry, and no other key, leading to it |
| VoiceProtocol.StaleClaimChangesNothing | src/codefa/messaging/voice.py:338-342 | an operation presenting a claim that is not live changes nothing |
| VoiceProtocol.CancelDeletesOwnMessages | src/codefa/messaging/voice.py:322-336 | cancelling by either message deletes the message replied to, and only messages of that entry |
| VoiceProtocol.ReserveMakesLive | src/codefa/messaging/voice.py:89-104 | a reservation succeeds if and only if no live entry has the message as a key, and makes the new claim live and no other |
| VoiceProtocol.BindAnswers | src/codefa/messaging/voice.py:106-123 | binding succeeds if and only if the claim is live and has this very status message, or none yet while no other entry has it as a key; then it has it, and nobody's ownership changes |
| VoiceProtocol.HandoffAnswers | src/codefa/messaging/voice.py:131-145 | a handoff is accepted if and only if the claim is live, has a status message and no handoff so far |
| VoiceProtocol.ReleaseEndsOwnership | src/codefa/messaging/voice.py:253-269 | a release ends the ownership of its claim, exactly if that was live, and nobody else's |
| VoiceProtocol.ReplySelectsExactly | src/codefa/messaging/voice.py:199-206 | a cancellation by reply takes exactly the live, unprotected entry that has the message, unless it is the canceller's own |
| VoiceProtocol.ScopeSelectsExactly | src/codefa/messaging/voice.py:223-238 | a cancellation by scope takes exactly the live, unprotected entries of that scope, or of all scopes if none is given, but the canceller's own |
| VoiceProtocol.CancelDeletesExactly | src/codefa/messaging/voice.py:322-336 | the voice message is deleted unless the cancellation replied to another message, the status message always, and nothing else |
| VoiceRegistry.PendingVoiceRegistry.Reserve | src/codefa/messaging/voice.py:89-104 | a message is reserved once; the claim returned is the new entry's |
| VoiceRegistry.PendingVoiceRegistry.EntryForClaim | src/codefa/messaging/voice.py:338-342 | finds an entry exactly for the claim that owns its message |
| VoiceRegistry.PendingVoiceRegistry.BindStatus | src/codefa/messaging/voice.py:106-123 | binds once, answers again for the same status, and never takes another entry's key |
| VoiceRegistry.PendingVoiceRegistry.BeginHandoff | src/codefa/messaging/voice.py:131-145 | accepts a handoff exactly once, for a live claim with a status message |
| VoiceRegistry.PendingVoiceRegistry.RemoveEntry | src/codefa/messaging/voice.py:368-376 | pops the entry's keys, each only while it leads to this very entry |
| VoiceRegistry.PendingVoiceRegistry.ReleaseEntry | src/codefa/messaging/voice.py:181-191 | a claim is released exactly if it is live, and the caller learns whether a handoff runs |
| VoiceRegistry.PendingVoiceRegistry.TakeReply | src/codefa/messaging/voice.py:199-206 | takes exactly the live, unprotected entry that has the message, unless it is the canceller's own; exactly what is taken stops being owned |
| VoiceRegistry.PendingVoiceRegistry.TakeScope | src/codefa/messaging/voice.py:223-238 | takes exactly the live, unprotected entries of the scope, or of all scopes if none is given, but the canceller's own; exactly what is taken stops being owned |
| VoiceRegistry.PendingVoiceRegistry.ProtectClaim | src/codefa/messaging/voice.py:354-357 | counts one more cancellation running under the claim |
| VoiceRegistry.PendingVoiceRegistry.UnprotectClaim | src/codefa/messaging/voice.py:359-366 | counts one less, dropping the claim at zero |
| GenerationInvariant.StepKeepsInvariant | src/codefa/runtime/provider_manager.py:115-390 | every step of requests, refreshes, replacements, cleanups and shutdowns keeps flags, counts, locks and the account of runtimes consistent |
| GenerationProperties.ReachableManagersAreSafe | src/codefa/runtime/provider_manager.py:115-390 | in every state any run reaches: nothing held is being or has been cleaned up, no runtime is lost or cleaned up twice, and a closed manager has cleaned up all of them |
| GenerationProperties.RunRemembersCleanups | src/codefa/runtime/provider_manager.py:315-390 | over any run the successful cleanups of a runtime never become fewer |
| GenerationProperties.RunKeepsInvariant | src/codefa/runtime/provider_manager.py:115-390 | the invariant holds throughout every run |
| GenerationProperties.InitialSatisfiesInvariant | src/codefa/runtime/provider_manager.py:86-109 | a new manager satisfies the invariant |
| GenerationProperties.CleanupExcludesHolders | src/codefa/runtime/provider_manager.py:337-390 | `drained` is set exactly while no lease and no running refresh holds the generation, and a runtime is cleaned up only then |
| GenerationInvariant.StepKeepsCounts | src/codefa/runtime/provider_manager.py:261-289 | `active_leases` always equals the unreleased leases plus the running refreshes of the generation |
| GenerationProperties.RetiredIsNeverGranted | src/codefa/runtime/provider_manager.py:115-121 | no step grants anything on a retired generation |
| GenerationProperties.RetiredOnlyDrains | src/codefa/runtime/provider_manager.py:219-229 | from its retirement on, a generation's holders only ever become fewer |
| GenerationProgress.LastHolderStartsCleanup | src/codefa/runtime/provider_manager.py:261-269 | the step that ends the last hold on a retired generation starts its cleanup, unless the manager is closing |
| GenerationProgress.RetiredIsDealtWith | src/codefa/runtime/provider_manager.py:261-390 | in every reachable state that is not closing, a retired generation nobody holds is closed or being cleaned up, or its last cleanup failed and none was started since |
| GenerationProgress.FailedCleanupsAreRepeatable | src/codefa/runtime/provider_manager.py:376-390 | a cleanup that succeeds closes its generation and takes it off the retired ones; after a failed one the next attempt to close the generation starts another |
| GenerationProgress.LeasesGoToCurrent | src/codefa/runtime/provider_manager.py:115-121 | a lease is granted if and only if the manager is not shutting down, and holds the generation then current |
| GenerationProgress.PublishReplacesCurrent | src/codefa/runtime/provider_manager.py:205-221 | a replacement makes a new, unheld generation of the new runtime current and retires the old one with its holders; every other generation and every lease stays as it was |
| GenerationProgress.PublishSchedulesRefresh | src/codefa/runtime/provider_manager.py:223-225 | publishing schedules one refresh, on the new generation, and tracks it |
| GenerationProgress.StartTracksRefresh | src/codefa/runtime/provider_manager.py:156-165 | starting a refresh leaves one tracked that has not ended, on the current generation if it is new, unless the manager is shutting down |
| GenerationProgress.LockHolderCancelsRefresh | src/codefa/runtime/provider_manager.py:167-187 | whoever takes the lock cancels the tracked refresh and awaits its end |
| GenerationProgress.LockHolderAwaitsRefresh | src/codefa/runtime/provider_manager.py:167-187 | and does not go on before that |
| GenerationProgress.LockCanBeFreed | src/codefa/runtime/provider_manager.py:167-229 | the replace lock is never lost: in every reachable state whoever holds it can take a step that frees it |
| GenerationProgress.LockIsFreedExactly | src/codefa/runtime/provider_manager.py:167-259 | the lock is taken by replacement, explicit refresh and shutdown only, and freed exactly when its holder gets to the end of its locked part, leaves it early, or finds nothing to refresh |
| GenerationProgress.CommitAfterRetries | src/codefa/runtime/provider_manager.py:187-192 | between a replacement's sweep and its commit the cleanup of every runtime unpublished when the sweep began was tried again |
| GenerationProperties.UntimelyRefreshEntersCleanup | src/codefa/runtime/provider_manager.py:156-165 | whenever an unheld generation is about to be replaced, a refresh started then can end up holding it while its cleanup runs |
| RefreshTiming.RefreshesGrantRetiredExactly | src/codefa/runtime/provider_manager.py:156-165 | starting a refresh can lead to a hold on a retired generation if and only if it schedules one while a replacement is between cancelling the old refresh and publishing |
| RefreshTiming.LateRefreshIsReachable | src/codefa/runtime/provider_manager.py:183-187 | a first replacement suffices to get there |
| RefreshTiming.TimelyRunsGrantNothing | src/codefa/runtime/provider_manager.py:115-121 | no run without such starts ever grants a hold on a retired generation |
| GenerationProperties.RuntimesStayReachable | src/codefa/runtime/provider_manager.py:175-229 | a runtime made and not successfully cleaned up is owned by the current or a retired generation, or unpublished, whatever failed before |
| GenerationProperties.CleanedAtMostOnce | src/codefa/runtime/provider_manager.py:315-390 | no runtime is successfully cleaned up twice |
| GenerationProperties.CleanupsAreRemembered | src/codefa/runtime/provider_manager.py:315-390 | no step forgets a runtime made or a cleanup done |
| GenerationProperties.CloseMeansAllCleaned | src/codefa/runtime/provider_manager.py:231-259 | once `close` has returned normally every runtime ever made was cleaned up exactly once |
| GenerationProperties.SuccessfulShutdownCloses | src/codefa/runtime/provider_manager.py:249-259 | a shutdown that gets from joining the cleanups to its end closes the manager if and only if no generation cleanup it waited for and no sweep of an unpublished runtime failed on the way |
| GenerationProperties.ShutdownJoinsEveryGeneration | src/codefa/runtime/provider_manager.py:246-254 | after the drain no generation is refused as leased: each is closed or its cleanup is joined |
| GenerationManager.ProviderRuntimeManager.constructor | src/codefa/runtime/provider_manager.py:86-109 | a new manager has one generation, number 1, and gives out number 2 next |
| GenerationManager.ProviderRuntimeManager.Acquire | src/codefa/runtime/provider_manager.py:115-121 | leases the current generation, unless shutting down |
| GenerationManager.ProviderRuntimeManager.ReleaseGeneration | src/codefa/runtime/provider_manager.py:261-269 | the last hold on a retired generation starts its cleanup, unless a shutdown will |
| GenerationManager.ProviderRuntimeManager.CloseGeneration | src/codefa/runtime/provider_manager.py:337-354 | starts or joins the cleanup of an unheld generation, and refuses a held one |
| GenerationManager.ProviderRuntimeManager.HoldForRefresh | src/codefa/runtime/provider_manager.py:277-280 | a refresh takes its own hold unless the generation is closed |
| GenerationManager.ProviderRuntimeManager.CleanupEnded | src/codefa/runtime/provider_manager.py:376-390 | success closes the generation and drops it from the retired ones; failure leaves it to be cleaned up again |
| GenerationManager.ProviderRuntimeManager.PublishCandidate | src/codefa/runtime/provider_manager.py:207-229 | the candidate becomes current in one step, the previous generation retires and is cleaned up at once if unheld |
| GenerationManager.ProviderRuntimeManager.BeginShutdown | src/codefa/runtime/provider_manager.py:239-244 | the current generation retires unless it has, and the shutdown takes all retired ones |
| GenerationManager.ProviderGenerationLease.Release | src/codefa/runtime/provider_manager.py:70-74 | however often it is called, the manager's count goes down once |
| RequestProperties.LeaseIsReleasedOnceUnlessCloseIsCancelled | src/codefa/api/response_streams.py:99-116 | in every run of any number of requests: a lease is released at most once, and by the time its request is over exactly once if and only if the cleanup of its managed response was not cut off |
| RequestProperties.GenerationOutlivesBody | src/codefa/api/routes.py:38-98 | while a request's body is open its generation is neither being cleaned up nor was, unless the lease was released; and that happens under an open body if and only if a pre-start cleanup was cancelled before it ran |
| RequestProperties.OpenBodyHoldsGeneration | src/codefa/api/response_streams.py:152-173 | the lease of an open body whose request has not ended is held, so nothing cleans up its generation |
| RequestProperties.ClosersWaitForCleanup | src/codefa/api/response_streams.py:74-82 | whoever closes a managed response outlasts the cleanup, whatever cancellations reach it, and returns normally only with the body closed and the lease released |
| RequestProperties.ClosersRaiseExactly | src/codefa/api/response_streams.py:119-139 | over any run, a closer that returned raised if and only if it was cancelled while it waited, or the cleanup task was |
| RequestProperties.CancelledHandlersLeave | src/codefa/api/response_streams.py:254-269 | a handler whose stream failed before its first chunk goes on only if neither it nor the pre-start cleanup was cancelled; otherwise its request ends with the lease given back |
| RequestProperties.InterruptedHandlersLeave | src/codefa/api/response_streams.py:119-139 | over any run, a handler cancelled while it awaits a pre-start cleanup never goes on: it waits the cleanup out and its request ends |
| RequestProperties.CleanupRunsToEnd | src/codefa/api/response_streams.py:99-116 | a cleanup nobody cancels can take each of its steps, and ends with the body closed and, for a managed response, the lease given back |
| RequestProperties.StepKeepsInvariant | src/codefa/api/response_streams.py:62-173 | every step of any request, closer or cleanup task, cancellations included, and every step of the manager keeps lease, body and task in agreement |
| RequestProperties.RunKeepsInvariant | src/codefa/api/routes.py:38-98 | the invariant holds throughout every run |
| RequestProperties.CutOffIsReachable | src/codefa/api/response_streams.py:74-82 | a first request whose cleanup task is cancelled before it runs keeps its lease and its open body |
| RequestProperties.AbandonedBodyIsReachable | src/codefa/api/response_streams.py:254-269 | a first request whose pre-start cleanup is cancelled before it runs releases its lease under an open body |
| ResponseLifetime.CreateResponse | src/codefa/api/routes.py:38-98 | undisturbed, each outcome of the handler has its own answer, an application error, another exception, a plain response or a stream; all but the stream leave the manager exactly as it was, and the stream takes the lease along in a fresh managed response |
| ResponseLifetime.AcquireThenRelease | src/codefa/runtime/provider_manager.py:115-121 | leasing the current generation and giving the lease back leaves no trace in the manager |
| ResponseLifetime.WaitForCleanup | src/codefa/api/response_streams.py:119-139 | whatever its waits end in, the waiter stays until the first wait after which the cleanup task is done, and then raises exactly if it or that task was cancelled |
| ResponseLifetime.ManagedStreamingResponse.BindRelease | src/codefa/api/response_streams.py:62-68 | binds once and never after cleanup started |
| ResponseLifetime.ManagedStreamingResponse.JoinCleanup | src/codefa/api/response_streams.py:74-82 | only the first closer starts the cleanup task |
| ResponseLifetime.ManagedStreamingResponse.BodyClosed | src/codefa/api/response_streams.py:99-116 | once the body is closed the manager's hold is given back, at most once |
| ResponseLifetime.PrefetchedStream.Next | src/codefa/api/response_streams.py:292-326 | replays the prefetched chunk without pulling, then passes on what is pulled; a failure becomes the terminal frame if there is one and propagates if there is none; nothing comes after an end or a terminal frame |
| ResponseLifetime.PrefetchedStream.Aclose | src/codefa/api/response_streams.py:309-316 | closes the body at most once |
| ResponseLifetime.Iterate | src/codefa/api/response_streams.py:271-326 | iterating puts the prefetched chunk and then exactly the body's chunks up to its end or failure on the wire, then the terminal frame of a failure if there is one; else the failure is raised |
| StreamRecovery.RetriesAreInvisible | src/codefa/providers/stream_recovery.py:93-175 | after any operations, what was emitted followed by what is held is exactly what was pushed since the attempt was last thrown away; nothing is emitted before the commit, and held bytes stay below the cap |
| StreamRecovery.CommitIsPermanent | src/codefa/providers/stream_recovery.py:73-81 | a committed stream stays committed and what it emitted is never revised |
| StreamRecovery.DecisionsProtectOutput | src/codefa/providers/stream_recovery.py:121-175 | when each decision is taken, exactly: generated output is given up only for want of budget and salvage, a committed stream is never restarted, the last attempt is kept for output already generated |
| StreamRecovery.Drive | src/codefa/providers/stream_recovery.py:93-175 | the controller object, driven through any operations, is in the state the run theorems are about |
| StreamRecovery.RecoveryHoldbackBuffer.Push | src/codefa/providers/stream_recovery.py:59-71 | nothing is lost or reordered, and the buffer commits exactly when the bytes or the time held reach their cap |
| StreamRecovery.SizeIsEncodedSize | src/codefa/providers/stream_recovery.py:59-71 | the bytes counted for a code point are those of an encoding that can be read back |
| StreamRecovery.RecoveryHoldbackBuffer.Flush | src/codefa/providers/stream_recovery.py:73-81 | commits and releases all that was held, once |
| StreamRecovery.RecoveryController.AdvanceFailure | src/codefa/providers/stream_recovery.py:121-175 | an early retry, and nothing else, drops the held events, and only when none was emitted |
| StreamRecovery.RecoveryController.FlushUncommitted | src/codefa/providers/stream_recovery.py:116-119 | after a decision taken on the current state all of the attempt has been emitted |
| DeliveryQueue.FuturesAreAccountedFor | src/codefa/messaging/limiter.py:61-169 | in every reachable state every future handed in is done or held, none is held twice, in the queue and among the active ones together, and no key is queued twice |
| DeliveryQueue.ShutdownResolvesAll | src/codefa/messaging/limiter.py:171-189 | after a shutdown's locked section no future ever handed in is unresolved, also none handed in later |
| DeliveryQueue.LatestFunctionWins | src/codefa/messaging/limiter.py:249-262 | each queued key runs the function enqueued last for all futures enqueued since it was last taken, in order |
| DeliveryQueue.QueueIsInOrder | src/codefa/messaging/limiter.py:237-263 | in every reachable state the queue is ordered by when its keys came in, those put in front before all others and the latest of them first, so compaction costs no key its turn |
| DeliveryQueue.StepResolvesExactly | src/codefa/messaging/limiter.py:61-189 | a step resolves an undone future if and only if its operation ends, the worker is cancelled under it, its caller gives up, its enqueueing is refused or a shutdown finds it held, and with that outcome |
| DeliveryQueue.ResolutionsAreFinal | src/codefa/messaging/limiter.py:89-148 | a done future keeps what it was resolved with |
| DeliveryQueue.WorkerEndsAlone | src/codefa/messaging/limiter.py:51-169 | the worker stops only at its own end, leaving the queue as it is, and none starts after a shutdown |
| DeliveryQueue.CompactKeepsPlaces | src/codefa/messaging/limiter.py:249-253 | compaction moves no entry: the key keeps its first position, its futures queue up behind those waiting |
| DeliveryQueue.EnqueueAddsFutures | src/codefa/messaging/limiter.py:237-263 | enqueueing, at either end or by compaction, adds exactly the given futures |
| DeliveryQueue.MessagingRateLimiter.EnqueueInternal | src/codefa/messaging/limiter.py:237-263 | key list and function map together change as the keyed queue does, and still hold the same keys |
| DeliveryQueue.MessagingRateLimiter.TakeNext | src/codefa/messaging/limiter.py:67-76 | the worker takes the head of the keyed queue with its function and futures |
| DeliveryQueue.MessagingRateLimiter.FinishActive | src/codefa/messaging/limiter.py:89-148 | the outcome reaches every active future not yet done |
| DeliveryQueue.MessagingRateLimiter.WorkerCancelled | src/codefa/messaging/limiter.py:149-156 | a worker that is cancelled cancels its active futures and leaves the queue alone |
| DeliveryQueue.MessagingRateLimiter.Start | src/codefa/messaging/limiter.py:51-59 | starts a worker unless one runs, and never on a closed limiter |
| DeliveryQueue.MessagingRateLimiter.BeginShutdown | src/codefa/messaging/limiter.py:173-188 | queued and active futures are cancelled and the queue is emptied |
| SessionMaps.RegisterKeepsConsistent | src/codefa/cli/managed/manager.py:120-145 | registration keeps the id maps mutual inverses over the registered ids and one owning key per session |
| SessionMaps.LookupSurvivesRegistration | src/codefa/cli/managed/manager.py:55-60 | a session is found by its temporary id before and after registration, now also by its real one, and no other lookup changes |
| SessionMaps.ForgetKeepsConsistent | src/codefa/cli/managed/manager.py:62-80 | forgetting a session keeps all of it |
| SessionMaps.ForgetRemovesExactly | src/codefa/cli/managed/manager.py:62-80 | forgetting removes that session and no other |
| SessionMaps.RegisteredIdIsFree | src/codefa/cli/managed/manager.py:129-136 | a registration that is let through uses a real id that led to nothing before |
| SessionMaps.RegisterAnswers | src/codefa/cli/managed/manager.py:120-145 | a registration is let through if and only if the temporary id has a pending session that is not closing and the real id leads to no other session; otherwise nothing changes |
| SessionMaps.ManagedClaudeSessionManager.GetOrCreate | src/codefa/cli/managed/manager.py:82-118 | returns the owned session under its resolved id, refuses a closing one, and otherwise creates one pending session under the asked or a new id |
| SessionMaps.ManagedClaudeSessionManager.RegisterRealSessionId | src/codefa/cli/managed/manager.py:120-145 | the four maps, changed in place, become those of the registration |
| SessionMaps.ManagedClaudeSessionManager.ForgetSession | src/codefa/cli/managed/manager.py:62-80 | the loops over pending and real ids remove exactly the session's entries from all maps |
| SessionMaps.ManagedClaudeSessionManager.RemoveSession | src/codefa/cli/managed/manager.py:147-158 | a session is removed exactly if it is found and stops; otherwise it stays owned, marked closing |
| SessionMaps.ManagedClaudeSessionManager.StopAll | src/codefa/cli/managed/manager.py:160-199 | what is left is exactly the sessions whose stop did not succeed, all marked closing, as many as reported; if the caller is cancelled on the way, also those not come to |
| LineSplitter.ReadLines | src/codefa/cli/managed/session.py:151-188 | for every chunking the lines handed on are those of the whole stream |
| LineSplitter.TakeLines | src/codefa/cli/managed/session.py:172-188 | the inner loop hands on every complete line of the buffer and keeps the rest |
| LineSplitter.PiecesMakeUpTheStream | src/codefa/cli/managed/session.py:172-180 | the pieces hold no newline and, joined with newlines, are the stream |
| LineSplitter.OnlyPiecesMakeUpTheStream | src/codefa/cli/managed/session.py:172-180 | no other newline-free pieces make up the stream |
| LineSplitter.CompleteLinesAreFinal | src/codefa/cli/managed/session.py:172-188 | lines handed on before more input arrives are a prefix of those handed on in the end |
| LineSplitter.Strip | src/codefa/cli/managed/session.py:182 | stripping takes off white space only, and all of it at both ends |
| LineSplitter.BlankExactly | src/codefa/cli/managed/session.py:182-183 | no line is handed on exactly for pieces whose text is white space |
| LineSplitter.LinesAreNonBlankTexts | src/codefa/cli/managed/session.py:172-188 | whatever newline-free pieces a stream is made of, its lines are their stripped texts that are not blank, in order, the last piece included |
| LineSplitter.ReceivedInOrder | src/codefa/cli/managed/session.py:160-172 | what a read loop receives is all chunks before the first empty one, in order |
| LineSplitter.CappedIsPrefix | src/codefa/cli/managed/session.py:62-88 | the capture is a prefix of what was received, cut at the cap |
| LineSplitter.DrainStderr | src/codefa/cli/managed/session.py:62-88 | the capture is the prefix of length min(cap, total), and exactly the chunks up to end of file are read |

## Left out

- HTTP, SSE framing, subprocesses and signals, files, FastAPI and uvicorn wiring, logging and tracing: their outcomes are inputs of the model.
- Exception classes, marker-string classification and retry-after parsing: retryability and the parsed delay are inputs.
- asyncio internals: fairness of locks, semaphore and loop, and so every claim that needs it; what is proved is safety, no lost wakeup and absence of circular waits.
- Floating point: times and delays are real numbers.
- Terminal frames, response headers and error payloads: a terminal frame is an arbitrary function of the error.
- The limiter wait inside `open_attempt` is one action that admits at an arbitrary time; the window itself is verified separately in `SlidingWindow`.
- AdmissionRetry.RunWithRetry: others act through the sections of the controller, with permits of their choosing; how long a wait lasts is not bounded, but the caller can be cancelled in any of them.
- The model cache, discovery and validation of models: a refresh is its hold on a generation.
- GenerationProperties.CleanupExcludesHolders: holds under the timing of `start_model_list_refresh` stated above, and not without it (`RefreshTiming`).
- `commit` or the runtime factory raising outside `Exception` in `replace`: the runtime made is then not recorded by the source either.
- The concurrent `_close_generation` calls of a shutdown are one step of the model; nothing can be granted between them, as the manager is closing.
- RequestProperties.LeaseIsReleasedOnceUnlessCloseIsCancelled: that a managed response is run or closed at all is Starlette's part, which is not part of this model; nor is a close that starts while the response loop is pulling on the body.
- Handlers that collect a stream into one message close it themselves; such a request is a plain response here. Exceptions outside `Exception` and cancellation, such as an interpreter exit, are not modelled.
- ResponseLifetime.CreateResponse: nobody interferes while it runs; concurrent requests are in `RequestSystem`.
- Flood-wait pauses and the retries of `fire_and_forget` in the delivery queue: they only delay or repeat enqueueings.
- DeliveryQueue.FuturesAreAccountedFor: a delivered function that raises outside `Exception`, which ends the worker with its futures pending, is not modelled.
- The drain and timeout part of the delivery queue's `shutdown` after its locked section.
- SessionMaps.ManagedClaudeSessionManager.RemoveSession: a stop that raises is modelled by the state it leaves, not by the exception.
- UTF-8 decoding is an arbitrary function that maps no bytes to no text; what a line means to the event parser is not modelled.
- `messaging/workflow.py`, `turn_intake.py`, `node_runner.py`: they work on a tree queue and a session store of their own.
- Admin UI, launchers, catalogs, settings manifests, model id encoding, env migration, web tools and request detection: input and output, or easy properties only.
