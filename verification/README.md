# Verified models of the Everruns agent runtime

Five pieces of the repository where a small step can break a large promise, each modelled
in Dafny in the form the source has, with its promises proved for all inputs, all runs or
all reachable states.

* **Steering owner and journal** (`examples/openai-steering/steering.py`).  Producers append
  updates to a durable inbox; one owner sends them to a live response, one at a time, and
  after a crash recovers only what the provider's history proves.  `SteeringState` says
  what each operation leaves behind, exception paths included; `SteeringInvariants` proves what
  every operation keeps; `SteeringRuns` interleaves producers, owner, provider, crashes and
  recovery in arbitrary runs; `SteeringChain` is about the response chain; `SteeringSends` about
  what a state can still send, creates in flight and lost prompts; `SteeringMeaning` spells out
  what single operations do and that every request can be answered; `SteeringOwner` holds the classes `Journal` and `Owner`, whose methods update their
  fields in place and are each proved to follow the transition functions.
* **Progress guard** (`crates/builtins/src/progress_guard.rs`).  `ProgressGuard` is the class with
  its bounded caches; `GuardHistory` has the unbounded histories they must agree with.
* **Context compaction** (`crates/builtins/src/compaction.rs`,
  `crates/core/src/tool_call_integrity.rs`).  `ToolExchanges` (complete exchanges and
  token estimate), `AggressiveTrim`, `HierarchicalMemory`, `CostControl`, with `StoredMessages`
  and `Positions` as their vocabulary.
* **Release planner and gate** (`scripts/plan-crate-release.py`,
  `scripts/check-publish-cone.py`).  `ReleaseVersions`, `ReleasePlan`.
* **Scanners** (`scripts/test-quality/ledger.py`, `crates/builtins/src/loop_detection.rs`).
  `MaskRust` is the in-place masker, `MaskGrammar` an independent grammar it is proved
  against; `LoopDetection` has the three backward scans.

`dafny verify dfyconfig.toml` checks the whole project.

## Where code and documentation disagree

The model follows the code.

* The planner's docstring (`scripts/plan-crate-release.py`, lines 103-110) promises that every
  crate left behind by a planned version is republished.  Line 121 also asks that the pin
  exclude the dependant's *own* version, so a crate on the same version line as its dependency is
  overlooked.  `SameLineIsOverlooked` gives one, `GateReportsCoincidences` says exactly which.
* "One `response.create` at a time" is not kept by every event sequence: a repeated terminal
  event, a repeated pending event or a late failure during `creating` can return the owner to a
  state that sends.  `SendsAgainExactly` gives the exact events, `ResultsSentAgain` a
  consequence, and `FirstTurnSendsResults` reaches it.
* An event the owner rejects leaves no trace (`RejectionLeavesNoTrace`).  An event that raises
  because a member is missing does, in exactly two cases (`RaisedLeavesNoTrace`): a `steer.pending`
  for an accepted intent whose `required_input` is missing or has an item without a type, and a
  terminal payload of the current response with an output item without a type or id.  The save at
  disconnect makes only the second durable (`DisconnectPersistsNothing`); both are reached
  (`HalfPendingReached`, `HalfEndedReached`), and where the second is reached with nothing in
  flight the journal never sends again (`StuckForever`).
* A follow-up is answerable exactly while the finished response it follows is not set running
  again by a later payload: `FollowUpAnswered`, `FollowUpRefused`.
* `recover` on a journal that never ran loses its prompt, as does a crash or disconnect between
  the durable prompt and its send, and nothing else does: `PromptLostExactly`.

## Assumptions

* One owner runs at a time (the OS lock, `steering.py` 198-206).  A crash may fall between any two
  durable writes.  SQLite transactions are atomic steps; the wire and the provider's answers are
  inputs, arbitrary unless a lemma says otherwise.
* Only the chain lemmas ask the provider for something: a response's `previous_response_id` does
  not change between payloads (`Faithful`).
* Payload members may be missing (`Option`, `Unreadable`, `Shapeless`); those present have their
  documented JSON types, and a null id counts as missing.  A required input is represented by its
  result key.  After an exception the connected owner only disconnects; one in `reconcile` ends
  the process, as does a history that cannot be read.
* Hashes are injective: contents, tracked path maps and epochs stand for their digests.  Tool
  class, exploration signature, evidence flags and hash transition of a call are inputs.
* Text lengths are byte lengths.  Summary texts and the summary message are inputs, and so is the
  verdict of the cost thresholds, some of which are `f32` ratios.
* Requirements are full three-component caret versions, or unparsable (`Other`, never
  flagged); pre-release suffixes are ignored, as both scripts do.  The crates.io index is a given map.
* `\d` in the character-literal pattern is taken as the ASCII digits.

## Model

| member | source | states |
|---|---|---|
| `SteeringRuns.NoReplay` | examples/openai-steering/steering.py:220-272 | in every run the prompt is on the wire at most once, no update twice, updates in acceptance order and each with the text it was accepted with |
| `SteeringRuns.AcceptedExactlyOnce` | examples/openai-steering/steering.py:140-162 | at every durable point the intents are exactly the consumed inbox rows in row order, the consumed rows are a prefix, ids are distinct |
| `SteeringRuns.AcceptedForever` | examples/openai-steering/steering.py:140-184 | an accepted update keeps its place and text, a saved result its value, through any further run |
| `SteeringRuns.AppliedForever` | examples/openai-steering/steering.py:274-304 | an applied intent, with parent and successor, is never changed again by any step, crash or recovery |
| `SteeringRuns.NextOk` | examples/openai-steering/steering.py:132-515 | every step of the protocol keeps the run invariant (queue shape, inbox, what was sent) and every applied intent |
| `SteeringRuns.QueueShape` | examples/openai-steering/steering.py:217-272 | after every run the intents are settled ones, then at most one in flight whose parent is `current`, then only queued ones |
| `SteeringRuns.ContinuationIsComplete` | examples/openai-steering/steering.py:242-252 | a continuation with tool results follows a terminal response, answers every required input in order and waits for steers not yet acknowledged as pending |
| `SteeringRuns.ReachableOk` | examples/openai-steering/steering.py:132-515 | the run invariant holds after every run from a new journal |
| `SteeringInvariants.CommitLoop` | examples/openai-steering/steering.py:294-302 | with settled intents first, the commit loop applies the one intent in flight or raises having changed nothing, and raises exactly for an unacknowledged steer |
| `SteeringInvariants.CreatedOutcome` | examples/openai-steering/steering.py:281-304 | an accepted `response.created` is fresh, extends `current`, and marks everything in flight applied; any other leaves the state alone |
| `SteeringInvariants.CreatedCommitsAll` | examples/openai-steering/steering.py:294-304 | nothing is left uncommitted, and each committed intent had the new response's parent |
| `SteeringInvariants.CandidateUnique` | examples/openai-steering/steering.py:305-323 | a steering event never has two candidates; correlation fails exactly when nothing matches |
| `SteeringInvariants.EventOk` | examples/openai-steering/steering.py:274-351 | every event, accepted or not, keeps the state invariant, the queue and the applied intents |
| `SteeringInvariants.RejectionLeavesNoTrace` | examples/openai-steering/steering.py:274-351 | an event the owner itself rejects leaves the state exactly as it was |
| `SteeringInvariants.RaisedLeavesNoTrace` | examples/openai-steering/steering.py:274-351 | a raising event leaves no trace if and only if it is neither a pending event with an unreadable input list for an accepted intent nor a new payload of the current response with an unreadable output item |
| `SteeringInvariants.DisconnectPersistsNothing` | examples/openai-steering/steering.py:380-387 | the save at disconnect after a raise is the save without the event, if and only if the event is not such a payload |
| `SteeringInvariants.UnreadableBlocksRecovery` | examples/openai-steering/steering.py:497-515 | with nothing in flight and a terminal current response, recovery raises exactly when a refresh fails or that response cannot be read |
| `SteeringInvariants.TwoUnresolvedBreakAtomicity` | examples/openai-steering/steering.py:294-302 | without the one-in-flight invariant a raising `response.created` would be half applied |
| `SteeringInvariants.DecideOk` | examples/openai-steering/steering.py:235-272 | the whole new state for each request: the head of the queue with everything before it settled, steered while active and followed up when complete, the create recorded with its parent and the update it carries; no request, no change |
| `SteeringInvariants.DisconnectOk` | examples/openai-steering/steering.py:380-387 | a disconnect keeps the invariant, the queue order and everything applied |
| `SteeringInvariants.AdoptOk` | examples/openai-steering/steering.py:445-489 | adopting a successor keeps all live-run invariants |
| `SteeringInvariants.AdoptionIsProven` | examples/openai-steering/steering.py:445-489 | recovery changes a status only to applied, and only when the successor's user history is the parent's plus exactly the unresolved text |
| `SteeringInvariants.RecoverOk` | examples/openai-steering/steering.py:490-515 | the rest of recovery keeps all live-run invariants and changes no intent |
| `SteeringInvariants.RecoveryIsSettled` | examples/openai-steering/steering.py:490-515 | recovery succeeds only with nothing in flight, no create outstanding and a terminal current response |
| `SteeringMeaning.AdoptedExactly` | examples/openai-steering/steering.py:445-484 | a successor is adopted if and only if id, parent and session match, something is to recover, its user messages are the parent's and then exactly the lost input, and every required result is saved and stands in the history exactly once with every saved member |
| `SteeringMeaning.AdoptedState` | examples/openai-steering/steering.py:485-489 | then exactly what was in flight is applied there |
| `SteeringMeaning.UserTextsAre` | examples/openai-steering/steering.py:428-438 | the user messages of a history, one each and in order |
| `SteeringMeaning.RecoveryWaits` | examples/openai-steering/steering.py:490-496 | with anything in flight the rest of recovery only reports it |
| `SteeringMeaning.RecoveryRefreshes` | examples/openai-steering/steering.py:497-502 | running responses are replaced by the provider's latest word under their own id, finished ones stay |
| `SteeringMeaning.RecoveryRequires` | examples/openai-steering/steering.py:503-515 | success leaves open exactly the questions of the current response |
| `SteeringMeaning.RequiredAre` | examples/openai-steering/steering.py:24-46 | the required keys are, one each and in output order, the answer kind and id of every function call, custom call and approval request |
| `SteeringMeaning.EndedRequires` | examples/openai-steering/steering.py:340-348 | after an accepted terminal event of the current response exactly its questions are open |
| `SteeringMeaning.DedupIs` | examples/openai-steering/steering.py:329-331 | listed inputs are kept once each, in their order |
| `SteeringMeaning.ShapesAre` | examples/openai-steering/steering.py:48-62 | the results accepted are exactly an output text, or an explicit decision with at most a reason |
| `SteeringMeaning.DisconnectMeans` | examples/openai-steering/steering.py:380-387 | a settled journal is left alone; any other goes to recovery with everything in flight uncertain and the first cause kept |
| `SteeringMeaning.CreatedExactly` | examples/openai-steering/steering.py:281-304 | `response.created` is accepted if and only if it is new, follows `current`, does not overlap it, was waited for and no steer is unacknowledged |
| `SteeringMeaning.EndMeans` | examples/openai-steering/steering.py:353-378 | the phase and error after a response ends, for every status and what is open |
| `SteeringMeaning.SteerMeans` | examples/openai-steering/steering.py:322-339 | what each steering event does to the intent it names |
| `SteeringMeaning.PromptAnswered` | examples/openai-steering/steering.py:238-239 | the answer to the prompt is accepted |
| `SteeringMeaning.ResultsAnswered` | examples/openai-steering/steering.py:242-252 | the answer to a continuation is accepted, and a pending update takes effect with it |
| `SteeringMeaning.FollowUpAnswered` | examples/openai-steering/steering.py:265-271 | the answer to a follow-up is accepted, and its update takes effect there, if and only if the current response is not running again |
| `SteeringMeaning.FollowUpRefused` | examples/openai-steering/steering.py:290-291 | a state whose finished response runs again, where the answer is refused |
| `SteeringMeaning.SteerAcknowledged` | examples/openai-steering/steering.py:322-324 | a steer is acknowledged under any new id |
| `SteeringMeaning.SteerAnswered` | examples/openai-steering/steering.py:294-304 | once acknowledged and its response ended, the successor is accepted and the update takes effect |
| `SteeringChain.OneChain` | examples/openai-steering/steering.py:281-304 | after any run the known responses form one acyclic chain ending at `current`, with every applied update right after its parent and in queue order |
| `SteeringChain.ChainOnlyGrows` | examples/openai-steering/steering.py:281-348 | between two points of a run the chain is only extended |
| `SteeringChain.SuccessorIsFresh` | examples/openai-steering/steering.py:445-455 | a response whose parent is `current` is not a known one, so adoption never closes a cycle |
| `SteeringSends.MaySendExactly` | examples/openai-steering/steering.py:235-272 | some arrivals and saved results make a state send if and only if its phase, current response, required inputs and intents allow it |
| `SteeringSends.FinishSends` | examples/openai-steering/steering.py:353-378 | after a terminal response the owner can send exactly when the conversation goes on: with results when inputs are required and no steer awaits acknowledgement, with the next update after an ordinary end |
| `SteeringSends.SendsAgainExactly` | examples/openai-steering/steering.py:274-378 | while a create is outstanding and the owner is silent, an event lets it send again if and only if it is one of three kinds, each with its condition |
| `SteeringSends.OneCreateOutstanding` | examples/openai-steering/steering.py:220-272 | in runs without such events a connected owner that waits for a response can send nothing, whatever arrives; the first such event makes sending possible |
| `SteeringSends.ResultsSentAgain` | examples/openai-steering/steering.py:340-348 | a repeated terminal event during `creating` sends the same tool results again |
| `SteeringSends.FirstTurnSendsResults` | examples/openai-steering/steering.py:235-256 | such a state is reached after the first tool call of any session |
| `SteeringSends.FirstCallSendsResult` | examples/openai-steering/steering.py:35-46 | a first response that calls one function asks for `function_call_output` of that call, and its saved output is sent |
| `SteeringSends.HalfEndedReached` | examples/openai-steering/steering.py:340-348 | any session can receive, after its first response, a payload that is half applied, made durable by the disconnect, and final |
| `SteeringSends.HalfPendingReached` | examples/openai-steering/steering.py:325-332 | any session with one accepted update can receive a pending event that is half applied |
| `SteeringSends.StuckForever` | examples/openai-steering/steering.py:441-515 | a reconciling journal with nothing in flight and no readable current response never sends again, by any run |
| `SteeringSends.PromptReachable` | examples/openai-steering/steering.py:235-239 | from every reachable state some continuation sends the prompt if and only if the journal never ran or holds the prompt made durable but not sent |
| `SteeringSends.PromptLostExactly` | examples/openai-steering/steering.py:220-233 | the steps that lose a pending prompt are exactly recovery of a loaded journal and a crash or disconnect before the send |
| `SteeringSends.RecoverBeforeRunStrands` | examples/openai-steering/steering.py:503-510 | after recovering a journal that never ran, from any reachable state, no later run sends anything |
| `SteeringOwner.TextOfFirst` | examples/openai-steering/steering.py:147-151 | the lookup by primary key returns the text of the first row with the id |
| `SteeringOwner.Journal.Enqueue` | examples/openai-steering/steering.py:140-151 | appends a new id, ignores a known one, rejects blank text and a known id with another text |
| `SteeringOwner.Journal.Drain` | examples/openai-steering/steering.py:153-162 | moves exactly the unconsumed rows, in order, and makes intents and rows durable together |
| `SteeringOwner.Journal.SubmitResult` | examples/openai-steering/steering.py:164-184 | saves a required, well-shaped result once and accepts only the same value again |
| `SteeringOwner.Journal.Results` | examples/openai-steering/steering.py:186-195 | all required results in order, or none if one is missing |
| `SteeringOwner.Owner.NextRequest` | examples/openai-steering/steering.py:235-272 | drains, decides and has the new state on disk before the request is returned |
| `SteeringOwner.Owner.Commit` | examples/openai-steering/steering.py:294-302 | the loop in place follows its specification, raising in the middle included |
| `SteeringOwner.Owner.Find` | examples/openai-steering/steering.py:307-321 | candidates by steering id, by parent only if there are none |
| `SteeringOwner.Owner.Receive` | examples/openai-steering/steering.py:274-351 | follows the event function; saves exactly the events that neither raise nor are skipped |
| `SteeringOwner.Owner.Disconnect` | examples/openai-steering/steering.py:380-387 | everything in flight becomes uncertain and durable |
| `SteeringOwner.Owner.AdoptSuccessor` | examples/openai-steering/steering.py:445-489 | verifies, commits what was in flight, saves; a rejected proof changes nothing |
| `SteeringOwner.Owner.Reconcile` | examples/openai-steering/steering.py:441-515 | both halves in sequence, with the journal at its last save when one raises |
| `GuardHistory.RequeueIsRecency` | crates/builtins/src/progress_guard.rs:407-420 | moving a signature to the back of the bounded queue gives the 512 most recently observed signatures of the whole history |
| `GuardHistory.RememberedOk` | crates/builtins/src/progress_guard.rs:407-420 | after an observation the cache holds the latest content of exactly those signatures |
| `GuardHistory.CacheIsExact` | crates/builtins/src/progress_guard.rs:407-420 | after any observations the cache holds the latest content of exactly the 512 most recently observed signatures |
| `ProgressGuard.RepetitionMeans` | crates/builtins/src/progress_guard.rs:385-391 | a repetition is a signature among the last 512 with the content it had last, of at least 512 bytes |
| `GuardHistory.LatestWasDelivered` | crates/builtins/src/progress_guard.rs:374-405 | the latest content of a signature was delivered in full, directly or through its markers, with no mutation since |
| `GuardHistory.MarkersAreJustified` | crates/builtins/src/progress_guard.rs:374-405 | every marker of a session points at an earlier full delivery of the same content with no applied mutation in between |
| `GuardHistory.QueueExact` | crates/builtins/src/progress_guard.rs:623-635 | the bounded queue is duplicate-free, at most 512 long, and forgets nothing until more than 512 different values were offered |
| `GuardHistory.PushOk` | crates/builtins/src/progress_guard.rs:623-635 | `remember_bounded` follows the reference queue and its set |
| `GuardHistory.WindowSlides` | crates/builtins/src/progress_guard.rs:270-291 | the eight-wide window slides exactly, and only a wait can raise the alarm |
| `GuardHistory.AlarmMeans` | crates/builtins/src/progress_guard.rs:270-291 | the alarm means at least four waits at the last eight positions |
| `ProgressGuard.RanBeforeIs` | crates/builtins/src/progress_guard.rs:131-148 | within an epoch, a kept validation did run on this state; all of them are noticed up to 512 different ones |
| `ProgressGuard.RevisitIsReal` | crates/builtins/src/progress_guard.rs:225-258 | a revisit warning means the tracked hashes equal a state recorded since the last reset |
| `ProgressGuard.UninterruptedReturn` | crates/builtins/src/progress_guard.rs:225-258 | editing a tracked, untouched file resets nothing, and each return to one of at most 512 states is noticed |
| `ProgressGuard.InterferenceForgets` | crates/builtins/src/progress_guard.rs:231-245 | another writer's change gives up tracking: only the state found and the new one count afterwards |
| `ProgressGuard.UndoIsNoticed` | crates/builtins/src/progress_guard.rs:239-258 | an edit of a new path records what it found, so undoing it is noticed at once |
| `ProgressGuard.OpaqueEditRefreshes` | crates/builtins/src/progress_guard.rs:216-223 | after an edit of unknown extent every validation is fresh |
| `ProgressGuard.SessionProgress.EveryMarkerJustified` | crates/builtins/src/progress_guard.rs:374-405 | in every session state the guard can reach, every marker ever issued is justified |
| `ProgressGuard.MarkersAreBacked` | crates/builtins/src/progress_guard.rs:374-405 | a marker is only given for content delivered in full earlier with no applied mutation since |
| `ProgressGuard.SessionProgress.Observe` | crates/builtins/src/progress_guard.rs:125-201 | one call keeps all caches and counters exact, determines log, signals, trail, hashes, validations, epoch and the whole answer from the session's history, and counts its warnings; a failed or unapplied mutation changes nothing but the call count |
| `ProgressGuard.SessionProgress.ObserveMutation` | crates/builtins/src/progress_guard.rs:203-258 | a failed or unapplied mutation leaves every field unchanged; an applied one forgets all observations, restarts every streak and moves trail, hashes, validations and epoch as specified |
| `ProgressGuard.SessionProgress.ReuseUnchangedObservation` | crates/builtins/src/progress_guard.rs:374-405 | a marker replaces a result exactly when the signature is remembered with the same content of at least 512 bytes; the result is recorded either way |
| `ProgressGuard.SessionProgress.RememberObservation` | crates/builtins/src/progress_guard.rs:407-420 | the cache of a history becomes the cache of the history with this observation |
| `ProgressGuard.SessionProgress.ObserveWaitingSignal` | crates/builtins/src/progress_guard.rs:270-291 | fires exactly when four of the last eight signals since the last clear are waits |
| `ProgressGuard.SessionProgress.RememberWorkspaceState` | crates/builtins/src/progress_guard.rs:321-331 | answers whether the reference queue holds the state, and follows it |
| `ProgressGuard.SessionProgress.ObserveValidation` | crates/builtins/src/progress_guard.rs:131-148 | warns exactly when the reference queue holds this command on this state, which then did run before |
| `ProgressGuard.EmptyStreak` | crates/builtins/src/progress_guard.rs:333-367 | since the last reset, the warning about empty searches comes exactly on every third consecutive one |
| `ProgressGuard.TruncatedStreak` | crates/builtins/src/progress_guard.rs:333-367 | the warning about truncated results needs two consecutive ones, and two of them never pass without a warning |
| `ProgressGuard.EveryNth` | crates/builtins/src/progress_guard.rs:439-462 | a streak warns exactly on every n-th consecutive repetition of one value since the last reset: every fifth for a target here, every third for a status command |
| `ProgressGuard.CountedNext` | crates/builtins/src/progress_guard.rs:125-201 | the counters are the counts of the session's history: investigations, status commands and targets since the last restart, search results since the last other call |
| `ProgressGuard.ReplyIsAnswer` | crates/builtins/src/progress_guard.rs:125-201 | the counters answer as the history says |
| `ProgressGuard.Landmarks` | crates/builtins/src/progress_guard.rs:422-462 | the third status check, the third empty search, the fifth look at one target, the 24th and from the 48th every investigation are warned about |
| `ToolExchanges.RetainShrinks` | crates/core/src/tool_call_integrity.rs:85-125 | keeping complete exchanges never raises the token estimate |
| `ToolExchanges.TokensAre` | crates/builtins/src/compaction.rs:597-622 | a quarter of the characters, where a part without text counts 50 and a call its name, its arguments and 20 |
| `ToolExchanges.RetainSound` | crates/core/src/tool_call_integrity.rs:85-125 | nothing is shown as called or answered that was not both |
| `ToolExchanges.RetainCompletes` | crates/core/src/tool_call_integrity.rs:85-125 | an id is shown as called and answered if and only if a message that is shown calls it and one answers it |
| `ToolExchanges.PlainIsShown` | crates/core/src/tool_call_integrity.rs:85-125 | a message with an answered call is shown unless it is itself a tool result, and an answered result unless it makes calls |
| `ToolExchanges.ShownExactly` | crates/core/src/tool_call_integrity.rs:85-125 | a message is shown exactly when it made no calls or keeps text, parts, reasoning or an answered call, and a result only if its call is there |
| `ToolExchanges.NestedCallBreaks` | crates/core/src/tool_call_integrity.rs:85-125 | an empty result that makes an unanswered call is dropped and leaves its own call unanswered |
| `ToolExchanges.RetainKeepsOrder` | crates/core/src/tool_call_integrity.rs:85-125 | the filter only drops messages and unanswered calls and never reorders |
| `ToolExchanges.ResultSurvives` | crates/core/src/tool_call_integrity.rs:85-125 | a result whose call is present is kept, verbatim if it makes no calls itself, otherwise exactly when something of it stays visible |
| `ToolExchanges.CallSurvives` | crates/core/src/tool_call_integrity.rs:85-125 | a call whose result is present stays in its message, which stays |
| `AggressiveTrim.TrimFits` | crates/builtins/src/compaction.rs:678-777 | the result never exceeds the target token estimate |
| `AggressiveTrim.TrimKeepsOrder` | crates/builtins/src/compaction.rs:678-777 | the result is the input with messages and unanswered calls left out, in original order |
| `AggressiveTrim.KeptWhenProtectedFit` | crates/builtins/src/compaction.rs:750-777 | when the protected messages fit, all are selected, with the longest suffix of unprotected ones that fits |
| `AggressiveTrim.SkillsSurviveTrim` | crates/builtins/src/compaction.rs:678-777 | when the protected messages fit, every skill result of the conversation is in the final result, verbatim unless it makes calls itself, together with its call |
| `AggressiveTrim.FirstIsSelected` | crates/builtins/src/compaction.rs:711-720 | when the opening message and the skill activations fit, the opening message is selected |
| `AggressiveTrim.FirstSurvives` | crates/builtins/src/compaction.rs:678-777 | and is in the result with only its unanswered calls gone, unless it is an unanswered result or has nothing left to see |
| `AggressiveTrim.SystemIsKept` | crates/builtins/src/compaction.rs:686-696 | a system message below the target comes first and is paid for, one at or above it is left out |
| `AggressiveTrim.SuffixIsLongest` | crates/builtins/src/compaction.rs:752-765 | the backward scan keeps every unprotected message from a cut on, and the next older one would not fit |
| `AggressiveTrim.GreedyIsTight` | crates/builtins/src/compaction.rs:729-748 | under extreme pressure a protected message is dropped only if the newer kept ones leave it no room |
| `AggressiveTrim.Reserve` | crates/builtins/src/compaction.rs:722-725 | the reserved budget is the same for every iteration order of the hash set |
| `AggressiveTrim.PickIsSorted` | crates/builtins/src/compaction.rs:767-775 | any ascending list of the kept positions gives the same messages, whatever order they were collected in |
| `AggressiveTrim.Trim` | crates/builtins/src/compaction.rs:678-777 | the algorithm selects exactly the specified messages, and its budget never underflows |
| `HierarchicalMemory.SlicesAreTiers` | crates/builtins/src/compaction.rs:866-905 | the three slices are exactly the tiers of `classify_memory_tiers` |
| `Positions.MaskedSet` | crates/builtins/src/compaction.rs:1552-1575 | the collected set holds exactly the maskable results with at least `keep` newer ones |
| `HierarchicalMemory.MaskObservations` | crates/builtins/src/compaction.rs:1546-1607 | masks exactly those, counts them, copies everything else |
| `HierarchicalMemory.MaskingKeepsShape` | crates/builtins/src/compaction.rs:1577-1601 | masking keeps number, order, roles, calls and call ids, and protected results verbatim |
| `HierarchicalMemory.ApplyHierarchicalMemory` | crates/builtins/src/compaction.rs:895-952 | summary and rescued skills, masked warm tier, verbatim hot tier, then complete exchanges only |
| `HierarchicalMemory.ViewIs` | crates/builtins/src/compaction.rs:905-949 | before the filter the view is the cold part, then the warm tier position by position, then the hot tier as it is |
| `HierarchicalMemory.ColdIs` | crates/builtins/src/compaction.rs:907-923 | the cold part is the summary, if any, and then the skill calls and results in history order |
| `HierarchicalMemory.WarmIs` | crates/builtins/src/compaction.rs:925-944 | a warm result with at least `keep` newer maskable ones shows the summary of its tool and content; every other warm message is as it was |
| `HierarchicalMemory.MaskableMeans` | crates/builtins/src/compaction.rs:928-943 | a warm message may be masked exactly if it is a result found to be of a skill neither in the tier nor in the history |
| `HierarchicalMemory.SkillsSurvive` | crates/builtins/src/compaction.rs:895-993 | with unique call ids, every skill result survives together with its call, wherever the tier boundaries fall; verbatim unless it makes calls itself |
| `CostControl.RunIsLongest` | crates/builtins/src/compaction.rs:1216-1229 | the related block is the longest run of related pages before the kept results, capped at four |
| `CostControl.RelatedRecent` | crates/builtins/src/compaction.rs:1198-1230 | the backward scan returns exactly the indices of that run |
| `CostControl.ApplyCostControl` | crates/builtins/src/compaction.rs:1075-1154 | when it fires, all but the newest `keep` plus related results are masked and counted; otherwise nothing changes |
| `CostControl.Spared` | crates/builtins/src/compaction.rs:1112-1120 | between `keep` and `keep + 4` of the newest unprotected results stay verbatim |
| `CostControl.KeyRank` | crates/builtins/src/compaction.rs:1112-1120 | the masked results are a prefix of the unprotected ones |
| `CostControl.MaskFirstKeeps` | crates/builtins/src/compaction.rs:1302-1325 | the masked result answers the same call and shows the summary, as its error if it had failed and as its result otherwise; every other part stays |
| `CostControl.ViewKeepsShape` | crates/builtins/src/compaction.rs:1131-1140 | count, order, roles, calls and call ids are kept; protected and spared results are untouched |
| `CostControl.SecondPassSelectsSame` | crates/builtins/src/compaction.rs:1075-1140 | masking the masked view selects exactly the same results |
| `CostControl.NameOfCall` | crates/builtins/src/compaction.rs:1261-1278 | with unique ids a result has the name of the call it answers |
| `CostControl.SkillsStay` | crates/builtins/src/compaction.rs:1183-1189 | the result of a skill activation is never masked |
| `CostControl.PageIs` | crates/builtins/src/compaction.rs:1232-1259 | a result is a page exactly when its call is one of the eight reading tools and its value shows one |
| `LoopDetection.RunLengthExact` | crates/builtins/src/loop_detection.rs:255-278 | the counted run is the one maximal run of equal signatures at the newest result |
| `LoopDetection.RepeatedToolResultCount` | crates/builtins/src/loop_detection.rs:255-278 | the generic scan returns that length, or nothing if it meets an unfingerprinted result |
| `LoopDetection.RepeatedFailedMutatingResult` | crates/builtins/src/loop_detection.rs:323-369 | the failed-mutation scan returns that length when the newest result is a failed mutation |
| `LoopDetection.DetectorsAgree` | crates/builtins/src/loop_detection.rs:255-369 | when the failed-mutation scan reports, the generic one agrees if and only if the run does not end at an unfingerprinted result |
| `LoopDetection.AgreeWhenFingerprinted` | crates/builtins/src/loop_detection.rs:255-369 | with every scanned result fingerprinted, the two report together and the same length |
| `LoopDetection.SignatureSeparates` | crates/builtins/src/loop_detection.rs:280-285 | with no colon in call fingerprints, equal signatures mean equal call and equal result |
| `LoopDetection.RecentAre` | crates/builtins/src/loop_detection.rs:259-265 | the results scanned are exactly those after the last user or system message, newest first |
| `LoopDetection.FailedMeans` | crates/builtins/src/loop_detection.rs:307-311 | a result has failed when the first outcome it holds carries an error |
| `LoopDetection.MutatingMeans` | crates/builtins/src/loop_detection.rs:290-295 | the mutating tools are the four named, bare or behind a namespace |
| `LoopDetection.RecentCallsAre` | crates/builtins/src/loop_detection.rs:396-404 | the calls scanned are those of every reply since the window began, newest reply first, each reply's own in order |
| `LoopDetection.HighestExact` | crates/builtins/src/loop_detection.rs:390-426 | the tracked maximum is the one highest multiplicity |
| `LoopDetection.RepeatedReadRangeCount` | crates/builtins/src/loop_detection.rs:390-436 | the scan computes the verdict over the leading reads of the newest resource |
| `LoopDetection.FiresOnDistinctRanges` | crates/builtins/src/loop_detection.rs:390-436 | it fires exactly when some range was read at least `threshold` times and another range of the same resource was read too |
| `ReleaseVersions.CaretIsRange` | scripts/plan-crate-release.py:76-94 | the caret test is Cargo's half-open range |
| `ReleaseVersions.AdditiveBumpStrandsNobody` | scripts/plan-crate-release.py:66-94 | a patch bump stays inside every pin that held, exactly when the pin is not on a 0.0.z version |
| `ReleaseVersions.BreakingBumpStrandsAll` | scripts/plan-crate-release.py:66-94 | a breaking bump leaves every pin that held exactly on the 0.y.z lines |
| `ReleaseVersions.BumpIsLeast` | scripts/plan-crate-release.py:66-73 | an additive bump is the next version, a breaking one the next whose patch is zero |
| `ReleasePlan.Visit` | scripts/plan-crate-release.py:115-126 | one visit adds the crate, at its patch bump, or shows it is not stranded |
| `ReleasePlan.Pass` | scripts/plan-crate-release.py:113-126 | one pass grows the plan or proves it closed |
| `ReleasePlan.Cascade` | scripts/plan-crate-release.py:97-127 | computes the least set closed under the stranding rule, keeping the initial plan, in at most one pass per baseline crate plus one |
| `ReleasePlan.ConeUnique` | scripts/plan-crate-release.py:97-127 | there is only one such plan, so iteration order cannot matter |
| `ReleasePlan.ConeIsOneLevel` | scripts/plan-crate-release.py:97-127 | where the pins hold and none is on 0.0.z, the cone is the initial plan and what it strands directly |
| `ReleasePlan.DeepConeExists` | scripts/plan-crate-release.py:97-127 | on the 0.0.z line a cascaded crate strands another |
| `ReleasePlan.FindStrands` | scripts/check-publish-cone.py:108-137 | the gate reports every strand of the workspace and nothing else, crate by crate and pin by pin |
| `ReleasePlan.GateReportsCoincidences` | scripts/check-publish-cone.py:108-137 | after the cascade on a strand-free baseline the gate's strands are exactly the coincidences of line 121 |
| `ReleasePlan.GatePassesExactly` | scripts/check-publish-cone.py:108-137 | the gate reports nothing if and only if there is no coincidence |
| `ReleasePlan.GateForetold` | scripts/plan-crate-release.py:97-127 | where the pins hold and none is on 0.0.z, the gate's strands are exactly the coincidences visible in the initial plan, before the cascade runs |
| `ReleasePlan.SameLineIsOverlooked` | scripts/plan-crate-release.py:121-121 | a crate on its dependency's version line is left stranded by the cascade |
| `MaskRust.MaskText` | scripts/test-quality/ledger.py:19-62 | the in-place loop terminates on every text and computes the mask |
| `MaskRust.BlockEnd` | scripts/test-quality/ledger.py:30-40 | where a nested block comment ends |
| `MaskRust.QuoteEnd` | scripts/test-quality/ledger.py:47-56 | where a quoted literal ends, escapes skipped |
| `MaskRust.MaskKeepsOffsets` | scripts/test-quality/ledger.py:57-61 | every position keeps its character or becomes a space; newlines stay where they are and only there |
| `MaskRust.MaskIsClean` | scripts/test-quality/ledger.py:19-62 | the output has no double quote, comment opener or character literal |
| `MaskRust.MaskTwice` | scripts/test-quality/ledger.py:19-62 | masking the output changes nothing |
| `MaskGrammar.MaskOfRendering` | scripts/test-quality/ledger.py:19-62 | for every well-formed list of lexical elements, masking its rendering blanks its comments and literals and nothing else |
| `MaskGrammar.CharLitIs` | scripts/test-quality/ledger.py:47-47 | a character literal opens exactly where one plain character, one escape, a hexadecimal byte or a code point stands between quotes |

## Left out

- Steering: WebSocket, HTTP and command-line code, settings validation, the event log and usage totals; they are I/O, single checks or bookkeeping.
- NextRequest: does not model the settings and metadata copied into a request.
- KeptWhenProtectedFit: speaks of the selection before incomplete exchanges are dropped, because that filter can remove an unanswered selected message; `SkillsSurviveTrim` is about the final result.
- ApplyCostControl: the verdict of the thresholds is an input, because one is an `f32` ratio, and the byte totals are not computed.
- ObserveExploration: empty and truncated results are seen only through the evidence flags, which are inputs.
- Trim: the sort by position is the specification `Pick`; `PickIsSorted` says that any sorting of the kept positions gives it.
- RepeatedReadRangeCount: parsing a call's arguments into resource and range is a parameter.
- Progress guard: the session map behind its mutex, command classification tables and hash computation.
- Compaction: float thresholds, summary formats, metrics, prompts and configuration.
- Release: classification by cargo-semver-checks, manifest rewriting, crates.io access, pre-release ordering.
- Ledger: everything after the masker (`rust_tests`, `reconcile`, `status`, reports), which would add mostly string handling.
- Loop detection: the fourth check on consecutive identical call hashes and the messages pushed; it is the same run-length scan.
