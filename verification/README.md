# ECorp: verified model of the factory controller, plans, discussions and readers

ECorp turns GitHub issues into governed agent missions. This Dafny project models the parts whose
correctness is hardest to see from the code, and proves what they keep for all inputs, runs and
interleavings. `dafny verify dfyconfig.toml` checks everything.

| module | models |
|---|---|
| `RunEffects`, `RunGuards`, `RunOutcomes`, `RunTransitions`, `RunScript`, `RunConclusions` | one controller run: the order, fencing and failure handling of its calls, the transitions it requests, and what it must record, under arbitrary answers |
| `WatchLoop`, `WatchServer` | the watch loop's reconcile generations, alone and against the store's controller record |
| `RecoveryContract`, `RecoveryRequest`, `RecoveryDecision` | recovery revisions: what they carry, when one is asked for, and rebuilding, predicting, persisting and finding them again |
| `TaskGraph` | the outcome keys of a task plan |
| `WriteScope` | repository paths and write scopes |
| `Dependencies`, `DependencyPositions`, `Truncation`, `FailureDetail` | text functions of the controller, on UTF-8 bytes or on characters |
| `Discussion`, `RoomDiscussion` | a mission's discussion, its room, and which posts are admitted |
| `SnapshotRefresh`, `MissionReaders` | the cockpit's asynchronous step machines |
| `VerificationEvidence`, `ControllerSelection`, `RecoveryModes` | verdicts the cockpit derives from snapshots |
| `Prelude`, `RustStr`, `Utf8` | options and filters; Rust's `str`; UTF-8 of section 3 of RFC 3629 |

Code that updates variables is a method or a class (`Execute`, `Watch`, `Refresher`, `Read`,
`MessagesForMission`, ...), proved equal to a specification function or to a declarative
specification; the lemmas are about those specifications. A run, a watch tick or a reader takes the
answers of the server, GitHub, timers and child processes as arbitrary parameters.

## What came out

- `run`: every call is justified by the calls before it (`RunGuards.Justified`). A launch directly follows
  a passed check and a renewal that returned the claim token, and before those the Project status
  was confirmed as In Progress under a claim with a linked mission. A run launches once exactly when
  all guards pass, and never otherwise. Every failed check, Project write or launch under a claim ends
  the run after one request that blocks the item, unless the item is known to be blocked or the
  launch was a checkpoint verification.
- Up to its launch a run makes exactly the calls of a flat list, up to the first refused one
  (`RunsFollowTheScript`); after a launch it makes exactly the transitions that the reported mission,
  approval, cleanup and checkpoint call for (`RunConclusions`).
- `run` drops the state that the renewal right before the Project update reports
  (crates/crony-cli/src/factory.rs:930). Blocking follows what the server reported last, except when
  that write fails and the two renewals before it disagree on being blocked
  (`BlocksWhatWasReported`). Fresh renewals never disagree (`FreshRenewalsAgree`); a replayed one can
  (`ReplayedRenewalHidesState`).
- `WhichRequestsAreAllowed` says for which renewal and report states the store's table, read at the
  state reported last, allows every transition a run requests. Running and verified always are. A
  failed check on an explicitly replayed verified item asks for blocked, which is refused
  (`VerifiedReplayIsRefused`); so is blocking an item that the dropped report showed as verified
  (`UnseenVerifiedIsRefused`).
- `watch` compares the generations it read before its heartbeat was answered, so the tick that
  acknowledges a generation can force it once more: exactly if that tick's snapshot shows it as
  requested and not completed, its heartbeat is answered, and neither a pause nor the budget keeps
  the loop from spawning (`WhenGenerationsAreForcedAgain`, with a run in
  `AcknowledgingTickForcesAgain`). It is never forced a third time
  (`GenerationsAreForcedAtMostTwice`).
- The controller predicts the objective of a revision without the description the mission had before;
  the store strips that one. `ReplayFindsStoredRevision` is the exact condition on the two
  descriptions and the objective under which a persisted revision is found again, and
  `StoredRevisionIsMissed` a snapshot in which it is not; one persisted as predicted always is.
- `sanitize_failure_detail` is not idempotent: a cut right behind a space keeps the space. Once is
  enough exactly if no space of the collapsed text stands right before the character that crosses
  the 2,000 bytes (`SanitizeStabilises`); two applications always reach a fixpoint.
- `write_scope_is_subset` decides inclusion over valid paths, except for a directory request against
  the same directory as a literal with at most one byte left below the 500-byte cap
  (`SubsetDecidesInclusion`, with such a pair in `NoRoomIsReached`).
- A room accepts a post that links an artifact by the empty id if a run carries that id, but the
  discussion does not count such a link (`AcceptedPostIsShown`, `EmptyArtifactIsAcceptedUnseen`).
  The type of the function admits this; the server's `artifact_id` is a UUID
  (crates/crony-domain/src/lib.rs:853), so its snapshots hold no such run.
- A plan can hide provider work from its outcomes: in a cycle (`CycleHidesProvider`), or behind an
  earlier task of the same key, which shadows dependencies (`RepeatedKeyHidesProvider`) and adapters
  (`RepeatedKeyHidesAdapter`). Every task lies in the cone of an outcome exactly if every root of
  the plan, alone or a cycle, is a terminal task (`CoverageIsByRoots`); if moreover every provider
  task's key resolves to a provider task, none is hidden (`NoHiddenProvider`). Plans with unique
  keys and no cycle are such plans.

## Model

| member | source | states |
|---|---|---|
| RunEffects.Execute | crates/crony-cli/src/factory.rs:382-1190 | the run's calls, with the token and version each presents, and its outcome are those of the stage-wise specification `Trace`, for all arguments and answers |
| RunEffects.Select | crates/crony-cli/src/factory.rs:530-657 | dry-run preview, refresh, and reconciliation of a cancelled item: check, then request, then an unchanged reread |
| RunEffects.ClaimItem | crates/crony-cli/src/factory.rs:722-815 | preflight without a mission; a claim that replays without a token is made exactly once more |
| RunEffects.Hold | crates/crony-cli/src/factory.rs:811-873 | source upgrade and materialisation under the claim's token, each adopting the mission and version it returns |
| RunEffects.RenewControl | crates/crony-cli/src/factory.rs:3141-3179 | a renewal holds exactly if it is answered with the token presented |
| RunEffects.UpdateProject | crates/crony-cli/src/factory.rs:875-965 | two renewals around a check, then the Project write and its verification, skipped for an item already In Progress |
| RunEffects.LaunchMission | crates/crony-cli/src/factory.rs:965-1069 | two renewals around a check of In Progress, then launch or recovery; a failed one blocks unless it is a checkpoint verification |
| RunEffects.Conclude | crates/crony-cli/src/factory.rs:1070-1190 | terminal, awaiting, running and verified transitions, and the retained checkpoint |
| RunGuards.EveryCallIsJustified | crates/crony-cli/src/factory.rs:530-1190 | under any answers each call meets `Justified`: it carries the claim token and the version the server reported last, nothing follows a refused call, a check stands right after a renewal, a Project write needs a claim, a linked mission and a check between two renewals, a launch needs a confirmed In Progress and a second such check, and each transition has its cause; a run that goes through knows the last reported state and version |
| RunGuards.RenewingIsSound | crates/crony-cli/src/factory.rs:3141-3179 | a renewal presents the last reported version, names a new stage, and either ends the run or leaves the same log behind it |
| RunGuards.SynchronizingIsSound | crates/crony-cli/src/factory.rs:932-965 | after the Project update the run is blocked and over, or its log confirms In Progress |
| RunGuards.ReadyingIsSound | crates/crony-cli/src/factory.rs:965-1018 | after the second check and its renewals the launch is guarded, or the run is over |
| RunOutcomes.FailuresAreBlocked | crates/crony-cli/src/factory.rs:893-1062 | a failed check, Project write or launch under a claim is the last call, or the last but one before the request to block; the latter is left out exactly if the item is known to be blocked or a checkpoint verification failed |
| RunOutcomes.RequestsAreDistinct | crates/crony-cli/src/factory.rs:3162-3208 | no run makes two renewals for one stage or two transitions to one state, so idempotency keys never repeat |
| RunOutcomes.LaunchesExactlyWhenGuardsPass | crates/crony-cli/src/factory.rs:530-1062 | one launch if every guard on the answers passes, none otherwise; a dry run makes no call but at most one preflight |
| RunOutcomes.BlocksWhatWasReported | crates/crony-cli/src/factory.rs:878-965 | a failure is left unblocked exactly if the server last reported the item blocked, if and only if it is no Project failure or the two renewals before it agree |
| RunOutcomes.FreshRenewalsAgree | crates/crony-store/src/lib.rs:3367-3500 | when versions determine states and each renewal moves the version by one and keeps the state, the renewals agree |
| RunOutcomes.ReplayedRenewalHidesState | crates/crony-cli/src/factory.rs:875-965 | a run in which a replayed renewal reports a later state: the failed write leaves a running item unblocked |
| RunTransitions.WhichRequestsAreAllowed | crates/crony-cli/src/factory.rs:893-1190 | every transition a run requests is allowed by the store's table from the state it reported last, if and only if at each failing step the run takes the item for blocked or the last renewal found a state to block (for a failed Project update, the second renewal, which the run does not consult), and what the launch reported can be recorded |
| RunTransitions.ReplayRequestsBlocked | crates/crony-cli/src/factory.rs:893-915 | the calls of an explicit replay of a verified item whose source check fails: it ends with a request for blocked |
| RunTransitions.VerifiedReplayIsRefused | crates/crony-store/src/lib.rs:13346-13415 | that request is one the store's table refuses |
| RunTransitions.UnseenVerifiedIsRefused | crates/crony-store/src/lib.rs:4196-4214 | a run whose Project write fails after a replayed renewal reported the item verified: it asks for blocked at that version, which the table refuses |
| RunTransitions.StaleVerifiedIsBlocked | crates/crony-store/src/lib.rs:4196-4214 | the other way round, with the item running at that version, the request is allowed |
| RunTransitions.ConcludingPermits | crates/crony-cli/src/factory.rs:1070-1190 | after the launch, the terminal or approval request is allowed exactly from the states given; running and verified are from any state in which they are requested |
| RunOutcomes.ThroughRunsConclude | crates/crony-cli/src/factory.rs:1063-1190 | a run that goes through saw no failed mission; a completed one without pending cleanup is verified unless it stands beyond that; a cancelled one has a retained checkpoint and moved nothing |
| RunScript.RunsFollowTheScript | crates/crony-cli/src/factory.rs:530-1062 | without the request to block that may end it, a run's log up to the launch is the list of intended calls, with their tokens, versions, statuses and mission, cut behind the first refused one |
| RunScript.WhenItemsAreReady | crates/crony-cli/src/factory.rs:625-657 | a run works on the refreshed item, and on a cancelled one only after a passed check, a reconciliation, and a reread with the same source and mission |
| RunScript.WhichCallsAreSpared | crates/crony-cli/src/factory.rs:722-945 | exactly work without a mission is preflighted, and exactly items that are not In Progress are written |
| RunScript.HowRunsEnd | crates/crony-cli/src/factory.rs:530-612 | which dry runs preview, that no other run does, and that a run without an eligible item halts without a call |
| RunConclusions.RunsRecordFailedMissions | crates/crony-cli/src/factory.rs:1086-1117 | a launched run that is told of a failed mission ends with the request for failed, or verification_failed, at the last version, unless the item stands there; and it halts |
| RunConclusions.RunsRecordCancelledMissions | crates/crony-cli/src/factory.rs:1070-1117 | for a cancelled mission it requests cancelled exactly if the checkpoint context shows the item's state, another state than cancelled, and no retained checkpoint; it goes through exactly with a retained one |
| RunConclusions.RunsRecordProgress | crates/crony-cli/src/factory.rs:1124-1167 | for a mission that goes on it requests awaiting_approval or running exactly where that is due, and nothing else |
| RunConclusions.RunsRecordCompletion | crates/crony-cli/src/factory.rs:1124-1190 | for a complete mission it requests verified exactly if no cleanup is pending and the item is live |
| RunConclusions.RunsRecordWaitingCompletion | crates/crony-cli/src/factory.rs:1124-1190 | for a complete mission that waits for approval it first requests that, and then verified from the state and version it was given |
| WatchLoop.Watch | crates/crony-cli/src/factory.rs:1270-1432 | the loop's log and its live cycle are those of `Run`, tick by tick |
| WatchLoop.EveryRunKeepsInv | crates/crony-cli/src/factory.rs:1270-1432 | at most one live cycle, none over an unreported result; acknowledged results are the finished ones in order; a reported generation was read as completed or has a finished cycle that began after it was observed |
| WatchLoop.StepKeepsInv | crates/crony-cli/src/factory.rs:1279-1432 | one tick keeps that invariant from any state that has it |
| WatchLoop.WhenCyclesStart | crates/crony-cli/src/factory.rs:1409-1430 | after a tick a cycle is live exactly if one still runs, or the tick was answered and unpaused, the budget admits one, and one is forced or due; the started cycle carries the pending generation if it is forced, none if it is only due |
| WatchLoop.TickLogs | crates/crony-cli/src/factory.rs:1279-1430 | what one tick logs: the collected result, what was read, the report with its generation, the acknowledgement if answered, and the start |
| WatchLoop.WhatATickKeeps | crates/crony-cli/src/factory.rs:1391-1406 | the record a tick leaves, and that a result stays until the heartbeat that reports it is answered |
| WatchLoop.RunsTakeEveryTick | crates/crony-cli/src/factory.rs:1279-1281 | runs take their ticks one after the other |
| WatchLoop.ResultSurvivesLostTicks | crates/crony-cli/src/factory.rs:1322-1411 | an unreported result and its generation survive any number of failed snapshots and heartbeats |
| WatchServer.GenerationsAreForcedAtMostTwice | crates/crony-cli/src/factory.rs:1372-1417 | with fresh reads and stored completions, whatever is lost: no generation is forced more than twice, no heartbeat is refused, and a completed generation is earned |
| WatchServer.EveryRunKeepsWorldInv | crates/crony-store/src/factory_controller.rs:149-300 | loop and store record together keep the order of completed, outstanding and requested generations in every run |
| WatchServer.ReportIsAcceptable | crates/crony-store/src/factory_controller.rs:176-185 | the generation a heartbeat reports lies between the completed and the requested one, even after controls in between |
| WatchServer.ControlsAddUp | crates/crony-store/src/factory_controller.rs:340-375 | every resume and reconcile requests one generation, and the last pause or resume decides about pausing |
| WatchServer.WhatARoundDoes | crates/crony-store/src/factory_controller.rs:149-300 | a round leaves the requested generation and the pause to the controls, moves the completed generation exactly if a heartbeat arrives with a report, and hands the loop the record as it stood at the read and at the answer |
| WatchServer.WhenGenerationsAreForcedAgain | crates/crony-cli/src/factory.rs:1372-1417 | in any run, a generation forced once is forced again by a tick exactly if its cycle has ended, the tick reads it as requested and not completed, its heartbeat is answered without a pause, and the budget admits a cycle |
| WatchServer.AcknowledgingTickForcesAgain | crates/crony-cli/src/factory.rs:1372-1417 | a two-tick run that forces generation 1 twice |
| RecoveryContract.ComposedIsFixed | crates/crony-cli/src/factory.rs:3440-3472 | predicting from a composed objective changes nothing, exactly when the description is not empty or the task part is trimmed |
| RecoveryContract.PredictionIsIdempotent | crates/crony-cli/src/factory.rs:3440-3472 | predicting twice is predicting once, with the separator and the 100,000-byte cap |
| RecoveryContract.DescriptionIsNormalForm | crates/crony-store/src/lib.rs:11762-11777 | the description a request sends is a fixpoint of the store's normalisation |
| RecoveryContract.RequestedContractKeepsAuthority | crates/crony-cli/src/factory.rs:3387-3437 | one marker, of the reviewed source; operator references in order, followed at most by the issue URL; authority unchanged |
| RecoveryContract.ReferencesAreFixed | crates/crony-cli/src/factory.rs:3398-3425 | rebuilding a request from its own contract keeps all references |
| RecoveryContract.ReplayAfterPersistence | crates/crony-cli/src/factory.rs:3474-3522 | after persistence a revision is required, the request can be rebuilt, and the persisted revision is found exactly if its objective is the predicted one |
| RecoveryContract.ReplayFindsOwnReplacement | crates/crony-cli/src/factory.rs:3440-3507 | a revision persisted as its request's replacement is found by its id, and the rebuilt request has the same replacement |
| RecoveryContract.ReplayFindsStoredRevision | crates/crony-store/src/contract_revision.rs:609-642 | against the objective the store composes, the revision is found if and only if: for a rewritten objective, the old and the new description are equal, or neither is stripped from it, or both leave no room for a task text; for a kept one, no leading whitespace of the task text loses the description before it |
| RecoveryContract.RewritesAlikeComposes | crates/crony-store/src/contract_revision.rs:609-642 | stripping one description or another composes to the same objective exactly in those three cases |
| RecoveryContract.StoredRevisionIsMissed | crates/crony-store/src/contract_revision.rs:609-642 | a snapshot whose persisted revision the same attempt does not find |
| RecoveryContract.UnrelatedDescriptionsAreFound | crates/crony-store/src/contract_revision.rs:609-642 | a rewritten revision is found when neither description is a prefix of the generated objective |
| RecoveryContract.ChainKeepsAuthority | crates/crony-cli/src/factory.rs:3398-3425 | over any chain of requests: one marker, of the last source; operator references are kept as a prefix and grow by issue URLs only; authority unchanged |
| RecoveryContract.FoundRevisionIsCurrent | crates/crony-cli/src/factory.rs:3474-3507 | in any snapshot a found revision is the task's current contract under the same actor, run and policy, and the only marker in it is the attempt's |
| RecoveryContract.FoundRevisionsShareSource | crates/crony-cli/src/factory.rs:3474-3507 | with an injective digest two attempts that find a revision in one snapshot reviewed the same source |
| RecoveryContract.CachedRevisionBindsSource | crates/crony-cli/src/factory.rs:3474-3507 | a revision found after a chain of recoveries reviewed the chain's last source |
| RecoveryRequest.PlainRequestsKeepTheContract | crates/crony-cli/src/factory.rs:3395-3425 | without a source correction or changed source a request changes only the marker |
| RecoveryRequest.RewritesAreForTheIssue | crates/crony-cli/src/factory.rs:3398-3412 | otherwise the objective quotes the issue and its checklist, unless empty, replaces the acceptance tests |
| RecoveryRequest.RewritesNameTheIssue | crates/crony-cli/src/factory.rs:3398-3404 | and the expected output is the sentence that names the issue by number |
| RecoveryRequest.IssueTextQuotesTheIssue | crates/crony-cli/src/factory.rs:4097-4112 | the text of an issue quotes its number, trimmed title, URL, revision and trimmed body |
| RecoveryRequest.ObjectivesQuoteTheIssue | crates/crony-cli/src/factory.rs:4097-4112 | the objective is the longest prefix of the issue's text within 100,000 bytes |
| RecoveryRequest.RewritesNameTheUrl | crates/crony-cli/src/factory.rs:3413-3425 | the issue's URL is added to the operator references exactly if it is missing |
| RecoveryRequest.WhatRequestsCarry | crates/crony-cli/src/factory.rs:3420-3437 | a request is made exactly if there is room for the marker, and it is the attempt's for the snapshot's task, version and source run |
| RecoveryRequest.WhenRevisionIsFound | crates/crony-cli/src/factory.rs:3474-3507 | a revision is found if and only if the snapshot has the predicted contract and policy and holds a revision that agrees in every field |
| RecoveryRequest.LineEndsAreNormalised | crates/crony-store/src/lib.rs:11762-11765 | CR LF and a lone CR become LF, one by one, and everything else stays |
| RecoveryRequest.DecimalsSpell | crates/crony-cli/src/factory.rs:4097-4112 | issue numbers are written in decimal without leading zeros |
| RecoveryDecision.WhenRevisionIsRequired | crates/crony-cli/src/factory.rs:3509-3522 | a revision is required if and only if the attempt corrects the source, comes with a changed source or policy, or the task was revised for this source run at its current version |
| RecoveryDecision.PlainRetriesKeepTheContract | crates/crony-cli/src/factory.rs:3680-3738 | the contract is kept if and only if source and policy are unchanged and the attempt verifies a checkpoint, or verifies plainly on an unrevised task |
| RecoveryDecision.WhenAttemptsAreRefused | crates/crony-cli/src/factory.rs:3680-3738 | an attempt is refused exactly for a changed checkpoint verification or a required request without room for its marker |
| RecoveryDecision.PersistedRevisionsAreReused | crates/crony-cli/src/factory.rs:3690-3738 | an attempt that lost the answer to its revision finds it and asks for no second one |
| TaskGraph.SearchProvider | crates/crony-domain/src/lib.rs:695-711 | the worklist search ends on every plan and finds exactly if provider work is reachable from the start |
| TaskGraph.ProviderBackedOutcomeKeys | crates/crony-domain/src/lib.rs:691-716 | the keys returned are exactly the terminal ones from which provider work is reachable |
| TaskGraph.SomeOutcomeReaches | crates/crony-domain/src/lib.rs:676-716 | if every root of the plan is a terminal task, some terminal task reaches any given task |
| TaskGraph.CoverageIsByRoots | crates/crony-domain/src/lib.rs:676-716 | for any plan, every task is in the cone of a terminal task if and only if every root is a terminal task |
| TaskGraph.AcyclicRootsAreTerminal | crates/crony-domain/src/lib.rs:676-716 | so it is in plans without cycles and shadowed dependencies |
| TaskGraph.NoHiddenProvider | crates/crony-domain/src/lib.rs:676-716 | if all roots are terminal tasks and every provider task's key resolves to a provider task, every provider task lies in the cone of a returned outcome |
| TaskGraph.UniqueKeysShadowNothing | crates/crony-domain/src/lib.rs:697-711 | with unique keys neither a dependency nor a provider adapter is shadowed |
| TaskGraph.ProviderWorkHasAnOutcome | crates/crony-domain/src/lib.rs:676-716 | if all roots are terminal tasks the returned set is non-empty exactly if some key resolves to a provider task |
| TaskGraph.ValidPlansShowProviders | crates/crony-domain/src/lib.rs:676-716 | with unique keys and no cycle it is non-empty exactly if some task has a provider adapter |
| TaskGraph.CycleHidesProvider | crates/crony-domain/src/lib.rs:676-716 | a cyclic plan of provider tasks without any outcome |
| TaskGraph.RepeatedKeyHidesProvider | crates/crony-domain/src/lib.rs:697-711 | a plan whose repeated key shadows a dependency and so hides a provider task |
| TaskGraph.RepeatedKeyHidesAdapter | crates/crony-domain/src/lib.rs:697-711 | a plan whose repeated key shadows a provider task itself |
| WriteScope.DirectoryScopeIsComponentPrefix | crates/crony-domain/src/lib.rs:605-616 | a directory scope allows exactly the paths that have its components as a prefix |
| WriteScope.AllowsByShape | crates/crony-domain/src/lib.rs:605-616 | what a valid scope allows, by its three shapes |
| WriteScope.SubsetByShape | crates/crony-domain/src/lib.rs:648-660 | the textual inclusion test is inclusion of shapes |
| WriteScope.SubsetIsReflexive | crates/crony-domain/src/lib.rs:648-660 | every valid scope includes itself |
| WriteScope.SubsetIsAntisymmetric | crates/crony-domain/src/lib.rs:648-660 | mutual inclusion of scopes is equality of their texts |
| WriteScope.SubsetIsTransitive | crates/crony-domain/src/lib.rs:648-660 | inclusion composes |
| WriteScope.SubsetIsSound | crates/crony-domain/src/lib.rs:648-660 | every path, valid or not, that the requested scope allows the larger one allows |
| WriteScope.SubsetDecidesInclusion | crates/crony-domain/src/lib.rs:579-660 | over valid paths inclusion holds exactly if the test says so, or the cap leaves no path below the literal |
| WriteScope.NoRoomIsReached | crates/crony-domain/src/lib.rs:579-660 | two valid scopes of 499 letters for which inclusion holds and the test says no |
| WriteScope.PathsAreNames | crates/crony-domain/src/lib.rs:579-592 | a path is valid if and only if all its components are names, it fits, and no whitespace surrounds it |
| WriteScope.ValidPathsStayInside | crates/crony-domain/src/lib.rs:579-592 | walked from the repository root, a valid path never climbs and leads down through exactly its own components |
| WriteScope.ScopesArePlain | crates/crony-domain/src/lib.rs:594-603 | the valid scopes are exactly `**`, the valid paths without pattern characters, and those followed by `/**` |
| WriteScope.ValidScopesStayInside | crates/crony-domain/src/lib.rs:594-616 | a valid path that a valid scope allows lies, resolved, at or below the scope's own resolved path |
| Dependencies.IssueNumbers | crates/crony-cli/src/factory.rs:4062-4083 | the loop returns, in order, the numbers that each position introduces |
| Dependencies.NumbersAreReferences | crates/crony-cli/src/factory.rs:4062-4083 | those are exactly the 64-bit values of maximal digit runs right after a `#` |
| Dependencies.NumbersComeInOrder | crates/crony-cli/src/factory.rs:4062-4083 | they come left to right, one for each reference: a strictly increasing list of all reference starts has them as values |
| Dependencies.ParseReference | crates/crony-cli/src/factory.rs:4070-4079 | from a `#` on, the numbers are the one parsed here, if any, and those behind its digits |
| Dependencies.RunIsOnBoundaries | crates/crony-cli/src/factory.rs:4070-4079 | both ends of every parsed slice are character boundaries |
| Dependencies.PhraseIsOnBoundary | crates/crony-cli/src/factory.rs:4006-4028 | every phrase the parser cuts at starts on a character boundary, also when found in the lower-cased text |
| Dependencies.LineBlockers | crates/crony-cli/src/factory.rs:4009-4029 | one line's blockers are the numbers of its blocking part |
| DependencyPositions.ClauseIsCutAtItsEnd | crates/crony-cli/src/factory.rs:4009-4023 | a clause is the rest of the line up to the first phrase that ends one |
| DependencyPositions.BlockersByPosition | crates/crony-cli/src/factory.rs:4009-4029 | a number blocks if and only if it is a reference behind the first "blocked by" with nothing that ends the clause between them, or, without that phrase, any reference of an open item that says "blocked" or "must" |
| DependencyPositions.LinesEndAtNewlines | crates/crony-cli/src/factory.rs:3998-3999 | the lines of a body, whatever they contain, end at LF or CR LF |
| DependencyPositions.WhichPhrasesCount | crates/crony-cli/src/factory.rs:4012-4018 | the five phrases that end a clause |
| DependencyPositions.NumbersAreDecimal | crates/crony-cli/src/factory.rs:4069-4079 | a run of ASCII digits is read in decimal |
| Dependencies.MentionedBlockers | crates/crony-cli/src/factory.rs:3995-4030 | the loop collects exactly what lines inside level-2 Dependencies sections name |
| DependencyPositions.BlockedDependencyNumbers | crates/crony-cli/src/factory.rs:3995-4033 | strictly increasing, and exactly the numbers that some line below a level-2 Dependencies heading, and below no later heading, names by position |
| Dependencies.IncreasingIsDetermined | crates/crony-cli/src/factory.rs:4030-4032 | sorted and deduplicated, the result is determined by its elements |
| Truncation.TruncateUtf8 | crates/crony-cli/src/factory.rs:4114-4123 | the longest well-formed prefix within the limit, at most three bytes short of it, and the encoding of the character-wise truncation |
| Truncation.TruncateIsLongest | crates/crony-cli/src/factory.rs:4114-4123 | the character-wise truncation is the longest prefix whose encoding fits |
| Truncation.BoundaryNearby | crates/crony-cli/src/factory.rs:4118-4121 | among four neighbouring positions of a text one is a boundary |
| FailureDetail.SanitizedDetail | crates/crony-cli/src/factory.rs:4125-4143 | non-empty, at most 2,000 bytes, one line without control characters or double spaces, a prefix of the collapsed detail |
| FailureDetail.SanitizeOfOneLine | crates/crony-cli/src/factory.rs:4125-4143 | a sanitised text loses at most a trailing space when sanitised again |
| FailureDetail.SanitizeStabilises | crates/crony-cli/src/factory.rs:4125-4143 | stable from the second application on; from the first exactly if no space stands right before the character of the collapsed text that crosses the 2,000 bytes |
| FailureDetail.CutEndsInSpace | crates/crony-cli/src/factory.rs:4114-4143 | the longest prefix within the budget ends in a space exactly if a space stands right before the character that crosses it |
| FailureDetail.SanitizeIsNotIdempotent | crates/crony-cli/src/factory.rs:4125-4143 | an input whose first application keeps a space that the second drops |
| FailureDetail.NothingVisibleIsLost | crates/crony-cli/src/factory.rs:4125-4143 | collapsing keeps the characters that are neither whitespace nor control characters, in order and no others; the fallback stands exactly for texts without any |
| Discussion.MessagesForMission | apps/web/src/workflowContext.ts:133-167 | the fixpoint loop ends and returns, in input order, the messages of the least set with the linked ids closed under replies and threads, which are those that end a thread chain |
| Discussion.LeastDiscussionIgnoresOrder | apps/web/src/workflowContext.ts:147-166 | two least sets over the same messages, in any order, are equal |
| Discussion.LeastDiscussionIsByChains | apps/web/src/workflowContext.ts:150-165 | an id is in the least set exactly if a thread chain leads to it from a linked message |
| Discussion.LinkedKeysAreOwnWork | apps/web/src/workflowContext.ts:139-148 | a link's key is counted exactly if it names the mission, its tasks, or their runs and artifacts |
| Discussion.RepliesAreShown | apps/web/src/workflowContext.ts:133-167 | a message linked to the mission's own work is shown, and so is every reply to, or thread message under, a shown one |
| Discussion.ShownMessagesAreAnchored | apps/web/src/workflowContext.ts:133-167 | and nothing else: every shown id has a message that links own work or answers a shown one |
| RoomDiscussion.DiscussionIsScoped | apps/web/src/missionProjection.ts:36-69 | a shown message is in the room, links no other work, and has a chain inside room and work from a message linked to the mission |
| RoomDiscussion.AcceptedPostIsAnchored | apps/web/src/missionProjection.ts:75-107 | an accepted post is written in the current scope, and its link or reply target belongs to that very discussion |
| RoomDiscussion.AcceptedPostIsShown | apps/web/src/missionProjection.ts:75-107 | stored under a fresh id it is shown there, exactly if its link or reply target has an id the discussion counts |
| RoomDiscussion.EmptyArtifactIsAcceptedUnseen | apps/web/src/workflowContext.ts:86-99 | a snapshot in which a post linking an artifact by the empty id is accepted and not shown |
| RoomDiscussion.WhenRoomPostsAreAccepted | apps/web/src/missionProjection.ts:75-107 | without a selected mission, the exact condition: current scope, visible room, a link that leads to a mission of the room, a reply target in the room |
| RoomDiscussion.WhenMissionPostsAreAccepted | apps/web/src/missionProjection.ts:75-107 | with a selected mission, likewise for its room, its work and its discussion |
| RoomDiscussion.SelectedMissionsKeepTheirRoom | apps/web/src/missionProjection.ts:23-34 | a selected mission resolves to its own visible room and never to another; an explicit room to itself; only neither to the first room |
| RoomDiscussion.RoomWorkIsOfItsMissions | apps/web/src/missionProjection.ts:36-49 | exactly the room's missions, or the selected one, their tasks and those tasks' runs |
| RoomDiscussion.WhereLinksLead | apps/web/src/workflowContext.ts:86-99 | a link leads to a mission exactly by naming it, or its first task or run of that id does |
| SnapshotRefresh.EveryRunKeepsInv | apps/web/src/snapshotRefresh.ts:19-57 | in every interleaving: one refresh in flight, no timer beside it, no more starts than requests, a request between any two starts, nothing starts or reports after disposal |
| SnapshotRefresh.IdleHasServedEverything | apps/web/src/snapshotRefresh.ts:19-57 | an idle live refresher started a refresh after every request |
| SnapshotRefresh.BurstCostsOneRefresh | apps/web/src/snapshotRefresh.ts:3-57 | a burst of any size at any moment costs exactly one more refresh, after which it is idle |
| SnapshotRefresh.Refresher.EndFlush | apps/web/src/snapshotRefresh.ts:34-40 | settling: the new state, and an error is reported exactly when not disposed |
| SnapshotRefresh.Refresher.BeginFlush | apps/web/src/snapshotRefresh.ts:28-33 | the timer's callback up to the refresh: the new state |
| SnapshotRefresh.Refresher.RequestRefresh | apps/web/src/snapshotRefresh.ts:44-48 | the new state after a request |
| SnapshotRefresh.Refresher.Dispose | apps/web/src/snapshotRefresh.ts:49-55 | the new state after disposal |
| MissionReaders.Read.OnAnswer | apps/web/src/missionResultContext.ts:289-330 | an answer finishes an active, asked read with what it decodes to |
| MissionReaders.Read.OnTimeout | apps/web/src/missionOriginContext.ts:122-161 | the timeout finishes an active read as unavailable |
| MissionReaders.Read.OnCancel | apps/web/src/missionOriginContext.ts:122-161 | cancellation deactivates the read and its timer |
| MissionReaders.ReadPublishesItsVerdict | apps/web/src/missionResultContext.ts:289-330 | in every order of callbacks: `pending`, then at most one load, that of the first decisive callback |
| MissionReaders.TimeoutDecides | apps/web/src/missionOriginContext.ts:122-161 | a read that is never cancelled and times out publishes exactly one load |
| MissionReaders.AnswerDecides | apps/web/src/missionOriginContext.ts:122-161 | likewise when its request is sent and answered |
| MissionReaders.CancelSilences | apps/web/src/missionOriginContext.ts:122-161 | cancelled before anything decided it publishes none, whatever follows |
| MissionReaders.FirstDecisiveDecides | apps/web/src/missionResultContext.ts:289-330 | the load is the first decisive callback's: ready with exactly the accepted context, unavailable after a rejected answer or the timeout, none after a cancellation |
| MissionReaders.TimersAreHeldWhileActive | apps/web/src/missionOriginContext.ts:122-161 | in every order of callbacks the timeout is held exactly while the read is active |
| MissionReaders.ShownLoadIsOfThisScope | apps/web/src/missionResultContext.ts:151-154 | with arbitrarily many readers and scope switches, a load shown as current was published by a read of the scope object now rendered |
| MissionReaders.CommittedViewShowsItsRead | apps/web/src/useMissionOriginContext.ts:30-38 | once the rendered scope's effect has run, the last load of its own read is shown, and no older read replaces it |
| MissionReaders.RendersAreFresh | apps/web/src/useMissionOriginContext.ts:21-29 | rendering a selection shows a scope object that no reader before it has, and touches no reader; without one nothing is current |
| MissionReaders.CommitsStartTheRead | apps/web/src/useMissionOriginContext.ts:30-35 | the effect cancels the reader before and starts exactly one for the rendered scope, which is shown as pending |
| VerificationEvidence.PassedMeansComplete | apps/web/src/App.tsx:3186-3237 | `passed` exactly if the total is known and the records are one passing record for each check index in order; the records are the run's, as a multiset |
| VerificationEvidence.MissingIsNeverNegative | apps/web/src/App.tsx:3186-3237 | a reported missing count is non-negative and completes passed and failed to the total; consistent records are passed or failed |
| VerificationEvidence.WhenMissingIsReported | apps/web/src/App.tsx:3209-3218 | a missing count is reported exactly if the total is known and the records are decided, of different checks, and within the total |
| VerificationEvidence.FailedMeansAFailedRecord | apps/web/src/App.tsx:3186-3237 | `failed` exactly if a record of the run failed, `pending` exactly if neither failed nor complete |
| VerificationEvidence.WhenTotalIsKnown | apps/web/src/App.tsx:3194-3208 | the total is n exactly if the run's started events and replacing recoveries report n, some of them do, and none reports anything else |
| VerificationEvidence.CountsAreTheRuns | apps/web/src/App.tsx:3188-3216 | the records are exactly the run's and task's, and the counts are theirs |
| VerificationEvidence.ReceiptsAgree | apps/web/src/App.tsx:3194-3218 | a total is taken exactly if all receipts are the same positive safe integer |
| ControllerSelection.SelectFactoryController | apps/web/src/factoryControllerSelection.ts:56-87 | the loop returns a best candidate, or nothing exactly if there is none or the arguments admit none |
| ControllerSelection.WeightsAreLexicographic | apps/web/src/factoryControllerSelection.ts:40-47 | the 8/4/2/1 weights order as (live, this item, running, working) |
| ControllerSelection.BetterIsStrictOrder | apps/web/src/factoryControllerSelection.ts:75-83 | the comparison is a strict order, total on distinct ids |
| ControllerSelection.SelectionIgnoresOrder | apps/web/src/factoryControllerSelection.ts:56-87 | with distinct ids every permutation selects the same controller, strictly better than all others |
| ControllerSelection.BestIsLatest | apps/web/src/factoryControllerSelection.ts:49-87 | the best controller is live if any candidate is, and among those that rank like it none has a later heartbeat, and none with the same one a smaller id |
| ControllerSelection.ForeignControllersDoNotMatter | apps/web/src/factoryControllerSelection.ts:28-38 | a controller of another corp, with an incomplete source, or of another source than the item changes no selection; any other is a candidate |
| ControllerSelection.WhenNothingIsSelected | apps/web/src/factoryControllerSelection.ts:56-70 | nothing is selected exactly if the arguments admit no selection or there is no candidate |
| RecoveryModes.OfferedModesAreAccepted | crates/crony-cli/src/factory.rs:332-349 | every mode the cockpit offers passes the controller's mode check on the same context |
| RecoveryModes.OrdinaryModesAreOffered | apps/web/src/factoryCheckpointRecovery.ts:32-70 | outside the checkpoint family a mode is offered exactly if it is accepted, the item failed verification, and no marker stands |
| RecoveryModes.CheckpointOfferIsConfirmed | crates/crony-cli/src/factory.rs:2352-2398 | with matching identities checkpoint verification is offered exactly if the controller confirms the context, the state can be reconciled, and a cancelled item names its cancellation |
| RecoveryModes.WhenCorrectionIsOffered | apps/web/src/factoryCheckpointRecovery.ts:32-70 | in the checkpoint family source correction is offered exactly under the stated permission, identities and state, and plain verification never |
| RecoveryModes.WhenModesAreAccepted | crates/crony-cli/src/factory.rs:328-349 | which modes the controller's check accepts, in terms of the flags on the wire |
| RecoveryModes.WhenContextsAreInError | crates/crony-cli/src/factory.rs:2352-2398 | a context is in error exactly if it is of other work or offers a checkpoint without its exact identities |
| RecoveryModes.CockpitUuidIsNotNil | apps/web/src/factoryCheckpointRecovery.ts:20-24 | the cockpit takes exactly the well-formed identifiers that the controller does not reject as nil |
| Utf8.EncodeDecode | crates/crony-cli/src/factory.rs:4114-4123 | decoding an encoding gives the text back, and encodings are well formed |
| Utf8.DecodeEncode | crates/crony-cli/src/factory.rs:4114-4123 | encoding the decoding of well-formed bytes gives the bytes back |
| Utf8.BoundaryCuts | crates/crony-cli/src/factory.rs:4118-4121 | cutting at a character boundary, and nowhere else, leaves two texts |
| RustStr.TrimIsNormalForm | crates/crony-cli/src/factory.rs:3440-3472 | a text is trimmed exactly if trimming leaves it alone |
| RustStr.TrimCuts | crates/crony-cli/src/factory.rs:3440-3472 | trimming cuts whitespace off both ends and nothing else |

## Left out

- The Postgres store beyond what the rows cite: its other validations, events, leases as wall-clock time, and locking are not part of this model.
- Claims, renewals and transitions of other controllers: a run meets arbitrary answers, so interference is covered only through what it answers.
- Selection of the item, evaluation of eligibility, source pins, publication bases and policies in `run` enter as answers; their text is not modelled.
- Recovery inside `run` (workspace checkpoint, contract revision, authorisation) and launch with its conflict reread are one call each with an arbitrary report.
- The contents of calls beyond the fence, the stage, the linked mission and the target state; failure details are treated in `FailureDetail` alone.
- RunEffects.Execute: answers to transitions are given per state and to renewals per stage, which loses nothing because no run repeats one (`RequestsAreDistinct`).
- RunTransitions.WhichRequestsAreAllowed: the store's other refusals (token, version, lease) and its replays of an earlier run's identical request are not part of the table.
- RunEffects.Execute: the source is one function; the method is divided into its phases.
- WatchLoop.Watch: a panicking cycle, which ends the loop, the error text, the GitHub budget and the periodic clock are answers of a tick or absent.
- WatchServer.GenerationsAreForcedAtMostTwice: other watchers under another connection epoch are not modelled.
- RecoveryContract.CachedRevisionBindsSource: SHA-256 over the JSON text of a source is an abstract injective digest.
- RecoveryContract.ReplayFindsStoredRevision: the store's refusals (budgets, write scope, verification policy, active runs, control characters or over 100,000 bytes in the description) are not modelled, only what it persists when it accepts.
- RecoveryDecision.PlainRetriesKeepTheContract: a recovery that is already active is replayed instead, and the workspace checkpoint before the decision is not modelled.
- The acceptance checklist parser: its result enters the issue objective as a text.
- DependencyPositions.BlockedDependencyNumbers: bodies are UTF-8 byte strings; lower-casing is ASCII, as in the source.
- SnapshotRefresh.EveryRunKeepsInv: the delay is a step of the host, and the abort signal is the disposal itself.
- MissionReaders.Read.OnAnswer: the decoding of an answer (`readContext`) is a parameter that yields a context or a failure.
- The presentation of a mission result, labels of links and tasks, and scope constructors: single-level case distinctions.
- RoomDiscussion.AcceptedPostIsShown: object identity of scopes is a number; the server's own admission of a post is not modelled.
- VerificationEvidence.PassedMeansComplete: JavaScript numbers are reals; `NaN` and infinities do not occur in decoded JSON.
- ControllerSelection.SelectFactoryController: trimming and lower-casing of GitHub names is a parameter; an unparsable heartbeat is before all others.
- RecoveryModes.CheckpointOfferIsConfirmed: JSON decoding and its type errors are not modelled; identifiers are well-formed UUID texts.
- Quota, publishing and Project code, the desktop shell and React components.
