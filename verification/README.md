# Verification of the harness core

A Dafny project that models six stateful parts of the system, its text redaction, and two cores of order and arithmetic, and proves
what they promise over every input, every pattern of failures and every run. `dafny verify dfyconfig.toml` checks all of it.

| Part | Source | Files |
|---|---|---|
| Approval workflow: tiers, soft timeout, hold, flags and kills, resolution, escalation, queue view | `app/approval-tiers` | `Tiers`, `ApprovalSpec`, `ApprovalWorkflow`, `ApprovalTheorems`, `ApprovalAccounting`, `ApprovalExistingTasks`, `ApprovalGates`, `ApprovalNotices`, `ApprovalQueue` |
| Right to erasure: two-person authorisation, identification, connector flags, deletion, scrubbing, audit | `app/compliance-erasure` | `ErasureSpec`, `ErasureWorkflow`, `ErasureTheorems`, `ErasureGuarantees`, `ErasureRuns`, `ErasurePeople`, `ErasureConnectors`, `ErasureCounts`, `ErasureIdentification`, `Identify`, `IdentifyTheorems` |
| Whole-token redaction of text | `app/compliance-erasure/src/scrub.ts` | `Text`, `Scrub`, `MarkedText`, `ScrubTheorems`, `ScrubPairs` |
| Sessions with refresh-token rotation | `app/auth/src/session.ts` | `SessionSpec`, `Session`, `SessionTheorems` |
| Append-only audit sink with retention | `app/config-store` | `CredentialRedaction`, `AuditSpec`, `AuditSink`, `AuditTheorems` |
| Saving a configuration section atomically | `app/config-surfaces` | `SurfaceSpec`, `ConfigSurface`, `SurfaceTheorems` |
| Alert delivery and escalation chains | `app/alerting` | `AlertSpec`, `AlertEngine`, `AlertTheorems`, `AlertAccounting` |
| Conflict priority | `app/conflict-consolidation/src/priority.ts` | `Priority` |
| Baselines and detectors | `app/anomaly-checks` | `Baseline`, `BaselineLearning` |

## How it is built

Each stateful part has three layers. A `...Spec` module holds the state as a value and one transition function per operation, with the
code's branches, order of effects and error cases, and a `Run` over any list of operations. A class with the same fields as the
original updates them in place, with the original's loops, and every method is proved to compute exactly its transition function,
result and whole new state. The theorem modules then prove invariants, conservation laws and exact conditions over every `Run`.

Times are integers, metrics and confidences exact numbers, generated names the numbers behind them. Calls into code outside the
model are parameters of an operation: which port calls throw (a call that throws has changed nothing), what the deletion mechanism
does and reports, whether a notice is delivered, how many clean-up tasks the sink accepts, whether the chat channel fails, who
holds a role, the hash, the credential classifiers, the key tables. The theorems hold for all of them.

## Where the code and its own documentation disagree

The model follows the code. Each point is a lemma that gives the exact condition or a concrete input.

- A soft-tier action is documented as reversible; a low-risk action that the operator's hint raises to soft is never checked
  (`IrreversibleSoftIff`).
- A kill covers only the rows of its own batch; an older pending row of the same task can still release it
  (`KilledTaskReleasableIff`).
- A soft-timeout sweep that meets an unknown task throws after it has approved that row; the approval releases nothing and later
  due rows wait (`AutoRunExact`, `AllReleasedIffNoSweepThrew`, `StrandedExample`).
- A resolve that throws can leave clean-up tasks queued, so a retry queues them again (`FailedResolveCompensatesIff`).
- Redaction with one term is complete if and only if both ends of the term are on the same side of the word boundary; a phone
  number with a leading plus sign is not (`SingleTermCompleteIff`). The term "redacted" survives in the placeholder
  (`PlaceholderWordSurvives`) and a later term can expose an earlier one (`LaterTermExposesEarlier`): with a single word as the
  second term, exactly when the first term is not bounded by word characters and does not itself hold the word
  (`WordSecondCompleteIff`).
- An executed deletion request can be taken back to authorised (`ExecutedReopenedIff`), and a failed status flip leaves the audit
  record of a run that reports itself held (`NotDoneChangesNoStatus`). A second authorisation or a held run can put other names on
  an executed request than those of the run that executed it (`ExecutedPeople`, `ExecutedExample`), and an authorisation that
  throws can have been written (`ThrownAuthorisationSticksIff`).
- An exhausted escalation chain is documented not to restart; it starts again at its second contact (`RestartsIff`,
  `RestartExample`).
- The authority comparison is documented as symmetric; two memories of one source with an unparsable timestamp both lose
  (`SymmetricIff`). The suggested survivor is the first of the strongest rule, not the strongest memory (`SurvivorUnbeatenIff`,
  `NotTheStrongest`).
- A "tighten" proposal is applied to whatever bar is configured by then, so a stale one can loosen the check; it tightens exactly
  when its bar is readier than the present one (`AppliedGrowsIff`, `StaleTightenExample`).
- A check fires at its bar, so more than 5% of the history a baseline was computed from would have fired
  (`HistoryReachesBaseline`); a proposal made while a check was soft is applied without confirmation after the check has become
  hard (`UnconfirmedGateIff`).

## Model

| member | source | states |
|---|---|---|
| Tiers.TierIsLeast | app/approval-tiers/src/tiers.ts:93-163 | the tier is the least restrictive one that meets every bound (floor, unknown risk, risk band, reversibility, operator hint), so no config value lowers a floor and nothing is stricter than some bound demands |
| Tiers.IrreversibleSoftIff | app/approval-tiers/src/tiers.ts:139-163 | an action not proven reversible becomes soft exactly when it is unfloored, low-risk and raised by the operator's own hint |
| Tiers.PickFirst | app/approval-tiers/src/tiers.ts:215-261 | the picked reviewer is the first who has the role, is available and is not the initiator; nobody is picked exactly when there is none |
| Tiers.RoutingIsSound | app/approval-tiers/src/tiers.ts:215-261 | routing never names the initiator, stays in the primary role exactly when someone there can review, and names nobody exactly when nobody in either role can |
| ApprovalWorkflow.Workflow.Gate | app/approval-tiers/src/store.ts:415-461 | classification, row, bookkeeping with the soft deadline and task hold, as the transition TierAndGate; an unknown task throws after the row is written |
| ApprovalWorkflow.Workflow.AutoRunElapsedSoft | app/approval-tiers/src/store.ts:467-484 | the in-place sweep computes the row-by-row transition from the first row on, stopping at the first task that throws |
| ApprovalWorkflow.Workflow.HoldForFullReview | app/approval-tiers/src/store.ts:486-503 | hold of a pending soft row: timer cancelled, tier hard, note appended; every refusal changes nothing |
| ApprovalWorkflow.Workflow.Flag | app/approval-tiers/src/store.ts:506-611 | one row per hit, kill precedence, task flag, routing and notice, as the transition RaiseFlag |
| ApprovalWorkflow.Workflow.CloseOthers | app/approval-tiers/src/store.ts:549-569 | the kill loop turns the freshly written batch into the batch whose other rows are rejected, and touches no other row |
| ApprovalWorkflow.Workflow.QueueCompensations | app/approval-tiers/src/store.ts:635-652 | one clean-up task per reversible effect in order, the others noted, nothing after the sink throws |
| ApprovalWorkflow.Workflow.ResolveRow | app/approval-tiers/src/store.ts:613-697 | resolution with its refusals in order, compensation before the task call, then row, deadline and task, as the transition Resolve |
| ApprovalWorkflow.Workflow.EscalateStaleWaits | app/approval-tiers/src/store.ts:699-749 | the in-place escalation sweep computes the row-by-row transition and returns the escalated rows in order |
| ApprovalWorkflow.Workflow.BuildQueueView | app/approval-tiers/src/store.ts:751-803 | the items of the pending rows that are no hard limit, filtered |
| ApprovalTheorems.RunKeeps | app/approval-tiers/src/store.ts:383-749 | over every run, the invariant linking tier, deadline, hold, status, stamps and escalation count of every row holds, and rows evolve without loss |
| ApprovalTheorems.HardLimitsStayBlocked | app/approval-tiers/src/store.ts:549-578 | in every reachable state a hard limit is pending, unreviewed and never escalated |
| ApprovalTheorems.ResolvedRowsFrozen | app/approval-tiers/src/store.ts:613-680 | a resolved row and its bookkeeping never change again, over every later run |
| ApprovalTheorems.EscalationsAreSpaced | app/approval-tiers/src/store.ts:699-739 | the n-th escalation of a row is at least n full windows after its creation, and widening to Super-Admin needs the configured number of full windows |
| ApprovalTheorems.AutoRunExact | app/approval-tiers/src/store.ts:467-484 | a sweep throws exactly when a due row names an unknown task; it approves the due rows up to that one, or all, and changes no other row |
| ApprovalTheorems.EscalateExact | app/approval-tiers/src/store.ts:699-749 | an escalation sweep stamps exactly the stale rows, resolves nothing and touches no task |
| ApprovalTheorems.FlagNeverApproves | app/approval-tiers/src/store.ts:506-611 | raising a flag approves and releases nothing |
| ApprovalTheorems.ApprovalHasCause | app/approval-tiers/src/store.ts:467-484 | every approved row of every run was approved by one step: an unheld soft gate after its full timeout, or a human who was not the originator of its task |
| ApprovalAccounting.KillIsFinal | app/approval-tiers/src/store.ts:547-578 | once a batch holds a hard limit, in every later state none of its rows has released a task: hard limits pending, the others rejected |
| ApprovalAccounting.KilledTaskReleasableIff | app/approval-tiers/src/store.ts:549-578 | after a kill a task can still be released exactly when an older row of it was pending and no hard limit |
| ApprovalAccounting.ReleasesBalanceApprovals | app/approval-tiers/src/store.ts:475-481 | over every run no row releases twice, only approved rows release, and approved rows that name a task number the releases plus the sweeps that threw |
| ApprovalAccounting.AllReleasedIffNoSweepThrew | app/approval-tiers/src/store.ts:467-484 | every approved row has released its task if and only if no sweep of the run met a due row naming a task that was not in the queue at that step |
| ApprovalExistingTasks.ExistingTasksBalance | app/approval-tiers/src/store.ts:415-484 | over every run whose gated actions name tasks present at that step, every approval released its task and the releases number the approved rows that name one |
| ApprovalAccounting.StrandedExample | app/approval-tiers/src/store.ts:475-481 | from the empty workflow, gating a soft action on an unknown task and sweeping after its window approves the row, throws and releases nothing |
| ApprovalAccounting.ResolvedIsCompensated | app/approval-tiers/src/store.ts:638-652 | a successful resolve queued exactly one clean-up task per reversible effect, for its task and time |
| ApprovalAccounting.FailedResolveCompensatesIff | app/approval-tiers/src/store.ts:640-669 | a resolve that throws leaves clean-up tasks behind exactly when the sink took some but not all, or took them and the task is unknown |
| ApprovalGates.HoldIsOneWay | app/approval-tiers/src/store.ts:467-503 | a hold succeeds on every pending soft row, and over every later run that row stays held, never comes due and is never approved but by a reviewer |
| ApprovalGates.HardGatesNeverLapse | app/approval-tiers/src/store.ts:430-484 | an action the policy makes hard leaves its task waiting and a row that, over every later run, never comes due and is never approved but by a reviewer |
| ApprovalGates.NoSelfResolution | app/approval-tiers/src/store.ts:627-680 | over every run in which tasks change only through the workflow, whoever approved, rejected or modified a row is not the originator of its task |
| ApprovalNotices.NoHitMasked | app/approval-tiers/src/store.ts:514-545 | a flag writes one row per hit, each showing its hit; held for review, all are pending and routed by the first hit |
| ApprovalNotices.FlagIsAnnounced | app/approval-tiers/src/store.ts:580-611 | a batch held for review flags its task and no other and adds exactly one notice to the routed reviewer, sent or surfaced as dropped |
| ApprovalNotices.EscalationsNotify | app/approval-tiers/src/store.ts:723-748 | a sweep adds exactly one notice per escalated row, sent or surfaced as dropped, addressed by its routing and count |
| ApprovalQueue.ViewAgrees | app/approval-tiers/src/store.ts:751-786 | the unfiltered view lists, in order and once, exactly the rows that resolve accepts; hold is offered exactly where it succeeds, with a countdown in the same cases |
| ApprovalQueue.FiltersPartition | app/approval-tiers/src/store.ts:788-802 | the approvals and safety-hold filters split the view without loss; overdue selects exactly the overdue items |
| Scrub.RedactContent | app/compliance-erasure/src/scrub.ts:20-33 | the loop over the ordered terms computes the redacted text and the number of replacements |
| ScrubTheorems.RedactionIsComplete | app/compliance-erasure/src/scrub.ts:20-33 | for orderly terms the output holds no whole-token occurrence of any eligible term |
| ScrubTheorems.RedactionIsConservative | app/compliance-erasure/src/scrub.ts:20-33 | the output is the input with exactly the counted disjoint stretches, each equal to a term up to case, swapped for the placeholder; all other text kept in order |
| ScrubTheorems.ReplacedStretchesAreTokens | app/compliance-erasure/src/scrub.ts:24-31 | for word-bounded terms every replaced stretch was a whole token of the input itself |
| ScrubTheorems.RedactionIsIdempotent | app/compliance-erasure/src/scrub.ts:20-33 | redacting again changes and replaces nothing |
| ScrubTheorems.RedactableIsOrderly | app/compliance-erasure/src/scrub.ts:20-33 | terms that start and end with a word character, hold no bracket and are not "redacted" meet the condition of completeness |
| ScrubTheorems.SingleTermCompleteIff | app/compliance-erasure/src/scrub.ts:24-31 | one plain term (no bracket, not "redacted") is completely redacted from every content if and only if its two end characters are both word characters or both not |
| ScrubPairs.WordSecondCompleteIff | app/compliance-erasure/src/scrub.ts:24-31 | a plain term and then a plain single word are both completely redacted from every content if and only if the first is bounded by word characters or the word is a token of it |
| ScrubPairs.WordFirstCompleteIff | app/compliance-erasure/src/scrub.ts:24-31 | a plain single word and then a plain term no longer than it are both completely redacted from every content if and only if the term is alone |
| ScrubPairs.PairOrdered | app/compliance-erasure/src/scrub.ts:24-25 | two different eligible terms are processed longer first and, for equal lengths, as listed |
| ScrubTheorems.PlaceholderWordSurvives | app/compliance-erasure/src/scrub.ts:18-31 | the term "redacted" finds itself in the placeholder |
| ScrubTheorems.LaterTermExposesEarlier | app/compliance-erasure/src/scrub.ts:20-33 | replacing a word-bounded term can expose a term bounded by other characters that was already passed |
| IdentifyTheorems.RedactionTermsExact | app/compliance-erasure/src/identify.ts:82-93 | the redaction terms are exactly the full name and the identifiers of two or more characters, trimmed, and all are search terms |
| IdentifyTheorems.RedactedIsFound | app/compliance-erasure/src/identify.ts:50-93 | any content in which redaction would replace something is surfaced by the content sweep |
| ErasureIdentification.NoRowIsMissed | app/compliance-erasure/src/identify.ts:95-111 | every row in which redaction would replace something references the target or is offered for confirmation, never both, and nothing is offered without search terms |
| ErasureWorkflow.DeletionStore.ReplaceRequest | app/compliance-erasure/src/store.ts:221-229 | a request update is refused when it would violate the distinctness constraints, and then changes nothing |
| ErasureWorkflow.DeletionStore.ScrubMemory | app/compliance-erasure/src/store.ts:266-277 | content replaced and target removed, refused when no id would be left |
| ErasureWorkflow.DeletionStore.AuthorizeRequest | app/compliance-erasure/src/authorize.ts:34-40 | first authorisation with its checks, the write and the emit after it, either of which may throw, as the transition Authorize |
| ErasureWorkflow.DeletionStore.SecondAuthorizeRequest | app/compliance-erasure/src/authorize.ts:44-52 | second authorisation in the same way, as the transition SecondAuthorize |
| ErasureWorkflow.RunConnectors | app/compliance-erasure/src/connectors.ts:24-38 | the raising loop, which fails closed on a detection or raise fault with the flags raised so far |
| ErasureWorkflow.RunScrub | app/compliance-erasure/src/execute.ts:183-219 | the two in-place scrub loops with their counters and every way they stop, as the transition ScrubAll |
| ErasureWorkflow.ExecuteErasure | app/compliance-erasure/src/execute.ts:75-284 | the whole run on the store, every hold and throw path, as the transition Execute |
| ErasureTheorems.NoReasons | app/compliance-erasure/src/authorize.ts:71-83 | the executor check passes exactly with the permission and three present, pairwise distinct identities |
| ErasureGuarantees.ExecuteEffect | app/compliance-erasure/src/execute.ts:75-284 | everything a run may change, in every case, and what a run that wrote its audit has verified |
| ErasureGuarantees.DoneIsVerified | app/compliance-erasure/src/execute.ts:75-284 | for all faults and reports, done implies an acceptable non-empty report, no referencing memory, no entity record, exactly one new audit, and three distinct identities with the executor permitted and acting |
| ErasureGuarantees.NotDoneChangesNoStatus | app/compliance-erasure/src/execute.ts:78-271 | a held or thrown run flips no status and writes no audit, except the one record left by a failed status flip |
| ErasureGuarantees.ThirdPartiesConserved | app/compliance-erasure/src/execute.ts:183-235 | in every run the orchestrator's own writes delete no row, remove no id but the target's, empty no id list, change content only of confirmed rows by redaction, and leave all others untouched |
| ErasureGuarantees.InterruptedRunsConverge | app/compliance-erasure/src/execute.ts:183-235 | any number of runs with any outcome followed by a done run leave the same memories and entities as one done run |
| ErasureGuarantees.DeletingSoleRowsSettles | app/compliance-erasure/src/execute.ts:159-164 | a mechanism that deletes the rows solely about the target meets the hypothesis of convergence |
| ErasureRuns.CleanRunDoneIff | app/compliance-erasure/src/execute.ts:75-284 | a fault-free run is done if and only if unfrozen, authorised, acceptably reported, and everything left to scrub can be scrubbed |
| ErasureRuns.ResumedRunDoneIff | app/compliance-erasure/src/execute.ts:183-235 | after any number of interrupted runs a fault-free run is done exactly when the gate and the report allow it: half-done scrubbing never holds it |
| ErasurePeople.ExecutedRequestsAreBacked | app/compliance-erasure/src/store.ts:345-356 | in every reachable state the identities on a request are distinct, each recorded by a permitted step of that person, and an executed request has all three and a done run |
| ErasurePeople.ExecutedPeople | app/compliance-erasure/src/execute.ts:133-139 | an executed request still shows the first authoriser and time of its last done run, and that run's second authoriser and executor exactly when no later authorisation or run past the gate wrote another name |
| ErasurePeople.ThrownAuthorisationSticksIff | app/compliance-erasure/src/authorize.ts:34-52 | an authorisation that throws has still written the request exactly when only the emit after the write failed |
| ErasurePeople.ExecutedReopenedIff | app/compliance-erasure/src/authorize.ts:34-40 | a first authorisation takes an executed request back to authorised exactly for a permitted actor who is neither of the other two people, when its write goes through |
| ErasurePeople.ExecutedExample | app/compliance-erasure/src/execute.ts:264-284 | from the empty store a request is executed; it can then be taken back, or be left executed under a second authoriser who took no part |
| ErasureConnectors.ConnectorsAreFlagged | app/compliance-erasure/src/connectors.ts:24-38 | flags are only added, never doubled while open, and a run that is done or changed any memory or entity left an open flag for every detected connector |
| ErasureConnectors.RaiseFlagsExact | app/compliance-erasure/src/store.ts:285-301 | raising is idempotent per request and connector: every raised connector ends with an open flag and one open flag stays one |
| ErasureCounts.CountsAreHonest | app/compliance-erasure/src/execute.ts:183-259 | the audit's counts are the deletions reported, the rows that still referenced the target after the mechanism, and the confirmed rows in which a term really occurred |
| ErasureCounts.AuditNamesThePeople | app/compliance-erasure/src/execute.ts:241-259 | the one new audit record names requester, both authorisers and executor as they were, pairwise distinct, with target, reason and time |
| Session.SessionManager.EstablishSession | app/auth/src/session.ts:114-132 | a new session in generation 1 with fresh names and its first token pair |
| Session.SessionManager.RefreshSession | app/auth/src/session.ts:187-232 | the branches of a refresh, in order, on the record updated in place, as the transition Refresh |
| Session.SessionManager.EnforceLifetimeBounds | app/auth/src/session.ts:240-250 | the inactivity and absolute bounds, revoking when exceeded |
| Session.SessionManager.CheckUser | app/auth/src/session.ts:153-161 | the server check with its reasons in order |
| SessionTheorems.RunKeeps | app/auth/src/session.ts:89-250 | over every run each minted token belongs to one session and generation, current and previous exactly as the record says, and sessions only evolve forward |
| SessionTheorems.RefreshSucceedsIff | app/auth/src/session.ts:187-232 | a refresh succeeds exactly within the bounds of a live session for the current token, or for the immediate predecessor within the reuse interval, which changes no session |
| SessionTheorems.RotationIsLinear | app/auth/src/session.ts:225-231 | a rotation raises the generation by one, hands out a token never handed out before and retires the presented one |
| SessionTheorems.RotatesAtMostOnce | app/auth/src/session.ts:187-232 | a token once rotated away rotates nothing in any later state, session or claimed generation |
| SessionTheorems.HandedOutIsMinted | app/auth/src/session.ts:99-111 | every handed-out token is minted for the session and generation it names, so values are distinct across sessions |
| SessionTheorems.OldTokenRevokesForGood | app/auth/src/session.ts:187-219 | presenting a token older than the predecessor, or the predecessor after 10 seconds, under any claimed generation and session, fails and leaves the session it is presented for revoked over every continuation |
| SessionTheorems.ReuseWindow | app/auth/src/session.ts:193-209 | a rotated token is accepted only within 10 seconds of its rotation, and changes no session |
| SessionTheorems.GenerationCountsRotations | app/auth/src/session.ts:225-231 | in every run the generation is the starting one plus the number of successful rotations |
| SessionTheorems.RevokedForever | app/auth/src/session.ts:153-190 | once revoked, no later refresh succeeds and no access token authenticates |
| SessionTheorems.AccessLifetimeBound | app/auth/src/session.ts:99-107 | every access token ever issued, race branch included, expires by session start plus absolute bound plus token lifetime |
| SessionTheorems.LogoutBeatsClaims | app/auth/src/session.ts:143-170 | after a logout the server check denies a token that still passes the local check, over every continuation |
| CredentialRedaction.RedactCredentialMaterial | app/config-store/src/redaction.ts:92-112 | the recursive method over lists and objects computes the scrubbed payload |
| CredentialRedaction.RedactionRemovesAll | app/config-store/src/redaction.ts:92-124 | the scrubbed payload holds no credential material at any depth |
| CredentialRedaction.CleanIsKept | app/config-store/src/redaction.ts:92-112 | a payload without credential material is unchanged |
| CredentialRedaction.RedactionFixedIff | app/config-store/src/redaction.ts:92-124 | scrubbing changes a payload exactly when it holds credential material, and only once |
| AuditSink.AuditLog.AppendAudit | app/config-store/src/store.ts:190-212 | rejection of secret keys, scrubbed values, new row and its ledger entry, as the transition Append |
| AuditSink.AuditLog.ExportAudit | app/config-store/src/store.ts:223-255 | permission, selection and the all-or-nothing loop, as the function Export |
| AuditSink.AuditLog.DeleteRowForRetention | app/config-store/src/store.ts:257-265 | outside a retention run refused without effect; inside, the splice removes exactly the row of that id, in place and order, with its ledger entry |
| AuditSink.AuditLog.AttemptNonRetentionDelete | app/config-store/src/store.ts:305-307 | always refused, nothing changed |
| AuditSink.AuditLog.RunRetention | app/config-store/src/store.ts:267-300 | scan, splice one by one, flag handling and result, as the transition Retain |
| AuditSink.AuditLog.RedactActor | app/config-store/src/store.ts:309-324 | exactly the rows of that actor lose it and are stamped, and the count is theirs |
| AuditTheorems.RunKeeps | app/config-store/src/store.ts:190-342 | over every run ids are unique and in order, the ledger's keys are the live ids, every row verifies and none carries credential material |
| AuditTheorems.AppendIsFaithful | app/config-store/src/store.ts:190-212 | refused exactly for a secret key; otherwise one new verifying row after all others, without credential material, holding key, actor, time and every clean value as given |
| AuditTheorems.ExportSucceedsIff | app/config-store/src/store.ts:223-255 | an export succeeds exactly for a permitted caller when every row in range and scope verifies |
| AuditTheorems.ExportIsComplete | app/config-store/src/store.ts:214-255 | in every reachable state a permitted export returns exactly the rows in range and scope, in log order |
| AuditTheorems.TamperAborts | app/config-store/src/store.ts:223-332 | an in-place edit makes the covering export abort exactly when it changes the row's hash |
| AuditTheorems.RetentionExact | app/config-store/src/store.ts:267-300 | retention removes exactly the rows older than the floor, keeps the others in order, and pruned plus protected is the previous length |
| AuditTheorems.RowsLiveUntilRetention | app/config-store/src/store.ts:190-324 | over every run a row survives with key, values and time unchanged if and only if no retention of the run cuts it off, and a removed id never returns |
| ConfigSurface.RequiredConfirmsFor | app/config-surfaces/src/save.ts:61-74 | a confirmation is owed exactly when some edited key owes it |
| ConfigSurface.SurfaceStore.PutConfigValue | app/config-surfaces/src/store.ts:211-217 | secret and hard-limit keys refused without effect, any other value stored |
| ConfigSurface.SurfaceStore.AppendAudit | app/config-surfaces/src/store.ts:219-238 | the same refusals, then the scrubbed row and its ledger entry |
| ConfigSurface.SurfaceStore.WriteRows | app/config-surfaces/src/store.ts:240-267 | the mutating loop with its snapshots writes all rows, or restores values, log, counter and ledger exactly |
| ConfigSurface.SurfaceStore.SaveSection | app/config-surfaces/src/save.ts:80-129 | the gates in order and the write, as the transition SaveSection |
| SurfaceTheorems.WriteAllExact | app/config-surfaces/src/store.ts:240-258 | a batch leaves each key its last written value, every other key unchanged, and one matching, numbered, covered log row per batch row in order |
| SurfaceTheorems.BatchIsAtomic | app/config-surfaces/src/store.ts:240-267 | a batch succeeds exactly when every key is acceptable, and otherwise nothing at all has changed |
| SurfaceTheorems.SaveWritesIff | app/config-surfaces/src/save.ts:80-129 | a save writes exactly when permitted, confirmed, unlocked, free of violations and acceptable; in every other case nothing changes |
| SurfaceTheorems.LogReplaysValues | app/config-surfaces/src/save.ts:119-129 | over any run of saves and actor redactions, replaying the log key by key gives the redacted current values, every row verifies, and no secret or hard-limit key is stored |
| AlertEngineModel.NotificationStore.Create | app/alerting/src/store.ts:51-70 | a new row unless its id is taken, then nothing |
| AlertEngineModel.EventLog.Append | app/alerting/src/store.ts:129-132 | appended unless its id is taken, then nothing |
| AlertEngineModel.Engine.FirstChainStepAfterPrimary | app/alerting/src/engine.ts:327-331 | the loop finds the first contact that does not reach the primary recipient again |
| AlertEngineModel.Engine.Recipient | app/alerting/src/engine.ts:333-351 | direct reviewer, else first holder, else the first contact that resolves |
| AlertEngineModel.Engine.Deliver | app/alerting/src/engine.ts:109-178 | row and event first, then misconfiguration, quiet hours and fan-out, as the transition Deliver |
| AlertEngineModel.Engine.NextContact | app/alerting/src/engine.ts:242-277 | the scan finds the first index from the next step on whose contact resolves, if any |
| AlertEngineModel.Engine.RunEscalation | app/alerting/src/engine.ts:219-319 | secondary row, mark and event, or exhausted mark, or nothing, as the transition RunEscalation |
| AlertTheorems.StepsAndRest | app/alerting/src/engine.ts:242-272 | between exhausted marks the steps fired followed by the reachable steps ahead are exactly the reachable steps from the start: nobody skipped, nobody asked twice |
| AlertTheorems.StretchIsOrdered | app/alerting/src/engine.ts:219-319 | over every run the steps between exhausted marks strictly increase, are at most the chain's length, go to whoever their contact resolves to, and each mark is a full window after the one before |
| AlertTheorems.EveryoneIsAsked | app/alerting/src/engine.ts:235-278 | when a fresh notification first runs out of contacts, everybody its chain resolves to was reached, by the primary or by an escalation |
| AlertTheorems.RestartsIff | app/alerting/src/engine.ts:430-434 | after an exhausted mark the next mark fires again exactly when a contact past the first resolves, and goes to the first such one |
| AlertTheorems.RestartExample | app/alerting/src/engine.ts:430-434 | an alert delivered from the empty engine asks the second contact of its chain, runs out, and asks that contact again |
| AlertAccounting.RoutabilityAgrees | app/alerting/src/config-validation.ts:33-46 | without a direct reviewer an alert has a recipient exactly when its kind has a destination |
| AlertAccounting.DeliverExact | app/alerting/src/engine.ts:109-178 | a delivery always leaves its own unread row and event, raises the misconfigured critical exactly when nobody can be reached, and never suppresses a critical kind |
| AlertAccounting.AcceptedRoutesCriticals | app/alerting/src/config-validation.ts:53-65 | under an accepted configuration every critical alert has a recipient: a holder of its role or one its chain resolves to |
| AlertAccounting.EveryAlertIsLogged | app/alerting/src/engine.ts:109-319 | over every run each notification has exactly one event, true of its kind, time and, for a secondary, its primary and chain step |
| AlertAccounting.ActionedIffHuman | app/alerting/src/store.ts:78-90 | over every run a notification is actioned exactly when it was or a human actioned it; no escalation ever does |
| AlertAccounting.ActionedIsFinal | app/alerting/src/engine.ts:224-226 | an actioned notification is never escalated again and its row stays as it is |
| AlertAccounting.MisconfiguredIff | app/alerting/src/engine.ts:162-167 | over every run the health bit is latched exactly when some delivered alert could reach nobody |
| AlertAccounting.AcceptedStaysQuiet | app/alerting/src/config-validation.ts:53-65 | under an accepted configuration a run that delivers only critical alerts never latches it |
| Priority.SymmetricIff | app/conflict-consolidation/src/priority.ts:45-80 | swapping the memories mirrors the winner, except exactly when they share a source and a timestamp does not parse, where both lose |
| Priority.BeatsIsTransitive | app/conflict-consolidation/src/priority.ts:47-80 | on every input beating is a strict order: irreflexive, one-way, and transitive by the stronger of the two rules |
| Priority.SuggestResolution | app/conflict-consolidation/src/priority.ts:88-122 | keep_new exactly when the new memory beats all, keep_existing exactly when it loses to some and beats none, with a survivor that is the first of the strongest rule; otherwise both, flagged |
| Priority.OutcomeIgnoresOrder | app/conflict-consolidation/src/priority.ts:94-121 | kind and rule depend only on which memories exist, not on their order or repetition |
| Priority.SurvivorHasAuthority | app/conflict-consolidation/src/priority.ts:105-116 | no existing memory of another source beats the survivor, and it beats the new memory unless a timestamp of their shared source does not parse |
| Priority.SurvivorUnbeatenIff | app/conflict-consolidation/src/priority.ts:106-115 | the survivor is unbeaten exactly when no existing memory of its source is more recent, or as old and more confident |
| Priority.NotTheStrongest | app/conflict-consolidation/src/priority.ts:106-115 | of two newer memories the first survives though the second is newer still |
| Baseline.BaselineExact | app/anomaly-checks/src/baseline.ts:32-39 | the baseline is a sample: for confidence the greatest with fewer than 5% strictly below it, otherwise the least with at most 5% strictly above it |
| Baseline.BaselineIgnoresOrder | app/anomaly-checks/src/baseline.ts:34-38 | the same samples in any order give the same baseline |
| Baseline.HistoryReachesBaseline | app/anomaly-checks/src/baseline.ts:24-39 | more than 5% of the samples (for confidence at least 5%) would fire at their own baseline |
| Baseline.RunAllDetectors | app/anomaly-checks/src/detectors.ts:118-131 | the straight-line run collects what each check gives, in the fixed order |
| Baseline.FlagsExact | app/anomaly-checks/src/detectors.ts:55-131 | the flags are exactly those of the kinds that fire, one each, in order |
| BaselineLearning.AnomalyStore.ProposeBaselines | app/anomaly-checks/src/baseline.ts:49-84 | the loop records and returns exactly the proposals of the kinds whose baseline differs, numbered on, or nothing when learning is off |
| BaselineLearning.AnomalyStore.ConfirmBaselineProposal | app/anomaly-checks/src/store.ts:176-182 | the first proposal with the id becomes confirmed by that admin; an unknown id changes nothing |
| BaselineLearning.FiringGrowsIff | app/anomaly-checks/src/detectors.ts:55-57 | moving a bar makes the firing set grow or stay on every observation exactly when the new bar is readier for its comparator; for the contradiction count, up to the whole numbers between the bars |
| BaselineLearning.AppliedGrowsIff | app/anomaly-checks/src/baseline.ts:92-107 | any proposal applied to any configuration makes the firing set grow or stay exactly when its bar is readier than the present one, and shrink or stay exactly when the present one is readier |
| BaselineLearning.StaleTightenExample | app/anomaly-checks/src/baseline.ts:92-107 | from a start without proposals, two "tighten" proposals applied in the other order leave an observation unflagged that was flagged just before |
| BaselineLearning.DirectionIsTrue | app/anomaly-checks/src/baseline.ts:63-107 | applied to any configuration whose bar and comparator are those it was made against, tighten makes the firing set grow or stay, loosen shrink or stay, each changes some observation, and a hard kind needs confirmation |
| BaselineLearning.GateBarsAreConfirmed | app/anomaly-checks/src/baseline.ts:92-107 | over every run of proposing, confirming and applying, the bar of a hard kind is the starting one or one an admin confirmed |
| BaselineLearning.UnconfirmedGateIff | app/anomaly-checks/src/baseline.ts:69-101 | across a configuration change a proposal moves a now-hard bar unconfirmed exactly when the kind was soft when it was proposed |

## Left out

- Approval workflow: notification summary texts, the returned clones, the cancellation reason, and the placeholder result of a resolve without a task; a row's description is the list of its notes.
- Ports are sequential, and a port call that throws has changed nothing; concurrency between processes and half-finished calls are not modelled.
- ErasureWorkflow.RunConnectors: acknowledging flags and the overdue sweeps are not modelled, so flags change only by being raised.
- Scrub.RedactContent: letters are compared by ASCII case folding, and word characters are the ASCII ones the expression engine uses; Unicode folding is not modelled.
- ErasureGuarantees.InterruptedRunsConverge: assumes a mechanism that changes nothing when re-run on its own partly scrubbed result, because the mechanism itself is not part of this model, and orderly redaction terms, because redacting again must change nothing.
- ScrubPairs.WordSecondCompleteIff: pairs of terms neither of which is a single word, and longer lists, have only the sufficient condition of RedactionIsComplete; terms with a bracket are outside every completeness result.
- Deletion requests: creation timestamps, the target user and the overdue-request sweep.
- Sessions: signatures, cookie posture, background-task continuation and the re-authentication payload.
- CredentialRedaction.RedactCredentialMaterial: the concrete key and value expressions are parameters that leave the placeholder alone; object prototypes are not modelled.
- AuditSink: config values, secret presence and the read-only audit view of the same store; the hash is any function, so detection means that the hash differs.
- ConfigSurface: the rendering reads, the sorted audit view, the banner signals, and the export, which has the same all-or-nothing gate as the audit sink's; the key table and cross-key rules are parameters, and an unknown section name is not modelled.
- AlertEngineModel: notification bodies and event summaries, the e-mail channel, threshold rules and the watchdog; store methods never throw but on a taken or unknown id.
- Priority.SuggestResolution: the human-readable note.
- Baseline.BaselineExact: floating-point rounding of the percentile rank; samples and bars are exact and finite, and validation of the raw configuration object is not modelled.
- Live adapters, SQL, HTTP, file checks, user interface, agent health, canary and backup code: input and output the model cannot see, or facts settled by reading one branch.
