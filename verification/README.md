# A Dafny model of the verification and access-release backend

The backend verifies people and then releases access to a Discord server. Applicants upload evidence and
submit it, administrators review it, an approval issues an access grant, and a gateway worker turns the grant into
a Discord role. The model states what these services guarantee over whole runs: in every interleaving of service
calls, batch jobs, worker attempts and clock advances.

`dafny verify dfyconfig.toml` checks the whole project.

## How the model is built

Every part has a step system with its laws and, beside it, the services in their own imperative form.

* **A step system.** Each service call is one atomic transaction, written as a function from the tables before the
  call to the tables after it, or to the error it raises. A run is a sequence of operations; an operation that is not
  enabled changes nothing. The laws are lemmas about all runs.
* **Effects.** The laws about runs say what can never happen. A module named `…Effects` beside each step system says what
  does: exactly when an operation succeeds, for how long and for whom its result is then good, and what it leaves alone.
* **A class.** Its methods read rows, check them in the source's order, assign columns one by one, loop where the
  source loops, and commit. Each method is proved to perform exactly the corresponding step (or to raise the
  corresponding error), so the laws about runs are laws about the methods.

| file | what it models |
|---|---|
| `Lifecycle.dfy`, `CaseLaws.dfy`, `CaseEffects.dfy` | one verification request with its grant, its result and its audit rows; laws every call keeps, and what each call achieves |
| `Release.dfy`, `GrantClosing.dfy`, `ReleaseService.dfy` | all requests, Discord roles and worker attempts with a program counter; the services, the jobs and the worker |
| `Team.dfy`, `TeamEffects.dfy` | role changes, disabling and enabling as transactions with row locks that interleave lock by lock |
| `SessionLimit.dfy`, `Sessions.dfy`, `SessionEffects.dfy`, `AdminService.dfy` | administrator sessions, with login split into reading the account and inserting the session |
| `Addresses.dfy`, `Invitations.dfy`, `InvitationEffects.dfy`, `Mailboxes.dfy`, `InvitationService.dfy` | administrator invitations, with bootstrapping and team operations in between |
| `Evidence.dfy`, `EvidenceEffects.dfy`, `EvidenceService.dfy` | evidence rows and stored objects; uploads, submissions, batches that may fail half way |
| `Handoff.dfy`, `HandoffEffects.dfy`, `HandoffService.dfy` | the one-time QR exchange and the phone credential derived from it |
| `RateLimit.dfy` | the fixed-window rate limiter |
| `Base64Url.dfy`, `PreviewToken.dfy` | unpadded base64url and the signed preview token |

Bookkeeping that is no column is marked as such where it is declared: grant events, logs of session and hand-off
events, the set of tokens generated so far, where an administrator came from, and users for whom Discord answered
wrongly. Laws are stated with it; no branch of a service looks at it, except that generated ids and tokens are new.

## Results worth knowing

* **More information is final.** The lifecycle diagram in the backend's own README (lines 87-108) leads from *More
  Info* back to *In Progress* and on to review. In the code nothing ever clears the assigned administrator, and a claim
  insists on none, so a case that was sent back can be resubmitted but never claimed or decided again
  (`Release.MoreInfoIsFinal`); which cases can still be approved is `Release.ApprovableIffSomeRunApproves`. Each request
  is claimed at most once, which makes the bound on status changes sharper than three per submission.
* **Overlapping attempts cost the role.** After a grant is consumed, the user keeps the role, however the run goes on
  without new attempts and without failures, if and only if no other attempt of that user is still running
  (`Release.ConsumerKeepsRoleIffAlone`); such overlaps are reachable (`Release.OverlapIsReachable`).
* **Consumed is not held.** Even without overlap, a transaction that fails after its commit consumes the grant and takes
  the role away (`Release.ConsumedButNotHeld`); it is the only way (`Release.AttemptEndsHeldIffConsumed`).
* **The rate limiter admits at most 2 * limit - 1 requests** in any interval of the window's length, one fewer than two
  full windows, and that many can occur (`RateLimit.AtMostTwoWindowsWorth`, `RateLimit.BoundIsReached`).
* **A manual deletion that fails half way** leaves rows that still count without their objects, and those that could be
  submitted before still can. Stored objects are complete if and only if the failure hit only expired uploads
  (`Evidence.ManualFailureLosesObjects`); without such failures all evidence that counts is in storage.
* **Bootstrapping does not normalize addresses.** The script stores the configured text, invitations are looked up by
  normal forms, so bootstrapping, inviting and accepting `A@b` makes two administrators of one mailbox
  (`Mailboxes.TwoAdminsOneMailbox`). Mailboxes stay apart, step by step, if and only if no bootstrap is about a taken or
  invited mailbox and no invitation about a taken one (`Mailboxes.CleanIffCareful`); bootstrapping with normal forms
  that nobody is invited with is enough (`Mailboxes.EveryPlainRunIsClean`).
* **Lazy expiry is not total.** It raises for an overdue case in review and otherwise agrees with the batch job
  (`CaseLaws.LazyExpiryIsBatchExpiry`).
* **Rotation does not look at the idle clock** (`Sessions.RotationIsInTimeIff`). Its only caller validates first, and then
  no two activities of a session are an idle timeout apart (`Sessions.ActivitiesAreInTime`).

## Model

| member | source | states |
|---|---|---|
| CaseLaws.CallKeepsConsistent | app/services/admin/request_lifecycle_service.py:58-109 | every call on a request keeps: live or consumed grant implies approved request of the same user; verified result iff approved, and iff it carries no revocation time; grant expiry is issue time plus one constant; consumption and revocation times fit the grant's status, and a consumption lies between issue and expiry; an expired request is overdue |
| CaseLaws.StatusChangesFollowTable | app/services/verification/state_machine.py:3-66 | every status change is in the transition table, except the one that an extension makes, which is EXPIRED to PENDING |
| CaseLaws.LazyExpiryIsBatchExpiry | app/services/verification/request_service.py:150-184 | the lazy expiry raises iff the request is in review and overdue, and otherwise does what the batch job does |
| CaseLaws.ExtensionHolds | app/services/admin/request_lifecycle_service.py:133-175 | an extended request is not expired, and neither expiry touches it before its new expiry |
| CaseLaws.CallKeepsAudited | app/services/audit/service.py:76-193 | replaying the audit rows of a request yields its status, assigned administrator and submission count, before and after every call |
| CaseLaws.CallKeepsAccounted | app/services/access/grant_service.py:66-143 | grant events follow one another lawfully and determine the grant's status column, re-issue on the same row included |
| CaseLaws.GrantEventsBalance | app/services/access/grant_service.py:505-561 | issues = consumptions + expiries + revocations of a live grant + (1 if live), for every lawful history |
| CaseLaws.ConsumptionFollowsIssue | app/services/access/grant_service.py:505-561 | a consumption comes right after the issue it consumes, so no issue is consumed twice |
| CaseLaws.CallKeepsBudgeted | app/services/admin/review_service.py:57-95 | status changes balance exactly with submissions, claims, decisions, revivals and expiry or revocation; a case is claimed at most once |
| CaseLaws.ChangesCountsStatusChanges | app/services/audit/service.py:76-193 | the number of status changes read off the audit rows grows exactly when a call changes the status column |
| CaseLaws.StatusChangesAreBounded | app/services/verification/submission_service.py:43-57 | status changes are at most 3 * submissions + 2 * revivals + 1, at most submissions + 2 * revivals + 3, and at most max_submissions + 2 * revivals + 3 |
| CaseEffects.CallsKeepTheRest | app/services/admin/request_lifecycle_service.py:58-236 | each column of a request is written only by the calls that are there for it |
| CaseEffects.EveryCallIsRecorded | app/services/audit/service.py:76-193 | whatever a call writes, it leaves exactly one audit row, of its own kind and naming the administrator it concerns; only a grant expires without one |
| CaseEffects.CreatedAsAsked | app/services/verification/request_service.py:46-84 | a request comes about iff its expiry is in the future: for the given user and number of submissions, pending, and expiring exactly from the given time on |
| CaseEffects.ExpiresFromExpiryOn | app/services/jobs/request_expiration.py:15-60 | an open request expires exactly from its expiry on, an assigned or decided one never |
| CaseEffects.ExtendedUntil | app/services/admin/request_lifecycle_service.py:133-175 | succeeds iff the new expiry is in the future and the request is not revoked; an open or expired request then expires exactly from the new expiry on |
| CaseEffects.JobsLeaveNothingOverdue | app/services/jobs/access_expiration.py:13-37 | after the batch jobs no open request and no live grant is overdue, and what was not overdue is untouched |
| CaseEffects.SubmittedToQueue | app/services/verification/submission_service.py:43-57 | succeeds iff the request asks for evidence, has submissions left and the evidence is accepted; then it is queued with one submission more |
| CaseEffects.DecidedByTheReviewer | app/services/admin/review_service.py:187-245 | succeeds iff the case is in review, assigned to the caller, and the decision is one of the three; then it has that status, and an approval a verified result of this user, reviewer and time |
| CaseEffects.ClaimantDecides | app/services/admin/review_service.py:57-78 | succeeds iff the case is queued and unassigned; then the claimant and nobody else can decide it |
| CaseEffects.AssigneeDecides | app/services/admin/request_lifecycle_service.py:182-237 | succeeds iff the administrator is available; in review, that administrator alone can then decide |
| CaseEffects.OnlyTheReviewerDecides | app/services/admin/review_service.py:193-201 | in every safe world a case leaves review with a decision only by a decision call of the administrator whom its audit trail names |
| CaseEffects.OnlyAClaimOpensReview | app/services/admin/review_service.py:57-78 | and it came into review only by a claim, by the administrator whom the trail names from then on |
| CaseEffects.RevokedIsClosed | app/services/admin/request_lifecycle_service.py:58-109 | succeeds iff the request is neither expired nor rejected; request, grant and result are then closed as of now |
| CaseEffects.RevocationIsForGood | app/services/admin/request_lifecycle_service.py:58-109 | after a successful revocation, nobody can be released on this request at any time in any later state |
| CaseEffects.IssuedGrantIsGood | app/services/access/grant_service.py:79-142 | succeeds iff the request is approved, no grant is issued or consumed, and the invite was made; the grant, first or repeated, is then good for the request's user and nobody else, for exactly the maximum age |
| CaseEffects.GrantExpiresFromExpiryOn | app/services/access/grant_service.py:251-270 | a live grant expires exactly from its expiry on |
| CaseEffects.RevokedGrantIsDead | app/services/access/grant_service.py:331-392 | succeeds iff there is a grant and, if it is live, its invite could be deleted; afterwards it is good for nobody at any time |
| CaseEffects.ConsumedIffEligible | app/services/access/grant_service.py:505-561 | the locked revalidation consumes a grant iff it is live, unexpired, and of an approved request of this user |
| CaseEffects.EndsWellIffEligible | app/services/access/grant_service.py:505-561 | an attempt with the role assigned whose transaction does not fail ends well iff its grant is good at that moment |
| CaseEffects.ConsumedInTime | app/services/access/grant_service.py:524-548 | in every reachable state a consumed grant was consumed at or after its issue and before its expiry |
| CaseEffects.StartsIffEligible | app/services/access/grant_service.py:420-486 | an attempt starts iff the user's newest live grant is good, and on that grant |
| CaseEffects.AddingTheRole | app/services/discord/gateway_worker.py:401-425 | who holds the role after the add, and how the attempt goes on, for every answer: consume, end with nothing to undo, or take the role away |
| CaseEffects.TakingTheRoleAway | app/services/discord/gateway_worker.py:503-541 | the compensation ends the attempt and takes the role from its user only |
| Release.StepIsACall | app/services/jobs/request_expiration.py:15-60 | whatever a step (batch job and worker included) does to an existing request is one call on that request, or nothing |
| Release.EveryRunIsSafe | app/services/admin/request_lifecycle_service.py:58-109 | consistency, audit replay, lawful grant events and the status budget hold of all requests in every run |
| Release.ReachableCaseLaws | app/services/verification/result_service.py:13-54 | the same laws spelled out for each request of each state reachable from the empty tables |
| Release.RevokedForever | app/services/admin/request_lifecycle_service.py:58-109 | a revoked request stays revoked, unverified and without live or consumed grant in all later states |
| Release.NeverDecidedAfterwards | app/services/admin/review_service.py:57-65 | outside review with an assigned administrator, a request is never in review, approved or rejected in any later state |
| Release.MoreInfoIsFinal | app/services/verification/submission_service.py:187-200 | a request that was sent back for more information is never in review, approved or rejected in any later state |
| Release.ApprovableIffSomeRunApproves | app/services/admin/review_service.py:57-95 | some continuation approves a request iff it is approved or in review, or nobody is assigned and it is queued, or pending or expired with submissions left |
| Release.NewestDecides | app/services/access/grant_service.py:434-486 | the newest live grant of a user is good iff any live grant of any request is good for that user |
| Release.EveryRoleIsJustified | app/services/discord/gateway_worker.py:264-327 | in every interleaving, a role holder is between role-add and the end of an attempt, or has had a grant consumed, or Discord misreported a call for that user |
| Release.EveryRoleIsEarned | app/services/discord/gateway_worker.py:401-464 | with truthful refusals and successful compensations, only the first two remain |
| Release.OrderlyRunsStayOrderly | app/services/discord/gateway_worker.py:388-464 | without overlapping attempts, a user with the role-assigned program counter holds the role |
| Release.AttemptEndsHeldIffConsumed | app/services/discord/gateway_worker.py:388-464 | without overlapping attempts, an attempt ends with the role held iff its consume step put the consumption on the grant's history and did not fail after the commit |
| Release.ConsumedButNotHeld | app/services/access/grant_service.py:552-581 | a consume call that fails after its commit leaves the grant consumed and the role gone, without overlap and with truthful answers of Discord |
| Release.QuietKeepsRole | app/services/discord/gateway_worker.py:503-541 | while no attempt of a user runs or starts, nothing moves the user's role |
| Release.LateAttemptTakesRoleAway | app/services/discord/gateway_worker.py:284-303 | an attempt whose grant is no longer good when it consumes (spent, revoked, overdue or on a request no longer approved) removes the role on its way out |
| Release.OvertakenAttemptTakesRoleAway | app/services/discord/gateway_worker.py:284-303 | an attempt whose grant is revoked before it comes to an end, without any failure, removes the role |
| Release.ConsumerKeepsRoleIffAlone | app/services/discord/gateway_worker.py:284-303 | after a consumption the role stays, in all failure-free continuations without new attempts, iff no other attempt of the user is running, on whatever grant |
| Release.OverlapIsReachable | app/services/discord/gateway_worker.py:264-303 | two attempts can both have assigned the role on one grant, from any state with a good grant |
| GrantClosing.AttemptCloses | app/services/discord/gateway_worker.py:388-464 | an attempt closes the user's newest live grant or nothing; without failures it closes it, and ends with the role held iff that grant is consumed |
| GrantClosing.AttemptReleasesIff | app/services/discord/gateway_worker.py:388-464 | after a failure-free attempt on a good grant the user holds the role iff the grant is still good when it is consumed; without a good grant, and for everybody else, roles stay as they are |
| GrantClosing.PassCloses | app/services/discord/gateway_worker.py:363-386 | the turns of a pass close live grants of non-bot members only, at most one each, exactly one for everybody for whom nothing fails |
| GrantClosing.FullPassServesEachOnce | app/services/discord/gateway_worker.py:329-386 | a pass without failures closes exactly one live grant of each waiting non-bot member and leaves all other live grants as they are |
| GrantClosing.PassesReachZero | app/services/discord/gateway_worker.py:157-200 | passes without failures and with nothing in between each close a live grant of a member until none is left |
| GrantClosing.ClosesComposes | app/services/discord/gateway_worker.py:363-386 | what consecutive pieces of worker activity close is disjoint and adds up |
| GrantClosing.ClosesAmong | app/services/access/grant_service.py:395-417 | closing grants removes exactly them from the live grants of any group of users |
| ReleaseService.AccessService.CreateVerificationRequest | app/services/verification/request_service.py:25-103 | creates a PENDING request with its audit row, or raises iff the expiry is not in the future |
| ReleaseService.AccessService.ClaimCase | app/services/admin/review_service.py:35-99 | answers as the claim call: all columns, the audit row and every error |
| ReleaseService.AccessService.RecordDecision | app/services/admin/review_service.py:167-274 | answers as the decision call, upserting the verified result on approval |
| ReleaseService.AccessService.ExpireRequestIfNeeded | app/services/verification/request_service.py:150-184 | answers as the lazy expiry, and reports whether it changed the row |
| ReleaseService.AccessService.RevokeVerificationRequest | app/services/admin/request_lifecycle_service.py:27-113 | answers as the revocation: request, grant and result together |
| ReleaseService.AccessService.ExtendRequestExpiration | app/services/admin/request_lifecycle_service.py:116-179 | answers as the extension, reviving an expired request |
| ReleaseService.AccessService.AssignReviewer | app/services/admin/request_lifecycle_service.py:182-237 | answers as the assignment, whatever the status |
| ReleaseService.AccessService.ExpireDueVerificationRequests | app/services/jobs/request_expiration.py:15-60 | the loop expires exactly the due requests and counts them |
| ReleaseService.AccessService.IssueAccessGrant | app/services/access/grant_service.py:44-248 | answers as the issue call, re-issuing on the existing row |
| ReleaseService.AccessService.RevokeAccessGrant | app/services/access/grant_service.py:331-392 | answers as the grant revocation, which needs Discord only for a live grant |
| ReleaseService.AccessService.ExpireGrantIfNeeded | app/services/access/grant_service.py:251-270 | expires a live overdue grant and reports whether it did |
| ReleaseService.AccessService.ExpireDueAccessGrants | app/services/jobs/access_expiration.py:13-37 | the loop expires exactly the live overdue grants and counts them |
| ReleaseService.AccessService.NewestLiveGrant | app/services/access/grant_service.py:434-450 | returns a live grant of the user with the latest issue time, or none iff there is none |
| ReleaseService.AccessService.FindEligibleGrant | app/services/access/grant_service.py:420-486 | finds a grant iff an exhaustive search finds an unexpired live grant of an approved request for the user; expires an overdue newest one |
| ReleaseService.AccessService.AssignRole | app/services/discord/gateway_worker.py:401-425 | performs the role-add step with the given answer of Discord, asking only if the role is missing |
| ReleaseService.AccessService.ConsumeAccessGrant | app/services/access/grant_service.py:489-581 | performs the consume step: revalidation, consumption or expiry, with the given fault at either end of the transaction |
| ReleaseService.AccessService.RemoveRoleAfterFailedConsumption | app/services/discord/gateway_worker.py:503-541 | performs the compensation step, with the given answer of Discord |
| ReleaseService.AccessService.ReleaseAccess | app/services/discord/gateway_worker.py:401-464 | the guarded part of both handlers is the role-add, consume and compensation steps in order, each only where the ones before leave room |
| ReleaseService.AccessService.GrantExistingMemberAccess | app/services/discord/gateway_worker.py:388-464 | performs exactly the steps of one attempt on the user's newest live grant, for every combination of answers and delay |
| ReleaseService.AccessService.ReconcileUser | app/services/discord/gateway_worker.py:346-386 | one turn of a pass: non-members, users whose lookup fails and bots are passed over |
| ReleaseService.AccessService.ReconcileExistingMembers | app/services/discord/gateway_worker.py:329-386 | is exactly one turn for every user with a live grant: an attempt for members who can be looked up and are no bots, nothing for others |
| ReleaseService.AccessService.ReconciliationLoop | app/services/discord/gateway_worker.py:157-200 | is a sequence of such passes; if nothing fails, as many as there are live grants of members leave none |
| Team.AlwaysAnActiveSuperAdmin | app/services/admin/team_service.py:74-192 | every interleaving of lock, check, write and commit steps keeps an active super administrator in every committed state |
| Team.EveryInterleavingIsSound | app/services/admin/team_service.py:74-148 | in every interleaving a transaction's locked owners are locked by it and still owners, and its decision still fits the locked target row |
| Team.WritersAreOwnersAtCommit | app/services/admin/team_service.py:74-123 | whoever commits a team operation is an active super administrator in the state in which it commits, whatever team one starts with |
| Team.RefusedIffItWouldRemoveTheLast | app/services/admin/team_service.py:173-192 | alone, an owner's operation is refused iff carrying it out would leave no active super administrator |
| TeamEffects.WritesAsAsked | app/services/admin/team_service.py:318-345 | a role change writes the given role and keeps the activity; disabling and enabling write the activity and keep the role; ending sessions changes neither |
| TeamEffects.WritesNothingIff | app/services/admin/team_service.py:173-192 | nothing is written iff the target is as asked already; refused iff the target is active super administrator, at most one is locked, and the operation would end that |
| TeamEffects.SomebodyIsInCharge | app/services/admin/team_service.py:74-192 | in every interleaving some administrator is active with role SUPER_ADMIN |
| TeamEffects.LocksOrSkips | app/services/admin/team_service.py:74-123 | a row of the snapshot is locked and counted iff it still is an active super administrator; only somebody else's lock makes one wait |
| TeamEffects.OwnerGetsItDone | app/services/admin/team_service.py:272-476 | run alone from snapshot to commit, an operation takes effect iff its target exists, its actor is an active super administrator, and one remains; it always ends without locks |
| SessionLimit.NewestSize | app/services/admin/session_service.py:1278-1341 | keeping the newest `room` of a group keeps min(size, room) of them |
| SessionLimit.KeptAreNewer | app/services/admin/session_service.py:1278-1341 | every kept session is newer, by creation time and id, than every evicted one |
| SessionLimit.CapIsExact | app/services/admin/session_service.py:1263-1341 | after enforcement the active sessions are the new one and the newest maximum - 1 others, or all if there were no more than the maximum |
| Sessions.EveryRunAgrees | app/services/admin/session_service.py:484-558 | in every run the session columns equal the values folded from the history |
| Sessions.ColumnsDecideAsHistory | app/services/admin/session_service.py:654-732 | the checks on stored columns accept iff the history does: never ended, both clocks running, no invalidation since the account was read |
| Sessions.TokensOpenAsHistory | app/services/admin/session_service.py:561-745 | a raw token is accepted iff it is the latest created or rotated token of a session the history allows |
| Sessions.SessionsAreUsedInTime | app/services/admin/session_service.py:682-701 | every recorded use came within the idle timeout of the activity before it |
| Sessions.ActivitiesAreInTime | app/api/routes/admin/auth.py:957-1108 | if sessions are rotated only while valid, every use and every rotation came within the idle timeout of the activity before it |
| Sessions.RotationIsInTimeIff | app/services/admin/session_service.py:934-1017 | a rotation keeps this iff the session has not been idle for too long, which the rotation does not check |
| Sessions.LateSessionNeverValidates | app/services/admin/session_service.py:484-520 | a session inserted from an account row that was invalidated after it was read never validates, even after re-enabling |
| Sessions.InvalidationIsFinal | app/services/admin/session_service.py:1227-1260 | every session that exists when its account is invalidated is refused at all later times |
| Sessions.RetiredForever | app/services/admin/session_service.py:934-1017 | a token that was rotated away is never accepted again |
| Sessions.NeverTooManySessions | app/services/admin/session_service.py:1263-1341 | in every run no administrator ever has more active sessions than configured |
| SessionEffects.LoginReadsTheAccount | app/api/routes/admin/auth.py:619-665 | a login works with the account as it was when it was read |
| SessionEffects.LoginOpensIffActive | app/services/admin/session_service.py:412-482 | a login opens a session iff the account was active when read |
| SessionEffects.NewSessionIsGood | app/services/admin/session_service.py:484-520 | the new session is valid until the idle timeout iff the account has not been invalidated since it was read, and its token opens it |
| SessionEffects.OldestMakeRoom | app/services/admin/session_service.py:1278-1341 | a login ends only active sessions of the same administrator, and each was born, by the log, before every other one that stays, ids deciding ties |
| SessionEffects.ProvisionedIsActive | app/services/admin/invitation_service.py:953-970 | a newly provisioned account is active, and no existing one changes |
| SessionEffects.UseRenewsIdleClock | app/services/admin/session_service.py:561-745 | after a valid use the session is valid until the idle timeout from now or its absolute expiry, and nothing else changed |
| SessionEffects.RotationRenews | app/services/admin/session_service.py:934-1017 | succeeds iff the session is neither revoked nor expired; the new token opens it for the idle timeout, the previous one is retired |
| SessionEffects.SignOutIsForGood | app/services/admin/session_service.py:1042-1104 | a revoked session is valid at no time in any later state; no other session is touched |
| SessionEffects.InvalidationChangesOneAccount | app/services/admin/session_service.py:1227-1260 | the account gets the given activity and the next version; other accounts and their sessions stay as they are |
| SessionEffects.EnabledCanLogIn | app/services/admin/session_service.py:412-558 | whoever is enabled can log in anew: the account read afterwards opens a session whose token is accepted |
| AdminService.AdminStore.ActiveNewestFirst | app/services/admin/session_service.py:1278-1300 | the active sessions of one administrator, each once, newest first |
| AdminService.AdminStore.ChooseKept | app/services/admin/session_service.py:1312-1325 | the first loop keeps the new session and exactly the newest others up to the maximum |
| AdminService.AdminStore.EnforceActiveSessionLimit | app/services/admin/session_service.py:1263-1341 | revokes exactly the evicted sessions |
| AdminService.AdminStore.CreateAdminSession | app/services/admin/session_service.py:412-558 | performs the insert step on the account row read earlier |
| AdminService.AdminStore.GetValidAdminSession | app/services/admin/session_service.py:561-745 | accepts iff the token is accepted, touches only then, and otherwise names the first failing check |
| AdminService.AdminStore.AuthenticateRequest | app/api/dependencies.py:143-383 | rolls a failed validation back and then persists exactly one revocation, unless the token is unknown or already revoked |
| AdminService.AdminStore.RevokeAdminSessionById | app/services/admin/session_service.py:1042-1104 | performs the revoke step unless a given owner does not match, and reports whether it changed anything |
| AdminService.AdminStore.RotateAdminSession | app/services/admin/session_service.py:934-1017 | performs the rotation and retires the old token, or raises for a revoked or expired session |
| AdminService.AdminStore.RevokeAllAdminSessions | app/services/admin/session_service.py:1159-1224 | revokes exactly the active sessions, except one to spare if given, and counts them |
| AdminService.AdminStore.RevokeEach | app/services/admin/session_service.py:1199-1216 | the loop revokes exactly the listed sessions except the spared one, and counts them |
| AdminService.AdminStore.InvalidateAdminSecurityState | app/services/admin/session_service.py:1227-1260 | raises the version and ends the active sessions as one step |
| AdminService.AdminStore.ChangeAdminRole | app/services/admin/team_service.py:272-383 | answers as the role-change decision and invalidates the target's sessions |
| AdminService.AdminStore.DisableAdmin | app/services/admin/team_service.py:386-476 | answers as the disable decision and invalidates the target's sessions |
| AdminService.AdminStore.EnableAdmin | app/services/admin/team_service.py:479-555 | answers as the enable decision and invalidates the target's sessions |
| AdminService.AdminStore.RevokeAdminAccessSessions | app/services/admin/team_service.py:558-629 | forces the target out of all sessions without changing role or activity |
| Addresses.NormalizeIsIdempotent | app/services/admin/invitation_service.py:134-171 | a normalized address is its own normal form |
| Addresses.NormalFormIff | app/services/admin/invitation_service.py:134-171 | an address is its own normal form iff it has at most 320 characters, no space around, no capital letter and an at sign inside |
| Addresses.SpacesAndCapitalsAreIgnored | app/services/admin/invitation_service.py:134-171 | spaces around an address and capital letters in it make no difference |
| Invitations.EveryRunIsSound | app/services/admin/invitation_service.py:331-987 | every run keeps invitations and administrators linked both ways, with distinct stored addresses, subjects and tokens and one active invitation per address |
| Invitations.ReachableTeamLaws | app/services/admin/invitation_service.py:843-987 | invited administrators and accepted invitations correspond one to one, same address and role; none is accepted and revoked; stored addresses are distinct; one active invitation per address |
| Invitations.InvitedRoleHolds | app/services/admin/invitation_service.py:953-970 | unless a team operation touches it, an invited administrator is active in exactly the invited role |
| Invitations.RefusedForeverIffStored | app/services/admin/invitation_service.py:905-940 | while somebody may invite, an address is refused in all later states iff an administrator row stores exactly this text |
| Invitations.ResendRetiresToken | app/services/admin/invitation_service.py:592-616 | after a resend the previous token is refused in all later states |
| Invitations.ClosedForever | app/services/admin/invitation_service.py:297-323 | an accepted, revoked or lapsed invitation is never accepted afterwards, and an accepted one never changes |
| Invitations.AuthorityIsInherited | app/services/admin/invitation_service.py:359-361 | every administrator descends from a bootstrapped one through finitely many inviters |
| InvitationEffects.CreatedIff | app/services/admin/invitation_service.py:359-462 | succeeds iff the caller is an active super administrator, the address well-formed, stored by no administrator and without usable invitation, and the expiry in the future |
| InvitationEffects.InvitedUntil | app/services/admin/invitation_service.py:331-532 | a new invitation can be accepted by exactly those who prove the invited address, exactly until the requested expiry, and makes an active administrator in exactly the requested role |
| InvitationEffects.ResentIff | app/services/admin/invitation_service.py:539-591 | succeeds iff the caller is an active super administrator and the invitation is usable |
| InvitationEffects.NewTokenTakesOver | app/services/admin/invitation_service.py:592-616 | the new token does for everybody at every time what the previous one would have done |
| InvitationEffects.RevokedIff | app/services/admin/invitation_service.py:669-776 | succeeds iff the caller is an active super administrator and nobody accepted the invitation; no other invitation changes |
| InvitationEffects.RevocationIsForGood | app/services/admin/invitation_service.py:669-776 | a revoked invitation is usable in no later state, by nobody with any token |
| InvitationEffects.AcceptedIff | app/services/admin/invitation_service.py:820-940 | succeeds iff token, usability, address and subject all fit, for whatever state |
| InvitationEffects.AcceptedOnce | app/services/admin/invitation_service.py:941-987 | adds one administrator with the invitation's address and role, changes no other row, and no second acceptance succeeds |
| InvitationEffects.BootstrappedIff | app/db/bootstrap_admin.py:16-46 | adds an active super administrator iff neither subject nor address is stored |
| InvitationEffects.OwnersInvite | app/services/admin/invitation_service.py:359-361 | every new invitation, new token and revocation is the call of an active super administrator |
| InvitationEffects.RowsChangeByTeamOnly | app/services/admin/invitation_service.py:953-970 | administrator rows come from bootstrap and acceptance, and change by team operations only |
| Mailboxes.CleanIffCareful | app/db/bootstrap_admin.py:16-46 | one administrator per mailbox and no active invitation for an administrator's mailbox, compared by normal forms, survive a step iff it is not a bootstrap of a mailbox that is taken or invited, nor an invitation to a taken one |
| Mailboxes.EveryCarefulRunIsClean | app/services/admin/invitation_service.py:407-462 | so both hold in every run of such steps |
| Mailboxes.EveryPlainRunIsClean | app/services/admin/invitation_service.py:407-462 | and in every run that bootstraps only with normal forms that nobody is actively invited with, because then the services' own checks are care enough |
| Mailboxes.SharedMailboxesAreBootstrapped | app/db/bootstrap_admin.py:36-43 | in every run, two administrators with one mailbox include one that was bootstrapped with an address not in normal form |
| Mailboxes.TwoAdminsOneMailbox | app/db/bootstrap_admin.py:36-43 | bootstrapping, inviting and accepting "A@b" makes two administrators of one mailbox |
| Mailboxes.NormalMailboxIsRefused | app/services/admin/invitation_service.py:889-940 | the mailbox of an administrator stored in normal form is refused in all later states, however it is spelled |
| Mailboxes.AcceptedIff | app/services/admin/invitation_service.py:820-940 | if only outsiders are invited, acceptance succeeds iff the token is current, the invitation active, the address the invited one and the subject new |
| Mailboxes.ServicesUseNormalForms | app/services/admin/invitation_service.py:363-367 | invitations are created on normal forms |
| InvitationService.InvitationStore.CreateAdminInvitation | app/services/admin/invitation_service.py:331-532 | answers as the create call on the normal form of the address |
| InvitationService.InvitationStore.ResendAdminInvitation | app/services/admin/invitation_service.py:539-660 | answers as the resend call |
| InvitationService.InvitationStore.RevokeAdminInvitation | app/services/admin/invitation_service.py:669-776 | answers as the revoke call, idempotent for a revoked invitation |
| InvitationService.InvitationStore.AcceptAdminInvitation | app/services/admin/invitation_service.py:784-1048 | answers as the accept call on the invitation the token belongs to |
| Evidence.EveryRunIsSound | app/services/retention/evidence_deletion.py:58-79 | every run keeps: DELETED row implies absent object; submissions and evidence point at each other; one usable upload per hand-off and kind |
| Evidence.ReachableStoreLaws | app/services/verification/submission_service.py:121-181 | evidence is listed by a submission iff it points at it, once, for the same request; lists of distinct submissions are disjoint |
| Evidence.SubmittedForever | app/services/verification/submission_service.py:152-181 | submitted evidence keeps its submission, and a submission its list, in all later states |
| Evidence.CleanupSparesSubmitted | app/services/storage/cleanup.py:24-36 | the clean-up changes neither row nor object of submitted evidence, whether it fails or not |
| Evidence.FailedBatchesLeaveNoTrace | app/services/jobs/runner.py:28-49 | failed batches change no row; after a successful one, rows and storage equal those of the run in which no batch of that kind ever failed, whatever happened in between |
| Evidence.BatchFinishes | app/services/admin/evidence_deletion_service.py:24-48 | a successful batch marks exactly the selected rows, removes their objects, and leaves nothing to select |
| Evidence.EvidenceIsStored | app/services/storage/evidence_service.py:60-155 | unless a manual deletion fails, all evidence that still counts has its object |
| Evidence.ManualFailureLosesObjects | app/services/admin/evidence_deletion_service.py:37-48 | a failed manual deletion changes no row; the rows it reached have no object, and those that could be submitted still can; every counting row keeps its object iff it reached only expired uploads |
| EvidenceEffects.UploadCountsUntil | app/services/storage/evidence_service.py:60-155 | an upload can be submitted for its request exactly until its lifetime ends, and is selected by the clean-up exactly from then on |
| EvidenceEffects.RetakeReplacesEarlier | app/api/routes/verification/mobile_handoff.py:660-697 | a retake takes exactly the earlier temporary uploads of its hand-off and kind out at once |
| EvidenceEffects.UploadAddsItsKind | app/api/routes/verification/mobile_handoff.py:858-885 | the kinds that count for a hand-off grow by exactly the kind uploaded through it |
| EvidenceEffects.FailedUploadLeavesNoRow | app/services/storage/evidence_service.py:34-58 | a failed upload leaves rows and other objects as they are |
| EvidenceEffects.AcceptedOneByOne | app/services/verification/submission_service.py:64-119 | a list is accepted iff its entries are distinct and each can be submitted |
| EvidenceEffects.SubmittedIsKept | app/services/verification/submission_service.py:121-181 | a submission lists exactly the given evidence, which then neither expires nor can be submitted again; the rest is untouched |
| EvidenceEffects.ManualDeletionLeavesNothing | app/services/admin/evidence_deletion_service.py:24-48 | afterwards every row of the request is DELETED and without object, and other requests' rows and objects are as before |
| EvidenceEffects.CleanupTakesTheExpired | app/services/storage/cleanup.py:24-60 | a successful clean-up takes exactly the temporary uploads that cannot be submitted any more, rows and objects |
| EvidenceEffects.DeletedForever | app/services/retention/evidence_deletion.py:58-79 | a deleted row stays DELETED and its object absent in all later states |
| EvidenceEffects.StopsAtTheFirstFailure | app/services/retention/evidence_deletion.py:26-102 | what is gone when a batch raises: everything up to the first deletion that failed, which itself may have been carried out |
| EvidenceService.SizeWithoutDuplicates | app/services/verification/submission_service.py:64-73 | comparing the sizes of list and set detects duplicates exactly |
| EvidenceService.EvidenceStore.MarkEvidenceDeleted | app/services/retention/evidence_deletion.py:26-102 | removes the object first; the row is marked iff storage says it was removed |
| EvidenceService.EvidenceStore.CleanupExpiredTemporaryUploads | app/services/storage/cleanup.py:19-60 | the loop over the expired uploads: all done and committed, or, exactly if a deletion or the commit fails, the objects before the failure gone and no committed row changed |
| EvidenceService.EvidenceStore.ExecuteCleanupJob | app/services/jobs/runner.py:9-48 | performs the batch step with rollback on failure, raises exactly on a failure, and records the outcome of the job |
| EvidenceService.EvidenceStore.DeleteRequestEvidence | app/services/admin/evidence_deletion_service.py:17-49 | the loop over all undeleted evidence of a request, with the same two outcomes under the same condition |
| EvidenceService.EvidenceStore.HandleManualDeletion | app/api/routes/admin/lifecycle.py:248-276 | the request around it performs the batch step: a failure rolls the rows back |
| EvidenceService.EvidenceStore.SupersedeEarlier | app/api/routes/verification/mobile_handoff.py:660-697 | the loop expires exactly the earlier temporary uploads of the same hand-off and kind |
| EvidenceService.EvidenceStore.UploadMobileEvidence | app/api/routes/verification/mobile_handoff.py:623-809 | performs the upload step, or, exactly if the upload or the commit fails, leaves at most an object that no row knows |
| EvidenceService.EvidenceStore.ValidateEvidence | app/services/verification/submission_service.py:64-119 | accepts iff the list is duplicate-free and every entry is an unexpired temporary upload of the request |
| EvidenceService.EvidenceStore.AttachAll | app/services/verification/submission_service.py:156-181 | the loop attaches exactly the validated evidence |
| EvidenceService.EvidenceStore.CreateSubmission | app/services/verification/submission_service.py:36-237 | answers as the submit call of the request and attaches the evidence in the same transaction, or changes nothing |
| Handoff.EveryRunIsSound | app/services/verification/mobile_capture_service.py:186-246 | every run keeps the row laws, the uniqueness of secrets and the order of creations and exchanges |
| Handoff.ReachableHandoffLaws | app/services/verification/mobile_capture_service.py:299-342 | one open hand-off per desktop session, the latest; one exchange per QR token; a credential implies exchanged, neither revoked nor completed, and expires with its parents; the status column equals the derived status |
| Handoff.SpentForever | app/services/verification/mobile_capture_service.py:299-309 | a closed or exchanged hand-off can never be exchanged again |
| Handoff.CredentialIsDestroyed | app/api/routes/verification/mobile_handoff.py:950-970 | completing, revoking or creating anew destroys the phone credential in all later states |
| Handoff.OnePhonePerSession | app/services/verification/mobile_capture_service.py:186-217 | a desktop session never has two working phone credentials |
| Handoff.ThreeChecksDecide | app/services/verification/mobile_capture_service.py:387-406 | of all checks on a phone credential, three decide: it is the stored one, the hand-off is unexpired and the parents authorize |
| HandoffEffects.CreatedIff | app/services/verification/mobile_capture_service.py:71-183 | succeeds iff the desktop session is neither logged out nor expired, and its request exists, is of the same user, asks for evidence and is not overdue |
| HandoffEffects.NewHandoffIsGood | app/services/verification/mobile_capture_service.py:235-246 | a new hand-off can be exchanged for exactly the configured lifetime, as long as its parents authorize it |
| HandoffEffects.CreatingWithdrawsOwnOnly | app/services/verification/mobile_capture_service.py:186-217 | hand-offs of other sessions and closed ones stay as they are |
| HandoffEffects.SpentIffExchangeable | app/services/verification/mobile_capture_service.py:260-309 | an exchange takes place iff the hand-off is exchangeable |
| HandoffEffects.NewCredentialIsGood | app/services/verification/mobile_capture_service.py:318-342 | the new credential works exactly until hand-off or desktop session expires, as long as the parents authorize it |
| HandoffEffects.CreateWaitExchange | app/services/verification/mobile_capture_service.py:140-349 | create, wait for less than the lifetime, exchange: the phone is authorized |
| HandoffEffects.UploadKeepsCredential | app/api/routes/verification/mobile_handoff.py:579-707 | uploading leaves the phone credential as it was |
| HandoffEffects.CompletedIffAccepted | app/api/routes/verification/mobile_handoff.py:899-970 | completes iff the credential is accepted and everything is uploaded, as of now, and destroys the credential |
| HandoffEffects.WithdrawnIffOwn | app/services/verification/mobile_capture_service.py:413-444 | a desktop session withdraws its own hand-off whatever its state, and no other |
| HandoffEffects.LogOutIsForGood | app/services/verification/session_service.py:95-123 | after a log-out no hand-off of the session can be exchanged and no phone of it works, in all later states |
| HandoffEffects.LoggedInUntil | app/services/verification/session_service.py:17-45 | a desktop session authorizes for its own user and request, exactly until its expiry |
| HandoffEffects.PhoneWorksIff | app/services/verification/mobile_capture_service.py:352-410 | a phone works iff it has the stored credential, the hand-off is unexpired, and its desktop session could create a hand-off for the same request now |
| HandoffService.MobileCaptureService.CreateMobileCaptureSession | app/services/verification/mobile_capture_service.py:140-257 | succeeds iff the parents authorize, and then performs the create step |
| HandoffService.MobileCaptureService.RevokeExisting | app/services/verification/mobile_capture_service.py:205-217 | the loop withdraws exactly the open hand-offs of the session |
| HandoffService.MobileCaptureService.ExchangeMobileCaptureToken | app/services/verification/mobile_capture_service.py:260-349 | exchanges the hand-off of the token iff it is exchangeable, and then the new credential works |
| HandoffService.MobileCaptureService.GetValidMobileCaptureSession | app/services/verification/mobile_capture_service.py:352-410 | finds the hand-off that the credential authorizes, or none iff it authorizes none |
| HandoffService.MobileCaptureService.UploadMobileEvidence | app/api/routes/verification/mobile_handoff.py:579-707 | performs the upload step and raises iff the credential is not accepted or the upload was refused |
| HandoffService.MobileCaptureService.CompleteMobileCapture | app/api/routes/verification/mobile_handoff.py:834-1001 | completes iff the credential is accepted and every required kind has a counting upload |
| HandoffService.MobileCaptureService.RevokeMobileCaptureSession | app/services/verification/mobile_capture_service.py:413-444 | withdraws the session's own hand-off whatever its state; no credential works for it afterwards |
| RateLimit.CounterIsPosition | app/services/security/rate_limit.py:26-41 | the counter is the position of the request in its window, and expires one window after the window's first request |
| RateLimit.AtMostTwoWindowsWorth | app/services/security/rate_limit.py:26-41 | any half-open interval of the window's length contains at most 2 * limit - 1 accepted requests |
| RateLimit.RejectedOnlyAfterLimit | app/services/security/rate_limit.py:106-122 | a request is rejected only if `limit` requests were accepted within the preceding window length |
| RateLimit.BoundIsReached | app/services/security/rate_limit.py:26-41 | for every limit and every window of more than one second, some log reaches the bound |
| RateLimit.RateLimiter.Evaluate | app/services/security/rate_limit.py:26-41 | the script's counter equals the one determined by the log of requests |
| RateLimit.RateLimiter.CheckRateLimit | app/services/security/rate_limit.py:44-122 | every outcome: misconfigured, switched off, unavailable, allowed iff within the limit |
| Base64Url.DecodeUndoesEncode | app/services/admin/evidence_review_service.py:28-46 | unpadded base64url decoding undoes encoding for every byte string |
| Base64Url.EncodeReadsBits | app/services/admin/evidence_review_service.py:28-33 | character i of the encoding stands for bits 6i to 6i + 5 of the input, padded with zero bits, for all i |
| Base64Url.AlphabetIsUrlSafe | app/services/admin/evidence_review_service.py:28-33 | the alphabet is the URL-safe one of RFC 4648 |
| Base64Url.KnownVectors | app/services/admin/evidence_review_service.py:28-33 | test vectors of section 10 of RFC 4648, without padding |
| PreviewToken.UuidTextIsCanonical | app/services/admin/evidence_review_service.py:58-60 | 36 characters, dashes at 8, 13, 18 and 23, lower-case digits in order |
| PreviewToken.UuidRoundTrips | app/services/admin/evidence_review_service.py:49-72 | parsing a UUID's text yields the UUID |
| PreviewToken.PayloadRoundTrips | app/services/admin/evidence_review_service.py:49-72 | the payload's three fields survive formatting and parsing |
| PreviewToken.MintedTokenVerifiesExactly | app/services/admin/evidence_review_service.py:49-152 | a minted token verifies iff evidence and administrator match and its expiry second has not passed; otherwise it is invalid or expired |
| PreviewToken.VerifiedTokenWasMinted | app/services/admin/evidence_review_service.py:75-152 | if signatures are known only of minted payloads, a token that verifies for an evidence and an administrator implies one minted for these two that has not expired |

## Left out

- Interleaving inside a transaction, where the code takes no row lock: submission, lazy expiry, the clean-up query, the session-limit query and mobile completion are atomic steps. Team operations and worker attempts do interleave.
- Deadlocks and serialization failures: an aborted transaction is a step that does nothing. ORM identity maps serving stale rows are not modelled.
- Columns that no check reads: activity and update timestamps, reasons, IP addresses, user agents, display names, JSON metadata, the CSRF token hashes that rotate together with session tokens.
- Hashing, HMAC and randomness: a secret and its digest are one value, a generated secret is one that was never generated before, and the preview signature is an arbitrary function of the payload.
- Discord beyond one role: members who leave, roles edited by hand, targeted invites and their clean-up (revoking a request does not delete the invite). Role removal succeeds or fails as a whole.
- ReleaseService.AccessService.GrantExistingMemberAccess: stands for the join handler too, which runs the same guarded steps; cancellation in the middle of an attempt is not modelled.
- ReleaseService.AccessService.ReconcileExistingMembers: a pass is proved with clock advances but no other step in between, on answers of Discord and the database given in advance; arbitrary interleaving is covered by the lemmas of module Release.
- EvidenceService.EvidenceStore.ExecuteCleanupJob: the runner is modelled around the clean-up job only; the two expiry jobs are single loops without half-done effects outside the database.
- HandoffService.MobileCaptureService.UploadMobileEvidence: the hand-off half of the route; the evidence half is EvidenceService.EvidenceStore.UploadMobileEvidence (which also stands for the desktop upload, without a hand-off). The source commits both together.
- Retention scheduling (`app/services/retention/service.py`): no code path sets the due date it looks for.
- Field-by-field submission rules, file type checks and the parsing of evidence requirements: their outcomes are parameters.
- AdminService.AdminStore.CreateAdminSession: the check of the authentication time is not modelled; the only caller passes the current time. The configuration checks are its precondition.
- AdminService.AdminStore.RotateAdminSession: the CSRF digest that rotates with the token and the time of rotation are no columns of the model.
- AdminService.AdminStore.GetValidAdminSession: the transport rules for the cookie and CSRF validation are not modelled.
- Addresses.NormalizeIsIdempotent: letters and spaces beyond ASCII are left as they are, where the source folds and strips them.
- PreviewToken.MintedTokenVerifiesExactly: times are whole seconds; parsing of UUIDs and integers accepts dashes anywhere and plain digits, without the braces, prefixes, signs and underscores that the source's parsers also accept, none of which a minted token contains.
- RateLimit.RateLimiter.CheckRateLimit: one clock for all requests, and a key that is gone from its expiry instant on.
- Routing, cookies, response headers, the frontend, migrations, e-mail delivery, OAuth and Cloudflare clients, the role permission table and configuration checks.
