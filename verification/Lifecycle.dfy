/**
  One verification request together with the rows that hang off it: its access grant and its
  verification result (both have a unique foreign key to the request) and its audit events.

  Every service call that touches a single request is a function from the case before the call to the
  case after it, or to the error it raises.  `history` is not a column: it records what happened to the
  grant row, so that laws about whole lifetimes can be stated.
*/
module Lifecycle {
  import opened Common

  type Time = int
  type DiscordId = nat
  type AdminId = nat

  datatype Status = Pending | Queued | InReview | MoreInfo | Approved | Rejected | Expired | Revoked

  /** The transition table of the state machine. */
  function AllowedTransitions(status: Status): set<Status> {
    match status
    case Pending => {Queued, Expired, Revoked}
    case Queued => {InReview, Expired, Revoked}
    case InReview => {Approved, Rejected, MoreInfo, Revoked}
    case MoreInfo => {Queued, InReview, Rejected, Expired, Revoked}
    case Approved => {Revoked}
    case Rejected => {MoreInfo}
    case Expired => {}
    case Revoked => {}
  }

  predicate CanTransition(current: Status, next: Status) {
    next in AllowedTransitions(current)
  }

  datatype GrantStatus = NotIssued | Issued | Consumed | GrantExpired | GrantRevoked

  datatype Grant = Grant(
    discordId: DiscordId,
    status: GrantStatus,
    issuedAt: Time,
    expiresAt: Time,
    consumedAt: Option<Time>,
    revokedAt: Option<Time>)

  datatype Verdict = Verdict(
    discordId: DiscordId,
    verified: bool,
    reviewer: Option<AdminId>,
    verifiedAt: Time,
    revokedAt: Option<Time>)

  /** The audit actions that carry this request's id. */
  datatype Action =
    | RequestCreated
    | SubmissionCreated
    | SubmissionResubmitted
    | CaseClaimed(claimant: AdminId)
    | CaseAssigned(assignee: AdminId)
    | VerificationApproved
    | VerificationRejected
    | MoreInfoRequested
    | RequestExpired
    | RequestRevoked
    | ExpirationExtended
    | AccessGranted
    | AccessConsumed
    | AccessRevoked

  /** What happened to the grant row; `live` says that the row was ISSUED when it was revoked. */
  datatype GrantEvent = WasIssued | WasConsumed | HasExpired | WasRevoked(live: bool)

  datatype Case = Case(
    discordId: DiscordId,
    status: Status,
    expiresAt: Time,
    submissions: nat,
    maxSubmissions: nat,
    reviewer: Option<AdminId>,
    grant: Option<Grant>,
    verdict: Option<Verdict>,
    audit: seq<Action>,
    history: seq<GrantEvent>)

  predicate Live(c: Case) {
    c.grant.Some? && c.grant.value.status == Issued
  }

  datatype Error =
    | NotFound
    | NotClaimable
    | AlreadyAssigned
    | NotInReview
    | OtherReviewer
    | UnsupportedDecision
    | InvalidTransition
    | NotSubmittable
    | SubmissionLimitReached
    | EvidenceRefused
    | ExpiredCannotBeRevoked
    | ExpiryNotInFuture
    | RevokedCannotBeExtended
    | ReviewerUnavailable
    | NotApproved
    | GrantExists
    | NoGrant
    | DiscordFailed

  function Create(discordId: DiscordId, expiresAt: Time, maxSubmissions: nat, now: Time): Result<Case, Error> {
    if expiresAt <= now then Err(ExpiryNotInFuture)
    else Ok(Case(discordId, Pending, expiresAt, 0, maxSubmissions, None, None, None, [RequestCreated], []))
  }

  function Claim(c: Case, admin: AdminId): Result<Case, Error> {
    if c.status != Queued then Err(NotClaimable)
    else if c.reviewer.Some? then Err(AlreadyAssigned)
    else if !CanTransition(c.status, InReview) then Err(InvalidTransition)
    else Ok(c.(status := InReview, reviewer := Some(admin), audit := c.audit + [CaseClaimed(admin)]))
  }

  function DecisionAction(target: Status): Action {
    if target == Approved then VerificationApproved
    else if target == Rejected then VerificationRejected
    else MoreInfoRequested
  }

  /** Insert the result row of a newly approved request, or turn the existing one back to verified. */
  function UpsertApproved(c: Case, now: Time): Verdict {
    match c.verdict
    case None => Verdict(c.discordId, true, c.reviewer, now, None)
    case Some(v) => v.(verified := true, reviewer := c.reviewer, verifiedAt := now, revokedAt := None)
  }

  function Decide(c: Case, admin: AdminId, target: Status, now: Time): Result<Case, Error> {
    if c.status != InReview then Err(NotInReview)
    else if c.reviewer != Some(admin) then Err(OtherReviewer)
    else if target !in {Approved, Rejected, MoreInfo} then Err(UnsupportedDecision)
    else if !CanTransition(c.status, target) then Err(InvalidTransition)
    else
      Ok(c.(
         status := target,
         verdict := if target == Approved then Some(UpsertApproved(c, now)) else c.verdict,
         audit := c.audit + [DecisionAction(target)]))
  }

  /** `evidenceAccepted` is the outcome of the field and evidence checks, which module Evidence models. */
  function Submit(c: Case, evidenceAccepted: bool): Result<Case, Error> {
    if c.status !in {Pending, MoreInfo} then Err(NotSubmittable)
    else if c.submissions >= c.maxSubmissions then Err(SubmissionLimitReached)
    else if !evidenceAccepted then Err(EvidenceRefused)
    else if !CanTransition(c.status, Queued) then Err(InvalidTransition)
    else
      Ok(c.(
         status := Queued,
         submissions := c.submissions + 1,
         audit := c.audit + [if c.status == Pending then SubmissionCreated else SubmissionResubmitted]))
  }

  /** The check made when an applicant touches the request; it raises for an overdue case in review. */
  function ExpireLazily(c: Case, now: Time): Result<Case, Error> {
    if c.status in {Approved, Rejected, Expired, Revoked} then Ok(c)
    else if c.expiresAt > now then Ok(c)
    else if !CanTransition(c.status, Expired) then Err(InvalidTransition)
    else Ok(c.(status := Expired, audit := c.audit + [RequestExpired]))
  }

  /** The row filter of the batch job. */
  predicate DueForExpiry(c: Case, now: Time) {
    c.status in {Pending, Queued, MoreInfo} && c.expiresAt <= now
  }

  function SweepRequest(c: Case, now: Time): Case {
    if DueForExpiry(c, now) then c.(status := Expired, audit := c.audit + [RequestExpired]) else c
  }

  function RevokeRequest(c: Case, now: Time): Result<Case, Error> {
    if c.status == Revoked then Ok(c)
    else if c.status == Expired then Err(ExpiredCannotBeRevoked)
    else if !CanTransition(c.status, Revoked) then Err(InvalidTransition)
    else
      Ok(c.(
         status := Revoked,
         grant := if c.grant.Some?
                  then Some(c.grant.value.(status := GrantRevoked, revokedAt := Some(now)))
                  else None,
         verdict := if c.verdict.Some?
                    then Some(c.verdict.value.(verified := false, revokedAt := Some(now)))
                    else None,
         audit := c.audit + [RequestRevoked],
         history := if c.grant.Some? then c.history + [WasRevoked(Live(c))] else c.history))
  }

  function Extend(c: Case, expiresAt: Time, now: Time): Result<Case, Error> {
    if expiresAt <= now then Err(ExpiryNotInFuture)
    else if c.status == Revoked then Err(RevokedCannotBeExtended)
    else
      Ok(c.(
         status := if c.status == Expired then Pending else c.status,
         expiresAt := expiresAt,
         audit := c.audit + [ExpirationExtended]))
  }

  function Assign(c: Case, reviewer: AdminId, available: bool): Result<Case, Error> {
    if !available then Err(ReviewerUnavailable)
    else Ok(c.(reviewer := Some(reviewer), audit := c.audit + [CaseAssigned(reviewer)]))
  }

  /** `invited` says whether Discord created the targeted invite; `maxAge` is the configured invite lifetime. */
  function IssueGrant(c: Case, invited: bool, now: Time, maxAge: nat): Result<Case, Error> {
    if c.status != Approved then Err(NotApproved)
    else if c.grant.Some? && c.grant.value.status in {Issued, Consumed} then Err(GrantExists)
    else if !invited then Err(DiscordFailed)
    else
      Ok(c.(
         grant := Some(Grant(c.discordId, Issued, now, now + maxAge, None, None)),
         audit := c.audit + [AccessGranted],
         history := c.history + [WasIssued]))
  }

  /** `inviteDeleted` says whether Discord deleted the invite of a grant that is still live. */
  function RevokeGrant(c: Case, inviteDeleted: bool, now: Time): Result<Case, Error> {
    if c.grant.None? then Err(NoGrant)
    else if c.grant.value.status == GrantRevoked then Ok(c)
    else if Live(c) && !inviteDeleted then Err(DiscordFailed)
    else
      Ok(c.(
         grant := Some(c.grant.value.(status := GrantRevoked, revokedAt := Some(now))),
         audit := c.audit + [AccessRevoked],
         history := c.history + [WasRevoked(Live(c))]))
  }

  /** Shared by the lazy check, the batch job and both worker queries. */
  function SweepGrant(c: Case, now: Time): Case {
    if Live(c) && c.grant.value.expiresAt <= now
    then c.(grant := Some(c.grant.value.(status := GrantExpired)), history := c.history + [HasExpired])
    else c
  }

  /** Consume the grant of one Discord user; the flag says whether a grant was returned. */
  function ConsumeGrant(c: Case, user: DiscordId, now: Time): (Case, bool) {
    if !Live(c) || c.grant.value.discordId != user then (c, false)
    else if c.grant.value.expiresAt <= now then (SweepGrant(c, now), false)
    else if c.status != Approved || c.discordId != user then (c, false)
    else
      (c.(
       grant := Some(c.grant.value.(status := Consumed, consumedAt := Some(now))),
       audit := c.audit + [AccessConsumed],
       history := c.history + [WasConsumed]), true)
  }

  /** A committed service call on one case. */
  datatype CaseOp =
    | DoClaim(admin: AdminId)
    | DoDecide(decider: AdminId, target: Status)
    | DoSubmit(evidenceAccepted: bool)
    | DoExpireLazily
    | DoSweepRequest
    | DoRevokeRequest
    | DoExtend(until: Time)
    | DoAssign(reviewer: AdminId, available: bool)
    | DoIssue(invited: bool)
    | DoRevokeGrant(inviteDeleted: bool)
    | DoSweepGrant
    | DoConsume(user: DiscordId)

  function Call(c: Case, now: Time, maxAge: nat, op: CaseOp): Result<Case, Error> {
    match op
    case DoClaim(admin) => Claim(c, admin)
    case DoDecide(admin, target) => Decide(c, admin, target, now)
    case DoSubmit(accepted) => Submit(c, accepted)
    case DoExpireLazily => ExpireLazily(c, now)
    case DoSweepRequest => Ok(SweepRequest(c, now))
    case DoRevokeRequest => RevokeRequest(c, now)
    case DoExtend(until) => Extend(c, until, now)
    case DoAssign(reviewer, available) => Assign(c, reviewer, available)
    case DoIssue(invited) => IssueGrant(c, invited, now, maxAge)
    case DoRevokeGrant(inviteDeleted) => RevokeGrant(c, inviteDeleted, now)
    case DoSweepGrant => Ok(SweepGrant(c, now))
    case DoConsume(user) => Ok(ConsumeGrant(c, user, now).0)
  }

  /** The case after the call; a call that raises changes nothing. */
  function Next(c: Case, now: Time, maxAge: nat, op: CaseOp): Case {
    match Call(c, now, maxAge, op)
    case Ok(after) => after
    case Err(_) => c
  }
}
