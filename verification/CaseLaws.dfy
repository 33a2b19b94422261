/**
  Laws of a single case that every service call keeps, whatever the order of the calls:
  what a live grant and a verified result imply, what the audit trail determines, how grant
  events balance, and how often the status can change.
*/
module CaseLaws {
  import opened Common
  import opened Lifecycle

  // ---------------------------------------------------------------------------------------------
  // Consistency of the request row with its grant and result rows
  // ---------------------------------------------------------------------------------------------

  predicate Consistent(c: Case, now: Time, maxAge: nat) {
    && c.submissions <= c.maxSubmissions
    && (c.status == Approved <==> c.verdict.Some? && c.verdict.value.verified)
    && (c.status == Expired ==> c.expiresAt <= now)
    && (c.verdict.Some? ==>
          c.verdict.value.discordId == c.discordId && (c.verdict.value.verified <==> c.verdict.value.revokedAt.None?))
    && (c.grant.Some? ==>
          var g := c.grant.value;
          && g.discordId == c.discordId
          && g.issuedAt <= now
          && g.expiresAt == g.issuedAt + maxAge
          && (g.status in {Issued, Consumed} ==> c.status == Approved)
          && (g.status == Consumed ==> g.consumedAt.Some?)
          && (g.consumedAt.Some? ==> g.issuedAt <= g.consumedAt.value < g.expiresAt)
          && (g.status in {Issued, GrantExpired} ==> g.consumedAt.None?)
          && (g.revokedAt.Some? <==> g.status == GrantRevoked))
  }

  lemma CallKeepsConsistent(c: Case, now: Time, maxAge: nat, op: CaseOp)
    requires Consistent(c, now, maxAge)
    ensures Consistent(Next(c, now, maxAge, op), now, maxAge)
  {
  }

  /** Every status change is in the transition table, except the one an extension makes. */
  lemma StatusChangesFollowTable(c: Case, now: Time, maxAge: nat, op: CaseOp)
    ensures var after := Next(c, now, maxAge, op);
            after.status != c.status ==>
              if op.DoExtend? then c.status == Expired && after.status == Pending
              else CanTransition(c.status, after.status)
  {
  }

  /** The lazy check and the batch job do the same to a request, except that the lazy one raises for an overdue case in review. */
  lemma LazyExpiryIsBatchExpiry(c: Case, now: Time)
    ensures ExpireLazily(c, now).Ok? <==> !(c.status == InReview && c.expiresAt <= now)
    ensures ExpireLazily(c, now).Ok? ==> ExpireLazily(c, now).value == SweepRequest(c, now)
  {
  }

  /** An extended request is open for business until its new expiry. */
  lemma ExtensionHolds(c: Case, until: Time, now: Time, t: Time)
    requires Extend(c, until, now).Ok? && t < until
    ensures var after := Extend(c, until, now).value;
            after.status != Expired && SweepRequest(after, t) == after && ExpireLazily(after, t) == Ok(after)
  {
  }

  lemma ExtensionRevives(c: Case, now: Time, maxAge: nat)
    requires c.status == Expired
    ensures var after := Next(c, now, maxAge, DoExtend(now + 1));
            after.status == Pending && after.reviewer == c.reviewer
            && after.submissions == c.submissions && after.maxSubmissions == c.maxSubmissions
  {
  }

  // ---------------------------------------------------------------------------------------------
  // The audit trail determines the request row
  // ---------------------------------------------------------------------------------------------

  datatype Replayed = Replayed(status: Status, reviewer: Option<AdminId>, submissions: nat)

  function ReplayOne(r: Replayed, a: Action): Replayed {
    match a
    case RequestCreated => Replayed(Pending, None, 0)
    case SubmissionCreated => r.(status := Queued, submissions := r.submissions + 1)
    case SubmissionResubmitted => r.(status := Queued, submissions := r.submissions + 1)
    case CaseClaimed(admin) => r.(status := InReview, reviewer := Some(admin))
    case CaseAssigned(admin) => r.(reviewer := Some(admin))
    case VerificationApproved => r.(status := Approved)
    case VerificationRejected => r.(status := Rejected)
    case MoreInfoRequested => r.(status := MoreInfo)
    case RequestExpired => r.(status := Expired)
    case RequestRevoked => r.(status := Revoked)
    case ExpirationExtended => if r.status == Expired then r.(status := Pending) else r
    case AccessGranted => r
    case AccessConsumed => r
    case AccessRevoked => r
  }

  function Replay(audit: seq<Action>): Replayed {
    if audit == [] then Replayed(Pending, None, 0)
    else ReplayOne(Replay(audit[..|audit| - 1]), audit[|audit| - 1])
  }

  predicate Audited(c: Case) {
    Replay(c.audit) == Replayed(c.status, c.reviewer, c.submissions)
  }

  /** A call appends at most one action. */
  lemma CallAppendsOneAction(c: Case, now: Time, maxAge: nat, op: CaseOp)
    ensures var after := Next(c, now, maxAge, op);
            after.audit == c.audit || (after.audit != [] && after.audit == c.audit + [after.audit[|after.audit| - 1]])
  {
  }

  lemma ReplayAppends(audit: seq<Action>, a: Action)
    ensures Replay(audit + [a]) == ReplayOne(Replay(audit), a)
  {
  }

  /** The appended action turns the former row, as far as it can be replayed, into the present one. */
  lemma ActionKeepsAudited(c: Case, after: Case, a: Action)
    requires Audited(c) && after.audit == c.audit + [a]
    requires Replayed(after.status, after.reviewer, after.submissions)
          == ReplayOne(Replayed(c.status, c.reviewer, c.submissions), a)
    ensures Audited(after)
  {
    ReplayAppends(c.audit, a);
  }

  predicate StaysAudited(outcome: Result<Case, Error>) {
    outcome.Ok? ==> Audited(outcome.value)
  }

  lemma ClaimKeepsAudited(c: Case, admin: AdminId)
    requires Audited(c)
    ensures StaysAudited(Claim(c, admin))
  {
    if Claim(c, admin).Ok? {
      ActionKeepsAudited(c, Claim(c, admin).value, CaseClaimed(admin));
    }
  }

  lemma DecideKeepsAudited(c: Case, admin: AdminId, target: Status, now: Time)
    requires Audited(c)
    ensures StaysAudited(Decide(c, admin, target, now))
  {
    if Decide(c, admin, target, now).Ok? {
      ActionKeepsAudited(c, Decide(c, admin, target, now).value, DecisionAction(target));
    }
  }

  lemma SubmitKeepsAudited(c: Case, accepted: bool)
    requires Audited(c)
    ensures StaysAudited(Submit(c, accepted))
  {
    if Submit(c, accepted).Ok? {
      ActionKeepsAudited(c, Submit(c, accepted).value, if c.status == Pending then SubmissionCreated else SubmissionResubmitted);
    }
  }

  lemma SweepKeepsAudited(c: Case, now: Time)
    requires Audited(c)
    ensures Audited(SweepRequest(c, now))
  {
    if DueForExpiry(c, now) {
      ActionKeepsAudited(c, SweepRequest(c, now), RequestExpired);
    }
  }

  lemma RevokeKeepsAudited(c: Case, now: Time)
    requires Audited(c)
    ensures StaysAudited(RevokeRequest(c, now))
  {
    if RevokeRequest(c, now).Ok? && RevokeRequest(c, now).value != c {
      ActionKeepsAudited(c, RevokeRequest(c, now).value, RequestRevoked);
    }
  }

  lemma ExtendKeepsAudited(c: Case, until: Time, now: Time)
    requires Audited(c)
    ensures StaysAudited(Extend(c, until, now))
  {
    if Extend(c, until, now).Ok? {
      ActionKeepsAudited(c, Extend(c, until, now).value, ExpirationExtended);
    }
  }

  lemma AssignKeepsAudited(c: Case, reviewer: AdminId, available: bool)
    requires Audited(c)
    ensures StaysAudited(Assign(c, reviewer, available))
  {
    if available {
      ActionKeepsAudited(c, Assign(c, reviewer, available).value, CaseAssigned(reviewer));
    }
  }

  lemma GrantCallsKeepAudited(c: Case, user: DiscordId, done: bool, now: Time, maxAge: nat)
    requires Audited(c)
    ensures StaysAudited(IssueGrant(c, done, now, maxAge)) && StaysAudited(RevokeGrant(c, done, now))
    ensures Audited(SweepGrant(c, now)) && Audited(ConsumeGrant(c, user, now).0)
  {
    ReplayAppends(c.audit, AccessGranted);
    ReplayAppends(c.audit, AccessRevoked);
    ReplayAppends(c.audit, AccessConsumed);
  }

  lemma CallKeepsAudited(c: Case, now: Time, maxAge: nat, op: CaseOp)
    requires Audited(c)
    ensures Audited(Next(c, now, maxAge, op))
  {
    match op
    case DoClaim(admin) => ClaimKeepsAudited(c, admin);
    case DoDecide(admin, target) => DecideKeepsAudited(c, admin, target, now);
    case DoSubmit(accepted) => SubmitKeepsAudited(c, accepted);
    case DoExpireLazily =>
      LazyExpiryIsBatchExpiry(c, now);
      SweepKeepsAudited(c, now);
    case DoSweepRequest => SweepKeepsAudited(c, now);
    case DoRevokeRequest => RevokeKeepsAudited(c, now);
    case DoExtend(until) => ExtendKeepsAudited(c, until, now);
    case DoAssign(reviewer, available) => AssignKeepsAudited(c, reviewer, available);
    case DoIssue(invited) => GrantCallsKeepAudited(c, 0, invited, now, maxAge);
    case DoRevokeGrant(inviteDeleted) => GrantCallsKeepAudited(c, 0, inviteDeleted, now, maxAge);
    case DoSweepGrant => GrantCallsKeepAudited(c, 0, true, now, maxAge);
    case DoConsume(user) => GrantCallsKeepAudited(c, user, true, now, maxAge);
  }

  // ---------------------------------------------------------------------------------------------
  // Grant events balance
  // ---------------------------------------------------------------------------------------------

  /** The status column after these events; None while the row does not exist. */
  function StatusAfter(history: seq<GrantEvent>): Option<GrantStatus> {
    if history == [] then None
    else
      match history[|history| - 1]
      case WasIssued => Some(Issued)
      case WasConsumed => Some(Consumed)
      case HasExpired => Some(GrantExpired)
      case WasRevoked(_) => Some(GrantRevoked)
  }

  predicate MayFollow(before: Option<GrantStatus>, e: GrantEvent) {
    match e
    case WasIssued => before !in {Some(Issued), Some(Consumed)}
    case WasConsumed => before == Some(Issued)
    case HasExpired => before == Some(Issued)
    case WasRevoked(live) => before.Some? && live == (before == Some(Issued))
  }

  predicate Lawful(history: seq<GrantEvent>) {
    forall i :: 0 <= i < |history| ==> MayFollow(StatusAfter(history[..i]), history[i])
  }

  predicate Accounted(c: Case) {
    && Lawful(c.history)
    && StatusAfter(c.history) == if c.grant.Some? then Some(c.grant.value.status) else None
  }

  lemma LawfulExtends(history: seq<GrantEvent>, e: GrantEvent)
    requires Lawful(history) && MayFollow(StatusAfter(history), e)
    ensures Lawful(history + [e])
  {
    var longer := history + [e];
    forall i | 0 <= i < |longer| ensures MayFollow(StatusAfter(longer[..i]), longer[i]) {
      assert longer[..i] == history[..i];
      assert i == |history| ==> history[..i] == history;
    }
  }

  lemma CallKeepsAccounted(c: Case, now: Time, maxAge: nat, op: CaseOp)
    requires Accounted(c)
    ensures Accounted(Next(c, now, maxAge, op))
  {
    var after := Next(c, now, maxAge, op);
    assert after.history == c.history
           || (after.history != [] && after.history == c.history + [after.history[|after.history| - 1]]);
    if after.history != c.history {
      LawfulExtends(c.history, after.history[|after.history| - 1]);
    }
  }

  function One(b: bool): nat {
    if b then 1 else 0
  }

  function Count(history: seq<GrantEvent>, e: GrantEvent): nat {
    if history == [] then 0
    else Count(history[..|history| - 1], e) + One(history[|history| - 1] == e)
  }

  lemma LawfulPrefix(history: seq<GrantEvent>)
    requires history != [] && Lawful(history)
    ensures Lawful(history[..|history| - 1])
    ensures MayFollow(StatusAfter(history[..|history| - 1]), history[|history| - 1])
  {
  }

  /** Every issue is matched by a consumption, an expiry or a revocation, or the grant is still live. */
  lemma {:induction false} GrantEventsBalance(history: seq<GrantEvent>)
    requires Lawful(history)
    ensures Count(history, WasIssued)
         == Count(history, WasConsumed) + Count(history, HasExpired) + Count(history, WasRevoked(true))
            + One(StatusAfter(history) == Some(Issued))
  {
    if history != [] {
      LawfulPrefix(history);
      GrantEventsBalance(history[..|history| - 1]);
    }
  }

  /** Whoever consumes a grant consumes the issue right before it, so no issue is consumed twice. */
  lemma ConsumptionFollowsIssue(history: seq<GrantEvent>, j: nat)
    requires Lawful(history) && j < |history| && history[j] == WasConsumed
    ensures j > 0 && history[j - 1] == WasIssued
  {
  }

  // ---------------------------------------------------------------------------------------------
  // How often the status can change
  // ---------------------------------------------------------------------------------------------

  /** Status changes recorded by the audit trail. */
  function Changes(audit: seq<Action>): nat {
    if audit == [] then 0
    else
      var before := audit[..|audit| - 1];
      Changes(before) + One(|audit| > 1 && Replay(audit).status != Replay(before).status)
  }

  /** Extensions that brought an expired request back to pending. */
  function Revivals(audit: seq<Action>): nat {
    if audit == [] then 0
    else
      var before := audit[..|audit| - 1];
      Revivals(before) + One(audit[|audit| - 1].ExpirationExtended? && Replay(before).status == Expired)
  }

  function Claims(audit: seq<Action>): nat {
    if audit == [] then 0
    else Claims(audit[..|audit| - 1]) + One(audit[|audit| - 1].CaseClaimed?)
  }

  function Decisions(audit: seq<Action>): nat {
    if audit == [] then 0
    else
      Decisions(audit[..|audit| - 1])
      + One(audit[|audit| - 1] in {VerificationApproved, VerificationRejected, MoreInfoRequested})
  }

  /** The exact balance of status changes: a case keeps its assigned reviewer for good, so a case is claimed at most once. */
  predicate Budgeted(c: Case) {
    && c.audit != []
    && Changes(c.audit) == c.submissions + Claims(c.audit) + Decisions(c.audit) + 2 * Revivals(c.audit)
                           + One(c.status in {Expired, Revoked})
    && Decisions(c.audit) + One(c.status == InReview) <= Claims(c.audit) <= 1
    && (Claims(c.audit) == 1 ==> c.reviewer.Some? && c.submissions >= 1)
    && (c.status in {Approved, Rejected, MoreInfo} ==> Decisions(c.audit) == 1)
    && (c.status == Queued ==> c.submissions >= 1)
  }

  lemma CallKeepsBudgeted(c: Case, now: Time, maxAge: nat, op: CaseOp)
    requires Audited(c) && Budgeted(c)
    ensures Budgeted(Next(c, now, maxAge, op))
  {
    var after := Next(c, now, maxAge, op);
    CallAppendsOneAction(c, now, maxAge, op);
    CallKeepsAudited(c, now, maxAge, op);
    if after.audit != c.audit {
      assert after.audit[..|after.audit| - 1] == c.audit;
    }
  }

  /** The counter read off the audit trail moves exactly when the status column moves. */
  lemma ChangesCountsStatusChanges(c: Case, now: Time, maxAge: nat, op: CaseOp)
    requires Audited(c) && c.audit != []
    ensures var after := Next(c, now, maxAge, op);
            Changes(after.audit) == Changes(c.audit) + One(after.status != c.status)
  {
    var after := Next(c, now, maxAge, op);
    CallAppendsOneAction(c, now, maxAge, op);
    CallKeepsAudited(c, now, maxAge, op);
    if after.audit != c.audit {
      assert after.audit[..|after.audit| - 1] == c.audit;
    }
  }

  /** Each submission and each revival buys a bounded number of status changes. */
  lemma StatusChangesAreBounded(c: Case, now: Time, maxAge: nat)
    requires Consistent(c, now, maxAge) && Budgeted(c)
    ensures Changes(c.audit) <= c.submissions + 2 * Revivals(c.audit) + 1 + 2 * One(c.submissions > 0)
    ensures Changes(c.audit) <= 3 * c.submissions + 2 * Revivals(c.audit) + 1
    ensures Changes(c.audit) <= c.maxSubmissions + 2 * Revivals(c.audit) + 3
  {
  }

  // ---------------------------------------------------------------------------------------------
  // States that can never be left
  // ---------------------------------------------------------------------------------------------

  /** Revoked for good: no verified result, no live grant and no consumed grant. */
  predicate Closed(c: Case) {
    && c.status == Revoked
    && (c.verdict.Some? ==> !c.verdict.value.verified)
    && (c.grant.Some? ==> c.grant.value.status !in {Issued, Consumed})
  }

  lemma CallKeepsClosed(c: Case, now: Time, maxAge: nat, op: CaseOp)
    requires Closed(c)
    ensures Closed(Next(c, now, maxAge, op))
  {
  }

  /** Outside review with a reviewer on file: claiming is refused, so nothing can ever decide the case. */
  predicate OutOfReach(c: Case) {
    c.reviewer.Some? && c.status !in {InReview, Approved, Rejected}
  }

  lemma CallKeepsOutOfReach(c: Case, now: Time, maxAge: nat, op: CaseOp)
    requires OutOfReach(c)
    ensures OutOfReach(Next(c, now, maxAge, op))
  {
  }

  /** Some further calls can lead to an approval (or have). */
  predicate Approvable(c: Case) {
    || c.status in {Approved, InReview}
    || (c.reviewer.None? && c.status == Queued)
    || (c.reviewer.None? && c.status in {Pending, Expired} && c.submissions < c.maxSubmissions)
  }

  lemma CallKeepsUnapprovable(c: Case, now: Time, maxAge: nat, op: CaseOp)
    requires Budgeted(c) && !Approvable(c)
    ensures !Approvable(Next(c, now, maxAge, op))
  {
  }

  /** A case in review has a reviewer who can approve it. */
  lemma ReviewCanApprove(c: Case, now: Time)
    requires Budgeted(c) && c.status == InReview
    ensures c.reviewer.Some? && Decide(c, c.reviewer.value, Approved, now).Ok?
    ensures Decide(c, c.reviewer.value, Approved, now).value.status == Approved
  {
  }
}
