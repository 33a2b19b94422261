/**
  What each call on a request achieves: exactly when it succeeds, and what holds and what can happen afterwards.
  The laws of module CaseLaws say what no call breaks; these say what a successful call is good for.
*/
module CaseEffects {
  import opened Common
  import opened Lifecycle
  import opened CaseLaws
  import opened Release

  // ---------------------------------------------------------------------------------------------
  // What a call leaves alone
  // ---------------------------------------------------------------------------------------------

  /** Every column of a request is written by the calls that are there for it, and by no other. */
  lemma CallsKeepTheRest(c: Case, now: Time, maxAge: nat, op: CaseOp)
    ensures var after := Next(c, now, maxAge, op);
            && after.discordId == c.discordId && after.maxSubmissions == c.maxSubmissions
            && (after.expiresAt != c.expiresAt ==> op.DoExtend?)
            && (after.submissions != c.submissions ==> op.DoSubmit?)
            && (after.reviewer != c.reviewer ==> op.DoClaim? || op.DoAssign?)
            && (after.verdict != c.verdict ==> op == DoRevokeRequest || (op.DoDecide? && op.target == Approved))
            && (after.grant != c.grant ==>
                  op.DoIssue? || op.DoRevokeGrant? || op.DoRevokeRequest? || op.DoSweepGrant? || op.DoConsume?)
            && (op.DoAssign? || op.DoIssue? || op.DoRevokeGrant? || op.DoSweepGrant? || op.DoConsume? ==> after.status == c.status)
  {
  }

  /** What the audit trail says about a call that wrote something. */
  function Record(c: Case, op: CaseOp): Action
    requires !op.DoSweepGrant?
    requires op.DoDecide? ==> op.target in {Approved, Rejected, MoreInfo}
  {
    match op
    case DoClaim(admin) => CaseClaimed(admin)
    case DoDecide(_, target) =>
      (match target case Approved => VerificationApproved case Rejected => VerificationRejected case _ => MoreInfoRequested)
    case DoSubmit(_) => if c.status == MoreInfo then SubmissionResubmitted else SubmissionCreated
    case DoExpireLazily => RequestExpired
    case DoSweepRequest => RequestExpired
    case DoRevokeRequest => RequestRevoked
    case DoExtend(_) => ExpirationExtended
    case DoAssign(reviewer, _) => CaseAssigned(reviewer)
    case DoIssue(_) => AccessGranted
    case DoRevokeGrant(_) => AccessRevoked
    case DoConsume(_) => AccessConsumed
  }

  /** Whatever a call writes, it leaves exactly one audit row, of its own kind; only a grant expires without one. */
  lemma EveryCallIsRecorded(c: Case, now: Time, maxAge: nat, op: CaseOp)
    ensures var after := Next(c, now, maxAge, op);
            if after == c || after == SweepGrant(c, now) then after.audit == c.audit
            else
              && !op.DoSweepGrant? && (op.DoDecide? ==> op.target in {Approved, Rejected, MoreInfo})
              && after.audit == c.audit + [Record(c, op)]
  {
  }

  // ---------------------------------------------------------------------------------------------
  // Creating, extending, expiring
  // ---------------------------------------------------------------------------------------------

  /**
    A request is created if and only if its expiry is in the future: for the given user, open until then, with the given
    number of submissions to make, unassigned and without grant or result.  No other request changes.
  */
  lemma CreatedAsAsked(w: World, r: RequestId, discordId: DiscordId, expiresAt: Time, maxSubmissions: nat, t: Time)
    requires r !in w.cases
    ensures var after := Step(w, CreateRequest(r, discordId, expiresAt, maxSubmissions));
            && (r in after.cases <==> w.now < expiresAt)
            && (forall q :: q in w.cases ==> q in after.cases && after.cases[q] == w.cases[q])
            && (r in after.cases ==>
                  var c := after.cases[r];
                  && c.discordId == discordId && c.maxSubmissions == maxSubmissions && c.submissions == 0
                  && c.status == Pending && c.reviewer.None? && c.grant.None? && c.verdict.None?
                  && (SweepRequest(c, t).status == Expired <==> expiresAt <= t))
  {
  }

  /** An open request expires exactly from its expiry on; an assigned or decided one never does. */
  lemma ExpiresFromExpiryOn(c: Case, t: Time)
    ensures SweepRequest(c, t).status == Expired <==>
            c.status == Expired || (c.status in {Pending, Queued, MoreInfo} && c.expiresAt <= t)
    ensures SweepRequest(c, t).status != Expired ==> SweepRequest(c, t) == c
  {
  }

  /** Extending succeeds for any future expiry unless the request is revoked, and moves the moment of expiry there. */
  lemma ExtendedUntil(c: Case, until: Time, now: Time, maxAge: nat, t: Time)
    ensures var extended := Call(c, now, maxAge, DoExtend(until));
            && (extended.Ok? <==> now < until && c.status != Revoked)
            && (extended.Ok? && c.status in {Pending, Queued, MoreInfo, Expired} ==>
                  (SweepRequest(extended.value, t).status == Expired <==> until <= t))
            && (extended.Ok? && c.status == Expired ==> extended.value.status == Pending)
            && (extended.Ok? && c.status != Expired ==> extended.value.status == c.status)
  {
  }

  /** After the job over requests, none that could expire is overdue; after the job over grants, no live grant is. */
  lemma JobsLeaveNothingOverdue(w: World, r: RequestId)
    requires r in w.cases
    ensures var after := Step(w, ExpireDueRequests);
            && r in after.cases
            && !(after.cases[r].status in {Pending, Queued, MoreInfo} && after.cases[r].expiresAt <= w.now)
            && (w.cases[r].expiresAt > w.now ==> after.cases[r] == w.cases[r])
    ensures var after := Step(w, ExpireDueGrants);
            && r in after.cases
            && (Live(after.cases[r]) <==> Live(w.cases[r]) && w.cases[r].grant.value.expiresAt > w.now)
            && (Live(after.cases[r]) ==> after.cases[r] == w.cases[r])
  {
  }

  // ---------------------------------------------------------------------------------------------
  // Submitting, claiming, assigning, deciding
  // ---------------------------------------------------------------------------------------------

  /** A submission counts once, and puts the case in the queue. */
  lemma SubmittedToQueue(c: Case, accepted: bool, now: Time, maxAge: nat)
    ensures var submitted := Call(c, now, maxAge, DoSubmit(accepted));
            && (submitted.Ok? <==> c.status in {Pending, MoreInfo} && c.submissions < c.maxSubmissions && accepted)
            && (submitted.Ok? ==> submitted.value.status == Queued && submitted.value.submissions == c.submissions + 1)
  {
  }

  /** Who may decide, and what then. */
  lemma DecidedByTheReviewer(c: Case, admin: AdminId, target: Status, now: Time)
    ensures Decide(c, admin, target, now).Ok? <==>
            c.status == InReview && c.reviewer == Some(admin) && target in {Approved, Rejected, MoreInfo}
    ensures Decide(c, admin, target, now).Ok? ==>
            var after := Decide(c, admin, target, now).value;
            && after.status == target
            && (target == Approved ==>
                  && after.verdict.Some? && after.verdict.value.verified && after.verdict.value.reviewer == Some(admin)
                  && after.verdict.value.verifiedAt == now
                  && (c.verdict.None? ==> after.verdict.value.discordId == c.discordId))
  {
  }

  /** Claiming makes the claimant, and nobody else, the one who can decide. */
  lemma ClaimantDecides(c: Case, admin: AdminId, other: AdminId, target: Status, now: Time)
    ensures Claim(c, admin).Ok? <==> c.status == Queued && c.reviewer.None?
    ensures Claim(c, admin).Ok? ==>
              (Decide(Claim(c, admin).value, other, target, now).Ok? <==>
               other == admin && target in {Approved, Rejected, MoreInfo})
  {
  }

  /** Assigning hands the case to the given administrator: in review, that one alone can decide from then on. */
  lemma AssigneeDecides(c: Case, reviewer: AdminId, available: bool, other: AdminId, target: Status, now: Time, maxAge: nat)
    ensures Call(c, now, maxAge, DoAssign(reviewer, available)).Ok? <==> available
    ensures available ==>
            var after := Call(c, now, maxAge, DoAssign(reviewer, available)).value;
            && after.reviewer == Some(reviewer) && after.status == c.status
            && (Decide(after, other, target, now).Ok? <==>
                c.status == InReview && other == reviewer && target in {Approved, Rejected, MoreInfo})
  {
  }

  /** In every safe world, a case leaves review with a decision only by the call of the administrator whom its audit trail names. */
  lemma OnlyTheReviewerDecides(w: World, op: Op, r: RequestId)
    requires Safe(w) && r in w.cases && w.cases[r].status == InReview
    requires Step(w, op).cases[r].status in {Approved, Rejected, MoreInfo}
    ensures op.OnCase? && op.request == r && op.call.DoDecide?
    ensures op.call.target == Step(w, op).cases[r].status
    ensures Replay(w.cases[r].audit).reviewer == Some(op.call.decider)
  {
    assert CaseSafe(w.cases[r], w.now, w.maxAge);
    DecisionsComeFromDecide(w, op, r);
    DecidedByTheReviewer(w.cases[r], op.call.decider, op.call.target, w.now);
  }

  lemma DecisionsComeFromDecide(w: World, op: Op, r: RequestId)
    requires r in w.cases && w.cases[r].status == InReview && Step(w, op).cases[r].status in {Approved, Rejected, MoreInfo}
    ensures op.OnCase? && op.request == r && op.call.DoDecide?
  {
  }

  /** And it came into review only by a claim, of the administrator whom the trail names from then on. */
  lemma OnlyAClaimOpensReview(w: World, op: Op, r: RequestId)
    requires Safe(w) && r in w.cases && w.cases[r].status != InReview && Step(w, op).cases[r].status == InReview
    ensures op.OnCase? && op.request == r && op.call.DoClaim?
    ensures Replay(Step(w, op).cases[r].audit).reviewer == Some(op.call.admin)
  {
    ReviewComesFromClaim(w, op, r);
    StepKeepsSafe(w, op);
    assert CaseSafe(Step(w, op).cases[r], Step(w, op).now, w.maxAge);
    ClaimantDecides(w.cases[r], op.call.admin, op.call.admin, Approved, w.now);
  }

  lemma ReviewComesFromClaim(w: World, op: Op, r: RequestId)
    requires r in w.cases && w.cases[r].status != InReview && Step(w, op).cases[r].status == InReview
    ensures op.OnCase? && op.request == r && op.call.DoClaim?
    ensures Step(w, op).cases[r].reviewer == Some(op.call.admin)
  {
  }

  // ---------------------------------------------------------------------------------------------
  // Revoking
  // ---------------------------------------------------------------------------------------------

  /** Revoking succeeds unless the request expired or was rejected, and closes request, grant and result at that moment. */
  lemma RevokedIsClosed(c: Case, now: Time)
    requires c.status == Revoked ==> Closed(c)
    ensures RevokeRequest(c, now).Ok? <==> c.status !in {Expired, Rejected}
    ensures RevokeRequest(c, now).Ok? ==>
              var after := RevokeRequest(c, now).value;
              && Closed(after)
              && (c.status == Revoked ==> after == c)
              && (c.status != Revoked ==>
                    && (after.grant.Some? <==> c.grant.Some?) && (after.verdict.Some? <==> c.verdict.Some?)
                    && (after.grant.Some? ==> after.grant.value.revokedAt == Some(now))
                    && (after.verdict.Some? ==> after.verdict.value.revokedAt == Some(now)))
  {
  }

  /** In every safe world: revoke, and from then on nobody can be released on this request. */
  lemma RevocationIsForGood(w: World, r: RequestId, ops: seq<Op>, user: DiscordId, t: Time)
    requires Safe(w) && r in w.cases && RevokeRequest(w.cases[r], w.now).Ok?
    ensures var later := Run(Step(w, OnCase(r, DoRevokeRequest)), ops);
            r in later.cases && Closed(later.cases[r]) && !Eligible(later.cases[r], user, t)
  {
    RevocationIsAStep(w, r);
    StepKeepsSafe(w, OnCase(r, DoRevokeRequest));
    RevokedForever(Step(w, OnCase(r, DoRevokeRequest)), ops, r);
  }

  lemma RevocationIsAStep(w: World, r: RequestId)
    requires r in w.cases && RevokeRequest(w.cases[r], w.now).Ok?
    ensures r in Step(w, OnCase(r, DoRevokeRequest)).cases
    ensures Step(w, OnCase(r, DoRevokeRequest)).cases[r].status == Revoked
  {
  }

  // ---------------------------------------------------------------------------------------------
  // Grants
  // ---------------------------------------------------------------------------------------------

  /** Issuing needs an approved request, no grant that is live or consumed, and an invite; the grant is good for its whole lifetime. */
  lemma IssuedGrantIsGood(c: Case, invited: bool, now: Time, maxAge: nat, user: DiscordId, t: Time)
    ensures var issued := Call(c, now, maxAge, DoIssue(invited));
            && (issued.Ok? <==>
                c.status == Approved && !(c.grant.Some? && c.grant.value.status in {Issued, Consumed}) && invited)
            && (issued.Ok? && now <= t ==> (Eligible(issued.value, user, t) <==> user == c.discordId && t < now + maxAge))
  {
  }

  /** A live grant expires exactly from its expiry on. */
  lemma GrantExpiresFromExpiryOn(c: Case, t: Time)
    ensures Live(SweepGrant(c, t)) <==> Live(c) && t < c.grant.value.expiresAt
    ensures Live(c) && !Live(SweepGrant(c, t)) ==>
              SweepGrant(c, t).grant == Some(c.grant.value.(status := GrantExpired))
    ensures !Live(c) ==> SweepGrant(c, t) == c
  {
  }

  /** Revoking a grant fails only for want of a grant, or of Discord's help with a live one; afterwards nobody can use it. */
  lemma RevokedGrantIsDead(c: Case, inviteDeleted: bool, now: Time, maxAge: nat, user: DiscordId, t: Time)
    ensures var revoked := Call(c, now, maxAge, DoRevokeGrant(inviteDeleted));
            && (revoked.Ok? <==> c.grant.Some? && (Live(c) ==> inviteDeleted))
            && (revoked.Ok? ==>
                  && revoked.value.grant.Some? && revoked.value.grant.value.status == GrantRevoked
                  && !Eligible(revoked.value, user, t)
                  && (c.grant.value.status != GrantRevoked ==> revoked.value.grant.value.revokedAt == Some(now)))
  {
  }

  /** The locked revalidation consumes exactly the grants that are good at that moment. */
  lemma ConsumedIffEligible(c: Case, user: DiscordId, now: Time)
    ensures ConsumeGrant(c, user, now).1 <==> Eligible(c, user, now)
    ensures ConsumeGrant(c, user, now).1 ==>
              var g := ConsumeGrant(c, user, now).0.grant;
              g.Some? && g.value.status == Consumed && g.value.consumedAt == Some(now) && g.value.expiresAt > now
    ensures !ConsumeGrant(c, user, now).1 ==>
              ConsumeGrant(c, user, now).0 == if LiveFor(c, user) then SweepGrant(c, now) else c
  {
  }

  /** So an attempt ends well if and only if its grant is good at the moment of consuming. */
  lemma EndsWellIffEligible(w: World, a: AttemptId)
    requires a in w.attempts && w.attempts[a].phase.RoleAssigned? && w.attempts[a].phase.grantOf in w.cases
    ensures EndedWell(ConsumeStep(w, a, NoFault), a) <==>
            Eligible(w.cases[w.attempts[a].phase.grantOf], w.attempts[a].user, w.now)
  {
    ConsumedIffEligible(w.cases[w.attempts[a].phase.grantOf], w.attempts[a].user, w.now);
  }

  // ---------------------------------------------------------------------------------------------
  // The worker
  // ---------------------------------------------------------------------------------------------

  /** An attempt starts if and only if the user's newest live grant is good, and starts with looking at that grant. */
  lemma StartsIffEligible(w: World, a: AttemptId, user: DiscordId, newest: RequestId)
    requires a !in w.attempts
    ensures var after := Step(w, Begin(a, user, newest));
            && (a in after.attempts <==> IsNewest(w.cases, user, newest) && Eligible(w.cases[newest], user, w.now))
            && (a in after.attempts ==> after.attempts[a] == Attempt(user, Found(newest)) && after.cases == w.cases)
            && after.roles == w.roles && after.leaks == w.leaks
  {
  }

  /**
    The role is asked for only where it is missing.  With the role there the attempt goes on to consume; a refusal by
    Discord ends it with nothing to undo; any other exception makes it take the role away.
  */
  lemma AddingTheRole(w: World, a: AttemptId, reply: AddReply)
    requires a in w.attempts && w.attempts[a].phase.Found?
    ensures var after := Step(w, AddRole(a, reply));
            var user := w.attempts[a].user;
            && a in after.attempts && after.attempts[a].user == user
            && after.attempts[a].phase ==
               (if user in w.roles || reply.Added? then RoleAssigned(w.attempts[a].phase.grantOf)
                else if reply.DiscordRefused? then Ended(false) else MustRemove)
            && after.roles == (if user in w.roles || reply.Added? || reply.applied then w.roles + {user} else w.roles)
            && after.cases == w.cases
  {
    assert w.attempts[a].user in w.roles ==> w.roles + {w.attempts[a].user} == w.roles;
  }

  /** Taking the role away ends the attempt, and takes it from its user only. */
  lemma TakingTheRoleAway(w: World, a: AttemptId, succeeds: bool)
    requires a in w.attempts && w.attempts[a].phase.MustRemove?
    ensures var after := Step(w, RemoveRole(a, succeeds));
            && a in after.attempts && after.attempts[a].phase == Ended(false)
            && after.roles == (if succeeds then w.roles - {w.attempts[a].user} else w.roles)
            && after.cases == w.cases
  {
  }

  /** In every reachable state a consumed grant was consumed during its lifetime. */
  lemma ConsumedInTime(now: Time, maxAge: nat, ops: seq<Op>, r: RequestId)
    requires r in Run(Start(now, maxAge), ops).cases
    ensures var c := Run(Start(now, maxAge), ops).cases[r];
            c.grant.Some? && c.grant.value.status == Consumed ==>
              && c.grant.value.consumedAt.Some?
              && c.grant.value.issuedAt <= c.grant.value.consumedAt.value < c.grant.value.issuedAt + maxAge
  {
    EveryRunIsConsistent(Start(now, maxAge), ops);
    var w := Run(Start(now, maxAge), ops);
    assert Consistent(w.cases[r], w.now, w.maxAge);
    SameMaxAge(Start(now, maxAge), ops);
  }

  lemma {:induction false} SameMaxAge(w: World, ops: seq<Op>)
    ensures Run(w, ops).maxAge == w.maxAge
  {
    if ops != [] {
      SameMaxAge(w, ops[..|ops| - 1]);
    }
  }
}
