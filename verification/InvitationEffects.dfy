/**
  What each step on administrator invitations achieves: exactly when it succeeds, what the invited administrator
  gets, and until when.  Module Invitations says what can never be used again.
*/
module InvitationEffects {
  import opened Common
  import opened Invitations
  import Team

  /** The same tables at another time. */
  function At(s: State, t: Time): State {
    s.(now := t)
  }

  // ---------------------------------------------------------------------------------------------
  // Inviting
  // ---------------------------------------------------------------------------------------------

  /**
    An invitation comes about if and only if an active super administrator asks for it, with a well-formed address that
    no administrator stores and nobody can still accept an invitation with, and an expiry in the future.
  */
  lemma CreatedIff(s: State, i: InvitationId, actor: AdminId, address: Option<string>, role: Team.Role, expiresAt: Time, token: Token)
    requires i !in s.invitations && token !in s.used
    ensures i in Step(s, DoCreate(i, actor, address, role, expiresAt, token)).invitations <==>
            && actor in s.admins && s.admins[actor].row.active && s.admins[actor].row.role == Team.SuperAdmin
            && address.Some? && s.now < expiresAt
            && (forall a :: a in s.admins ==> s.admins[a].email != address.value)
            && (forall j :: j in s.invitations && s.invitations[j].email == address.value ==>
                  || s.invitations[j].acceptedAt.Some? || s.invitations[j].revokedAt.Some?
                  || s.invitations[j].expiresAt <= s.now)
  {
  }

  /**
    Whoever proves the invited address, and no one else, can accept a new invitation until the requested expiry and no longer,
    and then is an active administrator in exactly the requested role.
  */
  lemma InvitedUntil(s: State, i: InvitationId, actor: AdminId, address: Option<string>, role: Team.Role, expiresAt: Time, token: Token,
                     t: Time, a: AdminId, subject: string, claim: Claim)
    requires i !in s.invitations && Create(s, i, actor, address, role, expiresAt, token).Ok?
    requires subject != [] && !SubjectInUse(s, subject)
    ensures var outcome := Accept(At(Create(s, i, actor, address, role, expiresAt, token).value, t), i, token, a, subject, claim);
            && (outcome.Ok? <==> t < expiresAt && address.Some? && claim == Address(address.value))
            && (outcome.Ok? ==>
                  outcome.value.admins == s.admins[a := Admin(subject, address.value, Team.Admin(role, true))])
  {
    var after := At(Create(s, i, actor, address, role, expiresAt, token).value, t);
    assert !SubjectInUse(after, subject) && !EmailInUse(after, address.value);
  }

  /** A resend needs an active super administrator and an invitation that can still be accepted. */
  lemma ResentIff(s: State, i: InvitationId, actor: AdminId, token: Token)
    ensures Resend(s, i, actor, token).Ok? <==>
            && actor in s.admins && s.admins[actor].row.active && s.admins[actor].row.role == Team.SuperAdmin
            && i in s.invitations && s.invitations[i].acceptedAt.None? && s.invitations[i].revokedAt.None?
            && s.now < s.invitations[i].expiresAt
  {
  }

  /** The new token does for everybody, at every time, what the previous one would have done; other invitations stay as they are. */
  lemma NewTokenTakesOver(s: State, i: InvitationId, actor: AdminId, token: Token, t: Time, a: AdminId, subject: string, claim: Claim)
    requires Resend(s, i, actor, token).Ok?
    ensures i in s.invitations
    ensures var after := Resend(s, i, actor, token).value;
            var late, early := Accept(At(after, t), i, token, a, subject, claim),
                               Accept(At(s, t), i, s.invitations[i].token, a, subject, claim);
            && (late.Ok? <==> early.Ok?)
            && (late.Ok? ==> late.value.admins == early.value.admins)
            && (forall j :: j in s.invitations && j != i ==> j in after.invitations && after.invitations[j] == s.invitations[j])
  {
    var after := Resend(s, i, actor, token).value;
    assert forall who :: SubjectInUse(At(after, t), who) <==> SubjectInUse(At(s, t), who);
    assert forall email :: EmailInUse(At(after, t), email) <==> EmailInUse(At(s, t), email);
  }

  /** Revoking needs an active super administrator and an invitation that nobody accepted, and changes that invitation only. */
  lemma RevokedIff(s: State, i: InvitationId, actor: AdminId)
    ensures Revoke(s, i, actor).Ok? <==>
            && actor in s.admins && s.admins[actor].row.active && s.admins[actor].row.role == Team.SuperAdmin
            && i in s.invitations && s.invitations[i].acceptedAt.None?
    ensures Revoke(s, i, actor).Ok? ==>
              var after := Revoke(s, i, actor).value;
              && after.admins == s.admins
              && forall j :: j in s.invitations && j != i ==> j in after.invitations && after.invitations[j] == s.invitations[j]
  {
  }

  /** A revoked invitation is closed for good. */
  lemma RevocationIsForGood(s: State, i: InvitationId, actor: AdminId, ops: seq<Op>)
    requires Revoke(s, i, actor).Ok?
    ensures var later := Run(Step(s, DoRevoke(i, actor)), ops);
            && i in later.invitations && !Active(later.invitations[i], later.now)
            && forall token, a, subject, claim :: Accept(later, i, token, a, subject, claim).Err?
  {
    RevokedIsNotActive(s, i, actor);
    ClosedForever(Step(s, DoRevoke(i, actor)), ops, i);
  }

  lemma RevokedIsNotActive(s: State, i: InvitationId, actor: AdminId)
    requires Revoke(s, i, actor).Ok?
    ensures var after := Step(s, DoRevoke(i, actor));
            i in after.invitations && after.invitations[i].revokedAt.Some? && !Active(after.invitations[i], after.now)
  {
  }

  // ---------------------------------------------------------------------------------------------
  // Accepting
  // ---------------------------------------------------------------------------------------------

  /** Accepting needs the current token of a usable invitation, the invited address, and a subject and an address nobody stores. */
  lemma AcceptedIff(s: State, i: InvitationId, token: Token, a: AdminId, subject: string, claim: Claim)
    ensures Accept(s, i, token, a, subject, claim).Ok? <==>
            && i in s.invitations && s.invitations[i].token == token
            && s.invitations[i].acceptedAt.None? && s.invitations[i].revokedAt.None? && s.now < s.invitations[i].expiresAt
            && claim == Address(s.invitations[i].email) && subject != []
            && (forall b :: b in s.admins ==> s.admins[b].subject != subject && s.admins[b].email != s.invitations[i].email)
  {
  }

  /** One new administrator, in the role of the invitation; nobody else changes, and the token has done its work. */
  lemma AcceptedOnce(s: State, i: InvitationId, token: Token, a: AdminId, subject: string, claim: Claim)
    requires a !in s.admins && Accept(s, i, token, a, subject, claim).Ok?
    ensures i in s.invitations
    ensures var after := Accept(s, i, token, a, subject, claim).value;
            && after.admins == s.admins[a := Admin(subject, s.invitations[i].email, Team.Admin(s.invitations[i].role, true))]
            && (forall j :: j in s.invitations && j != i ==> j in after.invitations && after.invitations[j] == s.invitations[j])
            && (forall b, who, address :: Accept(after, i, token, b, who, address) == Err(AlreadyAccepted))
  {
  }

  /** The bootstrap script makes an active super administrator of a subject and an address that nobody stores, and of no other. */
  lemma BootstrappedIff(s: State, a: AdminId, subject: string, email: string)
    requires a !in s.admins
    ensures a in Step(s, DoBootstrap(a, subject, email)).admins <==>
            forall b :: b in s.admins ==> s.admins[b].subject != subject && s.admins[b].email != email
    ensures Step(s, DoBootstrap(a, subject, email)).admins ==
            if a in Step(s, DoBootstrap(a, subject, email)).admins
            then s.admins[a := Admin(subject, email, Team.Admin(Team.SuperAdmin, true))] else s.admins
  {
  }

  // ---------------------------------------------------------------------------------------------
  // Who can do what
  // ---------------------------------------------------------------------------------------------

  /** Every new invitation, every new token and every revocation is the call of an active super administrator. */
  lemma OwnersInvite(s: State, op: Op, i: InvitationId)
    requires i in Step(s, op).invitations
    requires i in s.invitations ==>
               || Step(s, op).invitations[i].token != s.invitations[i].token
               || Step(s, op).invitations[i].revokedAt != s.invitations[i].revokedAt
    ensures (op.DoCreate? && i !in s.invitations) || ((op.DoResend? || op.DoRevoke?) && i in s.invitations)
    ensures op.invitation == i
    ensures op.actor in s.admins && s.admins[op.actor].row == Team.Admin(Team.SuperAdmin, true)
  {
  }

  /** Nothing but a team operation changes an administrator row, and new rows come from the bootstrap or an invitation. */
  lemma RowsChangeByTeamOnly(s: State, op: Op, a: AdminId)
    ensures a in s.admins ==>
              && a in Step(s, op).admins
              && Step(s, op).admins[a].subject == s.admins[a].subject && Step(s, op).admins[a].email == s.admins[a].email
              && (Step(s, op).admins[a] != s.admins[a] ==> op.TeamChange? && op.target == a && Step(s, op).admins[a].row == op.row)
    ensures a !in s.admins && a in Step(s, op).admins ==>
              op.admin == a && (op.DoBootstrap? || (op.DoAccept? && op.invitation in s.invitations && s.invitations[op.invitation].token == op.token))
  {
  }
}
