/**
  Administrator invitations.  An owner invites an e-mail address to a role; the bearer of the newest token
  with that verified address becomes an administrator, once.  Bootstrapping and team operations interleave.
*/
module Invitations {
  import opened Common
  import Team

  type Time = int
  type Token = nat
  type AdminId = nat
  type InvitationId = nat

  // ---------------------------------------------------------------------------------------------
  // Tables
  // ---------------------------------------------------------------------------------------------

  datatype Invitation = Invitation(
    email: string,
    role: Team.Role,
    token: Token,
    inviter: AdminId,
    expiresAt: Time,
    acceptedAt: Option<Time>,
    acceptedAdmin: Option<AdminId>,
    revokedAt: Option<Time>)

  /** The address an authenticated identity carries, in normal form. */
  datatype Claim = NoAddress | Malformed | Address(email: string)

  datatype Admin = Admin(subject: string, email: string, row: Team.Admin)

  /** How an administrator came about; not a column. */
  datatype Origin = Bootstrapped | Invited(invitation: InvitationId, role: Team.Role)

  /** `origins`, `order` (administrators in order of creation) and `used` (every token ever generated) are history. */
  datatype State = State(
    now: Time,
    admins: map<AdminId, Admin>,
    invitations: map<InvitationId, Invitation>,
    origins: map<AdminId, Origin>,
    order: seq<AdminId>,
    used: set<Token>)

  function Start(now: Time): State {
    State(now, map[], map[], map[], [], {})
  }

  datatype Error =
    | NotPermitted
    | BadEmail
    | ExpiryNotInFuture
    | EmailTaken
    | AlreadyInvited
    | NotFound
    | AlreadyAccepted
    | AlreadyRevoked
    | Lapsed
    | BadIdentity
    | OtherIdentity
    | IdentityTaken

  // ---------------------------------------------------------------------------------------------
  // Calls
  // ---------------------------------------------------------------------------------------------

  predicate MayManage(s: State, actor: AdminId) {
    actor in s.admins && Team.IsOwner(s.admins[actor].row)
  }

  predicate Active(i: Invitation, now: Time) {
    i.acceptedAt.None? && i.revokedAt.None? && i.expiresAt > now
  }

  predicate EmailInUse(s: State, email: string) {
    exists a :: a in s.admins && s.admins[a].email == email
  }

  predicate SubjectInUse(s: State, subject: string) {
    exists a :: a in s.admins && s.admins[a].subject == subject
  }

  predicate ActivelyInvited(s: State, email: string) {
    exists i :: i in s.invitations && s.invitations[i].email == email && Active(s.invitations[i], s.now)
  }

  function Unusable(i: Invitation, now: Time): Option<Error> {
    if i.acceptedAt.Some? then Some(AlreadyAccepted)
    else if i.revokedAt.Some? then Some(AlreadyRevoked)
    else if i.expiresAt <= now then Some(Lapsed)
    else None
  }

  /** `email` is the normal form of the requested address. */
  function Create(s: State, i: InvitationId, actor: AdminId, email: Option<string>, role: Team.Role, expiresAt: Time, token: Token)
    : Result<State, Error>
  {
    if !MayManage(s, actor) then Err(NotPermitted)
    else if email.None? then Err(BadEmail)
    else if expiresAt <= s.now then Err(ExpiryNotInFuture)
    else if EmailInUse(s, email.value) then Err(EmailTaken)
    else if ActivelyInvited(s, email.value) then Err(AlreadyInvited)
    else
      Ok(s.(invitations := s.invitations[i := Invitation(email.value, role, token, actor, expiresAt, None, None, None)],
            used := s.used + {token}))
  }

  function Resend(s: State, i: InvitationId, actor: AdminId, token: Token): Result<State, Error> {
    if !MayManage(s, actor) then Err(NotPermitted)
    else if i !in s.invitations then Err(NotFound)
    else if Unusable(s.invitations[i], s.now).Some? then Err(Unusable(s.invitations[i], s.now).value)
    else Ok(s.(invitations := s.invitations[i := s.invitations[i].(token := token)], used := s.used + {token}))
  }

  function Revoke(s: State, i: InvitationId, actor: AdminId): Result<State, Error> {
    if !MayManage(s, actor) then Err(NotPermitted)
    else if i !in s.invitations then Err(NotFound)
    else if s.invitations[i].acceptedAt.Some? then Err(AlreadyAccepted)
    else if s.invitations[i].revokedAt.Some? then Ok(s)
    else Ok(s.(invitations := s.invitations[i := s.invitations[i].(revokedAt := Some(s.now))]))
  }

  /** `i` is the invitation that the token was looked up to, `subject` the stripped subject of the identity. */
  function Accept(s: State, i: InvitationId, token: Token, a: AdminId, subject: string, claim: Claim): Result<State, Error> {
    if i !in s.invitations || s.invitations[i].token != token then Err(NotFound)
    else if Unusable(s.invitations[i], s.now).Some? then Err(Unusable(s.invitations[i], s.now).value)
    else if subject == [] || claim.NoAddress? then Err(BadIdentity)
    else if claim.Malformed? then Err(BadEmail)
    else if claim.email != s.invitations[i].email then Err(OtherIdentity)
    else if SubjectInUse(s, subject) || EmailInUse(s, claim.email) then Err(IdentityTaken)
    else Ok(Accepted(s, i, a, subject))
  }

  function Accepted(s: State, i: InvitationId, a: AdminId, subject: string): State
    requires i in s.invitations
  {
    var invitation := s.invitations[i];
    s.(admins := s.admins[a := Admin(subject, invitation.email, Team.Admin(invitation.role, true))],
       invitations := s.invitations[i := invitation.(acceptedAt := Some(s.now), acceptedAdmin := Some(a))],
       origins := s.origins[a := Invited(i, invitation.role)],
       order := s.order + [a])
  }

  /**
    The bootstrap script looks at the subject only and stores the address as it is; the unique constraint
    compares it with the stored addresses, character by character.
  */
  function Bootstrap(s: State, a: AdminId, subject: string, email: string): State {
    if SubjectInUse(s, subject) || EmailInUse(s, email) then s
    else
      s.(admins := s.admins[a := Admin(subject, email, Team.Admin(Team.SuperAdmin, true))],
         origins := s.origins[a := Bootstrapped],
         order := s.order + [a])
  }

  datatype Op =
    | Tick(seconds: nat)
    | DoBootstrap(admin: AdminId, subject: string, email: string)
    | TeamChange(target: AdminId, row: Team.Admin)
    | DoCreate(invitation: InvitationId, actor: AdminId, address: Option<string>, role: Team.Role, expiresAt: Time, newToken: Token)
    | DoResend(invitation: InvitationId, actor: AdminId, newToken: Token)
    | DoRevoke(invitation: InvitationId, actor: AdminId)
    | DoAccept(invitation: InvitationId, token: Token, admin: AdminId, subject: string, claim: Claim)

  function After(s: State, outcome: Result<State, Error>): State {
    if outcome.Ok? then outcome.value else s
  }

  /** Ids and tokens are generated, so a step with one that was used before is not enabled. */
  function Step(s: State, op: Op): State {
    match op
    case Tick(seconds) => s.(now := s.now + seconds)
    case DoBootstrap(a, subject, email) => if a in s.admins then s else Bootstrap(s, a, subject, email)
    case TeamChange(a, row) => if a in s.admins then s.(admins := s.admins[a := s.admins[a].(row := row)]) else s
    case DoCreate(i, actor, email, role, expiresAt, token) =>
      if i in s.invitations || token in s.used then s else After(s, Create(s, i, actor, email, role, expiresAt, token))
    case DoResend(i, actor, token) => if token in s.used then s else After(s, Resend(s, i, actor, token))
    case DoRevoke(i, actor) => After(s, Revoke(s, i, actor))
    case DoAccept(i, token, a, subject, claim) => if a in s.admins then s else After(s, Accept(s, i, token, a, subject, claim))
  }

  function Run(s: State, ops: seq<Op>): State {
    if ops == [] then s else Step(Run(s, ops[..|ops| - 1]), ops[|ops| - 1])
  }

  // ---------------------------------------------------------------------------------------------
  // What every run keeps
  // ---------------------------------------------------------------------------------------------

  predicate InvitationSound(s: State, id: InvitationId, i: Invitation) {
    && i.token in s.used
    && i.inviter in s.admins
    && (i.acceptedAt.Some? <==> i.acceptedAdmin.Some?)
    && (i.acceptedAt.Some? ==>
          && i.revokedAt.None?
          && i.acceptedAdmin.value in s.admins && i.acceptedAdmin.value in s.origins
          && s.admins[i.acceptedAdmin.value].email == i.email
          && s.origins[i.acceptedAdmin.value] == Invited(id, i.role))
  }

  predicate AdminSound(s: State, a: AdminId) {
    && a in s.origins && a in s.order
    && (s.origins[a].Invited? ==>
          && s.origins[a].invitation in s.invitations
          && s.invitations[s.origins[a].invitation].acceptedAdmin == Some(a)
          && s.invitations[s.origins[a].invitation].role == s.origins[a].role)
  }

  ghost predicate Distinct(s: State) {
    && (forall a, b :: a in s.admins && b in s.admins && a != b ==>
                         s.admins[a].email != s.admins[b].email && s.admins[a].subject != s.admins[b].subject)
    && (forall i, j :: i in s.invitations && j in s.invitations && i != j ==> s.invitations[i].token != s.invitations[j].token)
    && (forall i, j :: i in s.invitations && j in s.invitations && i != j && s.invitations[i].email == s.invitations[j].email ==>
                         !Active(s.invitations[i], s.now) || !Active(s.invitations[j], s.now))
  }

  ghost predicate Sound(s: State) {
    && (forall i :: i in s.invitations ==> InvitationSound(s, i, s.invitations[i]))
    && (forall a :: a in s.admins ==> AdminSound(s, a))
    && Distinct(s)
  }

  /** The writes that create, re-send and revoke make: at most the token and the revocation of one row change. */
  predicate Rewrites(s: State, after: State, i: InvitationId, row: Invitation) {
    && after == s.(invitations := s.invitations[i := row], used := s.used + {row.token})
    && row.inviter in s.admins && row.acceptedAt.None? && row.acceptedAdmin.None?
    && (i in s.invitations ==>
          && row.email == s.invitations[i].email
          && s.invitations[i].acceptedAdmin.None?
          && (Active(row, s.now) ==> Active(s.invitations[i], s.now))
          && (row.token == s.invitations[i].token || row.token !in s.used))
    && (i !in s.invitations ==> row.token !in s.used && !ActivelyInvited(s, row.email))
  }

  lemma RewriteKeepsSound(s: State, after: State, i: InvitationId, row: Invitation)
    requires Sound(s) && Rewrites(s, after, i, row)
    ensures Sound(after)
  {
    forall j | j in after.invitations ensures InvitationSound(after, j, after.invitations[j]) {
      assert j != i ==> InvitationSound(s, j, s.invitations[j]);
    }
    forall a | a in after.admins ensures AdminSound(after, a) {
      assert AdminSound(s, a);
    }
    RewriteKeepsDistinct(s, after, i, row);
  }

  lemma RewriteKeepsDistinct(s: State, after: State, i: InvitationId, row: Invitation)
    requires Sound(s) && Rewrites(s, after, i, row)
    ensures Distinct(after)
  {
    forall j | j in s.invitations && j != i
      ensures s.invitations[j].token != row.token
      ensures s.invitations[j].email == row.email ==> !Active(s.invitations[j], s.now) || !Active(row, s.now)
    {
      assert InvitationSound(s, j, s.invitations[j]);
    }
  }

  lemma NewAdminKeepsSound(s: State, a: AdminId, admin: Admin)
    requires Sound(s) && a !in s.admins && !SubjectInUse(s, admin.subject) && !EmailInUse(s, admin.email)
    ensures Sound(s.(admins := s.admins[a := admin], origins := s.origins[a := Bootstrapped], order := s.order + [a]))
  {
  }

  lemma AcceptKeepsSound(s: State, i: InvitationId, a: AdminId, subject: string)
    requires Sound(s) && a !in s.admins && i in s.invitations && Active(s.invitations[i], s.now)
    requires !SubjectInUse(s, subject) && !EmailInUse(s, s.invitations[i].email)
    ensures Sound(Accepted(s, i, a, subject))
  {
    var after := Accepted(s, i, a, subject);
    forall j | j in after.invitations ensures InvitationSound(after, j, after.invitations[j]) {
      assert InvitationSound(s, j, s.invitations[j]);
    }
    forall b | b in after.admins ensures AdminSound(after, b) {
      assert b != a ==> AdminSound(s, b);
    }
  }

  /** Time passing and team operations on the role and activity columns. */
  lemma RowsKeepSound(s: State, after: State)
    requires Sound(s) && after == s.(now := after.now, admins := after.admins) && s.now <= after.now
    requires after.admins.Keys == s.admins.Keys
    requires forall a :: a in s.admins ==> after.admins[a] == s.admins[a].(row := after.admins[a].row)
    ensures Sound(after)
  {
  }

  lemma CreateKeepsSound(s: State, i: InvitationId, actor: AdminId, email: Option<string>, role: Team.Role, expiresAt: Time, token: Token)
    requires Sound(s) && i !in s.invitations && token !in s.used
    ensures Sound(After(s, Create(s, i, actor, email, role, expiresAt, token)))
  {
    var outcome := Create(s, i, actor, email, role, expiresAt, token);
    if outcome.Ok? {
      RewriteKeepsSound(s, outcome.value, i, outcome.value.invitations[i]);
    }
  }

  lemma ResendKeepsSound(s: State, i: InvitationId, actor: AdminId, token: Token)
    requires Sound(s) && token !in s.used
    ensures Sound(After(s, Resend(s, i, actor, token)))
  {
    var outcome := Resend(s, i, actor, token);
    if outcome.Ok? {
      assert InvitationSound(s, i, s.invitations[i]);
      RewriteKeepsSound(s, outcome.value, i, outcome.value.invitations[i]);
    }
  }

  lemma RevokeKeepsSound(s: State, i: InvitationId, actor: AdminId)
    requires Sound(s)
    ensures Sound(After(s, Revoke(s, i, actor)))
  {
    var outcome := Revoke(s, i, actor);
    if outcome.Ok? && outcome.value != s {
      assert InvitationSound(s, i, s.invitations[i]);
      RewriteKeepsSound(s, outcome.value, i, outcome.value.invitations[i]);
    }
  }

  lemma StepKeepsSound(s: State, op: Op)
    requires Sound(s)
    ensures Sound(Step(s, op))
  {
    var after := Step(s, op);
    if after != s {
      match op
      case Tick(_) => RowsKeepSound(s, after);
      case TeamChange(_, _) => RowsKeepSound(s, after);
      case DoBootstrap(a, subject, email) => NewAdminKeepsSound(s, a, after.admins[a]);
      case DoCreate(i, actor, email, role, expiresAt, token) => CreateKeepsSound(s, i, actor, email, role, expiresAt, token);
      case DoResend(i, actor, token) => ResendKeepsSound(s, i, actor, token);
      case DoRevoke(i, actor) => RevokeKeepsSound(s, i, actor);
      case DoAccept(i, _, a, subject, _) => AcceptKeepsSound(s, i, a, subject);
    }
  }

  lemma {:induction false} EveryRunIsSound(s: State, ops: seq<Op>)
    requires Sound(s)
    ensures Sound(Run(s, ops))
  {
    if ops != [] {
      EveryRunIsSound(s, ops[..|ops| - 1]);
      StepKeepsSound(Run(s, ops[..|ops| - 1]), ops[|ops| - 1]);
    }
  }

  /**
    In every reachable state the invited administrators and the accepted invitations correspond one to one,
    with the same address and role; subjects, tokens and addresses as stored are distinct; no invitation is both
    accepted and revoked; and an address has at most one active invitation.  Stored invitations carry normal
    forms, but a bootstrapped administrator's address is stored as given: module Mailboxes compares normal forms.
  */
  lemma ReachableTeamLaws(now: Time, ops: seq<Op>)
    ensures var s := Run(Start(now), ops);
            && (forall i | i in s.invitations && s.invitations[i].acceptedAt.Some? ::
                  var a := s.invitations[i].acceptedAdmin;
                  && s.invitations[i].revokedAt.None?
                  && a.Some? && a.value in s.admins && a.value in s.origins
                  && s.origins[a.value] == Invited(i, s.invitations[i].role)
                  && s.admins[a.value].email == s.invitations[i].email)
            && (forall a | a in s.admins ::
                  a in s.origins &&
                  (s.origins[a].Invited? ==>
                     s.origins[a].invitation in s.invitations && s.invitations[s.origins[a].invitation].acceptedAdmin == Some(a)))
            && (forall i, j | i in s.invitations && j in s.invitations && i != j ::
                  s.invitations[i].acceptedAdmin.Some? ==> s.invitations[i].acceptedAdmin != s.invitations[j].acceptedAdmin)
            && Distinct(s)
  {
    EveryRunIsSound(Start(now), ops);
    var s := Run(Start(now), ops);
    forall i | i in s.invitations ensures InvitationSound(s, i, s.invitations[i]) {
    }
    forall a | a in s.admins ensures AdminSound(s, a) {
    }
  }

  predicate InInvitedRole(s: State, a: AdminId) {
    a in s.admins && a in s.origins && s.origins[a].Invited? ==> s.admins[a].row == Team.Admin(s.origins[a].role, true)
  }

  lemma StepKeepsInvitedRole(s: State, op: Op, a: AdminId)
    requires a in s.admins ==> a in s.origins
    requires InInvitedRole(s, a) && (op.TeamChange? ==> op.target != a)
    ensures InInvitedRole(Step(s, op), a)
  {
  }

  /** Unless a team operation changed it, an invited administrator is active in exactly the role of the invitation. */
  lemma {:induction false} InvitedRoleHolds(now: Time, ops: seq<Op>, a: AdminId)
    requires forall k :: 0 <= k < |ops| && ops[k].TeamChange? ==> ops[k].target != a
    ensures InInvitedRole(Run(Start(now), ops), a)
  {
    if ops != [] {
      var before := Run(Start(now), ops[..|ops| - 1]);
      InvitedRoleHolds(now, ops[..|ops| - 1], a);
      EveryRunIsSound(Start(now), ops[..|ops| - 1]);
      assert a in before.admins ==> AdminSound(before, a);
      StepKeepsInvitedRole(before, ops[|ops| - 1], a);
    }
  }

  // ---------------------------------------------------------------------------------------------
  // Tokens
  // ---------------------------------------------------------------------------------------------

  /** A token that was generated once and belongs to no invitation any more. */
  ghost predicate Retired(s: State, token: Token) {
    token in s.used && forall i :: i in s.invitations ==> s.invitations[i].token != token
  }

  lemma {:induction false} RetiredForever(s: State, ops: seq<Op>, token: Token)
    requires Retired(s, token)
    ensures Retired(Run(s, ops), token)
  {
    if ops != [] {
      RetiredForever(s, ops[..|ops| - 1], token);
    }
  }

  /** After a resend the previous token is refused for ever, whoever presents it. */
  lemma ResendRetiresToken(s: State, i: InvitationId, actor: AdminId, newToken: Token, ops: seq<Op>)
    requires Sound(s) && newToken !in s.used && Resend(s, i, actor, newToken).Ok?
    ensures var later := Run(Step(s, DoResend(i, actor, newToken)), ops);
            forall j, a, subject, claim :: Accept(later, j, s.invitations[i].token, a, subject, claim) == Err(NotFound)
  {
    var previous, after := s.invitations[i].token, Step(s, DoResend(i, actor, newToken));
    assert InvitationSound(s, i, s.invitations[i]);
    RetiredForever(after, ops, previous);
  }

  lemma StepKeepsClosed(s: State, op: Op, i: InvitationId)
    requires i in s.invitations && !Active(s.invitations[i], s.now)
    ensures i in Step(s, op).invitations && !Active(Step(s, op).invitations[i], Step(s, op).now)
    ensures s.invitations[i].acceptedAt.Some? ==> Step(s, op).invitations[i] == s.invitations[i]
  {
  }

  /** An invitation that was accepted, was revoked or has lapsed cannot be accepted in any later state. */
  lemma {:induction false} ClosedForever(s: State, ops: seq<Op>, i: InvitationId)
    requires i in s.invitations && !Active(s.invitations[i], s.now)
    ensures var later := Run(s, ops);
            && i in later.invitations && !Active(later.invitations[i], later.now)
            && (s.invitations[i].acceptedAt.Some? ==> later.invitations[i] == s.invitations[i])
            && forall token, a, subject, claim :: Accept(later, i, token, a, subject, claim).Err?
  {
    if ops != [] {
      ClosedForever(s, ops[..|ops| - 1], i);
      StepKeepsClosed(Run(s, ops[..|ops| - 1]), ops[|ops| - 1], i);
    }
  }

  // ---------------------------------------------------------------------------------------------
  // Addresses that are taken
  // ---------------------------------------------------------------------------------------------

  lemma StepKeepsAddresses(s: State, op: Op, email: string)
    requires EmailInUse(s, email)
    ensures EmailInUse(Step(s, op), email)
  {
    var a :| a in s.admins && s.admins[a].email == email;
    assert a in Step(s, op).admins && Step(s, op).admins[a].email == email;
  }

  /** An address that an administrator row stores is refused in all later states. */
  lemma {:induction false} StoredAddressIsRefused(s: State, ops: seq<Op>, email: string)
    requires EmailInUse(s, email)
    ensures EmailInUse(Run(s, ops), email)
    ensures forall i, token, a, subject :: Accept(Run(s, ops), i, token, a, subject, Address(email)).Err?
  {
    if ops != [] {
      StoredAddressIsRefused(s, ops[..|ops| - 1], email);
      StepKeepsAddresses(Run(s, ops[..|ops| - 1]), ops[|ops| - 1], email);
    }
  }

  ghost predicate RefusedForever(s: State, email: string) {
    forall ops, i, token, a, subject :: Accept(Run(s, ops), i, token, a, subject, Address(email)).Err?
  }

  /** Any other address can still be invited, by whoever may, and accepted. */
  lemma UnstoredAddressIsAccepted(s: State, email: string, actor: AdminId, i: InvitationId, token: Token, a: AdminId, subject: string)
    requires MayManage(s, actor) && i !in s.invitations && token !in s.used
    requires subject != [] && !SubjectInUse(s, subject) && !EmailInUse(s, email)
    ensures !RefusedForever(s, email)
  {
    if ActivelyInvited(s, email) {
      var j :| j in s.invitations && s.invitations[j].email == email && Active(s.invitations[j], s.now);
      assert Run(s, []) == s;
      assert Accept(Run(s, []), j, s.invitations[j].token, a, subject, Address(email)).Ok?;
    } else {
      var op := DoCreate(i, actor, Some(email), Team.Reviewer, s.now + 1, token);
      assert [op][..0] == [];
      assert Run(s, [op]) == Step(s, op);
      assert Accept(Run(s, [op]), i, token, a, subject, Address(email)).Ok?;
    }
  }

  /**
    While somebody may invite, an address is refused for ever if and only if an administrator row stores exactly
    this text.  (The last four parameters are values that are not in use.)
  */
  lemma RefusedForeverIffStored(s: State, email: string, actor: AdminId, i: InvitationId, token: Token, a: AdminId, subject: string)
    requires MayManage(s, actor) && i !in s.invitations && token !in s.used
    requires subject != [] && !SubjectInUse(s, subject)
    ensures RefusedForever(s, email) <==> EmailInUse(s, email)
  {
    if EmailInUse(s, email) {
      forall ops, j, t, b, who ensures Accept(Run(s, ops), j, t, b, who, Address(email)).Err? {
        StoredAddressIsRefused(s, ops, email);
      }
    } else {
      UnstoredAddressIsAccepted(s, email, actor, i, token, a, subject);
    }
  }

  // ---------------------------------------------------------------------------------------------
  // Where authority comes from
  // ---------------------------------------------------------------------------------------------

  /** Following inviters for at most `n` steps reaches a bootstrapped administrator. */
  predicate Descends(s: State, a: AdminId, n: nat)
    decreases n
  {
    && a in s.origins
    && (s.origins[a].Bootstrapped?
        || (n > 0 && s.origins[a].invitation in s.invitations
            && Descends(s, s.invitations[s.origins[a].invitation].inviter, n - 1)))
  }

  /** Inviters come before those they invited. */
  ghost predicate Ordered(s: State) {
    && s.origins.Keys == s.admins.Keys
    && (forall k :: 0 <= k < |s.order| ==> s.order[k] in s.origins)
    && (forall k :: 0 <= k < |s.order| ==> OriginOrdered(s, k))
  }

  predicate OriginOrdered(s: State, k: nat)
    requires k < |s.order|
  {
    s.order[k] in s.origins &&
    (s.origins[s.order[k]].Invited? ==>
       && s.origins[s.order[k]].invitation in s.invitations
       && s.invitations[s.origins[s.order[k]].invitation].inviter in s.order[..k])
  }

  ghost predicate InvitersStay(s: State, after: State) {
    forall i :: i in s.invitations ==> i in after.invitations && after.invitations[i].inviter == s.invitations[i].inviter
  }

  lemma StepKeepsInviters(s: State, op: Op)
    ensures InvitersStay(s, Step(s, op))
  {
  }

  lemma OrderHolds(s: State, after: State)
    requires Ordered(s) && InvitersStay(s, after)
    requires after.order == s.order && after.origins == s.origins && after.admins.Keys == s.admins.Keys
    ensures Ordered(after)
  {
    forall k | 0 <= k < |after.order| ensures OriginOrdered(after, k) {
      assert OriginOrdered(s, k);
    }
  }

  lemma OrderGrows(s: State, after: State, a: AdminId, origin: Origin)
    requires Ordered(s) && InvitersStay(s, after) && a !in s.admins
    requires after.order == s.order + [a] && after.origins == s.origins[a := origin] && after.admins.Keys == s.admins.Keys + {a}
    requires origin.Invited? ==>
               origin.invitation in s.invitations && s.invitations[origin.invitation].inviter in s.order
    ensures Ordered(after)
  {
    forall k | 0 <= k < |after.order| ensures OriginOrdered(after, k) {
      if k < |s.order| {
        assert OriginOrdered(s, k);
        assert after.order[..k] == s.order[..k];
      } else {
        assert after.order[..k] == s.order;
      }
    }
  }

  lemma AcceptKeepsOrdered(s: State, i: InvitationId, token: Token, a: AdminId, subject: string, claim: Claim)
    requires Sound(s) && Ordered(s) && a !in s.admins && Accept(s, i, token, a, subject, claim).Ok?
    ensures Ordered(Accept(s, i, token, a, subject, claim).value)
  {
    assert InvitationSound(s, i, s.invitations[i]);
    assert AdminSound(s, s.invitations[i].inviter);
    OrderGrows(s, Accept(s, i, token, a, subject, claim).value, a, Invited(i, s.invitations[i].role));
  }

  lemma OthersKeepOrigins(s: State, op: Op)
    requires !op.DoBootstrap? && !op.DoAccept?
    ensures Step(s, op).order == s.order && Step(s, op).origins == s.origins && Step(s, op).admins.Keys == s.admins.Keys
  {
  }

  lemma StepKeepsOrdered(s: State, op: Op)
    requires Sound(s) && Ordered(s)
    ensures Ordered(Step(s, op))
  {
    var after := Step(s, op);
    if after != s {
      if op.DoAccept? {
        AcceptKeepsOrdered(s, op.invitation, op.token, op.admin, op.subject, op.claim);
      } else if op.DoBootstrap? {
        OrderGrows(s, after, op.admin, Bootstrapped);
      } else {
        StepKeepsInviters(s, op);
        OthersKeepOrigins(s, op);
        OrderHolds(s, after);
      }
    }
  }

  lemma {:induction false} EveryRunIsOrdered(s: State, ops: seq<Op>)
    requires Sound(s) && Ordered(s)
    ensures Ordered(Run(s, ops))
  {
    if ops != [] {
      EveryRunIsOrdered(s, ops[..|ops| - 1]);
      EveryRunIsSound(s, ops[..|ops| - 1]);
      StepKeepsOrdered(Run(s, ops[..|ops| - 1]), ops[|ops| - 1]);
    }
  }

  lemma {:induction false} DescendsByOrder(s: State, k: nat)
    requires Ordered(s) && k < |s.order|
    ensures Descends(s, s.order[k], k)
    decreases k
  {
    assert OriginOrdered(s, k);
    if s.origins[s.order[k]].Invited? {
      var inviter := s.invitations[s.origins[s.order[k]].invitation].inviter;
      var j :| 0 <= j < k && s.order[j] == inviter;
      DescendsByOrder(s, j);
      DescendsLonger(s, inviter, j, k - 1);
    }
  }

  lemma {:induction false} DescendsLonger(s: State, a: AdminId, n: nat, m: nat)
    requires Descends(s, a, n) && n <= m
    ensures Descends(s, a, m)
    decreases n
  {
    if !s.origins[a].Bootstrapped? {
      DescendsLonger(s, s.invitations[s.origins[a].invitation].inviter, n - 1, m - 1);
    }
  }

  /** Every administrator of every reachable state was invited, through finitely many inviters, by a bootstrapped one. */
  lemma AuthorityIsInherited(now: Time, ops: seq<Op>, a: AdminId)
    requires a in Run(Start(now), ops).admins
    ensures exists n :: Descends(Run(Start(now), ops), a, n)
  {
    var s := Run(Start(now), ops);
    EveryRunIsSound(Start(now), ops);
    EveryRunIsOrdered(Start(now), ops);
    assert AdminSound(s, a);
    var k :| 0 <= k < |s.order| && s.order[k] == a;
    DescendsByOrder(s, k);
  }
}
