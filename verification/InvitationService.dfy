/**
  The invitation services as they run on raw addresses, subjects and tokens, each proved to answer as the
  corresponding call of module Invitations on the normal forms.
*/
module InvitationService {
  import opened Common
  import opened Addresses
  import opened Invitations
  import opened Mailboxes
  import Team

  /** The call either writes what it may, or raises and leaves every table alone. */
  ghost predicate Answers(before: State, after: State, outcome: Result<State, Error>, raised: Option<Error>) {
    match outcome
    case Ok(s) => raised == None && after == s
    case Err(e) => raised == Some(e) && after == before
  }

  class InvitationStore {
    var now: Time
    var admins: map<AdminId, Admin>
    var invitations: map<InvitationId, Invitation>
    ghost var origins: map<AdminId, Origin>
    ghost var order: seq<AdminId>
    ghost var used: set<Token>

    ghost function Tables(): State
      reads this
    {
      State(now, admins, invitations, origins, order, used)
    }

    /** Stored invitations carry normal forms. */
    ghost predicate Valid()
      reads this
    {
      NormalInvitations(Normalize, Tables())
    }

    constructor (now: Time)
      ensures Tables() == Start(now) && Valid() && Sound(Tables()) && Clean(Normalize, Tables())
    {
      this.now, admins, invitations, origins, order, used := now, map[], map[], map[], [], {};
    }

    method IsOwner(actor: AdminId) returns (ok: bool)
      ensures ok <==> MayManage(Tables(), actor)
    {
      return actor in admins && admins[actor].row.active && admins[actor].row.role == Team.SuperAdmin;
    }

    /** `i` is the id of the new row and `token` the generated secret. */
    method CreateAdminInvitation(i: InvitationId, actor: AdminId, email: string, role: Team.Role, expiresAt: Time, token: Token)
      returns (raised: Option<Error>)
      requires Valid() && i !in invitations && token !in used
      modifies this`invitations, this`used
      ensures Valid()
      ensures Answers(old(Tables()), Tables(), Create(old(Tables()), i, actor, Normalize(email), role, expiresAt, token), raised)
    {
      raised := InsertInvitation(i, actor, Normalize(email), role, expiresAt, token);
      if raised == None {
        NormalizeIsIdempotent(email);
      }
    }

    /** The checks and the insertion, on the normal form of the address. */
    method InsertInvitation(i: InvitationId, actor: AdminId, normalized: Option<string>, role: Team.Role, expiresAt: Time, token: Token)
      returns (raised: Option<Error>)
      modifies this`invitations, this`used
      ensures Answers(old(Tables()), Tables(), Create(old(Tables()), i, actor, normalized, role, expiresAt, token), raised)
      ensures raised == None ==> normalized.Some? && i in invitations && invitations[i].email == normalized.value
      ensures forall x :: x in invitations && x != i ==> x in old(invitations) && invitations[x] == old(invitations)[x]
      ensures raised.Some? ==> invitations == old(invitations)
    {
      var owner := IsOwner(actor);
      if !owner {
        return Some(NotPermitted);
      }
      if normalized.None? {
        return Some(BadEmail);
      }
      if expiresAt <= now {
        return Some(ExpiryNotInFuture);
      }
      if exists a :: a in admins && admins[a].email == normalized.value {
        return Some(EmailTaken);
      }
      if exists x :: x in invitations && invitations[x].email == normalized.value && Active(invitations[x], now) {
        return Some(AlreadyInvited);
      }
      invitations := invitations[i := Invitation(normalized.value, role, token, actor, expiresAt, None, None, None)];
      used := used + {token};
      return None;
    }

    method ResendAdminInvitation(i: InvitationId, actor: AdminId, token: Token) returns (raised: Option<Error>)
      requires Valid() && token !in used
      modifies this`invitations, this`used
      ensures Valid()
      ensures Answers(old(Tables()), Tables(), Resend(old(Tables()), i, actor, token), raised)
    {
      var owner := IsOwner(actor);
      if !owner {
        return Some(NotPermitted);
      }
      if i !in invitations {
        return Some(NotFound);
      }
      var invitation := invitations[i];
      if invitation.acceptedAt.Some? {
        return Some(AlreadyAccepted);
      }
      if invitation.revokedAt.Some? {
        return Some(AlreadyRevoked);
      }
      if invitation.expiresAt <= now {
        return Some(Lapsed);
      }
      invitations := invitations[i := invitation.(token := token)];
      used := used + {token};
      return None;
    }

    method RevokeAdminInvitation(i: InvitationId, actor: AdminId) returns (raised: Option<Error>)
      requires Valid()
      modifies this`invitations
      ensures Valid()
      ensures Answers(old(Tables()), Tables(), Revoke(old(Tables()), i, actor), raised)
    {
      var owner := IsOwner(actor);
      if !owner {
        return Some(NotPermitted);
      }
      if i !in invitations {
        return Some(NotFound);
      }
      var invitation := invitations[i];
      if invitation.acceptedAt.Some? {
        return Some(AlreadyAccepted);
      }
      if invitation.revokedAt.Some? {
        return None;
      }
      invitations := invitations[i := invitation.(revokedAt := Some(now))];
      return None;
    }

    /** Look the token up; tokens are unique. */
    method FindByToken(token: Token) returns (found: Option<InvitationId>)
      ensures found.Some? ==> found.value in invitations && invitations[found.value].token == token
      ensures found.None? ==> forall i :: i in invitations ==> invitations[i].token != token
    {
      var matches := set i | i in invitations && invitations[i].token == token;
      if matches == {} {
        assert forall i :: i in invitations && invitations[i].token == token ==> i in matches;
        return None;
      }
      var i :| i in matches;
      return Some(i);
    }

    /**
      `a` is the id of the administrator row that a successful acceptance creates.  Stored addresses are normal,
      so the address on file needs no second normalization.
    */
    method AcceptAdminInvitation(token: Token, subject: string, email: Option<string>, a: AdminId)
      returns (raised: Option<Error>, ghost i: InvitationId)
      requires Valid() && a !in admins
      modifies this`admins, this`invitations, this`origins, this`order
      ensures Valid()
      ensures Answers(old(Tables()), Tables(), Accept(old(Tables()), i, token, a, Strip(subject), ClaimOf(email)), raised)
      ensures raised == Some(NotFound) ==> forall j :: j in invitations ==> invitations[j].token != token
    {
      raised, i := ProvisionAdmin(token, Strip(subject), ClaimOf(email), a);
    }

    method ProvisionAdmin(token: Token, subject: string, claim: Claim, a: AdminId) returns (raised: Option<Error>, ghost i: InvitationId)
      modifies this`admins, this`invitations, this`origins, this`order
      ensures Answers(old(Tables()), Tables(), Accept(old(Tables()), i, token, a, subject, claim), raised)
      ensures raised == Some(NotFound) ==> forall j :: j in invitations ==> invitations[j].token != token
      ensures invitations.Keys == old(invitations).Keys
      ensures forall x :: x in invitations ==> invitations[x].email == old(invitations)[x].email
    {
      i := 0;
      var found := FindByToken(token);
      if found.None? {
        return Some(NotFound), i;
      }
      i := found.value;
      var row := found.value;
      var invitation := invitations[row];
      if invitation.acceptedAt.Some? {
        return Some(AlreadyAccepted), i;
      }
      if invitation.revokedAt.Some? {
        return Some(AlreadyRevoked), i;
      }
      if invitation.expiresAt <= now {
        return Some(Lapsed), i;
      }
      if subject == [] || claim.NoAddress? {
        return Some(BadIdentity), i;
      }
      if claim.Malformed? {
        return Some(BadEmail), i;
      }
      if claim.email != invitation.email {
        return Some(OtherIdentity), i;
      }
      if exists b :: b in admins && (admins[b].subject == subject || admins[b].email == claim.email) {
        assert SubjectInUse(Tables(), subject) || EmailInUse(Tables(), claim.email);
        return Some(IdentityTaken), i;
      }
      assert !SubjectInUse(Tables(), subject) && !EmailInUse(Tables(), claim.email);
      admins := admins[a := Admin(subject, claim.email, Team.Admin(invitation.role, true))];
      origins := origins[a := Invited(i, invitation.role)];
      order := order + [a];
      invitation := invitation.(acceptedAt := Some(now));
      invitation := invitation.(acceptedAdmin := Some(a));
      invitations := invitations[row := invitation];
      return None, i;
    }
  }
}
