/**
  Invitations and administrators compared by mailbox, that is by the normal form of their addresses.  Invitations
  store normal forms, bootstrapping stores the configured text.  The laws hold for any way of folding
  addresses into normal forms; the last section is about the one the services use.
*/
module Mailboxes {
  import opened Common
  import opened Addresses
  import opened Invitations
  import Team

  type Fold = string -> Option<string>

  predicate MailboxInUse(fold: Fold, s: State, mailbox: string) {
    exists a :: a in s.admins && fold(s.admins[a].email) == Some(mailbox)
  }

  ghost predicate OneAdminPerMailbox(fold: Fold, s: State) {
    forall a, b :: a in s.admins && b in s.admins && a != b ==> !SameMailbox(fold, s.admins[a].email, s.admins[b].email)
  }

  predicate SameMailbox(fold: Fold, x: string, y: string) {
    fold(x).Some? && fold(x) == fold(y)
  }

  ghost predicate OnlyOutsidersInvited(fold: Fold, s: State) {
    forall i :: i in s.invitations && Active(s.invitations[i], s.now) ==> !MailboxInUse(fold, s, s.invitations[i].email)
  }

  /** No two administrators share a mailbox, and no administrator's mailbox has an active invitation. */
  ghost predicate Clean(fold: Fold, s: State) {
    OneAdminPerMailbox(fold, s) && OnlyOutsidersInvited(fold, s)
  }

  ghost predicate NormalInvitations(fold: Fold, s: State) {
    forall i :: i in s.invitations ==> fold(s.invitations[i].email) == Some(s.invitations[i].email)
  }

  /** Invitations are created on normal forms. */
  predicate OnNormalForms(fold: Fold, op: Op) {
    op.DoCreate? && op.address.Some? ==> fold(op.address.value) == op.address
  }

  lemma StepKeepsNormalInvitations(fold: Fold, s: State, op: Op)
    requires NormalInvitations(fold, s) && OnNormalForms(fold, op)
    ensures NormalInvitations(fold, Step(s, op))
  {
  }

  lemma {:induction false} EveryRunKeepsNormalInvitations(fold: Fold, s: State, ops: seq<Op>)
    requires NormalInvitations(fold, s) && forall k :: 0 <= k < |ops| ==> OnNormalForms(fold, ops[k])
    ensures NormalInvitations(fold, Run(s, ops))
  {
    if ops != [] {
      EveryRunKeepsNormalInvitations(fold, s, ops[..|ops| - 1]);
      StepKeepsNormalInvitations(fold, Run(s, ops[..|ops| - 1]), ops[|ops| - 1]);
    }
  }

  // ---------------------------------------------------------------------------------------------
  // Which steps keep mailboxes apart
  // ---------------------------------------------------------------------------------------------

  /**
    What a caller can check first: a bootstrap must be about a mailbox that no administrator has and nobody is
    actively invited with, an invitation about one that no administrator has.
  */
  predicate Careful(fold: Fold, s: State, op: Op) {
    match op
    case DoBootstrap(_, _, email) =>
      Step(s, op) == s || fold(email).None?
      || (!MailboxInUse(fold, s, fold(email).value) && !ActivelyInvited(s, fold(email).value))
    case DoCreate(_, _, address, _, _, _) => Step(s, op) == s || address.None? || !MailboxInUse(fold, s, address.value)
    case _ => true
  }

  lemma BootstrapIsCleanIffCareful(fold: Fold, s: State, a: AdminId, subject: string, email: string)
    requires Clean(fold, s) && NormalInvitations(fold, s) && a !in s.admins
    requires !SubjectInUse(s, subject) && !EmailInUse(s, email)
    ensures Clean(fold, Bootstrap(s, a, subject, email)) <==>
            fold(email).None? || (!MailboxInUse(fold, s, fold(email).value) && !ActivelyInvited(s, fold(email).value))
  {
    var after := Bootstrap(s, a, subject, email);
    assert after.admins[a].email == email;
    if fold(email).Some? && MailboxInUse(fold, s, fold(email).value) {
      var b :| b in s.admins && fold(s.admins[b].email) == fold(email);
      assert SameMailbox(fold, after.admins[b].email, after.admins[a].email);
    } else if fold(email).Some? && ActivelyInvited(s, fold(email).value) {
      assert MailboxInUse(fold, after, fold(email).value);
    } else {
      forall i | i in after.invitations && Active(after.invitations[i], after.now)
        ensures !MailboxInUse(fold, after, after.invitations[i].email)
      {
        assert !MailboxInUse(fold, s, s.invitations[i].email);
      }
    }
  }

  lemma CreateIsCleanIffCareful(fold: Fold, s: State, i: InvitationId, actor: AdminId, address: Option<string>, role: Team.Role,
                                expiresAt: Time, token: Token)
    requires Clean(fold, s) && i !in s.invitations && Create(s, i, actor, address, role, expiresAt, token).Ok?
    ensures Clean(fold, Create(s, i, actor, address, role, expiresAt, token).value) <==> !MailboxInUse(fold, s, address.value)
  {
    var after := Create(s, i, actor, address, role, expiresAt, token).value;
    assert after.invitations[i].email == address.value && Active(after.invitations[i], after.now);
    assert forall m :: MailboxInUse(fold, after, m) <==> MailboxInUse(fold, s, m);
  }

  lemma AcceptKeepsClean(fold: Fold, s: State, i: InvitationId, a: AdminId, subject: string)
    requires Sound(s) && Clean(fold, s) && NormalInvitations(fold, s)
    requires a !in s.admins && i in s.invitations && Active(s.invitations[i], s.now)
    ensures Clean(fold, Accepted(s, i, a, subject))
  {
    var after := Accepted(s, i, a, subject);
    var email := s.invitations[i].email;
    assert !MailboxInUse(fold, s, email);
    forall j | j in after.invitations && Active(after.invitations[j], after.now)
      ensures !MailboxInUse(fold, after, after.invitations[j].email)
    {
      assert j != i && !MailboxInUse(fold, s, s.invitations[j].email);
    }
  }

  /** Steps that neither add a row nor open an invitation again. */
  lemma QuietStepKeepsClean(fold: Fold, s: State, after: State)
    requires Clean(fold, s)
    requires after.admins.Keys == s.admins.Keys && forall a :: a in s.admins ==> after.admins[a].email == s.admins[a].email
    requires after.invitations.Keys == s.invitations.Keys
    requires forall i :: i in s.invitations && Active(after.invitations[i], after.now) ==>
               after.invitations[i].email == s.invitations[i].email && Active(s.invitations[i], s.now)
    ensures Clean(fold, after)
  {
    forall i | i in after.invitations && Active(after.invitations[i], after.now)
      ensures !MailboxInUse(fold, after, after.invitations[i].email)
    {
      assert !MailboxInUse(fold, s, s.invitations[i].email);
    }
  }

  lemma OtherStepKeepsClean(fold: Fold, s: State, op: Op)
    requires Clean(fold, s) && !op.DoBootstrap? && !op.DoCreate? && !op.DoAccept?
    ensures Clean(fold, Step(s, op))
  {
    QuietStepKeepsClean(fold, s, Step(s, op));
  }

  /** A step keeps mailboxes apart if and only if it is careful. */
  lemma CleanIffCareful(fold: Fold, s: State, op: Op)
    requires Sound(s) && NormalInvitations(fold, s) && OnNormalForms(fold, op) && Clean(fold, s)
    ensures Clean(fold, Step(s, op)) <==> Careful(fold, s, op)
  {
    if Step(s, op) != s {
      match op
      case DoBootstrap(a, subject, email) => BootstrapIsCleanIffCareful(fold, s, a, subject, email);
      case DoCreate(i, actor, address, role, expiresAt, token) =>
        CreateIsCleanIffCareful(fold, s, i, actor, address, role, expiresAt, token);
      case DoAccept(i, _, a, subject, _) => AcceptKeepsClean(fold, s, i, a, subject);
      case _ => OtherStepKeepsClean(fold, s, op);
    }
  }

  ghost predicate CarefulRun(fold: Fold, s: State, ops: seq<Op>) {
    ops != [] ==>
      CarefulRun(fold, s, ops[..|ops| - 1]) && OnNormalForms(fold, ops[|ops| - 1])
      && Careful(fold, Run(s, ops[..|ops| - 1]), ops[|ops| - 1])
  }

  lemma {:induction false} EveryCarefulRunIsClean(fold: Fold, s: State, ops: seq<Op>)
    requires Sound(s) && NormalInvitations(fold, s) && Clean(fold, s) && CarefulRun(fold, s, ops)
    ensures Clean(fold, Run(s, ops)) && NormalInvitations(fold, Run(s, ops))
  {
    if ops != [] {
      var before := Run(s, ops[..|ops| - 1]);
      EveryCarefulRunIsClean(fold, s, ops[..|ops| - 1]);
      EveryRunIsSound(s, ops[..|ops| - 1]);
      CleanIffCareful(fold, before, ops[|ops| - 1]);
      StepKeepsNormalInvitations(fold, before, ops[|ops| - 1]);
    }
  }

  // ---------------------------------------------------------------------------------------------
  // Bootstrapping with normal forms
  // ---------------------------------------------------------------------------------------------

  /** Its own normal form, or no address at all. */
  predicate Plain(fold: Fold, email: string) {
    fold(email).None? || fold(email) == Some(email)
  }

  /** Two administrators share a mailbox only if one of them was bootstrapped with an address not in normal form. */
  lemma SharedMailboxesAreBootstrapped(fold: Fold, now: Time, ops: seq<Op>, a: AdminId, b: AdminId)
    requires forall k :: 0 <= k < |ops| ==> OnNormalForms(fold, ops[k])
    requires var s := Run(Start(now), ops);
             a in s.admins && b in s.admins && a != b && SameMailbox(fold, s.admins[a].email, s.admins[b].email)
    ensures var s := Run(Start(now), ops);
            a in s.origins && b in s.origins
            && ((s.origins[a].Bootstrapped? && !Plain(fold, s.admins[a].email))
                || (s.origins[b].Bootstrapped? && !Plain(fold, s.admins[b].email)))
  {
    var s := Run(Start(now), ops);
    EveryRunIsSound(Start(now), ops);
    EveryRunKeepsNormalInvitations(fold, Start(now), ops);
    assert AdminSound(s, a) && AdminSound(s, b);
    forall x | x in {a, b} && s.origins[x].Invited? ensures Plain(fold, s.admins[x].email) {
      assert InvitationSound(s, s.origins[x].invitation, s.invitations[s.origins[x].invitation]);
    }
    assert s.admins[a].email != s.admins[b].email;
  }

  ghost predicate StoredPlain(fold: Fold, s: State) {
    forall a :: a in s.admins ==> Plain(fold, s.admins[a].email)
  }

  /** A bootstrap with a normal form that nobody is actively invited with. */
  predicate PlainAndTimely(fold: Fold, s: State, op: Op) {
    op.DoBootstrap? ==> Plain(fold, op.email) && (Step(s, op) == s || !ActivelyInvited(s, op.email))
  }

  lemma StepKeepsStoredPlain(fold: Fold, s: State, op: Op)
    requires NormalInvitations(fold, s) && StoredPlain(fold, s) && (op.DoBootstrap? ==> Plain(fold, op.email))
    ensures StoredPlain(fold, Step(s, op))
  {
  }

  /** The checks the services make are care enough then. */
  lemma PlainAndTimelyIsCareful(fold: Fold, s: State, op: Op)
    requires NormalInvitations(fold, s) && OnNormalForms(fold, op) && StoredPlain(fold, s) && PlainAndTimely(fold, s, op)
    ensures Careful(fold, s, op)
  {
    forall mailbox | MailboxInUse(fold, s, mailbox) ensures EmailInUse(s, mailbox) {
      var a :| a in s.admins && fold(s.admins[a].email) == Some(mailbox);
      assert Plain(fold, s.admins[a].email);
    }
  }

  ghost predicate PlainAndTimelyRun(fold: Fold, s: State, ops: seq<Op>) {
    ops != [] ==>
      PlainAndTimelyRun(fold, s, ops[..|ops| - 1]) && OnNormalForms(fold, ops[|ops| - 1])
      && PlainAndTimely(fold, Run(s, ops[..|ops| - 1]), ops[|ops| - 1])
  }

  /** If bootstrapping always uses normal forms that nobody is invited with, mailboxes stay apart in every run. */
  lemma {:induction false} EveryPlainRunIsClean(fold: Fold, now: Time, ops: seq<Op>)
    requires PlainAndTimelyRun(fold, Start(now), ops)
    ensures var s := Run(Start(now), ops); Clean(fold, s) && NormalInvitations(fold, s) && StoredPlain(fold, s)
  {
    if ops != [] {
      var before, op := Run(Start(now), ops[..|ops| - 1]), ops[|ops| - 1];
      EveryPlainRunIsClean(fold, now, ops[..|ops| - 1]);
      EveryRunIsSound(Start(now), ops[..|ops| - 1]);
      PlainAndTimelyIsCareful(fold, before, op);
      CleanIffCareful(fold, before, op);
      StepKeepsNormalInvitations(fold, before, op);
      StepKeepsStoredPlain(fold, before, op);
    }
  }

  /** Acceptance succeeds exactly for the bearer of the current token with the invited address and a new subject. */
  lemma AcceptedIff(fold: Fold, s: State, i: InvitationId, token: Token, a: AdminId, subject: string, claim: Claim)
    requires NormalInvitations(fold, s) && OnlyOutsidersInvited(fold, s) && i in s.invitations
    ensures Accept(s, i, token, a, subject, claim).Ok? <==>
            && s.invitations[i].token == token
            && Active(s.invitations[i], s.now)
            && subject != []
            && claim == Address(s.invitations[i].email)
            && !SubjectInUse(s, subject)
  {
    assert EmailInUse(s, s.invitations[i].email) ==> MailboxInUse(fold, s, s.invitations[i].email);
  }

  // ---------------------------------------------------------------------------------------------
  // The normal form of the services
  // ---------------------------------------------------------------------------------------------

  /** What the identity provider says about an address. */
  function ClaimOf(email: Option<string>): Claim {
    if email.None? then NoAddress
    else if Normalize(email.value).None? then Malformed
    else Address(Normalize(email.value).value)
  }

  /** Creating an invitation normalizes, so every such step is on normal forms. */
  lemma ServicesUseNormalForms(i: InvitationId, actor: AdminId, email: string, role: Team.Role, expiresAt: Time, token: Token)
    ensures OnNormalForms(Normalize, DoCreate(i, actor, Normalize(email), role, expiresAt, token))
  {
    if Normalize(email).Some? {
      NormalizeIsIdempotent(email);
    }
  }

  /** The mailbox of an administrator whose stored address is in normal form is refused in all later states, however it is spelled. */
  lemma NormalMailboxIsRefused(s: State, ops: seq<Op>, a: AdminId, spelling: string)
    requires a in s.admins && Normalize(s.admins[a].email) == Some(s.admins[a].email)
    requires SameMailbox(Normalize, spelling, s.admins[a].email)
    ensures forall i, token, b, subject :: Accept(Run(s, ops), i, token, b, subject, ClaimOf(Some(spelling))).Err?
  {
    StoredAddressIsRefused(s, ops, s.admins[a].email);
  }

  /** Bootstrap with a capital letter, invite the same address, accept with the same address. */
  function TwoForOne(): seq<Op> {
    [DoBootstrap(0, "first", "A@b"),
     DoCreate(0, 0, Normalize("A@b"), Team.SuperAdmin, 10, 7),
     DoAccept(0, 7, 1, "second", ClaimOf(Some("A@b")))]
  }

  lemma LowerThree(x: char, y: char, z: char)
    ensures Lower([x, y, z]) == [LowerChar(x), LowerChar(y), LowerChar(z)]
  {
  }

  lemma NormalFormOfExample()
    ensures Normalize("A@b") == Some("a@b") && Normalize("a@b") == Some("a@b")
  {
    LowerThree('A', '@', 'b');
    LowerThree('a', '@', 'b');
    assert "A@b" == ['A', '@', 'b'] && "a@b" == ['a', '@', 'b'];
    assert StripLeft("A@b") == "A@b" && StripLeft("a@b") == "a@b";
    assert StripRight("A@b") == "A@b" && StripRight("a@b") == "a@b";
    assert "a@b"[1] == '@';
  }

  /** The run ends with two administrators who have one mailbox; nobody was actively invited at the bootstrap. */
  lemma TwoAdminsOneMailbox()
    ensures var s := Run(Start(0), TwoForOne());
            && 0 in s.admins && 1 in s.admins
            && SameMailbox(Normalize, s.admins[0].email, s.admins[1].email)
            && !ActivelyInvited(Start(0), "A@b") && !ActivelyInvited(Start(0), "a@b")
            && (forall k :: 0 <= k < |TwoForOne()| ==> OnNormalForms(Normalize, TwoForOne()[k]))
  {
    NormalFormOfExample();
    var ops := TwoForOne();
    assert ops == [DoBootstrap(0, "first", "A@b"), DoCreate(0, 0, Some("a@b"), Team.SuperAdmin, 10, 7),
                   DoAccept(0, 7, 1, "second", Address("a@b"))];
    TwoForOneRuns();
  }

  lemma TwoForOneRuns()
    ensures var s := Run(Start(0), [DoBootstrap(0, "first", "A@b"), DoCreate(0, 0, Some("a@b"), Team.SuperAdmin, 10, 7),
                                    DoAccept(0, 7, 1, "second", Address("a@b"))]);
            && 0 in s.admins && s.admins[0].email == "A@b"
            && 1 in s.admins && s.admins[1].email == "a@b"
  {
    var x, y, z := DoBootstrap(0, "first", "A@b"), DoCreate(0, 0, Some("a@b"), Team.SuperAdmin, 10, 7),
                   DoAccept(0, 7, 1, "second", Address("a@b"));
    assert [x, y, z][..2] == [x, y] && [x, y][..1] == [x] && [x][..0] == [];
    assert Run(Start(0), []) == Start(0);
    assert "A@b"[0] != "a@b"[0] && "first"[0] != "second"[0];
    var one := Step(Start(0), x);
    assert one.admins == map[0 := Admin("first", "A@b", Team.Admin(Team.SuperAdmin, true))];
    assert !EmailInUse(one, "a@b") && MayManage(one, 0);
    var two := Step(one, y);
    assert two.admins == one.admins && two.invitations[0] == Invitation("a@b", Team.SuperAdmin, 7, 0, 10, None, None, None);
    assert !SubjectInUse(two, "second") && !EmailInUse(two, "a@b");
    assert Run(Start(0), [x]) == one;
    assert Run(Start(0), [x, y]) == two;
  }
}
