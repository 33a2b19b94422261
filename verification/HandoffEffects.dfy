/**
  What each step of the mobile hand-off achieves: when it succeeds, and for how long the QR token and the phone
  credential then work.  Module Handoff says what can never work again.
*/
module HandoffEffects {
  import opened Common
  import opened Handoff
  import Lifecycle

  /** The same tables at another time. */
  function At(s: State, t: Time): State {
    s.(now := t)
  }

  // ---------------------------------------------------------------------------------------------
  // The QR token
  // ---------------------------------------------------------------------------------------------

  /**
    A desktop session can create a hand-off if and only if it is neither logged out nor expired, and its request exists,
    belongs to its user, still asks for evidence and is not overdue.
  */
  lemma CreatedIff(s: State, h: HandoffId, session: SessionId, token: Token)
    requires h !in s.handoffs && token !in s.used && session in s.sessions
    ensures h in Step(s, Create(h, session, token)).handoffs <==>
            var desktop := s.sessions[session];
            && !desktop.revoked && s.now < desktop.expiresAt
            && desktop.request in s.cases
            && s.cases[desktop.request].discordId == desktop.discordId && s.now < s.cases[desktop.request].expiresAt
            && (s.cases[desktop.request].status == Lifecycle.Pending || s.cases[desktop.request].status == Lifecycle.MoreInfo)
  {
  }

  /** The new hand-off can be exchanged for its whole lifetime, as long as its parents authorize it. */
  lemma NewHandoffIsGood(s: State, h: HandoffId, session: SessionId, token: Token, t: Time)
    requires CreateStep(s, h, session, token) != s && s.now <= t
    ensures var after := CreateStep(s, h, session, token);
            && h in after.handoffs && after.handoffs[h].token == token && after.handoffs[h].session == session
            && session in s.sessions && after.handoffs[h].request == s.sessions[session].request
            && (Exchangeable(At(after, t), h) <==>
                t < s.now + s.ttl && ParentsAuthorize(At(after, t), s.sessions[session].request, session))
  {
  }

  /** Hand-offs of other sessions, and those that were not open, stay as they are. */
  lemma CreatingWithdrawsOwnOnly(s: State, h: HandoffId, session: SessionId, token: Token, x: HandoffId)
    requires x in s.handoffs && !(s.handoffs[x].session == session && Open(s.handoffs[x], s.now))
    ensures x in CreateStep(s, h, session, token).handoffs && CreateStep(s, h, session, token).handoffs[x] == s.handoffs[x]
  {
  }

  // ---------------------------------------------------------------------------------------------
  // The phone credential
  // ---------------------------------------------------------------------------------------------

  /** A QR token is spent if and only if it can be exchanged. */
  lemma SpentIffExchangeable(s: State, h: HandoffId, phone: Token)
    requires h in s.handoffs && phone !in s.used
    ensures ExchangeStep(s, h, phone) != s <==> Exchangeable(s, h)
  {
    if Exchangeable(s, h) {
      assert phone in ExchangeStep(s, h, phone).used;
    }
  }

  /** The new credential works until the hand-off or the desktop session expires, as long as the parents authorize it. */
  lemma NewCredentialIsGood(s: State, h: HandoffId, phone: Token, t: Time)
    requires ExchangeStep(s, h, phone) != s && s.now <= t
    ensures var after := ExchangeStep(s, h, phone);
            && h in s.handoffs && s.handoffs[h].session in s.sessions
            && (Authorizes(At(after, t), h, phone) <==>
                && t < s.handoffs[h].expiresAt && t < s.sessions[s.handoffs[h].session].expiresAt
                && ParentsAuthorize(At(after, t), s.handoffs[h].request, s.handoffs[h].session))
  {
  }

  /** Exchanged, the phone is authorized at once. */
  lemma ExchangedIsAuthorized(s: State, h: HandoffId, phone: Token)
    requires Exchangeable(s, h) && phone !in s.used
    ensures Authorizes(ExchangeStep(s, h, phone), h, phone)
  {
  }

  lemma CreationLeavesParents(s: State, h: HandoffId, session: SessionId, token: Token, t: Time)
    requires CreateStep(s, h, session, token) != s
    ensures session in s.sessions
    ensures var after := CreateStep(s, h, session, token);
            && after.used == s.used + {token}
            && forall request :: ParentsAuthorize(At(after, t), request, session) <==> ParentsAuthorize(At(s, t), request, session)
  {
  }

  /** Create and wait for less than the lifetime: the hand-off can be exchanged, if the parents still authorize it by then. */
  lemma WaitedIsExchangeable(s: State, h: HandoffId, session: SessionId, token: Token, t: Time)
    requires CreateStep(s, h, session, token) != s && s.now <= t < s.now + s.ttl
    requires session in s.sessions && ParentsAuthorize(At(s, t), s.sessions[session].request, session)
    ensures Exchangeable(At(CreateStep(s, h, session, token), t), h)
    ensures At(CreateStep(s, h, session, token), t).used == s.used + {token}
  {
    NewHandoffIsGood(s, h, session, token, t);
    CreationLeavesParents(s, h, session, token, t);
  }

  lemma CreateThenTick(s: State, h: HandoffId, session: SessionId, token: Token, seconds: nat)
    ensures Step(Step(s, Create(h, session, token)), Tick(seconds)) == At(CreateStep(s, h, session, token), s.now + seconds)
  {
  }

  /** Then exchange: the phone is authorized. */
  lemma CreateWaitExchange(s: State, h: HandoffId, session: SessionId, token: Token, seconds: nat, phone: Token)
    requires CreateStep(s, h, session, token) != s && phone !in s.used && phone != token && seconds < s.ttl
    requires session in s.sessions && ParentsAuthorize(At(s, s.now + seconds), s.sessions[session].request, session)
    ensures Authorizes(Step(Step(Step(s, Create(h, session, token)), Tick(seconds)), Exchange(h, phone)), h, phone)
  {
    CreateThenTick(s, h, session, token, seconds);
    WaitedIsExchangeable(s, h, session, token, s.now + seconds);
    ExchangedIsAuthorized(At(CreateStep(s, h, session, token), s.now + seconds), h, phone);
  }

  /** An upload through the phone leaves the credential as it was; so does anything it refuses. */
  lemma UploadKeepsCredential(s: State, h: HandoffId, phone: Token, stored: bool, t: Time)
    requires Sound(s) && Authorizes(s, h, phone)
    ensures UploadStep(s, h, phone, stored) == s
  {
    assert RowSound(s, s.handoffs[h]);
    assert s.handoffs[h].(status := Connected) == s.handoffs[h];
  }

  /** Completion succeeds for an accepted credential with everything uploaded, and closes the hand-off at that moment. */
  lemma CompletedIffAccepted(s: State, h: HandoffId, phone: Token, complete: bool)
    requires h in s.handoffs && (s.handoffs[h].completedAt.Some? ==> !Authorizes(s, h, phone))
    ensures var after := CompleteStep(s, h, phone, complete);
            && (after != s <==> Authorizes(s, h, phone) && complete)
            && (after != s ==>
                  after.handoffs[h].completedAt == Some(s.now) && after.handoffs[h].status == Completed
                  && after.handoffs[h].phone.None? && !Open(after.handoffs[h], s.now))
  {
    if Authorizes(s, h, phone) && complete {
      assert CompleteStep(s, h, phone, complete).handoffs[h].completedAt != s.handoffs[h].completedAt;
    }
  }

  /** A desktop session withdraws its own hand-off, whatever its state, and no other hand-off. */
  lemma WithdrawnIffOwn(s: State, h: HandoffId, session: SessionId, x: HandoffId)
    requires x in s.handoffs
    ensures var after := Step(s, Revoke(h, session));
            && x in after.handoffs
            && (if x == h && s.handoffs[x].session == session
                then after.handoffs[x].revokedAt == Some(s.now) && after.handoffs[x].status == Revoked && after.handoffs[x].phone.None?
                else after.handoffs[x] == s.handoffs[x])
  {
  }

  // ---------------------------------------------------------------------------------------------
  // The parents
  // ---------------------------------------------------------------------------------------------

  lemma StepKeepsLoggedOut(s: State, op: Op, session: SessionId)
    requires session in s.sessions && s.sessions[session].revoked
    ensures session in Step(s, op).sessions && Step(s, op).sessions[session].revoked
  {
  }

  /** After the desktop session is logged out, none of its hand-offs can be exchanged, and no phone of it is accepted, ever again. */
  lemma {:induction false} LogOutIsForGood(s: State, session: SessionId, later: seq<Op>, h: HandoffId, phone: Token)
    requires session in s.sessions
    ensures var after := Run(Step(s, LogOut(session)), later);
            && session in after.sessions && after.sessions[session].revoked
            && (h in after.handoffs && after.handoffs[h].session == session ==>
                  !Exchangeable(after, h) && !Authorizes(after, h, phone))
  {
    if later != [] {
      LogOutIsForGood(s, session, later[..|later| - 1], h, phone);
      StepKeepsLoggedOut(Run(Step(s, LogOut(session)), later[..|later| - 1]), later[|later| - 1], session);
    }
  }

  /** After a login the desktop session stands for its user and request, for as long as asked. */
  lemma LoggedInUntil(s: State, session: SessionId, request: RequestId, discordId: DiscordId, lifetime: nat, t: Time)
    requires session !in s.sessions
    ensures var after := At(Step(s, LogIn(session, request, discordId, lifetime)), t);
            ParentsAuthorize(after, request, session) <==>
              && t < s.now + lifetime
              && request in s.cases && s.cases[request].discordId == discordId && AllowsCapture(s.cases[request], t)
  {
  }

  /**
    In every sound state a phone works if and only if its credential is the stored one, the hand-off has not expired,
    and its desktop session could create a hand-off for the same request now.
  */
  lemma PhoneWorksIff(s: State, h: HandoffId, phone: Token, other: HandoffId, token: Token)
    requires Sound(s) && h in s.handoffs && other !in s.handoffs && token !in s.used
    ensures Authorizes(s, h, phone) <==>
            var row := s.handoffs[h];
            && row.phone == Some(phone) && s.now < row.expiresAt
            && row.session in s.sessions && s.sessions[row.session].request == row.request
            && other in Step(s, Create(other, row.session, token)).handoffs
  {
    ThreeChecksDecide(s, h, phone);
  }
}
