/**
  What each step on administrator sessions achieves: who gets in, for how long, and which sessions make room.
  Module Sessions says what can never get in again; these laws say what does.
*/
module SessionEffects {
  import opened Common
  import opened SessionLimit
  import opened Sessions

  // ---------------------------------------------------------------------------------------------
  // Logging in
  // ---------------------------------------------------------------------------------------------

  /** A login with new id and token gets a session if and only if the account was active when it was read. */
  lemma LoginOpensIffActive(s: State, login: LoginId, x: SessionId, token: Token)
    requires login in s.logins && x !in s.sessions && token !in s.used && Configured(s.settings)
    ensures x in Step(s, Insert(login, x, token)).sessions <==> s.logins[login].account.active
    ensures login !in Step(s, Insert(login, x, token)).logins
  {
  }

  /** What is read is the account as it is at that moment. */
  lemma LoginReadsTheAccount(s: State, login: LoginId, admin: AdminId)
    requires login !in s.logins && admin in s.accounts
    ensures var after := Step(s, ReadAdmin(login, admin));
            login in after.logins && after.logins[login].admin == admin
            && after.logins[login].account == s.accounts[admin] && after.logins[login].readAt == |s.log|
  {
  }

  /** The row of the new session, which the cap never takes away. */
  lemma NewSessionStays(s: State, login: LoginId, x: SessionId, token: Token)
    requires login in s.logins && x !in s.sessions && token !in s.used && Configured(s.settings) && s.logins[login].account.active
    ensures var after := Step(s, Insert(login, x, token));
            && x in after.sessions && after.accounts == s.accounts && after.settings == s.settings && after.now == s.now
            && after.sessions[x] == Session(s.logins[login].admin, token, s.logins[login].account.version, s.now, s.now,
                                            s.now + s.settings.absoluteLifetime, false)
  {
    assert s.now + s.settings.absoluteLifetime > s.now;
  }

  /**
    The new session is valid for the idle timeout, and no longer than the absolute lifetime, if and only if the
    account has not been invalidated since it was read; and its token opens it.
  */
  lemma NewSessionIsGood(s: State, login: LoginId, x: SessionId, token: Token, t: Time)
    requires Agrees(s) && s.now <= t
    requires login in s.logins && x !in s.sessions && token !in s.used && Configured(s.settings) && s.logins[login].account.active
    ensures var after := Step(s, Insert(login, x, token));
            && (ValidAt(after, x, t) <==>
                && t < s.now + s.settings.idleTimeout
                && !InvalidatedSince(s.log, s.logins[login].admin, s.logins[login].readAt))
            && (ValidAt(after, x, t) ==> Accepts(after, token, t))
  {
    var snapshot := s.logins[login];
    NewSessionStays(s, login, x, token);
    assert LoginAgrees(s, snapshot);
    CountMovesIffInvalidated(s.log, snapshot.admin, snapshot.readAt);
  }

  // ---------------------------------------------------------------------------------------------
  // Making room
  // ---------------------------------------------------------------------------------------------

  /** Of two sessions, by the log: born later, or at the same time with the higher id. */
  predicate BornLater(log: seq<Event>, x: SessionId, y: SessionId) {
    && BirthOf(log, x).Some? && BirthOf(log, y).Some?
    && (BirthOf(log, x).value.at > BirthOf(log, y).value.at
        || (BirthOf(log, x).value.at == BirthOf(log, y).value.at && x > y))
  }

  /**
    A login ends only active sessions of the same administrator, and each of them was, by the log, born before
    every other session of that administrator that stays active.
  */
  lemma OldestMakeRoom(s: State, login: LoginId, x: SessionId, token: Token, gone: SessionId, kept: SessionId)
    requires Agrees(s) && login in s.logins && x !in s.sessions
    requires var after := Step(s, Insert(login, x, token));
             && gone in s.sessions && !s.sessions[gone].revoked && after.sessions[gone].revoked
             && kept in s.sessions && kept in Active(after.sessions, s.logins[login].admin, s.now)
    ensures s.sessions[gone].admin == s.logins[login].admin && gone in Active(s.sessions, s.logins[login].admin, s.now)
    ensures BornLater(s.log, kept, gone)
  {
    var admin, maximum := s.logins[login].admin, s.settings.maxActive;
    var inserted := s.sessions[x := NewSession(s, s.logins[login], token)];
    var others := Active(inserted, admin, s.now) - {x};
    EvictedOthers(s, login, x, token, gone, kept);
    KeptAreNewer(inserted, others, maximum - 1, kept, gone);
    assert SessionAgrees(s, kept, s.sessions[kept]) && SessionAgrees(s, gone, s.sessions[gone]);
  }

  lemma EvictedOthers(s: State, login: LoginId, x: SessionId, token: Token, gone: SessionId, kept: SessionId)
    requires login in s.logins && x !in s.sessions
    requires var after := Step(s, Insert(login, x, token));
             && gone in s.sessions && !s.sessions[gone].revoked && after.sessions[gone].revoked
             && kept in s.sessions && kept in Active(after.sessions, s.logins[login].admin, s.now)
    ensures Configured(s.settings)
    ensures var admin := s.logins[login].admin;
            var inserted := s.sessions[x := NewSession(s, s.logins[login], token)];
            var others := Active(inserted, admin, s.now) - {x};
            && gone in Active(s.sessions, admin, s.now)
            && kept in Newest(inserted, others, s.settings.maxActive - 1)
            && gone in others - Newest(inserted, others, s.settings.maxActive - 1)
  {
  }

  // ---------------------------------------------------------------------------------------------
  // Using, rotating, ending
  // ---------------------------------------------------------------------------------------------

  /** A valid use starts the idle clock again, and changes nothing else. */
  lemma UseRenewsIdleClock(s: State, x: SessionId, t: Time)
    requires ValidAt(s, x, s.now) && s.now <= t
    ensures var after := Step(s, Validate(x));
            && (ValidAt(after, x, t) <==> t < s.now + s.settings.idleTimeout && t < s.sessions[x].expiresAt)
            && after.sessions == s.sessions[x := s.sessions[x].(lastSeen := s.now)] && after.accounts == s.accounts
  {
  }

  /** A rotation succeeds while the session is neither revoked nor expired, and then only the new token opens it. */
  lemma RotationRenews(s: State, x: SessionId, token: Token, t: Time)
    requires DistinctTokens(s) && x in s.sessions && s.sessions[x].admin in s.accounts && token !in s.used && s.now <= t
    ensures Step(s, Rotate(x, token)) != s <==> !s.sessions[x].revoked && s.now < s.sessions[x].expiresAt
    ensures Step(s, Rotate(x, token)) != s ==>
              var after := Step(s, Rotate(x, token));
              var account := s.accounts[s.sessions[x].admin];
              && after.sessions[x].token == token && Retired(after, s.sessions[x].token)
              && (ValidAt(after, x, t) <==>
                  && t < s.now + s.settings.idleTimeout && t < s.sessions[x].expiresAt
                  && account.active && account.version == s.sessions[x].version)
  {
    if !s.sessions[x].revoked && s.now < s.sessions[x].expiresAt {
      assert Step(s, Rotate(x, token)).log != s.log;
    }
  }

  /** A revoked session stays revoked. */
  lemma {:induction false} RevokedStaysRevoked(s: State, ops: seq<Op>, x: SessionId)
    requires x in s.sessions && s.sessions[x].revoked
    ensures x in Run(s, ops).sessions && Run(s, ops).sessions[x].revoked
  {
    if ops != [] {
      RevokedStaysRevoked(s, ops[..|ops| - 1], x);
      StepKeepsRevoked(Run(s, ops[..|ops| - 1]), ops[|ops| - 1], x);
    }
  }

  lemma StepKeepsRevoked(s: State, op: Op, x: SessionId)
    requires x in s.sessions && s.sessions[x].revoked
    ensures x in Step(s, op).sessions && Step(s, op).sessions[x].revoked
  {
  }

  /** Signing a session out is for good, and is about that session only. */
  lemma SignOutIsForGood(s: State, x: SessionId, later: seq<Op>, t: Time)
    requires x in s.sessions
    ensures !ValidAt(Run(Step(s, Revoke(x)), later), x, t)
    ensures forall y :: y in s.sessions && y != x ==> Step(s, Revoke(x)).sessions[y] == s.sessions[y]
  {
    RevokedStaysRevoked(Step(s, Revoke(x)), later, x);
  }

  /** An invalidation leaves the account as asked, with the next version, and touches nobody else. */
  lemma InvalidationChangesOneAccount(s: State, admin: AdminId, active: bool)
    requires admin in s.accounts
    ensures var after := Step(s, Invalidate(admin, active));
            && after.accounts == s.accounts[admin := Account(active, s.accounts[admin].version + 1)]
            && forall x :: x in s.sessions && s.sessions[x].admin != admin ==> x in after.sessions && after.sessions[x] == s.sessions[x]
  {
  }

  // ---------------------------------------------------------------------------------------------
  // Logging in anew
  // ---------------------------------------------------------------------------------------------

  /** A new account is active, and no existing one changes. */
  lemma ProvisionedIsActive(s: State, admin: AdminId)
    requires admin !in s.accounts
    ensures Step(s, Provision(admin)).accounts.Keys == s.accounts.Keys + {admin} && Step(s, Provision(admin)).accounts[admin].active
    ensures forall a :: a in s.accounts ==> Step(s, Provision(admin)).accounts[a] == s.accounts[a]
  {
  }

  /** After an account was enabled, reading it anew and inserting a session lets the administrator in. */
  lemma EnabledCanLogIn(s: State, admin: AdminId, login: LoginId, x: SessionId, token: Token)
    requires Agrees(s) && admin in s.accounts && Configured(s.settings)
    requires login !in s.logins && x !in s.sessions && token !in s.used
    ensures var enabled := Step(s, Invalidate(admin, true));
            var after := Step(Step(enabled, ReadAdmin(login, admin)), Insert(login, x, token));
            Accepts(after, token, s.now)
  {
    var enabled := Step(s, Invalidate(admin, true));
    InvalidationChangesOneAccount(s, admin, true);
    StepKeepsAgrees(s, Invalidate(admin, true));
    LoginReadsTheAccount(enabled, login, admin);
    StepKeepsAgrees(enabled, ReadAdmin(login, admin));
    NewSessionIsGood(Step(enabled, ReadAdmin(login, admin)), login, x, token, s.now);
  }
}
