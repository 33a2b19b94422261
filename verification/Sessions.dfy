/**
  Server-managed administrator sessions as a step system.  Login reads the administrator row and inserts
  the session later, so an account can be disabled, changed or forcibly signed out in between.  Tokens
  stand for their digests; a generated token has never been used before.
*/
module Sessions {
  import opened Common
  import opened SessionLimit

  type LoginId = nat

  datatype Settings = Settings(idleTimeout: nat, absoluteLifetime: nat, maxActive: nat)

  /** What the service insists on before it does anything. */
  predicate Configured(c: Settings) {
    0 < c.idleTimeout <= c.absoluteLifetime && c.maxActive > 0
  }

  datatype Account = Account(active: bool, version: nat)

  /** The administrator row as the login read it, and how long the log was then. */
  datatype Snapshot = Snapshot(admin: AdminId, account: Account, readAt: nat)

  /** What happened, in order of commitment. */
  datatype Event =
    | Invalidated(admin: AdminId)
    | Created(session: SessionId, owner: AdminId, readAt: nat, token: Token, at: Time)
    | Touched(session: SessionId, at: Time)
    | Rotated(session: SessionId, token: Token, at: Time)
    | Ended(sessions: set<SessionId>)

  datatype State = State(
    settings: Settings,
    now: Time,
    accounts: map<AdminId, Account>,
    sessions: Table,
    logins: map<LoginId, Snapshot>,
    used: set<Token>,
    log: seq<Event>)

  function Fresh(settings: Settings, now: Time): State {
    State(settings, now, map[], map[], map[], {}, [])
  }

  datatype Op =
    | Tick(seconds: nat)
    | Provision(admin: AdminId)
    | Invalidate(admin: AdminId, active: bool)
    | ReadAdmin(login: LoginId, admin: AdminId)
    | Insert(login: LoginId, session: SessionId, token: Token)
    | Validate(session: SessionId)
    | Rotate(session: SessionId, token: Token)
    | Revoke(session: SessionId)

  // ---------------------------------------------------------------------------------------------
  // Validation from the stored columns
  // ---------------------------------------------------------------------------------------------

  datatype Failure = RevokedSession | AbsoluteExpiry | IdleTimeout | AdminDisabled | SecurityChanged

  /** The checks in their order; None means that the session is valid. */
  function Check(s: Session, account: Account, settings: Settings, t: Time): Option<Failure> {
    if s.revoked then Some(RevokedSession)
    else if s.expiresAt <= t then Some(AbsoluteExpiry)
    else if s.lastSeen + settings.idleTimeout <= t then Some(IdleTimeout)
    else if !account.active then Some(AdminDisabled)
    else if s.version != account.version then Some(SecurityChanged)
    else None
  }

  predicate ValidAt(s: State, session: SessionId, t: Time) {
    && session in s.sessions
    && s.sessions[session].admin in s.accounts
    && Check(s.sessions[session], s.accounts[s.sessions[session].admin], s.settings, t) == None
  }

  /** Does a raw token open anything at time t? */
  ghost predicate Accepts(s: State, token: Token, t: Time) {
    exists x :: x in s.sessions && s.sessions[x].token == token && ValidAt(s, x, t)
  }

  // ---------------------------------------------------------------------------------------------
  // Steps
  // ---------------------------------------------------------------------------------------------

  function InvalidateStep(s: State, admin: AdminId, active: bool): State {
    if admin !in s.accounts then s
    else
      var doomed := Active(s.sessions, admin, s.now);
      s.(accounts := s.accounts[admin := Account(active, s.accounts[admin].version + 1)],
         sessions := RevokeSet(s.sessions, doomed),
         log := s.log + [Invalidated(admin)] + [Ended(doomed)])
  }

  function NewSession(s: State, snapshot: Snapshot, token: Token): Session {
    Session(snapshot.admin, token, snapshot.account.version, s.now, s.now,
            s.now + s.settings.absoluteLifetime, false)
  }

  function InsertStep(s: State, login: LoginId, session: SessionId, token: Token): State {
    if login !in s.logins || session in s.sessions || token in s.used || !Configured(s.settings) then s
    else
      var snapshot := s.logins[login];
      var waiting := s.(logins := s.logins - {login});
      if !snapshot.account.active then waiting
      else
        var inserted := s.sessions[session := NewSession(s, snapshot, token)];
        var doomed := Evicted(inserted, snapshot.admin, session, s.settings.maxActive, s.now);
        waiting.(sessions := RevokeSet(inserted, doomed),
                 used := s.used + {token},
                 log := s.log + [Created(session, snapshot.admin, snapshot.readAt, token, s.now)] + [Ended(doomed)])
  }

  function RotateStep(s: State, session: SessionId, token: Token): State {
    if session !in s.sessions || token in s.used then s
    else if s.sessions[session].revoked || s.sessions[session].expiresAt <= s.now then s
    else
      s.(sessions := s.sessions[session := s.sessions[session].(token := token, lastSeen := s.now)],
         used := s.used + {token},
         log := s.log + [Rotated(session, token, s.now)])
  }

  function Step(s: State, op: Op): State {
    match op
    case Tick(seconds) => s.(now := s.now + seconds)
    case Provision(a) => if a in s.accounts then s else s.(accounts := s.accounts[a := Account(true, 1)])
    case Invalidate(a, active) => InvalidateStep(s, a, active)
    case ReadAdmin(l, a) =>
      if l in s.logins || a !in s.accounts then s
      else s.(logins := s.logins[l := Snapshot(a, s.accounts[a], |s.log|)])
    case Insert(l, x, token) => InsertStep(s, l, x, token)
    case Validate(x) =>
      if !ValidAt(s, x, s.now) then s
      else s.(sessions := s.sessions[x := s.sessions[x].(lastSeen := s.now)], log := s.log + [Touched(x, s.now)])
    case Rotate(x, token) => RotateStep(s, x, token)
    case Revoke(x) =>
      if x !in s.sessions then s
      else s.(sessions := RevokeSet(s.sessions, {x}), log := s.log + [Ended({x})])
  }

  function Run(s: State, ops: seq<Op>): State {
    if ops == [] then s else Step(Run(s, ops[..|ops| - 1]), ops[|ops| - 1])
  }

  // ---------------------------------------------------------------------------------------------
  // Validation from the history
  // ---------------------------------------------------------------------------------------------

  datatype Birth = Birth(owner: AdminId, readAt: nat, at: Time)

  function BirthOf(log: seq<Event>, x: SessionId): Option<Birth> {
    if log == [] then None
    else
      match log[|log| - 1]
      case Created(s, owner, readAt, _, at) =>
        if s == x then Some(Birth(owner, readAt, at)) else BirthOf(log[..|log| - 1], x)
      case _ => BirthOf(log[..|log| - 1], x)
  }

  /** The token of the latest creation or rotation. */
  function TokenOf(log: seq<Event>, x: SessionId): Option<Token> {
    if log == [] then None
    else
      match log[|log| - 1]
      case Created(s, _, _, token, _) => if s == x then Some(token) else TokenOf(log[..|log| - 1], x)
      case Rotated(s, token, _) => if s == x then Some(token) else TokenOf(log[..|log| - 1], x)
      case _ => TokenOf(log[..|log| - 1], x)
  }

  /** When the session was last created, used or rotated. */
  function LastActivity(log: seq<Event>, x: SessionId): Option<Time> {
    if log == [] then None
    else
      match log[|log| - 1]
      case Created(s, _, _, _, at) => if s == x then Some(at) else LastActivity(log[..|log| - 1], x)
      case Touched(s, at) => if s == x then Some(at) else LastActivity(log[..|log| - 1], x)
      case Rotated(s, _, at) => if s == x then Some(at) else LastActivity(log[..|log| - 1], x)
      case _ => LastActivity(log[..|log| - 1], x)
  }

  predicate EndedIn(log: seq<Event>, x: SessionId) {
    exists i :: 0 <= i < |log| && log[i].Ended? && x in log[i].sessions
  }

  predicate InvalidatedSince(log: seq<Event>, admin: AdminId, start: nat) {
    exists i :: start <= i < |log| && log[i] == Invalidated(admin)
  }

  /**
    The session was opened from an administrator row that nobody has invalidated since it was read, it was
    never ended, and both clocks are still running.
  */
  predicate HistoryAllows(log: seq<Event>, settings: Settings, x: SessionId, t: Time) {
    && BirthOf(log, x).Some?
    && LastActivity(log, x).Some?
    && !EndedIn(log, x)
    && t < BirthOf(log, x).value.at + settings.absoluteLifetime
    && t < LastActivity(log, x).value + settings.idleTimeout
    && !InvalidatedSince(log, BirthOf(log, x).value.owner, BirthOf(log, x).value.readAt)
  }

  // ---------------------------------------------------------------------------------------------
  // The columns agree with the history
  // ---------------------------------------------------------------------------------------------

  function Invalidations(log: seq<Event>, admin: AdminId): nat {
    if log == [] then 0
    else Invalidations(log[..|log| - 1], admin) + if log[|log| - 1] == Invalidated(admin) then 1 else 0
  }

  /** An account version taken when the log had length `readAt`. */
  predicate TakenAt(s: State, admin: AdminId, version: nat, readAt: nat) {
    readAt <= |s.log| && version == 1 + Invalidations(s.log[..readAt], admin)
  }

  predicate SessionAgrees(s: State, x: SessionId, row: Session) {
    && row.admin in s.accounts
    && BirthOf(s.log, x).Some?
    && BirthOf(s.log, x).value.owner == row.admin
    && BirthOf(s.log, x).value.at == row.createdAt
    && BirthOf(s.log, x).value.at + s.settings.absoluteLifetime == row.expiresAt
    && TakenAt(s, row.admin, row.version, BirthOf(s.log, x).value.readAt)
    && TokenOf(s.log, x) == Some(row.token)
    && LastActivity(s.log, x) == Some(row.lastSeen)
    && (EndedIn(s.log, x) <==> row.revoked)
    && (row.version == s.accounts[row.admin].version ==> s.accounts[row.admin].active)
    && row.token in s.used
  }

  predicate LoginAgrees(s: State, snapshot: Snapshot) {
    && snapshot.admin in s.accounts
    && TakenAt(s, snapshot.admin, snapshot.account.version, snapshot.readAt)
    && (snapshot.account.version == s.accounts[snapshot.admin].version ==> snapshot.account == s.accounts[snapshot.admin])
  }

  ghost predicate Agrees(s: State) {
    && (forall x :: x in s.sessions ==> SessionAgrees(s, x, s.sessions[x]))
    && (forall x :: x !in s.sessions ==> BirthOf(s.log, x) == None && TokenOf(s.log, x) == None && !EndedIn(s.log, x))
    && (forall l :: l in s.logins ==> LoginAgrees(s, s.logins[l]))
    && (forall a :: a in s.accounts ==> s.accounts[a].version == 1 + Invalidations(s.log, a))
    && (forall a :: a !in s.accounts ==> Invalidations(s.log, a) == 0)
  }

  /** What one more event changes for one session and one account. */
  lemma Appended(log: seq<Event>, e: Event, x: SessionId, a: AdminId)
    ensures var longer := log + [e];
            && log <= longer
            && BirthOf(longer, x) == (if e.Created? && e.session == x then Some(Birth(e.owner, e.readAt, e.at))
                                      else BirthOf(log, x))
            && TokenOf(longer, x) == (if (e.Created? || e.Rotated?) && e.session == x then Some(e.token)
                                      else TokenOf(log, x))
            && LastActivity(longer, x) == (if (e.Created? || e.Rotated? || e.Touched?) && e.session == x then Some(e.at)
                                           else LastActivity(log, x))
            && (EndedIn(longer, x) <==> EndedIn(log, x) || (e.Ended? && x in e.sessions))
            && Invalidations(longer, a) == Invalidations(log, a) + (if e == Invalidated(a) then 1 else 0)
  {
  }

  /** Counting in a prefix of a longer log. */
  lemma TakenAtIsStable(s: State, longer: State, admin: AdminId, version: nat, readAt: nat)
    requires TakenAt(s, admin, version, readAt) && s.log <= longer.log
    ensures TakenAt(longer, admin, version, readAt)
  {
    assert longer.log[..readAt] == s.log[..readAt];
  }

  /** The count stays put over a stretch of the log exactly if nothing in it invalidates the account. */
  lemma {:induction false} CountMovesIffInvalidated(log: seq<Event>, admin: AdminId, readAt: nat)
    requires readAt <= |log|
    ensures Invalidations(log[..readAt], admin) <= Invalidations(log, admin)
    ensures Invalidations(log[..readAt], admin) == Invalidations(log, admin) <==> !InvalidatedSince(log, admin, readAt)
    decreases |log|
  {
    if readAt == |log| {
      assert log[..readAt] == log;
    } else {
      var shorter := log[..|log| - 1];
      assert shorter[..readAt] == log[..readAt];
      CountMovesIffInvalidated(shorter, admin, readAt);
      assert log[|log| - 1] == Invalidated(admin) ==> InvalidatedSince(log, admin, readAt);
      if i :| readAt <= i < |shorter| && shorter[i] == Invalidated(admin) {
        assert log[i] == Invalidated(admin);
      }
    }
  }

  /** An event about other things leaves a session's and an account's story alone. */
  lemma OthersStillAgree(s: State, after: State, e: Event)
    requires Agrees(s) && after.log == s.log + [e] && after.settings == s.settings
    requires after.accounts == s.accounts && after.logins.Items <= s.logins.Items && !e.Invalidated?
    ensures forall l :: l in after.logins ==> LoginAgrees(after, after.logins[l])
    ensures forall a :: a in s.accounts ==> after.accounts[a].version == 1 + Invalidations(after.log, a)
    ensures forall a :: a !in s.accounts ==> Invalidations(after.log, a) == 0
  {
    forall l | l in after.logins ensures LoginAgrees(after, after.logins[l]) {
      assert (l, after.logins[l]) in after.logins.Items;
      assert (l, after.logins[l]) in s.logins.Items;
      TakenAtIsStable(s, after, after.logins[l].admin, after.logins[l].account.version, after.logins[l].readAt);
    }
    forall a ensures Invalidations(after.log, a) == Invalidations(s.log, a) {
      Appended(s.log, e, 0, a);
    }
  }

  /** A session's row after an event other than a creation. */
  function RowAfter(row: Session, x: SessionId, e: Event): Session {
    match e
    case Touched(y, at) => if x == y then row.(lastSeen := at) else row
    case Rotated(y, token, at) => if x == y then row.(token := token, lastSeen := at) else row
    case Ended(xs) => if x in xs then row.(revoked := true) else row
    case _ => row
  }

  /** A session that an event does not concern, or whose row moves along with it, still agrees. */
  lemma SessionStillAgrees(s: State, after: State, e: Event, x: SessionId)
    requires Agrees(s) && after.log == s.log + [e] && after.settings == s.settings && after.accounts == s.accounts
    requires x in s.sessions && x in after.sessions && s.used <= after.used && !e.Invalidated? && !e.Created?
    requires after.sessions[x] == RowAfter(s.sessions[x], x, e)
    requires e.Rotated? ==> e.token in after.used
    ensures SessionAgrees(after, x, after.sessions[x])
  {
    Appended(s.log, e, x, s.sessions[x].admin);
    TakenAtIsStable(s, after, s.sessions[x].admin, s.sessions[x].version, BirthOf(s.log, x).value.readAt);
  }

  lemma PlainEventKeepsAgrees(s: State, after: State, e: Event)
    requires Agrees(s) && after.log == s.log + [e] && after.settings == s.settings && after.accounts == s.accounts
    requires after.logins == s.logins && s.used <= after.used && !e.Invalidated? && !e.Created?
    requires after.sessions.Keys == s.sessions.Keys
    requires (e.Touched? || e.Rotated?) ==> e.session in s.sessions
    requires e.Ended? ==> e.sessions <= s.sessions.Keys
    requires e.Rotated? ==> e.token in after.used
    requires forall x :: x in s.sessions ==> after.sessions[x] == RowAfter(s.sessions[x], x, e)
    ensures Agrees(after)
  {
    OthersStillAgree(s, after, e);
    forall x | x in after.sessions ensures SessionAgrees(after, x, after.sessions[x]) {
      SessionStillAgrees(s, after, e, x);
    }
    forall x | x !in after.sessions
      ensures BirthOf(after.log, x) == None && TokenOf(after.log, x) == None && !EndedIn(after.log, x)
    {
      Appended(s.log, e, x, 0);
    }
  }

  lemma EndingKeepsAgrees(s: State, doomed: set<SessionId>)
    requires Agrees(s) && doomed <= s.sessions.Keys
    ensures Agrees(s.(sessions := RevokeSet(s.sessions, doomed), log := s.log + [Ended(doomed)]))
  {
    PlainEventKeepsAgrees(s, s.(sessions := RevokeSet(s.sessions, doomed), log := s.log + [Ended(doomed)]), Ended(doomed));
  }

  lemma CreatingKeepsAgrees(s: State, login: LoginId, x: SessionId, token: Token)
    requires Agrees(s) && login in s.logins && x !in s.sessions && s.logins[login].account.active
    ensures var snapshot := s.logins[login];
            Agrees(s.(sessions := s.sessions[x := NewSession(s, snapshot, token)],
                      logins := s.logins - {login},
                      used := s.used + {token},
                      log := s.log + [Created(x, snapshot.admin, snapshot.readAt, token, s.now)]))
  {
    var snapshot := s.logins[login];
    var e := Created(x, snapshot.admin, snapshot.readAt, token, s.now);
    var after := s.(sessions := s.sessions[x := NewSession(s, snapshot, token)],
                    logins := s.logins - {login}, used := s.used + {token}, log := s.log + [e]);
    OthersStillAgree(s, after, e);
    forall y | y in after.sessions ensures SessionAgrees(after, y, after.sessions[y]) {
      var row := after.sessions[y];
      Appended(s.log, e, y, row.admin);
      if y == x {
        TakenAtIsStable(s, after, snapshot.admin, snapshot.account.version, snapshot.readAt);
      } else {
        TakenAtIsStable(s, after, row.admin, row.version, BirthOf(s.log, y).value.readAt);
      }
    }
    forall y | y !in after.sessions
      ensures BirthOf(after.log, y) == None && TokenOf(after.log, y) == None && !EndedIn(after.log, y)
    {
      Appended(s.log, e, y, 0);
    }
  }

  lemma InvalidatingKeepsAgrees(s: State, admin: AdminId, active: bool)
    requires Agrees(s) && admin in s.accounts
    ensures Agrees(s.(accounts := s.accounts[admin := Account(active, s.accounts[admin].version + 1)],
                      log := s.log + [Invalidated(admin)]))
  {
    var e := Invalidated(admin);
    var after := s.(accounts := s.accounts[admin := Account(active, s.accounts[admin].version + 1)], log := s.log + [e]);
    forall x | x in after.sessions ensures SessionAgrees(after, x, after.sessions[x]) {
      var row := s.sessions[x];
      Appended(s.log, e, x, row.admin);
      TakenAtIsStable(s, after, row.admin, row.version, BirthOf(s.log, x).value.readAt);
      CountMovesIffInvalidated(s.log, row.admin, BirthOf(s.log, x).value.readAt);
    }
    forall x | x !in after.sessions
      ensures BirthOf(after.log, x) == None && TokenOf(after.log, x) == None && !EndedIn(after.log, x)
    {
      Appended(s.log, e, x, 0);
    }
    forall l | l in after.logins ensures LoginAgrees(after, after.logins[l]) {
      var snapshot := s.logins[l];
      TakenAtIsStable(s, after, snapshot.admin, snapshot.account.version, snapshot.readAt);
      CountMovesIffInvalidated(s.log, snapshot.admin, snapshot.readAt);
    }
    forall a ensures Invalidations(after.log, a) == Invalidations(s.log, a) + if a == admin then 1 else 0 {
      Appended(s.log, e, 0, a);
    }
  }

  lemma ReadingKeepsAgrees(s: State, login: LoginId, admin: AdminId)
    requires Agrees(s)
    ensures Agrees(Step(s, ReadAdmin(login, admin)))
    ensures Agrees(Step(s, Provision(admin)))
  {
    assert s.log[..|s.log|] == s.log;
    var provisioned := Step(s, Provision(admin));
    forall x | x in s.sessions ensures SessionAgrees(provisioned, x, s.sessions[x]) {
      assert SessionAgrees(s, x, s.sessions[x]);
    }
    forall l | l in s.logins ensures LoginAgrees(provisioned, s.logins[l]) {
      assert LoginAgrees(s, s.logins[l]);
    }
    var read := Step(s, ReadAdmin(login, admin));
    forall x | x in s.sessions ensures SessionAgrees(read, x, s.sessions[x]) {
      assert SessionAgrees(s, x, s.sessions[x]);
    }
    forall l | l in read.logins ensures LoginAgrees(read, read.logins[l]) {
      assert l in s.logins ==> LoginAgrees(s, s.logins[l]);
    }
  }

  lemma ValidateKeepsAgrees(s: State, x: SessionId)
    requires Agrees(s)
    ensures Agrees(Step(s, Validate(x)))
  {
    if ValidAt(s, x, s.now) {
      PlainEventKeepsAgrees(s, Step(s, Validate(x)), Touched(x, s.now));
    }
  }

  lemma RotateKeepsAgrees(s: State, x: SessionId, token: Token)
    requires Agrees(s)
    ensures Agrees(RotateStep(s, x, token))
  {
    if RotateStep(s, x, token) != s {
      PlainEventKeepsAgrees(s, RotateStep(s, x, token), Rotated(x, token, s.now));
    }
  }

  lemma TickKeepsAgrees(s: State, seconds: nat)
    requires Agrees(s)
    ensures Agrees(s.(now := s.now + seconds))
  {
    var after := s.(now := s.now + seconds);
    forall x | x in s.sessions ensures SessionAgrees(after, x, s.sessions[x]) {
      assert SessionAgrees(s, x, s.sessions[x]);
    }
    forall l | l in s.logins ensures LoginAgrees(after, s.logins[l]) {
      assert LoginAgrees(s, s.logins[l]);
    }
  }

  lemma InvalidateKeepsAgrees(s: State, a: AdminId, active: bool)
    requires Agrees(s)
    ensures Agrees(InvalidateStep(s, a, active))
  {
    if a in s.accounts {
      var account := Account(active, s.accounts[a].version + 1);
      var raised := s.(accounts := s.accounts[a := account], log := s.log + [Invalidated(a)]);
      var doomed := Active(s.sessions, a, s.now);
      var ended := raised.(sessions := RevokeSet(raised.sessions, doomed), log := raised.log + [Ended(doomed)]);
      InvalidatingKeepsAgrees(s, a, active);
      EndingKeepsAgrees(raised, doomed);
      assert InvalidateStep(s, a, active) == ended;
    }
  }

  lemma StepKeepsAgrees(s: State, op: Op)
    requires Agrees(s)
    ensures Agrees(Step(s, op))
  {
    match op
    case Tick(seconds) => TickKeepsAgrees(s, seconds);
    case Provision(a) => ReadingKeepsAgrees(s, 0, a);
    case ReadAdmin(l, a) => ReadingKeepsAgrees(s, l, a);
    case Invalidate(a, active) => InvalidateKeepsAgrees(s, a, active);
    case Insert(l, x, token) => InsertKeepsAgrees(s, l, x, token);
    case Validate(x) => ValidateKeepsAgrees(s, x);
    case Rotate(x, token) => RotateKeepsAgrees(s, x, token);
    case Revoke(x) => if x in s.sessions { EndingKeepsAgrees(s, {x}); }
  }

  lemma InsertKeepsAgrees(s: State, l: LoginId, x: SessionId, token: Token)
    requires Agrees(s)
    ensures Agrees(InsertStep(s, l, x, token))
  {
    if l in s.logins && x !in s.sessions && token !in s.used && Configured(s.settings) {
      var snapshot := s.logins[l];
      if snapshot.account.active {
        CreatingKeepsAgrees(s, l, x, token);
        var e := Created(x, snapshot.admin, snapshot.readAt, token, s.now);
        var created := s.(sessions := s.sessions[x := NewSession(s, snapshot, token)],
                          logins := s.logins - {l}, used := s.used + {token}, log := s.log + [e]);
        EndingKeepsAgrees(created, Evicted(created.sessions, snapshot.admin, x, s.settings.maxActive, s.now));
      } else {
        var after := s.(logins := s.logins - {l});
        forall y | y in s.sessions ensures SessionAgrees(after, y, s.sessions[y]) {
          assert SessionAgrees(s, y, s.sessions[y]);
        }
        forall k | k in after.logins ensures LoginAgrees(after, after.logins[k]) {
          assert LoginAgrees(s, s.logins[k]);
        }
      }
    }
  }

  lemma {:induction false} EveryRunAgrees(settings: Settings, now: Time, ops: seq<Op>)
    ensures Agrees(Run(Fresh(settings, now), ops))
  {
    if ops != [] {
      EveryRunAgrees(settings, now, ops[..|ops| - 1]);
      StepKeepsAgrees(Run(Fresh(settings, now), ops[..|ops| - 1]), ops[|ops| - 1]);
    }
  }

  // ---------------------------------------------------------------------------------------------
  // Main results
  // ---------------------------------------------------------------------------------------------

  /** In every reachable state, the checks on the stored columns decide exactly what the history says. */
  lemma ColumnsDecideAsHistory(settings: Settings, now: Time, ops: seq<Op>, x: SessionId, t: Time)
    ensures var s := Run(Fresh(settings, now), ops);
            ValidAt(s, x, t) <==> HistoryAllows(s.log, s.settings, x, t)
  {
    EveryRunAgrees(settings, now, ops);
    var s := Run(Fresh(settings, now), ops);
    if x in s.sessions {
      var row := s.sessions[x];
      assert SessionAgrees(s, x, row);
      CountMovesIffInvalidated(s.log, row.admin, BirthOf(s.log, x).value.readAt);
    }
  }

  /** And a token opens the session whose latest token it is, while the history allows that session. */
  lemma TokensOpenAsHistory(settings: Settings, now: Time, ops: seq<Op>, token: Token, t: Time)
    ensures var s := Run(Fresh(settings, now), ops);
            Accepts(s, token, t) <==> exists x :: TokenOf(s.log, x) == Some(token) && HistoryAllows(s.log, s.settings, x, t)
  {
    EveryRunAgrees(settings, now, ops);
    var s := Run(Fresh(settings, now), ops);
    forall x ensures x in s.sessions && s.sessions[x].token == token && ValidAt(s, x, t)
                <==> TokenOf(s.log, x) == Some(token) && HistoryAllows(s.log, s.settings, x, t)
    {
      ColumnsDecideAsHistory(settings, now, ops, x, t);
      if x in s.sessions {
        assert SessionAgrees(s, x, s.sessions[x]);
      }
    }
  }

  /** What resets the idle clock: a use, and also a rotation if `rotations` says so. */
  predicate Resets(e: Event, rotations: bool) {
    e.Touched? || (rotations && e.Rotated?)
  }

  /** The event came before the idle timeout of the activity before it had run out. */
  predicate InTime(s: State, i: nat)
    requires i < |s.log| && Resets(s.log[i], true)
  {
    var since := LastActivity(s.log[..i], s.log[i].session);
    since.Some? && s.log[i].at < since.value + s.settings.idleTimeout
  }

  ghost predicate AllInTime(s: State, rotations: bool) {
    forall i :: 0 <= i < |s.log| && Resets(s.log[i], rotations) ==> InTime(s, i)
  }

  /** A rotation of a session that is valid at that moment, as after its validation. */
  predicate RotatesValid(s: State, op: Op) {
    op.Rotate? ==> Step(s, op) == s || ValidAt(s, op.session, s.now)
  }

  lemma EventIsInTime(s: State, after: State, e: Event)
    requires Agrees(s) && after.log == s.log + [e] && after.settings == s.settings && Resets(e, true)
    requires e.session in s.sessions && e.at < s.sessions[e.session].lastSeen + s.settings.idleTimeout
    ensures InTime(after, |s.log|)
  {
    assert after.log[..|s.log|] == s.log;
    assert SessionAgrees(s, e.session, s.sessions[e.session]);
  }

  lemma FormerEventsStayInTime(s: State, after: State, rotations: bool)
    requires AllInTime(s, rotations) && s.log <= after.log && after.settings == s.settings
    ensures forall i :: 0 <= i < |s.log| && Resets(after.log[i], rotations) ==> InTime(after, i)
  {
    forall i | 0 <= i < |s.log| && Resets(after.log[i], rotations) ensures InTime(after, i) {
      assert after.log[..i] == s.log[..i] && InTime(s, i);
    }
  }

  /** A step that uses or rotates a session says so in one event, about a session that has not been idle for too long. */
  lemma OnlyTimelyResets(s: State, op: Op, rotations: bool)
    requires rotations ==> RotatesValid(s, op)
    ensures var after := Step(s, op);
            && s.log <= after.log && after.settings == s.settings
            && forall i :: |s.log| <= i < |after.log| && Resets(after.log[i], rotations) ==>
                 var e := after.log[i];
                 && i == |s.log| && after.log == s.log + [e]
                 && e.session in s.sessions && e.at < s.sessions[e.session].lastSeen + s.settings.idleTimeout
  {
  }

  lemma StepKeepsInTime(s: State, op: Op, rotations: bool)
    requires Agrees(s) && AllInTime(s, rotations) && (rotations ==> RotatesValid(s, op))
    ensures AllInTime(Step(s, op), rotations)
  {
    var after := Step(s, op);
    OnlyTimelyResets(s, op, rotations);
    FormerEventsStayInTime(s, after, rotations);
    if |after.log| > |s.log| && Resets(after.log[|s.log|], rotations) {
      EventIsInTime(s, after, after.log[|s.log|]);
    }
  }

  /** Every use of a session came before its idle timeout had run out. */
  lemma {:induction false} SessionsAreUsedInTime(settings: Settings, now: Time, ops: seq<Op>)
    ensures AllInTime(Run(Fresh(settings, now), ops), false)
  {
    if ops != [] {
      SessionsAreUsedInTime(settings, now, ops[..|ops| - 1]);
      EveryRunAgrees(settings, now, ops[..|ops| - 1]);
      StepKeepsInTime(Run(Fresh(settings, now), ops[..|ops| - 1]), ops[|ops| - 1], false);
    }
  }

  ghost predicate RotatesValidOnly(s: State, ops: seq<Op>) {
    ops != [] ==> RotatesValidOnly(s, ops[..|ops| - 1]) && RotatesValid(Run(s, ops[..|ops| - 1]), ops[|ops| - 1])
  }

  /** If sessions are rotated only while they are valid, no two activities of a session are an idle timeout apart. */
  lemma {:induction false} ActivitiesAreInTime(settings: Settings, now: Time, ops: seq<Op>)
    requires RotatesValidOnly(Fresh(settings, now), ops)
    ensures AllInTime(Run(Fresh(settings, now), ops), true)
  {
    if ops != [] {
      ActivitiesAreInTime(settings, now, ops[..|ops| - 1]);
      EveryRunAgrees(settings, now, ops[..|ops| - 1]);
      StepKeepsInTime(Run(Fresh(settings, now), ops[..|ops| - 1]), ops[|ops| - 1], true);
    }
  }

  /** A rotation on its own accepts a session that has been idle for too long; that is the only way past the timeout. */
  lemma RotationIsInTimeIff(s: State, x: SessionId, token: Token)
    requires Agrees(s) && AllInTime(s, true) && RotateStep(s, x, token) != s
    ensures AllInTime(RotateStep(s, x, token), true) <==> s.now < s.sessions[x].lastSeen + s.settings.idleTimeout
  {
    var after := RotateStep(s, x, token);
    assert SessionAgrees(s, x, s.sessions[x]);
    assert after.log[..|s.log|] == s.log && after.log[|s.log|] == Rotated(x, token, s.now);
    FormerEventsStayInTime(s, after, true);
  }

  /** The session's version is behind its account's. */
  predicate Outdated(s: State, x: SessionId) {
    && x in s.sessions
    && s.sessions[x].admin in s.accounts
    && s.sessions[x].version < s.accounts[s.sessions[x].admin].version
  }

  lemma {:induction false} OutdatedForever(s: State, ops: seq<Op>, x: SessionId)
    requires Outdated(s, x)
    ensures Outdated(Run(s, ops), x)
  {
    if ops != [] {
      OutdatedForever(s, ops[..|ops| - 1], x);
    }
  }

  /**
    A session inserted from an administrator row that was invalidated after it was read never validates,
    whatever happens later, re-enabling the account included.
  */
  lemma LateSessionNeverValidates(settings: Settings, now: Time, before: seq<Op>, login: LoginId, x: SessionId,
                                  token: Token, later: seq<Op>, t: Time)
    requires var s := Run(Fresh(settings, now), before);
             && login in s.logins && x !in s.sessions
             && InvalidatedSince(s.log, s.logins[login].admin, s.logins[login].readAt)
             && x in Step(s, Insert(login, x, token)).sessions
    ensures !ValidAt(Run(Step(Run(Fresh(settings, now), before), Insert(login, x, token)), later), x, t)
  {
    EveryRunAgrees(settings, now, before);
    var s := Run(Fresh(settings, now), before);
    var snapshot := s.logins[login];
    assert LoginAgrees(s, snapshot);
    CountMovesIffInvalidated(s.log, snapshot.admin, snapshot.readAt);
    OutdatedForever(Step(s, Insert(login, x, token)), later, x);
  }

  /** Every session that exists when an account is invalidated is out for good. */
  lemma InvalidationIsFinal(settings: Settings, now: Time, before: seq<Op>, admin: AdminId, active: bool,
                            x: SessionId, later: seq<Op>, t: Time)
    requires var s := Run(Fresh(settings, now), before); x in s.sessions && s.sessions[x].admin == admin
    ensures !ValidAt(Run(Step(Run(Fresh(settings, now), before), Invalidate(admin, active)), later), x, t)
  {
    EveryRunAgrees(settings, now, before);
    var s := Run(Fresh(settings, now), before);
    assert SessionAgrees(s, x, s.sessions[x]);
    CountMovesIffInvalidated(s.log, admin, BirthOf(s.log, x).value.readAt);
    OutdatedForever(Step(s, Invalidate(admin, active)), later, x);
  }

  /** The unique column: no two sessions share a token, and every stored token was handed out. */
  ghost predicate DistinctTokens(s: State) {
    && (forall x :: x in s.sessions ==> s.sessions[x].token in s.used)
    && (forall x, y :: x in s.sessions && y in s.sessions && s.sessions[x].token == s.sessions[y].token ==> x == y)
  }

  lemma StepKeepsDistinctTokens(s: State, op: Op)
    requires DistinctTokens(s)
    ensures DistinctTokens(Step(s, op))
  {
  }

  /** A token that was handed out once and belongs to no session any more. */
  ghost predicate Retired(s: State, token: Token) {
    token in s.used && forall x :: x in s.sessions ==> s.sessions[x].token != token
  }

  lemma StepKeepsRetired(s: State, op: Op, token: Token)
    requires Retired(s, token)
    ensures Retired(Step(s, op), token)
  {
  }

  lemma {:induction false} RetiredForever(s: State, ops: seq<Op>, token: Token, t: Time)
    requires Retired(s, token)
    ensures Retired(Run(s, ops), token) && !Accepts(Run(s, ops), token, t)
  {
    if ops != [] {
      RetiredForever(s, ops[..|ops| - 1], token, t);
      StepKeepsRetired(Run(s, ops[..|ops| - 1]), ops[|ops| - 1], token);
    }
  }

  // ---------------------------------------------------------------------------------------------
  // The cap on concurrent sessions
  // ---------------------------------------------------------------------------------------------

  ghost predicate WithinCap(s: State) {
    forall a :: |Active(s.sessions, a, s.now)| <= s.settings.maxActive
  }

  lemma StepKeepsCap(s: State, op: Op)
    requires WithinCap(s) && Configured(s.settings)
    ensures WithinCap(Step(s, op))
  {
    var after := Step(s, op);
    forall a ensures |Active(after.sessions, a, after.now)| <= s.settings.maxActive {
      if op.Insert? && after.sessions != s.sessions {
        var snapshot := s.logins[op.login];
        var inserted := s.sessions[op.session := NewSession(s, snapshot, op.token)];
        if a == snapshot.admin {
          CapIsExact(inserted, a, op.session, s.settings.maxActive, s.now);
        } else {
          assert Active(after.sessions, a, after.now) == Active(s.sessions, a, s.now);
        }
      } else {
        FewerActive(s.sessions, after.sessions, a, s.now, after.now);
      }
    }
  }

  /** In no run does an administrator ever have more active sessions than configured. */
  lemma {:induction false} NeverTooManySessions(settings: Settings, now: Time, ops: seq<Op>)
    requires Configured(settings)
    ensures WithinCap(Run(Fresh(settings, now), ops))
    ensures Run(Fresh(settings, now), ops).settings == settings
  {
    if ops != [] {
      NeverTooManySessions(settings, now, ops[..|ops| - 1]);
      StepKeepsCap(Run(Fresh(settings, now), ops[..|ops| - 1]), ops[|ops| - 1]);
    } else {
      forall a ensures Active(map[], a, now) == {} {
      }
    }
  }
}
