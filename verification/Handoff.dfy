/**
  The mobile hand-off: a desktop session creates a one-time QR token, a phone exchanges it for a credential
  of its own, and the credential dies with completion, revocation, a newer hand-off, or its parents.
*/
module Handoff {
  import opened Common
  import Lifecycle

  type Time = int
  type Token = nat
  type HandoffId = nat
  type SessionId = nat
  type RequestId = nat
  type DiscordId = nat

  datatype Status = Pending | Connected | Completed | Revoked

  /** A row of the hand-off table; `token` and `phone` stand for the digests of the two secrets. */
  datatype Row = Row(
    request: RequestId,
    session: SessionId,
    token: Token,
    phone: Option<Token>,
    phoneExpiresAt: Option<Time>,
    status: Status,
    expiresAt: Time,
    exchangedAt: Option<Time>,
    completedAt: Option<Time>,
    revokedAt: Option<Time>)

  /** The authenticated desktop session a hand-off derives from. */
  datatype Session = Session(request: RequestId, discordId: DiscordId, expiresAt: Time, revoked: bool)

  /** What happened, oldest first. */
  datatype Event = Created(handoff: HandoffId, session: SessionId) | Exchanged(handoff: HandoffId, token: Token)

  datatype State = State(
    ttl: nat,
    now: Time,
    cases: map<RequestId, Lifecycle.Case>,
    sessions: map<SessionId, Session>,
    handoffs: map<HandoffId, Row>,
    used: set<Token>,
    log: seq<Event>)

  function Start(ttl: nat, now: Time): State {
    State(ttl, now, map[], map[], map[], {}, [])
  }

  // ---------------------------------------------------------------------------------------------
  // Checks
  // ---------------------------------------------------------------------------------------------

  predicate AllowsCapture(c: Lifecycle.Case, now: Time) {
    c.status in {Lifecycle.Pending, Lifecycle.MoreInfo} && c.expiresAt > now
  }

  predicate ParentsAuthorize(s: State, request: RequestId, session: SessionId) {
    && request in s.cases
    && session in s.sessions
    && AllowsCapture(s.cases[request], s.now)
    && !s.sessions[session].revoked
    && s.sessions[session].expiresAt > s.now
    && s.sessions[session].request == request
    && s.sessions[session].discordId == s.cases[request].discordId
  }

  predicate Open(row: Row, now: Time) {
    row.revokedAt.None? && row.completedAt.None? && row.expiresAt > now
  }

  predicate Exchangeable(s: State, h: HandoffId) {
    && h in s.handoffs
    && Open(s.handoffs[h], s.now)
    && s.handoffs[h].exchangedAt.None?
    && ParentsAuthorize(s, s.handoffs[h].request, s.handoffs[h].session)
  }

  /** The phone credential is accepted for this hand-off. */
  predicate Authorizes(s: State, h: HandoffId, phone: Token) {
    && h in s.handoffs
    && s.handoffs[h].phone == Some(phone)
    && Open(s.handoffs[h], s.now)
    && s.handoffs[h].exchangedAt.Some?
    && s.handoffs[h].phoneExpiresAt.Some?
    && s.handoffs[h].phoneExpiresAt.value > s.now
    && ParentsAuthorize(s, s.handoffs[h].request, s.handoffs[h].session)
  }

  // ---------------------------------------------------------------------------------------------
  // Steps
  // ---------------------------------------------------------------------------------------------

  datatype Op =
    | Tick(seconds: nat)
    | RequestsChange(cases: map<RequestId, Lifecycle.Case>)
    | LogIn(session: SessionId, request: RequestId, discordId: DiscordId, lifetime: nat)
    | LogOut(session: SessionId)
    | Create(handoff: HandoffId, session: SessionId, newToken: Token)
    | Exchange(handoff: HandoffId, newToken: Token)
    | Upload(handoff: HandoffId, phone: Token, stored: bool)
    | Complete(handoff: HandoffId, phone: Token, complete: bool)
    | Revoke(handoff: HandoffId, session: SessionId)

  function Withdraw(row: Row, now: Time): Row {
    row.(revokedAt := Some(now), status := Revoked, phone := None, phoneExpiresAt := None)
  }

  function WithdrawOpen(handoffs: map<HandoffId, Row>, session: SessionId, now: Time): map<HandoffId, Row> {
    map x | x in handoffs ::
      if handoffs[x].session == session && Open(handoffs[x], now) then Withdraw(handoffs[x], now) else handoffs[x]
  }

  function NewRow(request: RequestId, session: SessionId, token: Token, expiresAt: Time): Row {
    Row(request, session, token, None, None, Pending, expiresAt, None, None, None)
  }

  function Min(a: Time, b: Time): Time {
    if a <= b then a else b
  }

  function CreateStep(s: State, h: HandoffId, session: SessionId, token: Token): State {
    if h in s.handoffs || token in s.used || session !in s.sessions
       || !ParentsAuthorize(s, s.sessions[session].request, session) then s
    else
      s.(handoffs := WithdrawOpen(s.handoffs, session, s.now)
                     [h := NewRow(s.sessions[session].request, session, token, s.now + s.ttl)],
         used := s.used + {token},
         log := s.log + [Created(h, session)])
  }

  function ExchangeStep(s: State, h: HandoffId, phone: Token): State {
    if !Exchangeable(s, h) || phone in s.used then s
    else
      var row := s.handoffs[h];
      s.(handoffs := s.handoffs[h := row.(
                                  exchangedAt := Some(s.now),
                                  phone := Some(phone),
                                  phoneExpiresAt := Some(Min(row.expiresAt, s.sessions[row.session].expiresAt)),
                                  status := Connected)],
         used := s.used + {phone},
         log := s.log + [Exchanged(h, row.token)])
  }

  function UploadStep(s: State, h: HandoffId, phone: Token, stored: bool): State {
    if !Authorizes(s, h, phone) || !stored then s
    else s.(handoffs := s.handoffs[h := s.handoffs[h].(status := Connected)])
  }

  function CompleteStep(s: State, h: HandoffId, phone: Token, complete: bool): State {
    if !Authorizes(s, h, phone) || !complete then s
    else
      s.(handoffs := s.handoffs[h := s.handoffs[h].(
                                  completedAt := Some(s.now), status := Completed, phone := None, phoneExpiresAt := None)])
  }

  /** Revocation looks neither at the expiry nor at earlier completion. */
  function RevokeStep(s: State, h: HandoffId, session: SessionId): State {
    if h !in s.handoffs || s.handoffs[h].session != session then s
    else s.(handoffs := s.handoffs[h := Withdraw(s.handoffs[h], s.now)])
  }

  function Step(s: State, op: Op): State {
    match op
    case Tick(seconds) => s.(now := s.now + seconds)
    case RequestsChange(cases) => s.(cases := cases)
    case LogIn(session, request, discordId, lifetime) =>
      if session in s.sessions then s
      else s.(sessions := s.sessions[session := Session(request, discordId, s.now + lifetime, false)])
    case LogOut(session) =>
      if session !in s.sessions then s
      else s.(sessions := s.sessions[session := s.sessions[session].(revoked := true)])
    case Create(h, session, token) => CreateStep(s, h, session, token)
    case Exchange(h, phone) => ExchangeStep(s, h, phone)
    case Upload(h, phone, stored) => UploadStep(s, h, phone, stored)
    case Complete(h, phone, complete) => CompleteStep(s, h, phone, complete)
    case Revoke(h, session) => RevokeStep(s, h, session)
  }

  function Run(s: State, ops: seq<Op>): State {
    if ops == [] then s else Step(Run(s, ops[..|ops| - 1]), ops[|ops| - 1])
  }

  // ---------------------------------------------------------------------------------------------
  // What every run keeps
  // ---------------------------------------------------------------------------------------------

  /** The status the three timestamps spell out. */
  function Derived(row: Row): Status {
    if row.revokedAt.Some? then Revoked
    else if row.completedAt.Some? then Completed
    else if row.exchangedAt.Some? then Connected
    else Pending
  }

  predicate RowSound(s: State, row: Row) {
    && row.session in s.sessions
    && row.status == Derived(row)
    && (row.completedAt.Some? ==> row.exchangedAt.Some?)
    && (row.phone.Some? <==> row.phoneExpiresAt.Some?)
    && (row.phone.Some? <==> row.exchangedAt.Some? && row.revokedAt.None? && row.completedAt.None?)
    && (row.phone.Some? ==> row.phoneExpiresAt.value == Min(row.expiresAt, s.sessions[row.session].expiresAt))
    && row.token in s.used
    && (row.phone.Some? ==> row.phone.value in s.used && row.phone.value != row.token)
  }

  predicate Collide(x: Row, y: Row) {
    x.token == y.token || (x.phone.Some? && (x.phone == y.phone || x.phone == Some(y.token)))
  }

  ghost predicate Sound(s: State) {
    && (forall h :: h in s.handoffs ==> RowSound(s, s.handoffs[h]))
    && (forall x, y :: x in s.handoffs && y in s.handoffs && x != y ==> !Collide(s.handoffs[x], s.handoffs[y]))
  }

  predicate EventSound(s: State, e: Event) {
    && e.handoff in s.handoffs
    && match e
       case Created(h, session) => s.handoffs[h].session == session
       case Exchanged(h, token) => s.handoffs[h].token == token && s.handoffs[h].exchangedAt.Some?
  }

  /** Of two hand-offs of one session the earlier is not open; no token is exchanged twice. */
  predicate InOrder(s: State, earlier: Event, later: Event)
    requires earlier.handoff in s.handoffs
  {
    match (earlier, later)
    case (Created(h, v), Created(g, w)) => h != g && (v == w ==> !Open(s.handoffs[h], s.now))
    case (Exchanged(h, t), Exchanged(g, u)) => h != g && t != u
    case (Exchanged(h, _), Created(g, _)) => h != g
    case (Created(_, _), Exchanged(_, _)) => true
  }

  ghost predicate Logged(s: State) {
    && (forall i :: 0 <= i < |s.log| ==> EventSound(s, s.log[i]))
    && (forall i, j :: 0 <= i < j < |s.log| ==> InOrder(s, s.log[i], s.log[j]))
    && (forall h :: h in s.handoffs ==> Created(h, s.handoffs[h].session) in s.log)
  }

  /** What no step undoes: rows stay, keep their parents and QR token, and never open or un-exchange again. */
  predicate RowContinues(before: Row, after: Row, now: Time, later: Time) {
    && after.session == before.session && after.request == before.request && after.token == before.token
    && (!Open(before, now) ==> !Open(after, later))
    && (before.exchangedAt.Some? ==> after.exchangedAt == before.exchangedAt)
    && (before.exchangedAt.Some? && before.phone.None? ==> after.phone.None?)
    && (before.exchangedAt.Some? ==> after.phone.None? || after.phone == before.phone)
    && (before.revokedAt.Some? ==> after.revokedAt.Some?)
    && (before.completedAt.Some? ==> after.completedAt == before.completedAt)
  }

  lemma StepContinues(s: State, op: Op, h: HandoffId)
    requires h in s.handoffs && RowSound(s, s.handoffs[h])
    ensures var after := Step(s, op);
            h in after.handoffs && RowContinues(s.handoffs[h], after.handoffs[h], s.now, after.now)
  {
  }

  lemma StepKeepsRows(s: State, op: Op)
    requires Sound(s)
    ensures forall h :: h in Step(s, op).handoffs ==> RowSound(Step(s, op), Step(s, op).handoffs[h])
  {
  }

  lemma StepKeepsApart(s: State, op: Op, x: HandoffId, y: HandoffId)
    requires Sound(s) && x != y && x in Step(s, op).handoffs && y in Step(s, op).handoffs
    ensures !Collide(Step(s, op).handoffs[x], Step(s, op).handoffs[y])
  {
  }

  lemma StepKeepsSound(s: State, op: Op)
    requires Sound(s)
    ensures Sound(Step(s, op))
  {
    var after := Step(s, op);
    StepKeepsRows(s, op);
    forall x, y | x in after.handoffs && y in after.handoffs && x != y ensures !Collide(after.handoffs[x], after.handoffs[y]) {
      StepKeepsApart(s, op, x, y);
    }
  }

  ghost predicate Continues(s: State, after: State) {
    forall h :: h in s.handoffs ==>
                  h in after.handoffs && RowContinues(s.handoffs[h], after.handoffs[h], s.now, after.now)
  }

  lemma StepContinuesAll(s: State, op: Op)
    requires Sound(s)
    ensures Continues(s, Step(s, op))
  {
    forall h | h in s.handoffs
      ensures h in Step(s, op).handoffs && RowContinues(s.handoffs[h], Step(s, op).handoffs[h], s.now, Step(s, op).now)
    {
      StepContinues(s, op, h);
    }
  }

  /** Events keep their order as long as the rows continue. */
  lemma LogHolds(s: State, after: State)
    requires Logged(s) && Continues(s, after)
    ensures forall i :: 0 <= i < |s.log| ==> EventSound(after, s.log[i])
    ensures forall i, j :: 0 <= i < j < |s.log| ==> InOrder(after, s.log[i], s.log[j])
    ensures forall h :: h in s.handoffs ==> h in after.handoffs && Created(h, after.handoffs[h].session) in s.log
  {
    forall i | 0 <= i < |s.log| ensures EventSound(after, s.log[i]) {
      assert EventSound(s, s.log[i]);
    }
    forall i, j | 0 <= i < j < |s.log| ensures InOrder(after, s.log[i], s.log[j]) {
      assert EventSound(s, s.log[i]) && InOrder(s, s.log[i], s.log[j]);
    }
  }

  /** The log grows by one event that comes after all the others. */
  lemma LogGrows(s: State, after: State, e: Event)
    requires Logged(s) && Continues(s, after)
    requires after.log == s.log + [e] && EventSound(after, e)
    requires forall i :: 0 <= i < |s.log| ==> s.log[i].handoff in after.handoffs && InOrder(after, s.log[i], e)
    requires after.handoffs.Keys == s.handoffs.Keys + {e.handoff}
    requires e.handoff in s.handoffs || e == Created(e.handoff, after.handoffs[e.handoff].session)
    ensures Logged(after)
  {
    LogHolds(s, after);
    assert after.log[|s.log|] == e;
  }

  lemma CreationComesLast(s: State, h: HandoffId, session: SessionId, token: Token, e: Event)
    requires CreateStep(s, h, session, token) != s && EventSound(s, e)
    ensures e.handoff in CreateStep(s, h, session, token).handoffs
    ensures InOrder(CreateStep(s, h, session, token), e, Created(h, session))
  {
  }

  lemma ExchangeComesLast(s: State, h: HandoffId, phone: Token, e: Event)
    requires Sound(s) && ExchangeStep(s, h, phone) != s && EventSound(s, e)
    ensures e.handoff in ExchangeStep(s, h, phone).handoffs
    ensures InOrder(ExchangeStep(s, h, phone), e, Exchanged(h, s.handoffs[h].token))
  {
  }

  lemma CreateKeepsLogged(s: State, h: HandoffId, session: SessionId, token: Token)
    requires Sound(s) && Logged(s) && CreateStep(s, h, session, token) != s
    ensures Logged(CreateStep(s, h, session, token))
  {
    var after := CreateStep(s, h, session, token);
    StepContinuesAll(s, Create(h, session, token));
    forall i | 0 <= i < |s.log| ensures s.log[i].handoff in after.handoffs && InOrder(after, s.log[i], Created(h, session)) {
      CreationComesLast(s, h, session, token, s.log[i]);
    }
    LogGrows(s, after, Created(h, session));
  }

  lemma ExchangeKeepsLogged(s: State, h: HandoffId, phone: Token)
    requires Sound(s) && Logged(s) && ExchangeStep(s, h, phone) != s
    ensures Logged(ExchangeStep(s, h, phone))
  {
    var after := ExchangeStep(s, h, phone);
    var e := Exchanged(h, s.handoffs[h].token);
    StepContinuesAll(s, Exchange(h, phone));
    forall i | 0 <= i < |s.log| ensures s.log[i].handoff in after.handoffs && InOrder(after, s.log[i], e) {
      ExchangeComesLast(s, h, phone, s.log[i]);
    }
    LogGrows(s, after, e);
  }

  lemma StepKeepsLogged(s: State, op: Op)
    requires Sound(s) && Logged(s)
    ensures Logged(Step(s, op))
  {
    if Step(s, op).log == s.log {
      StepContinuesAll(s, op);
      LogHolds(s, Step(s, op));
      assert Step(s, op).handoffs.Keys == s.handoffs.Keys;
    } else if op.Create? {
      CreateKeepsLogged(s, op.handoff, op.session, op.newToken);
    } else {
      ExchangeKeepsLogged(s, op.handoff, op.newToken);
    }
  }

  lemma {:induction false} EveryRunIsSound(s: State, ops: seq<Op>)
    requires Sound(s) && Logged(s)
    ensures Sound(Run(s, ops)) && Logged(Run(s, ops))
  {
    if ops != [] {
      var before := ops[..|ops| - 1];
      EveryRunIsSound(s, before);
      StepKeepsSound(Run(s, before), ops[|ops| - 1]);
      StepKeepsLogged(Run(s, before), ops[|ops| - 1]);
    }
  }

  lemma OneOpenPerSession(s: State, x: HandoffId, y: HandoffId)
    requires Logged(s) && x in s.handoffs && y in s.handoffs
    requires s.handoffs[x].session == s.handoffs[y].session && Open(s.handoffs[x], s.now) && Open(s.handoffs[y], s.now)
    ensures x == y
  {
  }

  /**
    In every reachable state: one desktop session has at most one open hand-off, the one it created last;
    every QR token was exchanged at most once; a stored phone credential means exchanged, neither revoked nor
    completed, and expires with the hand-off and the desktop session at the latest; the status column is
    the one the timestamps spell out.
  */
  lemma ReachableHandoffLaws(ttl: nat, now: Time, ops: seq<Op>)
    ensures var s := Run(Start(ttl, now), ops);
            && (forall x, y | x in s.handoffs && y in s.handoffs ::
                  s.handoffs[x].session == s.handoffs[y].session && Open(s.handoffs[x], s.now) && Open(s.handoffs[y], s.now)
                  ==> x == y)
            && (forall i, j | 0 <= i < j < |s.log| && s.log[i].Created? && s.log[j].Created? ::
                  s.log[i].session == s.log[j].session ==>
                    s.log[i].handoff in s.handoffs && !Open(s.handoffs[s.log[i].handoff], s.now))
            && (forall i, j | 0 <= i < j < |s.log| && s.log[i].Exchanged? && s.log[j].Exchanged? ::
                  s.log[i].token != s.log[j].token)
            && (forall h | h in s.handoffs ::
                  var row := s.handoffs[h];
                  && row.status == Derived(row)
                  && (row.phone.Some? ==>
                        && row.exchangedAt.Some? && row.revokedAt.None? && row.completedAt.None?
                        && row.phoneExpiresAt.Some? && row.phoneExpiresAt.value <= row.expiresAt
                        && row.session in s.sessions && row.phoneExpiresAt.value <= s.sessions[row.session].expiresAt))
  {
    var s := Run(Start(ttl, now), ops);
    EveryRunIsSound(Start(ttl, now), ops);
    forall x, y | x in s.handoffs && y in s.handoffs && s.handoffs[x].session == s.handoffs[y].session
                  && Open(s.handoffs[x], s.now) && Open(s.handoffs[y], s.now)
      ensures x == y
    {
      OneOpenPerSession(s, x, y);
    }
    forall i, j | 0 <= i < j < |s.log| ensures EventSound(s, s.log[i]) && InOrder(s, s.log[i], s.log[j]) {
    }
    forall h | h in s.handoffs ensures RowSound(s, s.handoffs[h]) {
    }
  }

  // ---------------------------------------------------------------------------------------------
  // What can never come back
  // ---------------------------------------------------------------------------------------------

  lemma {:induction false} RowsContinueForever(s: State, ops: seq<Op>, h: HandoffId)
    requires Sound(s) && Logged(s) && h in s.handoffs
    ensures h in Run(s, ops).handoffs && RowContinues(s.handoffs[h], Run(s, ops).handoffs[h], s.now, Run(s, ops).now)
  {
    if ops != [] {
      var before := ops[..|ops| - 1];
      RowsContinueForever(s, before, h);
      EveryRunIsSound(s, before);
      StepContinues(Run(s, before), ops[|ops| - 1], h);
    }
  }

  /** A hand-off that is closed, or whose QR token was spent, can never be exchanged (again). */
  lemma SpentForever(s: State, ops: seq<Op>, h: HandoffId)
    requires Sound(s) && Logged(s) && h in s.handoffs
    requires !Open(s.handoffs[h], s.now) || s.handoffs[h].exchangedAt.Some?
    ensures !Exchangeable(Run(s, ops), h)
  {
    RowsContinueForever(s, ops, h);
  }

  /** A token that was generated but is nobody's phone credential. */
  ghost predicate Retired(s: State, phone: Token) {
    phone in s.used && forall h :: h in s.handoffs ==> s.handoffs[h].phone != Some(phone)
  }

  lemma {:induction false} RetiredForever(s: State, ops: seq<Op>, phone: Token)
    requires Retired(s, phone)
    ensures Retired(Run(s, ops), phone)
    ensures forall h :: !Authorizes(Run(s, ops), h, phone)
  {
    if ops != [] {
      RetiredForever(s, ops[..|ops| - 1], phone);
    }
  }

  /** Completing, revoking or creating anew destroys the credential at once and for good. */
  lemma CredentialIsDestroyed(s: State, h: HandoffId, phone: Token, op: Op, ops: seq<Op>)
    requires Sound(s) && Logged(s) && Authorizes(s, h, phone)
    requires || op == Complete(h, phone, true)
             || op == Revoke(h, s.handoffs[h].session)
             || (op.Create? && op.session == s.handoffs[h].session && op.handoff !in s.handoffs && op.newToken !in s.used)
    ensures forall g :: !Authorizes(Run(Step(s, op), ops), g, phone)
  {
    var after := Step(s, op);
    assert RowSound(s, s.handoffs[h]);
    assert Retired(after, phone) by {
      forall x | x in after.handoffs ensures after.handoffs[x].phone != Some(phone) {
        assert x in s.handoffs && x != h ==> !Collide(s.handoffs[x], s.handoffs[h]);
      }
    }
    RetiredForever(after, ops, phone);
  }

  /** One desktop session never has two phones at work. */
  lemma OnePhonePerSession(s: State, x: HandoffId, p: Token, y: HandoffId, q: Token)
    requires Sound(s) && Logged(s) && Authorizes(s, x, p) && Authorizes(s, y, q)
    requires s.handoffs[x].session == s.handoffs[y].session
    ensures x == y && p == q
  {
    OneOpenPerSession(s, x, y);
  }

  /** Of all the checks, three decide: the credential is the stored one, and neither hand-off nor parents have lapsed. */
  lemma ThreeChecksDecide(s: State, h: HandoffId, phone: Token)
    requires Sound(s) && h in s.handoffs
    ensures Authorizes(s, h, phone) <==>
            && s.handoffs[h].phone == Some(phone)
            && s.handoffs[h].expiresAt > s.now
            && ParentsAuthorize(s, s.handoffs[h].request, s.handoffs[h].session)
  {
  }
}
