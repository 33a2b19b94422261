/**
  The release of Discord access as a step system: service calls and batch jobs commit atomically, the
  clock moves forward in between, and each attempt of the gateway worker is a program that finds a grant,
  adds the role, consumes the grant and otherwise removes the role again.  Any interleaving is a sequence
  of operations; an operation that is not enabled leaves the world as it is.
*/
module Release {
  import opened Common
  import opened Lifecycle
  import opened CaseLaws

  type RequestId = nat
  type AttemptId = nat

  datatype Phase =
    | Found(grantOf: RequestId)
    | RoleAssigned(grantOf: RequestId)
    | MustRemove
    | Ended(consumed: bool)

  datatype Attempt = Attempt(user: DiscordId, phase: Phase)

  /** `leaks` records the users for whom a Discord call reported failure but the role stayed or arrived. */
  datatype World = World(
    now: Time,
    maxAge: nat,
    cases: map<RequestId, Case>,
    roles: set<DiscordId>,
    attempts: map<AttemptId, Attempt>,
    leaks: set<DiscordId>)

  /** How adding the role went; `applied` says whether a failed call reached Discord after all. */
  datatype AddReply = Added | DiscordRefused(applied: bool) | OtherException(applied: bool)

  /** Where consuming the grant raised, if it did. */
  datatype Fault = NoFault | BeforeCommit | AfterCommit

  datatype Op =
    | Tick(seconds: nat)
    | CreateRequest(request: RequestId, discordId: DiscordId, expiresAt: Time, maxSubmissions: nat)
    | OnCase(request: RequestId, call: CaseOp)
    | ExpireDueRequests
    | ExpireDueGrants
    | Begin(attempt: AttemptId, user: DiscordId, newest: RequestId)
    | AddRole(attempt: AttemptId, reply: AddReply)
    | Consume(attempt: AttemptId, fault: Fault)
    | RemoveRole(attempt: AttemptId, succeeds: bool)

  function Start(now: Time, maxAge: nat): World {
    World(now, maxAge, map[], {}, map[], {})
  }

  // ---------------------------------------------------------------------------------------------
  // Steps
  // ---------------------------------------------------------------------------------------------

  predicate LiveFor(c: Case, user: DiscordId) {
    Live(c) && c.grant.value.discordId == user
  }

  /** The first row of the query for one user's live grants, newest first; ties come in any order. */
  ghost predicate IsNewest(cases: map<RequestId, Case>, user: DiscordId, newest: RequestId) {
    && newest in cases
    && LiveFor(cases[newest], user)
    && forall r :: r in cases && LiveFor(cases[r], user) ==>
                     cases[r].grant.value.issuedAt <= cases[newest].grant.value.issuedAt
  }

  /** What makes a grant good for a user at a given time. */
  predicate Eligible(c: Case, user: DiscordId, now: Time) {
    && LiveFor(c, user)
    && c.grant.value.expiresAt > now
    && c.status == Approved
    && c.discordId == user
  }

  function SweepRequests(cases: map<RequestId, Case>, now: Time): map<RequestId, Case> {
    map r | r in cases :: SweepRequest(cases[r], now)
  }

  function SweepGrants(cases: map<RequestId, Case>, now: Time): map<RequestId, Case> {
    map r | r in cases :: SweepGrant(cases[r], now)
  }

  ghost function BeginStep(w: World, attempt: AttemptId, user: DiscordId, newest: RequestId): World {
    if attempt in w.attempts || !IsNewest(w.cases, user, newest) then w
    else if w.cases[newest].grant.value.expiresAt <= w.now then
      w.(cases := w.cases[newest := SweepGrant(w.cases[newest], w.now)])
    else if !Eligible(w.cases[newest], user, w.now) then w
    else w.(attempts := w.attempts[attempt := Attempt(user, Found(newest))])
  }

  function Advance(w: World, attempt: AttemptId, phase: Phase): World
    requires attempt in w.attempts
  {
    w.(attempts := w.attempts[attempt := w.attempts[attempt].(phase := phase)])
  }

  function AddRoleStep(w: World, attempt: AttemptId, reply: AddReply): World {
    if attempt !in w.attempts || !w.attempts[attempt].phase.Found? then w
    else
      var user := w.attempts[attempt].user;
      var grantOf := w.attempts[attempt].phase.grantOf;
      if user in w.roles then Advance(w, attempt, RoleAssigned(grantOf))
      else
        match reply
        case Added => Advance(w.(roles := w.roles + {user}), attempt, RoleAssigned(grantOf))
        case DiscordRefused(applied) =>
          var after := Advance(w, attempt, Ended(false));
          if applied then after.(roles := w.roles + {user}, leaks := w.leaks + {user}) else after
        case OtherException(applied) =>
          Advance(if applied then w.(roles := w.roles + {user}) else w, attempt, MustRemove)
  }

  function ConsumeStep(w: World, attempt: AttemptId, fault: Fault): World {
    if attempt !in w.attempts || !w.attempts[attempt].phase.RoleAssigned? then w
    else
      var Attempt(user, RoleAssigned(r)) := w.attempts[attempt];
      if r !in w.cases || fault == BeforeCommit then Advance(w, attempt, MustRemove)
      else
        var (after, consumed) := ConsumeGrant(w.cases[r], user, w.now);
        Advance(w.(cases := w.cases[r := after]), attempt,
                if consumed && fault == NoFault then Ended(true) else MustRemove)
  }

  function RemoveRoleStep(w: World, attempt: AttemptId, succeeds: bool): World {
    if attempt !in w.attempts || !w.attempts[attempt].phase.MustRemove? then w
    else
      var user := w.attempts[attempt].user;
      var after := Advance(w, attempt, Ended(false));
      if succeeds then after.(roles := w.roles - {user}) else after.(leaks := w.leaks + {user})
  }

  ghost function Step(w: World, op: Op): (after: World)
    ensures after.maxAge == w.maxAge && w.now <= after.now
  {
    match op
    case Tick(seconds) => w.(now := w.now + seconds)
    case CreateRequest(r, discordId, expiresAt, maxSubmissions) =>
      if r in w.cases then w
      else (
        match Create(discordId, expiresAt, maxSubmissions, w.now)
        case Ok(c) => w.(cases := w.cases[r := c])
        case Err(_) => w)
    case OnCase(r, call) =>
      if r in w.cases then w.(cases := w.cases[r := Next(w.cases[r], w.now, w.maxAge, call)]) else w
    case ExpireDueRequests => w.(cases := SweepRequests(w.cases, w.now))
    case ExpireDueGrants => w.(cases := SweepGrants(w.cases, w.now))
    case Begin(attempt, user, newest) => BeginStep(w, attempt, user, newest)
    case AddRole(attempt, reply) => AddRoleStep(w, attempt, reply)
    case Consume(attempt, fault) => ConsumeStep(w, attempt, fault)
    case RemoveRole(attempt, succeeds) => RemoveRoleStep(w, attempt, succeeds)
  }

  ghost function Run(w: World, ops: seq<Op>): World {
    if ops == [] then w else Step(Run(w, ops[..|ops| - 1]), ops[|ops| - 1])
  }

  lemma RunAppends(w: World, ops: seq<Op>, op: Op)
    ensures Run(w, ops + [op]) == Step(Run(w, ops), op)
  {
  }

  lemma RunOne(w: World, op: Op)
    ensures Run(w, [op]) == Step(w, op)
  {
  }

  lemma RunTwo(w: World, x: Op, y: Op)
    ensures Run(w, [x, y]) == Step(Step(w, x), y)
  {
    RunOne(w, x);
    RunAppends(w, [x], y);
    assert [x] + [y] == [x, y];
  }

  lemma RunFour(w: World, x: Op, y: Op, z: Op, u: Op)
    ensures Run(w, [x]) == Step(w, x)
    ensures Run(w, [x, y]) == Step(Step(w, x), y)
    ensures Run(w, [x, y, z]) == Step(Step(Step(w, x), y), z)
    ensures Run(w, [x, y, z, u]) == Step(Step(Step(Step(w, x), y), z), u)
  {
    RunOne(w, x);
    RunTwo(w, x, y);
    RunAppends(w, [x, y], z);
    assert [x, y] + [z] == [x, y, z];
    RunAppends(w, [x, y, z], u);
    assert [x, y, z] + [u] == [x, y, z, u];
  }

  lemma RunFive(w: World, x: Op, y: Op, z: Op, u: Op, v: Op)
    ensures Run(w, [x, y, z, u, v]) == Step(Step(Step(Step(Step(w, x), y), z), u), v)
  {
    RunFour(w, x, y, z, u);
    RunAppends(w, [x, y, z, u], v);
    assert [x, y, z, u] + [v] == [x, y, z, u, v];
  }

  lemma {:induction false} RunComposes(w: World, ops: seq<Op>, more: seq<Op>)
    ensures Run(w, ops + more) == Run(Run(w, ops), more)
    decreases |more|
  {
    if more == [] {
      assert ops + more == ops;
    } else {
      var shorter := more[..|more| - 1];
      assert (ops + more)[..|ops + more| - 1] == ops + shorter;
      RunComposes(w, ops, shorter);
    }
  }

  // ---------------------------------------------------------------------------------------------
  // From steps to calls on a single case
  // ---------------------------------------------------------------------------------------------

  /** Whatever a step does to an existing case is what one call on that case does, or nothing. */
  lemma StepIsACall(w: World, op: Op, r: RequestId) returns (call: Option<CaseOp>)
    requires r in w.cases
    ensures r in Step(w, op).cases
    ensures Step(w, op).cases[r] ==
            if call.Some? then Next(w.cases[r], w.now, w.maxAge, call.value) else w.cases[r]
  {
    call := None;
    match op
    case Tick(_) =>
    case CreateRequest(_, _, _, _) =>
    case OnCase(q, k) => call := if q == r then Some(k) else None;
    case ExpireDueRequests => call := Some(DoSweepRequest);
    case ExpireDueGrants => call := Some(DoSweepGrant);
    case Begin(_, _, newest) => call := if newest == r && Step(w, op).cases != w.cases then Some(DoSweepGrant) else None;
    case AddRole(_, _) =>
    case Consume(a, fault) =>
      if a in w.attempts && w.attempts[a].phase == RoleAssigned(r) && fault != BeforeCommit {
        call := Some(DoConsume(w.attempts[a].user));
      }
    case RemoveRole(_, _) =>
  }

  // ---------------------------------------------------------------------------------------------
  // Safety of every committed state
  // ---------------------------------------------------------------------------------------------

  predicate CaseSafe(c: Case, now: Time, maxAge: nat) {
    Consistent(c, now, maxAge) && Audited(c) && Accounted(c) && Budgeted(c)
  }

  ghost predicate Safe(w: World) {
    forall r :: r in w.cases ==> CaseSafe(w.cases[r], w.now, w.maxAge)
  }

  /** The part of safety the worker itself relies on. */
  ghost predicate AllConsistent(w: World) {
    forall r :: r in w.cases ==> Consistent(w.cases[r], w.now, w.maxAge)
  }

  lemma StepKeepsConsistent(w: World, op: Op)
    requires AllConsistent(w)
    ensures AllConsistent(Step(w, op))
  {
    var after := Step(w, op);
    forall r | r in after.cases ensures Consistent(after.cases[r], after.now, after.maxAge) {
      if r in w.cases {
        var call := StepIsACall(w, op, r);
        if call.Some? {
          CallKeepsConsistent(w.cases[r], w.now, w.maxAge, call.value);
        }
      }
    }
  }

  lemma {:induction false} EveryRunIsConsistent(w: World, ops: seq<Op>)
    requires AllConsistent(w)
    ensures AllConsistent(Run(w, ops))
  {
    if ops != [] {
      EveryRunIsConsistent(w, ops[..|ops| - 1]);
      StepKeepsConsistent(Run(w, ops[..|ops| - 1]), ops[|ops| - 1]);
    }
  }

  lemma CallKeepsSafe(c: Case, now: Time, maxAge: nat, call: CaseOp)
    requires CaseSafe(c, now, maxAge)
    ensures CaseSafe(Next(c, now, maxAge, call), now, maxAge)
  {
    CallKeepsConsistent(c, now, maxAge, call);
    CallKeepsAudited(c, now, maxAge, call);
    CallKeepsAccounted(c, now, maxAge, call);
    CallKeepsBudgeted(c, now, maxAge, call);
  }

  lemma CreatedIsSafe(discordId: DiscordId, expiresAt: Time, maxSubmissions: nat, now: Time, maxAge: nat)
    ensures var c := Create(discordId, expiresAt, maxSubmissions, now); c.Ok? ==> CaseSafe(c.value, now, maxAge)
  {
  }

  lemma FormerCaseStaysSafe(w: World, op: Op, r: RequestId)
    requires Safe(w) && r in w.cases
    ensures r in Step(w, op).cases && CaseSafe(Step(w, op).cases[r], w.now, w.maxAge)
  {
    var call := StepIsACall(w, op, r);
    if call.Some? {
      CallKeepsSafe(w.cases[r], w.now, w.maxAge, call.value);
    }
  }

  lemma NewCaseIsSafe(w: World, op: Op, r: RequestId)
    requires r in Step(w, op).cases && r !in w.cases
    ensures CaseSafe(Step(w, op).cases[r], w.now, w.maxAge)
  {
    CreatedIsSafe(op.discordId, op.expiresAt, op.maxSubmissions, w.now, w.maxAge);
  }

  lemma SafeLater(c: Case, now: Time, later: Time, maxAge: nat)
    requires CaseSafe(c, now, maxAge) && now <= later
    ensures CaseSafe(c, later, maxAge)
  {
  }

  lemma CaseStaysSafe(w: World, op: Op, r: RequestId)
    requires Safe(w)
    ensures r in Step(w, op).cases ==> CaseSafe(Step(w, op).cases[r], Step(w, op).now, w.maxAge)
  {
    if r in Step(w, op).cases {
      if r in w.cases {
        FormerCaseStaysSafe(w, op, r);
      } else {
        NewCaseIsSafe(w, op, r);
      }
      SafeLater(Step(w, op).cases[r], w.now, Step(w, op).now, w.maxAge);
    }
  }

  lemma StepKeepsSafe(w: World, op: Op)
    requires Safe(w)
    ensures Safe(Step(w, op))
  {
    forall r | r in Step(w, op).cases ensures CaseSafe(Step(w, op).cases[r], Step(w, op).now, w.maxAge) {
      CaseStaysSafe(w, op, r);
    }
  }

  /**
    In every state of every run: a live or consumed grant implies an approved request of the same user,
    the result row is verified exactly when the request is approved, the audit trail replays to the
    request row, grant events balance, and status changes stay within their budget.
  */
  lemma {:induction false} EveryRunIsSafe(w: World, ops: seq<Op>)
    requires Safe(w)
    ensures Safe(Run(w, ops))
  {
    if ops != [] {
      EveryRunIsSafe(w, ops[..|ops| - 1]);
      StepKeepsSafe(Run(w, ops[..|ops| - 1]), ops[|ops| - 1]);
    }
  }

  /** The laws of a reachable case, spelled out. */
  lemma ReachableCaseLaws(now: Time, maxAge: nat, ops: seq<Op>, r: RequestId)
    requires r in Run(Start(now, maxAge), ops).cases
    ensures var c := Run(Start(now, maxAge), ops).cases[r];
            && (c.grant.Some? && c.grant.value.status in {Issued, Consumed} ==>
                  c.status == Approved && c.grant.value.discordId == c.discordId)
            && (c.status == Approved <==> c.verdict.Some? && c.verdict.value.verified)
            && Replay(c.audit) == Replayed(c.status, c.reviewer, c.submissions)
            && Count(c.history, WasIssued)
               == Count(c.history, WasConsumed) + Count(c.history, HasExpired) + Count(c.history, WasRevoked(true))
                  + One(Live(c))
            && c.submissions <= c.maxSubmissions
            && Changes(c.audit) <= c.submissions + 2 * Revivals(c.audit) + 1 + 2 * One(c.submissions > 0)
            && Claims(c.audit) <= 1
  {
    EveryRunIsSafe(Start(now, maxAge), ops);
    var w := Run(Start(now, maxAge), ops);
    assert CaseSafe(w.cases[r], w.now, w.maxAge);
    GrantEventsBalance(w.cases[r].history);
    StatusChangesAreBounded(w.cases[r], w.now, w.maxAge);
  }

  lemma {:induction false} RevokedForever(w: World, ops: seq<Op>, r: RequestId)
    requires Safe(w) && r in w.cases && w.cases[r].status == Revoked
    ensures r in Run(w, ops).cases && Closed(Run(w, ops).cases[r])
  {
    if ops != [] {
      var before := Run(w, ops[..|ops| - 1]);
      RevokedForever(w, ops[..|ops| - 1], r);
      var call := StepIsACall(before, ops[|ops| - 1], r);
      if call.Some? {
        CallKeepsClosed(before.cases[r], before.now, before.maxAge, call.value);
      }
    }
  }

  /**
    A case that has a reviewer but is not in review is never reviewed again: asking for more information,
    or assigning a reviewer before the claim, is final.
  */
  lemma {:induction false} NeverDecidedAfterwards(w: World, ops: seq<Op>, r: RequestId)
    requires r in w.cases && OutOfReach(w.cases[r])
    ensures r in Run(w, ops).cases && Run(w, ops).cases[r].status !in {InReview, Approved, Rejected}
    ensures OutOfReach(Run(w, ops).cases[r])
  {
    if ops != [] {
      var before := Run(w, ops[..|ops| - 1]);
      NeverDecidedAfterwards(w, ops[..|ops| - 1], r);
      var call := StepIsACall(before, ops[|ops| - 1], r);
      if call.Some? {
        CallKeepsOutOfReach(before.cases[r], before.now, before.maxAge, call.value);
      }
    }
  }

  /** Asking for more information is final: no reachable case that was sent back is ever decided. */
  lemma MoreInfoIsFinal(now: Time, maxAge: nat, before: seq<Op>, ops: seq<Op>, r: RequestId)
    requires r in Run(Start(now, maxAge), before).cases
    requires Run(Start(now, maxAge), before).cases[r].status == MoreInfo
    ensures var after := Run(Run(Start(now, maxAge), before), ops);
            r in after.cases && after.cases[r].status !in {InReview, Approved, Rejected}
  {
    var w := Run(Start(now, maxAge), before);
    EveryRunIsSafe(Start(now, maxAge), before);
    assert CaseSafe(w.cases[r], w.now, w.maxAge);
    NeverDecidedAfterwards(w, ops, r);
  }

  lemma {:induction false} NeverApproved(w: World, ops: seq<Op>, r: RequestId)
    requires Safe(w) && r in w.cases && !Approvable(w.cases[r])
    ensures r in Run(w, ops).cases && !Approvable(Run(w, ops).cases[r])
  {
    if ops != [] {
      var before := Run(w, ops[..|ops| - 1]);
      NeverApproved(w, ops[..|ops| - 1], r);
      EveryRunIsSafe(w, ops[..|ops| - 1]);
      assert CaseSafe(before.cases[r], before.now, before.maxAge);
      var call := StepIsACall(before, ops[|ops| - 1], r);
      if call.Some? {
        CallKeepsUnapprovable(before.cases[r], before.now, before.maxAge, call.value);
      }
    }
  }

  ghost predicate CanBeApproved(w: World, r: RequestId) {
    exists ops :: r in Run(w, ops).cases && Run(w, ops).cases[r].status == Approved
  }

  /** One more call. */
  lemma ApprovedLater(w: World, r: RequestId, call: CaseOp)
    requires CanBeApproved(Step(w, OnCase(r, call)), r)
    ensures CanBeApproved(w, r)
  {
    var ops :| r in Run(Step(w, OnCase(r, call)), ops).cases && Run(Step(w, OnCase(r, call)), ops).cases[r].status == Approved;
    RunOne(w, OnCase(r, call));
    RunComposes(w, [OnCase(r, call)], ops);
    assert Run(w, [OnCase(r, call)] + ops).cases[r].status == Approved;
  }

  lemma ReviewedCanBeApproved(w: World, r: RequestId)
    requires Safe(w) && r in w.cases && w.cases[r].status == InReview
    ensures CanBeApproved(w, r)
  {
    var c := w.cases[r];
    assert CaseSafe(c, w.now, w.maxAge);
    ReviewCanApprove(c, w.now);
    RunOne(w, OnCase(r, DoDecide(c.reviewer.value, Approved)));
    assert Run(w, [OnCase(r, DoDecide(c.reviewer.value, Approved))]).cases[r].status == Approved;
  }

  lemma QueuedCanBeApproved(w: World, r: RequestId)
    requires Safe(w) && r in w.cases && w.cases[r].status == Queued && w.cases[r].reviewer.None?
    ensures CanBeApproved(w, r)
  {
    var claimed := Step(w, OnCase(r, DoClaim(0)));
    StepKeepsSafe(w, OnCase(r, DoClaim(0)));
    assert claimed.cases[r].status == InReview;
    ReviewedCanBeApproved(claimed, r);
    ApprovedLater(w, r, DoClaim(0));
  }

  lemma PendingCanBeApproved(w: World, r: RequestId)
    requires Safe(w) && r in w.cases && w.cases[r].status == Pending && w.cases[r].reviewer.None?
    requires w.cases[r].submissions < w.cases[r].maxSubmissions
    ensures CanBeApproved(w, r)
  {
    var submitted := Step(w, OnCase(r, DoSubmit(true)));
    StepKeepsSafe(w, OnCase(r, DoSubmit(true)));
    assert submitted.cases[r].status == Queued && submitted.cases[r].reviewer.None?;
    QueuedCanBeApproved(submitted, r);
    ApprovedLater(w, r, DoSubmit(true));
  }

  lemma ExtendedIsPending(w: World, r: RequestId)
    requires r in w.cases && w.cases[r].status == Expired
    ensures var after := Step(w, OnCase(r, DoExtend(w.now + 1)));
            r in after.cases && after.cases[r].status == Pending && after.cases[r].reviewer == w.cases[r].reviewer
            && after.cases[r].submissions == w.cases[r].submissions
            && after.cases[r].maxSubmissions == w.cases[r].maxSubmissions
  {
    ExtensionRevives(w.cases[r], w.now, w.maxAge);
  }

  lemma ExpiredCanBeApproved(w: World, r: RequestId)
    requires Safe(w) && r in w.cases && w.cases[r].status == Expired && w.cases[r].reviewer.None?
    requires w.cases[r].submissions < w.cases[r].maxSubmissions
    ensures CanBeApproved(w, r)
  {
    var extension := DoExtend(w.now + 1);
    StepKeepsSafe(w, OnCase(r, extension));
    ExtendedIsPending(w, r);
    PendingCanBeApproved(Step(w, OnCase(r, extension)), r);
    ApprovedLater(w, r, extension);
  }

  /**
    Some continuation approves a case if and only if it is in review (or approved already), or nobody has been
    assigned yet and it is queued, or could still be submitted.
  */
  lemma ApprovableIffSomeRunApproves(w: World, r: RequestId)
    requires Safe(w) && r in w.cases
    ensures CanBeApproved(w, r) <==> Approvable(w.cases[r])
  {
    var c := w.cases[r];
    if !Approvable(c) {
      forall ops ensures r in Run(w, ops).cases && Run(w, ops).cases[r].status != Approved {
        NeverApproved(w, ops, r);
      }
    } else if c.status == Approved {
      assert Run(w, []).cases[r].status == Approved;
    } else if c.status == InReview {
      ReviewedCanBeApproved(w, r);
    } else if c.status == Queued {
      QueuedCanBeApproved(w, r);
    } else if c.status == Pending {
      PendingCanBeApproved(w, r);
    } else {
      ExpiredCanBeApproved(w, r);
    }
  }

  // ---------------------------------------------------------------------------------------------
  // Looking only at the newest grant
  // ---------------------------------------------------------------------------------------------

  /** The newest live grant of a user is good exactly when any grant of any request is good for that user. */
  lemma NewestDecides(w: World, user: DiscordId, newest: RequestId)
    requires AllConsistent(w) && IsNewest(w.cases, user, newest)
    ensures Eligible(w.cases[newest], user, w.now) <==>
            exists r :: r in w.cases && Eligible(w.cases[r], user, w.now)
  {
  }

  // ---------------------------------------------------------------------------------------------
  // Who may hold the role
  // ---------------------------------------------------------------------------------------------

  /** Between adding the role and the end of the attempt. */
  ghost predicate InFlight(w: World, user: DiscordId) {
    exists a :: a in w.attempts && w.attempts[a].user == user
                && (w.attempts[a].phase.RoleAssigned? || w.attempts[a].phase.MustRemove?)
  }

  ghost predicate EverConsumed(w: World, user: DiscordId) {
    exists r :: r in w.cases && w.cases[r].discordId == user && WasConsumed in w.cases[r].history
  }

  ghost predicate Justified(w: World, user: DiscordId) {
    InFlight(w, user) || EverConsumed(w, user) || user in w.leaks
  }

  ghost predicate RolesJustified(w: World) {
    forall u :: u in w.roles ==> Justified(w, u)
  }

  lemma EverConsumedIsKept(w: World, op: Op, user: DiscordId)
    requires EverConsumed(w, user)
    ensures EverConsumed(Step(w, op), user)
  {
    var r :| r in w.cases && w.cases[r].discordId == user && WasConsumed in w.cases[r].history;
    var call := StepIsACall(w, op, r);
    var after := Step(w, op).cases[r];
    assert after.discordId == user && WasConsumed in after.history;
  }

  /** A successful consumption is on the record of the user's own case. */
  lemma SuccessIsRecorded(w: World, a: AttemptId, fault: Fault)
    requires a in w.attempts && w.attempts[a].phase.RoleAssigned?
    requires ConsumeStep(w, a, fault).attempts[a].phase == Ended(true)
    ensures EverConsumed(ConsumeStep(w, a, fault), w.attempts[a].user)
  {
    var r := w.attempts[a].phase.grantOf;
    var after := ConsumeStep(w, a, fault).cases[r];
    assert after.history == w.cases[r].history + [WasConsumed];
    assert after.history[|w.cases[r].history|] == WasConsumed;
    assert after.discordId == w.attempts[a].user;
  }

  lemma StepKeepsRolesJustified(w: World, op: Op)
    requires RolesJustified(w)
    ensures RolesJustified(Step(w, op))
  {
    var after := Step(w, op);
    forall u | u in after.roles ensures Justified(after, u) {
      if u in w.roles && EverConsumed(w, u) {
        EverConsumedIsKept(w, op, u);
      } else if u in w.roles && InFlight(w, u) {
        var a :| a in w.attempts && w.attempts[a].user == u
                 && (w.attempts[a].phase.RoleAssigned? || w.attempts[a].phase.MustRemove?);
        assert a in after.attempts && after.attempts[a].user == u;
        if after.attempts[a].phase == Ended(true) {
          SuccessIsRecorded(w, a, op.fault);
        }
      } else if u !in w.roles {
        assert op.AddRole? && after.attempts[op.attempt].user == u;
      }
    }
  }

  /**
    In every run, whoever holds the role is in the middle of an attempt, or has had a grant consumed, or
    is someone for whom Discord reported a failure on a call that mattered.
  */
  lemma {:induction false} EveryRoleIsJustified(now: Time, maxAge: nat, ops: seq<Op>)
    ensures RolesJustified(Run(Start(now, maxAge), ops))
  {
    if ops != [] {
      EveryRoleIsJustified(now, maxAge, ops[..|ops| - 1]);
      StepKeepsRolesJustified(Run(Start(now, maxAge), ops[..|ops| - 1]), ops[|ops| - 1]);
    }
  }

  /** Discord's refusals are true, and compensating removals succeed. */
  predicate Faithful(op: Op) {
    match op
    case AddRole(_, reply) => reply != DiscordRefused(true)
    case RemoveRole(_, succeeds) => succeeds
    case _ => true
  }

  /** Neither Discord nor the database fails. */
  predicate Faultless(op: Op) {
    match op
    case AddRole(_, reply) => reply == Added
    case Consume(_, fault) => fault == NoFault
    case RemoveRole(_, succeeds) => succeeds
    case _ => true
  }

  lemma FaithfulStepLeaksNobody(w: World, op: Op)
    requires Faithful(op)
    ensures Step(w, op).leaks == w.leaks
  {
  }

  lemma {:induction false} FaithfulRunsLeakNobody(now: Time, maxAge: nat, ops: seq<Op>)
    requires forall i :: 0 <= i < |ops| ==> Faithful(ops[i])
    ensures Run(Start(now, maxAge), ops).leaks == {}
  {
    if ops != [] {
      FaithfulRunsLeakNobody(now, maxAge, ops[..|ops| - 1]);
      FaithfulStepLeaksNobody(Run(Start(now, maxAge), ops[..|ops| - 1]), ops[|ops| - 1]);
    }
  }

  /** With such answers, in every interleaving a role is held only during an attempt or after a consumption. */
  lemma EveryRoleIsEarned(now: Time, maxAge: nat, ops: seq<Op>, user: DiscordId)
    requires forall i :: 0 <= i < |ops| ==> Faithful(ops[i])
    requires user in Run(Start(now, maxAge), ops).roles
    ensures InFlight(Run(Start(now, maxAge), ops), user) || EverConsumed(Run(Start(now, maxAge), ops), user)
  {
    EveryRoleIsJustified(now, maxAge, ops);
    FaithfulRunsLeakNobody(now, maxAge, ops);
  }

  // ---------------------------------------------------------------------------------------------
  // Attempts one at a time
  // ---------------------------------------------------------------------------------------------

  predicate Running(w: World, a: AttemptId) {
    a in w.attempts && !w.attempts[a].phase.Ended?
  }

  /** No user has two running attempts, and Discord's answers can be believed. */
  ghost predicate OrderlyOp(w: World, op: Op) {
    match op
    case Begin(_, user, _) => forall a :: Running(w, a) ==> w.attempts[a].user != user
    case _ => Faithful(op)
  }

  ghost predicate OrderlyRun(w: World, ops: seq<Op>) {
    ops != [] ==>
      OrderlyRun(w, ops[..|ops| - 1]) && OrderlyOp(Run(w, ops[..|ops| - 1]), ops[|ops| - 1])
  }

  ghost predicate Orderly(w: World) {
    && (forall a, b :: Running(w, a) && Running(w, b) && w.attempts[a].user == w.attempts[b].user ==> a == b)
    && (forall a :: Running(w, a) && w.attempts[a].phase.RoleAssigned? ==> w.attempts[a].user in w.roles)
  }

  lemma StepKeepsOneAttemptPerUser(w: World, op: Op)
    requires Orderly(w) && OrderlyOp(w, op)
    ensures var after := Step(w, op);
            forall a, b :: Running(after, a) && Running(after, b) && after.attempts[a].user == after.attempts[b].user ==> a == b
  {
  }

  lemma StepKeepsOrderly(w: World, op: Op)
    requires Orderly(w) && OrderlyOp(w, op)
    ensures Orderly(Step(w, op))
  {
    var after := Step(w, op);
    StepKeepsOneAttemptPerUser(w, op);
    forall a | Running(after, a)
      ensures after.attempts[a].phase.RoleAssigned? ==> after.attempts[a].user in after.roles
    {
      if Running(w, a) && (op.AddRole? || op.RemoveRole?) && Running(w, op.attempt) && op.attempt != a {
        assert w.attempts[op.attempt].user != w.attempts[a].user;
      }
    }
  }

  lemma {:induction false} OrderlyRunsStayOrderly(now: Time, maxAge: nat, ops: seq<Op>)
    requires OrderlyRun(Start(now, maxAge), ops)
    ensures Orderly(Run(Start(now, maxAge), ops))
  {
    if ops != [] {
      OrderlyRunsStayOrderly(now, maxAge, ops[..|ops| - 1]);
      StepKeepsOrderly(Run(Start(now, maxAge), ops[..|ops| - 1]), ops[|ops| - 1]);
    }
  }

  /** The attempt's consume step puts the consumption on the grant's record, and the worker hears that it did. */
  ghost predicate ConsumesAndKnows(w: World, op: Op, a: AttemptId) {
    && op.Consume? && op.attempt == a && op.fault != AfterCommit
    && a in w.attempts && w.attempts[a].phase.RoleAssigned? && w.attempts[a].phase.grantOf in w.cases
    && var r := w.attempts[a].phase.grantOf;
       r in Step(w, op).cases && Step(w, op).cases[r].history == w.cases[r].history + [WasConsumed]
  }

  ghost predicate ConsumedAndKnew(w: World, ops: seq<Op>, a: AttemptId) {
    ops != [] &&
    (ConsumedAndKnew(w, ops[..|ops| - 1], a) || ConsumesAndKnows(Run(w, ops[..|ops| - 1]), ops[|ops| - 1], a))
  }

  ghost predicate EndedWell(w: World, a: AttemptId) {
    a in w.attempts && w.attempts[a].phase == Ended(true)
  }

  /** A consume call that is let down at neither end reports exactly what it wrote. */
  lemma ConsumptionIsRecorded(c: Case, user: DiscordId, now: Time)
    ensures ConsumeGrant(c, user, now).1 <==> ConsumeGrant(c, user, now).0.history == c.history + [WasConsumed]
  {
    var h := ConsumeGrant(c, user, now).0.history;
    assert h == c.history || h == c.history + [HasExpired] || h == c.history + [WasConsumed];
    assert h == c.history + [HasExpired] ==> h[|c.history|] == HasExpired;
    assert h == c.history + [WasConsumed] ==> h[|c.history|] == WasConsumed;
  }

  lemma EndingWellIsConsuming(w: World, op: Op, a: AttemptId)
    ensures EndedWell(Step(w, op), a) <==> EndedWell(w, a) || ConsumesAndKnows(w, op, a)
  {
    if op.Consume? && op.attempt == a && a in w.attempts && w.attempts[a].phase.RoleAssigned?
       && w.attempts[a].phase.grantOf in w.cases {
      ConsumptionIsRecorded(w.cases[w.attempts[a].phase.grantOf], w.attempts[a].user, w.now);
    }
  }

  lemma {:induction false} EndedWellIffConsumed(now: Time, maxAge: nat, ops: seq<Op>, a: AttemptId)
    ensures EndedWell(Run(Start(now, maxAge), ops), a) <==> ConsumedAndKnew(Start(now, maxAge), ops, a)
  {
    if ops != [] {
      EndedWellIffConsumed(now, maxAge, ops[..|ops| - 1], a);
      EndingWellIsConsuming(Run(Start(now, maxAge), ops[..|ops| - 1]), ops[|ops| - 1], a);
    }
  }

  /**
    In a run whose attempts do not overlap, an attempt ends with the role held exactly when its consume step
    consumed the grant and did not fail after the commit.
  */
  lemma AttemptEndsHeldIffConsumed(now: Time, maxAge: nat, ops: seq<Op>, op: Op, a: AttemptId)
    requires OrderlyRun(Start(now, maxAge), ops + [op])
    requires Running(Run(Start(now, maxAge), ops), a)
    requires a in Run(Start(now, maxAge), ops + [op]).attempts
    requires Run(Start(now, maxAge), ops + [op]).attempts[a].phase.Ended?
    ensures var after := Run(Start(now, maxAge), ops + [op]);
            after.attempts[a].user in after.roles <==> ConsumedAndKnew(Start(now, maxAge), ops + [op], a)
  {
    var w := Run(Start(now, maxAge), ops);
    assert (ops + [op])[..|ops|] == ops;
    OrderlyRunsStayOrderly(now, maxAge, ops);
    EndedWellIffConsumed(now, maxAge, ops + [op], a);
    LastStepDecides(w, op, a);
  }

  lemma LastStepDecides(w: World, op: Op, a: AttemptId)
    requires Orderly(w) && OrderlyOp(w, op) && Running(w, a)
    requires a in Step(w, op).attempts && Step(w, op).attempts[a].phase.Ended?
    ensures Step(w, op).attempts[a].user in Step(w, op).roles <==> EndedWell(Step(w, op), a)
  {
  }

  /** The steps of an attempt whose transaction commits and then fails. */
  function FailAfterCommit(a: AttemptId, user: DiscordId, newest: RequestId): seq<Op> {
    [Begin(a, user, newest), AddRole(a, Added), Consume(a, AfterCommit), RemoveRole(a, true)]
  }

  /** Without overlap, and with every answer of Discord true, a grant can be consumed and the role gone all the same. */
  lemma ConsumedButNotHeld(w: World, a: AttemptId, user: DiscordId, newest: RequestId)
    requires a !in w.attempts && forall b :: Running(w, b) ==> w.attempts[b].user != user
    requires IsNewest(w.cases, user, newest) && Eligible(w.cases[newest], user, w.now)
    ensures var ops := FailAfterCommit(a, user, newest);
            var after := Run(w, ops);
            && OrderlyOp(w, ops[0]) && Faithful(ops[1]) && Faithful(ops[2]) && Faithful(ops[3])
            && newest in after.cases && after.cases[newest].grant.Some?
            && after.cases[newest].grant.value.status == Consumed
            && after.cases[newest].history == w.cases[newest].history + [WasConsumed]
            && user !in after.roles
  {
    RunFour(w, Begin(a, user, newest), AddRole(a, Added), Consume(a, AfterCommit), RemoveRole(a, true));
    RoleIsAdded(w, a, user, newest);
    FaultAfterCommit(AddRoleStep(BeginStep(w, a, user, newest), a, Added), a, user, newest);
  }

  lemma RoleIsAdded(w: World, a: AttemptId, user: DiscordId, newest: RequestId)
    requires a !in w.attempts && IsNewest(w.cases, user, newest) && Eligible(w.cases[newest], user, w.now)
    ensures AddRoleStep(BeginStep(w, a, user, newest), a, Added)
         == w.(roles := w.roles + {user}, attempts := w.attempts[a := Attempt(user, RoleAssigned(newest))])
  {
    assert BeginStep(w, a, user, newest) == w.(attempts := w.attempts[a := Attempt(user, Found(newest))]);
    assert user in w.roles ==> w.roles + {user} == w.roles;
  }

  lemma FaultAfterCommit(w: World, a: AttemptId, user: DiscordId, r: RequestId)
    requires a in w.attempts && w.attempts[a] == Attempt(user, RoleAssigned(r))
    requires r in w.cases && Eligible(w.cases[r], user, w.now)
    ensures var after := RemoveRoleStep(ConsumeStep(w, a, AfterCommit), a, true);
            && r in after.cases && after.cases[r].grant.Some? && after.cases[r].grant.value.status == Consumed
            && after.cases[r].history == w.cases[r].history + [WasConsumed]
            && user !in after.roles
  {
  }

  // ---------------------------------------------------------------------------------------------
  // Attempts that overlap
  // ---------------------------------------------------------------------------------------------

  ghost predicate Quiet(w: World, user: DiscordId) {
    forall a :: Running(w, a) ==> w.attempts[a].user != user
  }

  predicate NoNewAttempt(ops: seq<Op>, user: DiscordId) {
    forall i :: 0 <= i < |ops| && ops[i].Begin? ==> ops[i].user != user
  }

  lemma StepKeepsQuiet(w: World, op: Op, user: DiscordId)
    requires Quiet(w, user) && (op.Begin? ==> op.user != user)
    ensures Quiet(Step(w, op), user)
    ensures user in Step(w, op).roles <==> user in w.roles
  {
  }

  lemma {:induction false} QuietKeepsRole(w: World, ops: seq<Op>, user: DiscordId)
    requires Quiet(w, user) && NoNewAttempt(ops, user)
    ensures Quiet(Run(w, ops), user)
    ensures user in Run(w, ops).roles <==> user in w.roles
  {
    if ops != [] {
      var shorter := ops[..|ops| - 1];
      assert forall i :: 0 <= i < |shorter| ==> shorter[i] == ops[i];
      assert NoNewAttempt(shorter, user);
      QuietKeepsRole(w, shorter, user);
      StepKeepsQuiet(Run(w, shorter), ops[|ops| - 1], user);
    }
  }

  predicate FaultlessRun(ops: seq<Op>) {
    forall i :: 0 <= i < |ops| ==> Faultless(ops[i])
  }

  /** Revoke the attempt's grant and let the attempt come to its end. */
  function Overtake(b: AttemptId, grantOf: RequestId): seq<Op> {
    [OnCase(grantOf, DoRevokeGrant(true)), AddRole(b, Added), Consume(b, NoFault), RemoveRole(b, true)]
  }

  /** Without a good grant, be it spent, revoked or overdue, the rest of an attempt takes the role away, whoever added it. */
  lemma LateAttemptTakesRoleAway(w: World, b: AttemptId)
    requires Running(w, b)
    requires w.attempts[b].phase.MustRemove? ||
             (w.attempts[b].phase.grantOf in w.cases ==>
                !Eligible(w.cases[w.attempts[b].phase.grantOf], w.attempts[b].user, w.now))
    ensures w.attempts[b].user !in RemoveRoleStep(ConsumeStep(AddRoleStep(w, b, Added), b, NoFault), b, true).roles
  {
  }

  lemma RevocationEndsGrant(w: World, r: RequestId)
    ensures var after := Step(w, OnCase(r, DoRevokeGrant(true)));
            && after.attempts == w.attempts && after.cases.Keys == w.cases.Keys
            && (r in after.cases ==> !Live(after.cases[r]))
  {
  }

  lemma OvertakenAttemptTakesRoleAway(w: World, b: AttemptId, grantOf: RequestId)
    requires Running(w, b) && (w.attempts[b].phase.MustRemove? || w.attempts[b].phase.grantOf == grantOf)
    ensures w.attempts[b].user !in Run(w, Overtake(b, grantOf)).roles
  {
    RunFour(w, OnCase(grantOf, DoRevokeGrant(true)), AddRole(b, Added), Consume(b, NoFault), RemoveRole(b, true));
    RevocationEndsGrant(w, grantOf);
    LateAttemptTakesRoleAway(Step(w, OnCase(grantOf, DoRevokeGrant(true))), b);
  }

  /**
    The user of a consumed grant keeps the role, however the run goes on without new attempts and without
    failures, if and only if no other attempt of that user is still running when the grant is consumed.
    Another one, on the same grant or not, may come to an end without a grant and then removes the role.
  */
  lemma ConsumerKeepsRoleIffAlone(w: World, a: AttemptId)
    requires a in w.attempts && w.attempts[a].phase.RoleAssigned? && w.attempts[a].user in w.roles
    requires w.attempts[a].phase.grantOf in w.cases
    requires Eligible(w.cases[w.attempts[a].phase.grantOf], w.attempts[a].user, w.now)
    ensures var user := w.attempts[a].user;
            var after := Step(w, Consume(a, NoFault));
            && after.cases[w.attempts[a].phase.grantOf].grant.value.status == Consumed
            && ((forall ops :: NoNewAttempt(ops, user) && FaultlessRun(ops) ==> user in Run(after, ops).roles) <==>
                (forall b :: Running(w, b) && w.attempts[b].user == user ==> b == a))
  {
    var user := w.attempts[a].user;
    var after := Step(w, Consume(a, NoFault));
    if forall b :: Running(w, b) && w.attempts[b].user == user ==> b == a {
      assert Quiet(after, user) by {
        forall b | Running(after, b) ensures after.attempts[b].user != user {
          assert Running(w, b);
        }
      }
      forall ops | NoNewAttempt(ops, user) && FaultlessRun(ops) ensures user in Run(after, ops).roles {
        QuietKeepsRole(after, ops, user);
      }
    } else {
      var b :| Running(w, b) && w.attempts[b].user == user && b != a;
      assert Running(after, b) && after.attempts[b] == w.attempts[b];
      var grantOf := if w.attempts[b].phase.MustRemove? then 0 else w.attempts[b].phase.grantOf;
      OvertakenAttemptTakesRoleAway(after, b, grantOf);
      assert NoNewAttempt(Overtake(b, grantOf), user) && FaultlessRun(Overtake(b, grantOf));
    }
  }

  /** Such an overlap arises from any world in which the user has a good grant. */
  lemma OverlapIsReachable(w: World, user: DiscordId, newest: RequestId, a: AttemptId, b: AttemptId)
    requires a != b && a !in w.attempts && b !in w.attempts
    requires IsNewest(w.cases, user, newest) && Eligible(w.cases[newest], user, w.now)
    ensures var begun := Step(Step(w, Begin(a, user, newest)), Begin(b, user, newest));
            var after := Step(Step(begun, AddRole(a, Added)), AddRole(b, Added));
            && after.cases == w.cases && after.now == w.now
            && after.attempts == w.attempts[a := Attempt(user, RoleAssigned(newest))][b := Attempt(user, RoleAssigned(newest))]
            && user in after.roles
  {
  }
}
