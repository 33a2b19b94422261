/**
  The services and the gateway worker as they run: each method reads rows, checks them in order, assigns
  columns one after another and commits.  Each is proved to answer as the corresponding call of module
  Lifecycle, or to perform steps of module Release, so the laws proved there hold of what the methods do.
*/
module ReleaseService {
  import opened Common
  import opened Lifecycle
  import opened CaseLaws
  import opened Release
  import opened GrantClosing

  /** One service call on request r: either the rows of r change as specified, or nothing does and it raises. */
  ghost predicate Answers(before: map<RequestId, Case>, after: map<RequestId, Case>, r: RequestId,
                          now: Time, maxAge: nat, call: CaseOp, raised: Option<Error>)
  {
    if r !in before then after == before && raised == Some(NotFound)
    else
      match Call(before[r], now, maxAge, call)
      case Ok(c) => after == before[r := c] && raised == None
      case Err(e) => after == before && raised == Some(e)
  }

  class AccessService {
    const maxAge: nat
    var now: Time
    var cases: map<RequestId, Case>
    var roles: set<DiscordId>
    ghost var attempts: map<AttemptId, Attempt>
    ghost var leaks: set<DiscordId>

    ghost function State(): World
      reads this
    {
      World(now, maxAge, cases, roles, attempts, leaks)
    }

    constructor (now: Time, maxAge: nat)
      ensures State() == Start(now, maxAge)
    {
      this.now, this.maxAge, cases, roles, attempts, leaks := now, maxAge, map[], {}, map[], {};
    }

    // -------------------------------------------------------------------------------------------
    // Request lifecycle
    // -------------------------------------------------------------------------------------------

    method CreateVerificationRequest(r: RequestId, discordId: DiscordId, expiresAt: Option<Time>,
                                     defaultSeconds: nat, maxSubmissions: nat)
      returns (raised: Option<Error>)
      requires r !in cases
      modifies this`cases
      ensures var expiry := if expiresAt.Some? then expiresAt.value else now + defaultSeconds;
              State() == Step(old(State()), CreateRequest(r, discordId, expiry, maxSubmissions))
              && (raised == None <==> expiry > now)
    {
      var expiry := now + defaultSeconds;
      if expiresAt.Some? {
        expiry := expiresAt.value;
      }
      if expiry <= now {
        return Some(ExpiryNotInFuture);
      }
      var request := Case(discordId, Pending, expiry, 0, maxSubmissions, None, None, None, [], []);
      request := request.(audit := request.audit + [RequestCreated]);
      assert request.audit == [RequestCreated];
      cases := cases[r := request];
      return None;
    }

    method ClaimCase(r: RequestId, admin: AdminId) returns (raised: Option<Error>)
      modifies this`cases
      ensures Answers(old(cases), cases, r, now, maxAge, DoClaim(admin), raised)
    {
      if r !in cases {
        return Some(NotFound);
      }
      var request := cases[r];
      if request.status != Queued {
        return Some(NotClaimable);
      }
      if request.reviewer.Some? {
        return Some(AlreadyAssigned);
      }
      if !CanTransition(request.status, InReview) {
        return Some(InvalidTransition);
      }
      request := request.(status := InReview);
      request := request.(reviewer := Some(admin));
      request := request.(audit := request.audit + [CaseClaimed(admin)]);
      cases := cases[r := request];
      return None;
    }

    method RecordDecision(r: RequestId, admin: AdminId, target: Status) returns (raised: Option<Error>)
      modifies this`cases
      ensures Answers(old(cases), cases, r, now, maxAge, DoDecide(admin, target), raised)
    {
      if r !in cases {
        return Some(NotFound);
      }
      var request := cases[r];
      if request.status != InReview {
        return Some(NotInReview);
      }
      if request.reviewer != Some(admin) {
        return Some(OtherReviewer);
      }
      if target !in {Approved, Rejected, MoreInfo} {
        return Some(UnsupportedDecision);
      }
      if !CanTransition(request.status, target) {
        return Some(InvalidTransition);
      }
      request := request.(status := target);
      if target == Approved {
        if request.verdict.None? {
          request := request.(verdict := Some(Verdict(request.discordId, true, request.reviewer, now, None)));
        } else {
          var verdict := request.verdict.value;
          verdict := verdict.(verified := true);
          verdict := verdict.(reviewer := request.reviewer);
          verdict := verdict.(verifiedAt := now, revokedAt := None);
          request := request.(verdict := Some(verdict));
        }
      }
      var action := MoreInfoRequested;
      if target == Approved {
        action := VerificationApproved;
      } else if target == Rejected {
        action := VerificationRejected;
      }
      request := request.(audit := request.audit + [action]);
      cases := cases[r := request];
      return None;
    }

    method ExpireRequestIfNeeded(r: RequestId) returns (expired: bool, raised: Option<Error>)
      modifies this`cases
      ensures Answers(old(cases), cases, r, now, maxAge, DoExpireLazily, raised)
      ensures expired <==> cases != old(cases)
    {
      if r !in cases {
        return false, Some(NotFound);
      }
      var request := cases[r];
      if request.status in {Approved, Rejected, Expired, Revoked} {
        return false, None;
      }
      if request.expiresAt > now {
        return false, None;
      }
      if !CanTransition(request.status, Expired) {
        return false, Some(InvalidTransition);
      }
      request := request.(status := Expired);
      request := request.(audit := request.audit + [RequestExpired]);
      cases := cases[r := request];
      assert cases[r].status != old(cases)[r].status;
      return true, None;
    }

    method RevokeVerificationRequest(r: RequestId) returns (raised: Option<Error>)
      modifies this`cases
      ensures Answers(old(cases), cases, r, now, maxAge, DoRevokeRequest, raised)
    {
      if r !in cases {
        return Some(NotFound);
      }
      var request := cases[r];
      if request.status == Revoked {
        return None;
      }
      if request.status == Expired {
        return Some(ExpiredCannotBeRevoked);
      }
      if !CanTransition(request.status, Revoked) {
        return Some(InvalidTransition);
      }
      request := request.(status := Revoked);
      if request.grant.Some? {
        request := request.(history := request.history + [WasRevoked(Live(request))]);
        request := request.(grant := Some(request.grant.value.(status := GrantRevoked, revokedAt := Some(now))));
      }
      request := request.(audit := request.audit + [RequestRevoked]);
      if request.verdict.Some? {
        request := request.(verdict := Some(request.verdict.value.(verified := false, revokedAt := Some(now))));
      }
      cases := cases[r := request];
      return None;
    }

    method ExtendRequestExpiration(r: RequestId, until: Time) returns (raised: Option<Error>)
      modifies this`cases
      ensures Answers(old(cases), cases, r, now, maxAge, DoExtend(until), raised)
    {
      if r !in cases {
        return Some(NotFound);
      }
      var request := cases[r];
      if until <= now {
        return Some(ExpiryNotInFuture);
      }
      if request.status == Revoked {
        return Some(RevokedCannotBeExtended);
      }
      request := request.(expiresAt := until);
      if request.status == Expired {
        request := request.(status := Pending);
      }
      request := request.(audit := request.audit + [ExpirationExtended]);
      cases := cases[r := request];
      return None;
    }

    method AssignReviewer(r: RequestId, reviewer: AdminId, activeAdmins: set<AdminId>) returns (raised: Option<Error>)
      modifies this`cases
      ensures Answers(old(cases), cases, r, now, maxAge, DoAssign(reviewer, reviewer in activeAdmins), raised)
    {
      if r !in cases {
        return Some(NotFound);
      }
      if reviewer !in activeAdmins {
        return Some(ReviewerUnavailable);
      }
      var request := cases[r];
      request := request.(reviewer := Some(reviewer));
      request := request.(audit := request.audit + [CaseAssigned(reviewer)]);
      cases := cases[r := request];
      return None;
    }

    /** The batch job over requests; the rows come back in no particular order. */
    method ExpireDueVerificationRequests() returns (processed: nat)
      modifies this`cases
      ensures State() == Step(old(State()), ExpireDueRequests)
      ensures processed == |set r | r in old(cases) && DueForExpiry(old(cases)[r], now)|
    {
      var due := set r | r in cases && DueForExpiry(cases[r], now);
      ghost var all := due;
      processed := 0;
      while due != {}
        invariant due <= all && processed + |due| == |all|
        invariant cases.Keys == old(cases).Keys
        invariant forall r :: r in cases ==>
                    cases[r] == if r in due then old(cases)[r] else SweepRequest(old(cases)[r], now)
        decreases due
      {
        var r :| r in due;
        var request := cases[r];
        if !CanTransition(request.status, Expired) {
          assert false;
        }
        request := request.(status := Expired);
        request := request.(audit := request.audit + [RequestExpired]);
        cases := cases[r := request];
        processed := processed + 1;
        due := due - {r};
      }
    }

    // -------------------------------------------------------------------------------------------
    // Access grants
    // -------------------------------------------------------------------------------------------

    method IssueAccessGrant(r: RequestId, invited: bool) returns (raised: Option<Error>)
      modifies this`cases
      ensures Answers(old(cases), cases, r, now, maxAge, DoIssue(invited), raised)
    {
      if r !in cases {
        return Some(NotFound);
      }
      var request := cases[r];
      if request.status != Approved {
        return Some(NotApproved);
      }
      if request.grant.Some? && request.grant.value.status in {Issued, Consumed} {
        return Some(GrantExists);
      }
      if !invited {
        return Some(DiscordFailed);
      }
      var expiresAt := now + maxAge;
      if request.grant.None? {
        request := request.(grant := Some(Grant(request.discordId, Issued, now, expiresAt, None, None)));
      } else {
        var grant := request.grant.value;
        grant := grant.(discordId := request.discordId);
        grant := grant.(status := Issued);
        grant := grant.(issuedAt := now, expiresAt := expiresAt);
        grant := grant.(consumedAt := None, revokedAt := None);
        request := request.(grant := Some(grant));
      }
      request := request.(audit := request.audit + [AccessGranted], history := request.history + [WasIssued]);
      cases := cases[r := request];
      return None;
    }

    method RevokeAccessGrant(r: RequestId, inviteDeleted: bool) returns (raised: Option<Error>)
      modifies this`cases
      ensures Answers(old(cases), cases, r, now, maxAge, DoRevokeGrant(inviteDeleted), raised)
    {
      if r !in cases {
        return Some(NotFound);
      }
      var request := cases[r];
      if request.grant.None? {
        return Some(NoGrant);
      }
      var grant := request.grant.value;
      if grant.status == GrantRevoked {
        return None;
      }
      if grant.status == Issued && !inviteDeleted {
        return Some(DiscordFailed);
      }
      request := request.(history := request.history + [WasRevoked(grant.status == Issued)]);
      grant := grant.(status := GrantRevoked);
      grant := grant.(revokedAt := Some(now));
      request := request.(grant := Some(grant), audit := request.audit + [AccessRevoked]);
      cases := cases[r := request];
      return None;
    }

    method ExpireGrantIfNeeded(r: RequestId) returns (expired: bool)
      requires r in cases && cases[r].grant.Some?
      modifies this`cases
      ensures cases == old(cases)[r := SweepGrant(old(cases)[r], now)]
      ensures expired <==> Live(old(cases)[r]) && !Live(cases[r])
    {
      var request := cases[r];
      var grant := request.grant.value;
      if grant.status != Issued {
        return false;
      }
      if grant.expiresAt > now {
        return false;
      }
      grant := grant.(status := GrantExpired);
      cases := cases[r := request.(grant := Some(grant), history := request.history + [HasExpired])];
      return true;
    }

    /** The batch job over grants. */
    method ExpireDueAccessGrants() returns (processed: nat)
      modifies this`cases
      ensures State() == Step(old(State()), ExpireDueGrants)
      ensures exists closed :: Closes(old(cases), cases, closed) && processed == |closed|
    {
      var due := set r | r in cases && Live(cases[r]) && cases[r].grant.value.expiresAt <= now;
      ghost var all := due;
      processed := |due|;
      while due != {}
        invariant due <= all
        invariant cases.Keys == old(cases).Keys
        invariant forall r :: r in cases ==>
                    cases[r] == if r in due then old(cases)[r] else SweepGrant(old(cases)[r], now)
        decreases due
      {
        var r :| r in due;
        var request := cases[r];
        var grant := request.grant.value;
        grant := grant.(status := GrantExpired);
        request := request.(grant := Some(grant), history := request.history + [HasExpired]);
        assert request == SweepGrant(old(cases)[r], now);
        cases := cases[r := request];
        due := due - {r};
      }
      assert cases == SweepGrants(old(cases), now);
      assert Closes(old(cases), cases, all);
    }

    // -------------------------------------------------------------------------------------------
    // The gateway worker
    // -------------------------------------------------------------------------------------------

    /** The query for one user's live grants, newest first; only its first row is looked at. */
    method NewestLiveGrant(user: DiscordId) returns (row: Option<RequestId>)
      ensures row.Some? ==> IsNewest(cases, user, row.value)
      ensures row.None? ==> forall r :: r in cases ==> !LiveFor(cases[r], user)
    {
      var rows := set r | r in cases && LiveFor(cases[r], user);
      if rows == {} {
        assert forall r :: r in cases && LiveFor(cases[r], user) ==> r in rows;
        return None;
      }
      var first :| first in rows;
      var rest := rows - {first};
      while rest != {}
        invariant first in rows && rest <= rows
        invariant forall r :: r in rows && r !in rest ==>
                                cases[r].grant.value.issuedAt <= cases[first].grant.value.issuedAt
        decreases rest
      {
        var r :| r in rest;
        if cases[first].grant.value.issuedAt < cases[r].grant.value.issuedAt {
          first := r;
        }
        rest := rest - {r};
      }
      return Some(first);
    }

    /** Eligibility: the newest live grant decides, and an overdue one is expired on the way. */
    method FindEligibleGrant(user: DiscordId, ghost a: AttemptId) returns (found: Option<RequestId>, ghost newest: RequestId)
      requires a !in attempts && AllConsistent(State())
      modifies this`cases, this`attempts
      ensures State() == Step(old(State()), Begin(a, user, newest))
      ensures found.Some? <==> exists r :: r in old(cases) && Eligible(old(cases)[r], user, now)
      ensures found.Some? ==> found.value == newest && newest in cases && Eligible(cases[newest], user, now)
      ensures found.Some? ==> cases == old(cases) && attempts == old(attempts)[a := Attempt(user, Found(newest))]
      ensures found.None? ==> attempts == old(attempts)
      ensures found.None? && user in Holders(old(cases)) ==>
                newest in old(cases) && LiveFor(old(cases)[newest], user)
                && newest in cases && cases == old(cases)[newest := cases[newest]] && !Live(cases[newest])
    {
      var row := NewestLiveGrant(user);
      if row.None? {
        newest := 0;
        return None, newest;
      }
      newest := row.value;
      NewestDecides(State(), user, newest);
      assert Consistent(cases[newest], now, maxAge);
      var first := row.value;
      var grant := cases[first].grant.value;
      if grant.expiresAt <= now {
        grant := grant.(status := GrantExpired);
        cases := cases[first := cases[first].(grant := Some(grant), history := cases[first].history + [HasExpired])];
        return None, newest;
      }
      if cases[first].status != Approved || cases[first].discordId != user {
        return None, newest;
      }
      attempts := attempts[a := Attempt(user, Found(first))];
      return Some(first), newest;
    }

    /** Adding the role, unless the member has it already; `answer` is what Discord says when asked. */
    method AssignRole(user: DiscordId, answer: AddReply, ghost a: AttemptId) returns (reply: AddReply)
      requires a in attempts && attempts[a].user == user && attempts[a].phase.Found?
      modifies this`roles, this`attempts, this`leaks
      ensures State() == AddRoleStep(old(State()), a, answer)
      ensures reply == if user in old(roles) then Added else answer
    {
      reply := Added;
      if user !in roles {
        reply := answer;
        match reply {
          case Added =>
            roles := roles + {user};
          case DiscordRefused(applied) =>
            if applied {
              roles, leaks := roles + {user}, leaks + {user};
            }
          case OtherException(applied) =>
            if applied {
              roles := roles + {user};
            }
        }
      }
      ghost var grantOf := attempts[a].phase.grantOf;
      attempts := attempts[a := Attempt(user, if reply == Added then RoleAssigned(grantOf)
                                              else if reply.DiscordRefused? then Ended(false) else MustRemove)];
    }

    /** The locked revalidation after the role was added; `fault` tells where the transaction fails, if it does. */
    method ConsumeAccessGrant(r: RequestId, user: DiscordId, fault: Fault, ghost a: AttemptId) returns (consumed: bool)
      requires r in cases && a in attempts && attempts[a] == Attempt(user, RoleAssigned(r))
      modifies this`cases, this`attempts
      ensures State() == ConsumeStep(old(State()), a, fault)
      ensures consumed <==> attempts[a].phase == Ended(true)
    {
      consumed := false;
      if fault != BeforeCommit && LiveFor(cases[r], user) {
        var request := cases[r];
        var grant := request.grant.value;
        if grant.expiresAt <= now {
          grant := grant.(status := GrantExpired);
          cases := cases[r := request.(grant := Some(grant), history := request.history + [HasExpired])];
        } else if request.status == Approved && request.discordId == user {
          grant := grant.(status := Consumed);
          grant := grant.(consumedAt := Some(now));
          request := request.(grant := Some(grant));
          request := request.(audit := request.audit + [AccessConsumed], history := request.history + [WasConsumed]);
          cases := cases[r := request];
          consumed := fault == NoFault;
        }
      }
      attempts := attempts[a := Attempt(user, if consumed then Ended(true) else MustRemove)];
      assert cases == old(State()).cases[r := cases[r]];
    }

    /** The compensation; `removed` tells whether Discord carries it out. */
    method RemoveRoleAfterFailedConsumption(user: DiscordId, removed: bool, ghost a: AttemptId)
      requires a in attempts && attempts[a] == Attempt(user, MustRemove)
      modifies this`roles, this`attempts, this`leaks
      ensures State() == RemoveRoleStep(old(State()), a, removed)
    {
      if removed {
        roles := roles - {user};
      } else {
        leaks := leaks + {user};
      }
      attempts := attempts[a := Attempt(user, Ended(false))];
    }

    /** The guarded part of both handlers: assign the role, consume, or else take the role away. */
    method ReleaseAccess(r: RequestId, user: DiscordId, x: Replies, ghost a: AttemptId)
      requires a in attempts && attempts[a] == Attempt(user, Found(r)) && r in cases
      modifies this`now, this`cases, this`roles, this`attempts, this`leaks
      ensures State() == Finish(AddRoleStep(old(State()), a, x.add), a, x)
    {
      var reply := AssignRole(user, x.add, a);
      now := now + x.delay;
      if reply == Added {
        var consumed := ConsumeAccessGrant(r, user, x.fault, a);
        if !consumed {
          RemoveRoleAfterFailedConsumption(user, x.removed, a);
        }
      } else if reply.OtherException? {
        RemoveRoleAfterFailedConsumption(user, x.removed, a);
      }
    }

    /** One member: find a grant and release access.  The method performs exactly the steps of one attempt. */
    method GrantExistingMemberAccess(user: DiscordId, x: Replies, ghost a: AttemptId) returns (ghost newest: RequestId)
      requires a !in attempts && AllConsistent(State())
      modifies this`now, this`cases, this`roles, this`attempts, this`leaks
      ensures IsAttempt(old(State()), State(), a, user, newest, x) && AllConsistent(State())
    {
      ghost var before := State();
      var found;
      found, newest := FindEligibleGrant(user, a);
      if found.None? {
        now := now + x.delay;
        FinishWithoutRole(BeginStep(before, a, user, newest), a, x);
      } else {
        ReleaseAccess(found.value, user, x, a);
      }
      AttemptRuns(before, a, user, newest, x);
      EveryRunIsConsistent(before, AttemptOps(a, user, newest, x));
    }

    /** One user of a pass; users who are not in the guild, cannot be looked up, or are bots are passed over. */
    method ReconcileUser(user: DiscordId, members: set<DiscordId>, bots: set<DiscordId>, x: Replies)
      requires AllConsistent(State())
      modifies this`now, this`cases, this`roles, this`attempts, this`leaks
      ensures IsTurn(old(State()), State(), user, members, bots, x) && AllConsistent(State())
    {
      if user !in members {
        return;
      }
      if !x.found {
        return;
      }
      if user in bots {
        return;
      }
      ghost var before := State();
      ghost var a := FreshAttempt(attempts.Keys);
      ghost var newest := GrantExistingMemberAccess(user, x, a);
      assert IsAttempt(before, State(), a, user, newest, x);
    }

    /** One pass: a turn for every user with a live grant, in some order. */
    method ReconcileExistingMembers(members: set<DiscordId>, bots: set<DiscordId>, replies: DiscordId -> Replies)
      returns (ghost worlds: seq<World>, ghost users: seq<DiscordId>)
      requires AllConsistent(State())
      modifies this`now, this`cases, this`roles, this`attempts, this`leaks
      ensures IsPass(worlds, users, members, bots, replies) && ListsHolders(users, old(cases))
      ensures worlds[0] == old(State()) && worlds[|users|] == State() && AllConsistent(State())
    {
      var rest := Holders(cases);
      worlds, users := [State()], [];
      while rest != {}
        invariant AllConsistent(State()) && rest <= Holders(old(cases))
        invariant IsPass(worlds, users, members, bots, replies)
        invariant worlds[0] == old(State()) && worlds[|users|] == State()
        invariant forall u :: u in users <==> u in Holders(old(cases)) && u !in rest
        invariant forall i, j :: 0 <= i < j < |users| ==> users[i] != users[j]
        decreases rest
      {
        var user :| user in rest;
        ReconcileUser(user, members, bots, replies(user));
        worlds, users := worlds + [State()], users + [user];
        rest := rest - {user};
      }
    }

    /** The periodic loop, for any number of passes; `replies(k)` are those of pass k. */
    method ReconciliationLoop(members: set<DiscordId>, bots: set<DiscordId>, passes: nat, replies: nat -> DiscordId -> Replies)
      returns (ghost worlds: seq<World>)
      requires AllConsistent(State())
      modifies this`now, this`cases, this`roles, this`attempts, this`leaks
      ensures |worlds| == passes + 1 && worlds[0] == old(State()) && worlds[passes] == State()
      ensures ArePasses(worlds, members, bots, replies)
      ensures AllConsistent(State())
      ensures passes >= |LiveAmong(old(cases), members - bots)| && NothingFails(members - bots, replies) ==>
                LiveAmong(cases, members - bots) == {}
    {
      worlds := [State()];
      for pass := 0 to passes
        invariant |worlds| == pass + 1 && worlds[0] == old(State()) && worlds[pass] == State()
        invariant AllConsistent(State())
        invariant ArePasses(worlds, members, bots, replies)
      {
        ghost var before := State();
        PausedStaysConsistent(before);
        now := now + RECONCILIATION_INTERVAL;
        ghost var turns, users := ReconcileExistingMembers(members, bots, replies(pass));
        assert PassesFrom(before, State(), turns, users, members, bots, replies(pass));
        worlds := worlds + [State()];
      }
      if NothingFails(members - bots, replies) {
        PassesReachZero(worlds, members, bots, replies, passes);
      }
    }
  }
}
