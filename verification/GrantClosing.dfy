/**
  Which grants an attempt of the worker closes, and how that adds up over reconciliation passes.  What Discord
  and the database reply is given in advance, so an attempt is a fixed sequence of steps.
*/
module GrantClosing {
  import opened Lifecycle
  import opened CaseEffects
  import opened CaseLaws
  import opened Release

  /** Live grants held for any of these users. */
  ghost function LiveAmong(cases: map<RequestId, Case>, users: set<DiscordId>): set<RequestId> {
    set r | r in cases && Live(cases[r]) && cases[r].grant.value.discordId in users
  }

  /** Users, out of these, with at least one live grant. */
  ghost function Waiting(cases: map<RequestId, Case>, users: set<DiscordId>): set<DiscordId> {
    set r | r in LiveAmong(cases, users) :: cases[r].grant.value.discordId
  }

  /** Everybody with a live grant: the distinct users of the worker's query. */
  function Holders(cases: map<RequestId, Case>): (users: set<DiscordId>)
    ensures forall u :: u in users <==> exists r :: r in cases && LiveFor(cases[r], u)
  {
    set r | r in cases && Live(cases[r]) :: cases[r].grant.value.discordId
  }

  /** Either the grant stopped being live, or it is as live as it was, for the same user. */
  predicate ClosesRow(before: Case, after: Case, closed: bool) {
    if closed then Live(before) && !Live(after)
    else if Live(before) then after.grant == before.grant
    else !Live(after)
  }

  /** Exactly the live grants in `closed` stopped being live, and no grant became live. */
  ghost predicate Closes(before: map<RequestId, Case>, after: map<RequestId, Case>, closed: set<RequestId>) {
    && after.Keys == before.Keys
    && closed <= before.Keys
    && forall r :: r in before ==> ClosesRow(before[r], after[r], r in closed)
  }

  /** The closed grants were live and belonged to these users. */
  ghost predicate HeldBy(before: map<RequestId, Case>, closed: set<RequestId>, users: set<DiscordId>) {
    forall r :: r in closed ==> r in before && Live(before[r]) && before[r].grant.value.discordId in users
  }

  lemma ClosingOne(before: map<RequestId, Case>, after: map<RequestId, Case>, r: RequestId)
    requires r in before && Live(before[r])
    requires r in after && after == before[r := after[r]] && !Live(after[r])
    ensures Closes(before, after, {r})
  {
  }

  lemma ClosingNone(cases: map<RequestId, Case>)
    ensures Closes(cases, cases, {})
  {
  }

  lemma ClosesComposes(before: map<RequestId, Case>, middle: map<RequestId, Case>, after: map<RequestId, Case>,
                       first: set<RequestId>, second: set<RequestId>)
    requires Closes(before, middle, first) && Closes(middle, after, second)
    ensures first !! second && Closes(before, after, first + second)
  {
  }

  lemma ClosesAmong(before: map<RequestId, Case>, after: map<RequestId, Case>, closed: set<RequestId>, users: set<DiscordId>)
    requires Closes(before, after, closed)
    ensures LiveAmong(after, users) == LiveAmong(before, users) - closed
  {
  }

  /** A user whose grants are untouched so far is still waiting. */
  lemma UserStillWaits(before: map<RequestId, Case>, after: map<RequestId, Case>, closed: set<RequestId>,
                       done: set<DiscordId>, user: DiscordId)
    requires Closes(before, after, closed) && HeldBy(before, closed, done)
    requires user in Holders(before) && user !in done
    ensures user in Holders(after)
  {
  }

  /** A pass goes on: what one user's turn closed adds to what was closed before. */
  lemma AddClosed(before: map<RequestId, Case>, middle: map<RequestId, Case>, after: map<RequestId, Case>,
                  closed: set<RequestId>, one: set<RequestId>, user: DiscordId, users: set<DiscordId>)
    requires Closes(before, middle, closed) && HeldBy(before, closed, users)
    requires Closes(middle, after, one) && HeldBy(middle, one, {user}) && (user !in users ==> one == {})
    ensures Closes(before, after, closed + one) && HeldBy(before, closed + one, users)
    ensures HeldBy(before, one, {user})
  {
    ClosesComposes(before, middle, after, closed, one);
    forall r | r in one ensures Live(before[r]) && before[r].grant.value.discordId == user {
      assert ClosesRow(before[r], middle[r], r in closed);
    }
  }

  // ---------------------------------------------------------------------------------------------
  // One attempt
  // ---------------------------------------------------------------------------------------------

  /** How looking up the member, adding the role, consuming and removing the role go, and how long they take. */
  datatype Replies = Replies(found: bool, add: AddReply, delay: nat, fault: Fault, removed: bool)

  predicate Flawless(x: Replies) {
    x.found && x.add == Added && x.fault == NoFault && x.removed
  }

  /** All that an attempt may do; a step that the earlier ones leave no room for changes nothing. */
  function AttemptOps(a: AttemptId, user: DiscordId, newest: RequestId, x: Replies): seq<Op> {
    [Begin(a, user, newest), AddRole(a, x.add), Tick(x.delay), Consume(a, x.fault), RemoveRole(a, x.removed)]
  }

  /** After the role was added, or was not. */
  function Finish(w: World, a: AttemptId, x: Replies): World {
    RemoveRoleStep(ConsumeStep(w.(now := w.now + x.delay), a, x.fault), a, x.removed)
  }

  lemma AttemptRuns(w: World, a: AttemptId, user: DiscordId, newest: RequestId, x: Replies)
    ensures Run(w, AttemptOps(a, user, newest, x)) == Finish(AddRoleStep(BeginStep(w, a, user, newest), a, x.add), a, x)
  {
    RunFive(w, Begin(a, user, newest), AddRole(a, x.add), Tick(x.delay), Consume(a, x.fault), RemoveRole(a, x.removed));
    var added := AddRoleStep(BeginStep(w, a, user, newest), a, x.add);
    FirstHalf(w, a, user, newest, x);
    SecondHalf(added, a, x);
  }

  lemma FirstHalf(w: World, a: AttemptId, user: DiscordId, newest: RequestId, x: Replies)
    ensures Step(Step(w, Begin(a, user, newest)), AddRole(a, x.add)) == AddRoleStep(BeginStep(w, a, user, newest), a, x.add)
  {
  }

  lemma SecondHalf(w: World, a: AttemptId, x: Replies)
    ensures Step(Step(Step(w, Tick(x.delay)), Consume(a, x.fault)), RemoveRole(a, x.removed)) == Finish(w, a, x)
  {
    ConsumesLate(w, a, x);
    Removes(ConsumeStep(w.(now := w.now + x.delay), a, x.fault), a, x.removed);
  }

  lemma ConsumesLate(w: World, a: AttemptId, x: Replies)
    ensures Step(Step(w, Tick(x.delay)), Consume(a, x.fault)) == ConsumeStep(w.(now := w.now + x.delay), a, x.fault)
  {
  }

  lemma Removes(w: World, a: AttemptId, removed: bool)
    ensures Step(w, RemoveRole(a, removed)) == RemoveRoleStep(w, a, removed)
  {
  }

  /** Consuming with the role on: the grant ends consumed or expired, and the role stays with a consumed one. */
  lemma FinishCloses(w: World, a: AttemptId, user: DiscordId, r: RequestId, x: Replies)
    requires a in w.attempts && w.attempts[a] == Attempt(user, RoleAssigned(r)) && user in w.roles
    requires r in w.cases && LiveFor(w.cases[r], user) && w.cases[r].status == Approved && w.cases[r].discordId == user
    ensures var after := Finish(w, a, x);
            && after.attempts.Keys == w.attempts.Keys && after.attempts[a].phase.Ended?
            && r in after.cases && after.cases == w.cases[r := after.cases[r]]
            && (if x.fault == BeforeCommit then after.cases == w.cases else !Live(after.cases[r]))
            && (x.fault == NoFault && x.removed ==>
                  after.cases[r].grant.Some? && (user in after.roles <==> after.cases[r].grant.value.status == Consumed))
  {
  }

  /** Without the role the grant stays as it is. */
  lemma FinishWithoutRole(w: World, a: AttemptId, x: Replies)
    requires a in w.attempts ==> w.attempts[a].phase.MustRemove? || w.attempts[a].phase.Ended?
    ensures Finish(w, a, x).cases == w.cases
    ensures a !in w.attempts ==> Finish(w, a, x) == w.(now := w.now + x.delay)
  {
  }

  /** Where the role stands when it comes to consuming. */
  lemma AddingCloses(w: World, a: AttemptId, user: DiscordId, r: RequestId, x: Replies)
    requires a in w.attempts && w.attempts[a] == Attempt(user, Found(r))
    requires r in w.cases && LiveFor(w.cases[r], user) && w.cases[r].status == Approved && w.cases[r].discordId == user
    ensures var after := Finish(AddRoleStep(w, a, x.add), a, x);
            && (after.cases == w.cases
                || (r in after.cases && after.cases == w.cases[r := after.cases[r]] && !Live(after.cases[r])))
            && (Flawless(x) ==>
                  && r in after.cases && !Live(after.cases[r]) && after.cases[r].grant.Some?
                  && after.attempts.Keys == w.attempts.Keys && after.attempts[a].phase.Ended?
                  && (user in after.roles <==> after.cases[r].grant.value.status == Consumed))
  {
    var added := AddRoleStep(w, a, x.add);
    assert added.cases == w.cases && added.attempts.Keys == w.attempts.Keys;
    if added.attempts[a].phase.RoleAssigned? {
      FinishCloses(added, a, user, r, x);
    } else {
      FinishWithoutRole(added, a, x);
    }
  }

  /** The newest live grant of the user, if there is one. */
  ghost predicate Picks(w: World, user: DiscordId, newest: RequestId) {
    user in Holders(w.cases) ==> IsNewest(w.cases, user, newest)
  }

  /** A user without live grants is left alone; an overdue newest grant is closed on the way. */
  lemma BeginOrClose(w: World, a: AttemptId, user: DiscordId, newest: RequestId)
    requires AllConsistent(w) && a !in w.attempts && Picks(w, user, newest)
    ensures var begun := BeginStep(w, a, user, newest);
            if user !in Holders(w.cases) then begun == w
            else if w.cases[newest].grant.value.expiresAt <= w.now then
              begun == w.(cases := w.cases[newest := SweepGrant(w.cases[newest], w.now)])
              && Live(w.cases[newest]) && !Live(begun.cases[newest])
            else
              begun == w.(attempts := w.attempts[a := Attempt(user, Found(newest))]) && Eligible(w.cases[newest], user, w.now)
  {
    if user in Holders(w.cases) {
      assert Consistent(w.cases[newest], w.now, w.maxAge);
    }
  }

  /**
    An attempt closes the user's newest live grant or nothing; when nothing fails it does close it, and it ends
    with the role held exactly when that grant is consumed.
  */
  lemma AttemptCloses(w: World, a: AttemptId, user: DiscordId, newest: RequestId, x: Replies) returns (closed: set<RequestId>)
    requires AllConsistent(w) && a !in w.attempts && Picks(w, user, newest)
    ensures var after := Run(w, AttemptOps(a, user, newest, x));
            && AllConsistent(after)
            && Closes(w.cases, after.cases, closed) && HeldBy(w.cases, closed, {user})
            && (closed == {} || closed == {newest})
            && (Flawless(x) && user in Holders(w.cases) ==> closed == {newest})
            && (Flawless(x) && a in after.attempts ==>
                  && after.attempts[a].phase.Ended? && newest in after.cases && after.cases[newest].grant.Some?
                  && (user in after.roles <==> after.cases[newest].grant.value.status == Consumed))
  {
    EveryRunIsConsistent(w, AttemptOps(a, user, newest, x));
    AttemptRuns(w, a, user, newest, x);
    BeginOrClose(w, a, user, newest);
    ClosingNone(w.cases);
    var begun := BeginStep(w, a, user, newest);
    var after := Run(w, AttemptOps(a, user, newest, x));
    closed := {};
    if a in begun.attempts {
      AddingCloses(begun, a, user, newest, x);
    } else {
      assert AddRoleStep(begun, a, x.add) == begun;
      FinishWithoutRole(begun, a, x);
    }
    if after.cases != w.cases {
      closed := {newest};
      ClosingOne(w.cases, after.cases, newest);
    }
  }

  /** With the role on, the end of a faultless attempt leaves it on if and only if the grant is still good by then. */
  lemma FinishReleasesIff(w: World, a: AttemptId, user: DiscordId, r: RequestId, x: Replies)
    requires a in w.attempts && w.attempts[a] == Attempt(user, RoleAssigned(r)) && user in w.roles && r in w.cases
    requires x.fault == NoFault && x.removed
    ensures Finish(w, a, x).roles == if Eligible(w.cases[r], user, w.now + x.delay) then w.roles else w.roles - {user}
  {
    EndsWellIffEligible(w.(now := w.now + x.delay), a);
  }

  /**
    A flawless attempt on a good grant leaves the user with the role if and only if the grant is still good when it
    comes to consuming; without a good grant, and for everybody else, roles stay as they are.
  */
  lemma AttemptReleasesIff(w: World, a: AttemptId, user: DiscordId, newest: RequestId, x: Replies, u: DiscordId)
    requires AllConsistent(w) && a !in w.attempts && IsNewest(w.cases, user, newest) && Flawless(x)
    ensures var after := Run(w, AttemptOps(a, user, newest, x));
            u in after.roles <==>
            if u == user && Eligible(w.cases[newest], user, w.now) then Eligible(w.cases[newest], user, w.now + x.delay)
            else u in w.roles
  {
    AttemptRuns(w, a, user, newest, x);
    if Eligible(w.cases[newest], user, w.now) {
      RoleIsAdded(w, a, user, newest);
      FinishReleasesIff(AddRoleStep(BeginStep(w, a, user, newest), a, Added), a, user, newest, x);
    } else {
      NoAttemptWithoutGrant(w, a, user, newest, x);
    }
  }

  lemma NoAttemptWithoutGrant(w: World, a: AttemptId, user: DiscordId, newest: RequestId, x: Replies)
    requires AllConsistent(w) && a !in w.attempts && IsNewest(w.cases, user, newest) && !Eligible(w.cases[newest], user, w.now)
    ensures Finish(AddRoleStep(BeginStep(w, a, user, newest), a, x.add), a, x).roles == w.roles
  {
    BeginOrClose(w, a, user, newest);
    var begun := BeginStep(w, a, user, newest);
    assert a !in begun.attempts && begun.roles == w.roles;
    FinishWithoutRole(begun, a, x);
  }

  // ---------------------------------------------------------------------------------------------
  // A pass
  // ---------------------------------------------------------------------------------------------

  /** One user of a pass: an attempt, unless the user is no guild member, cannot be looked up, or is a bot. */
  ghost predicate IsTurn(before: World, after: World, user: DiscordId, members: set<DiscordId>, bots: set<DiscordId>, x: Replies) {
    if user in members - bots && x.found then
      exists a, newest :: IsAttempt(before, after, a, user, newest, x)
    else after == before
  }

  ghost predicate IsAttempt(before: World, after: World, a: AttemptId, user: DiscordId, newest: RequestId, x: Replies) {
    a !in before.attempts && Picks(before, user, newest) && after == Run(before, AttemptOps(a, user, newest, x))
  }

  /** The users of a pass, one after the other, with the worlds before, in between and after. */
  ghost predicate IsPass(worlds: seq<World>, users: seq<DiscordId>, members: set<DiscordId>, bots: set<DiscordId>,
                         replies: DiscordId -> Replies)
  {
    && |worlds| == |users| + 1
    && forall k :: 0 <= k < |users| ==> IsTurn(worlds[k], worlds[k + 1], users[k], members, bots, replies(users[k]))
  }

  lemma TurnCloses(w: World, after: World, user: DiscordId, members: set<DiscordId>, bots: set<DiscordId>, x: Replies)
    returns (closed: set<RequestId>)
    requires AllConsistent(w) && IsTurn(w, after, user, members, bots, x)
    ensures AllConsistent(after)
    ensures Closes(w.cases, after.cases, closed) && HeldBy(w.cases, closed, {user}) && |closed| <= 1
    ensures user !in members - bots ==> closed == {}
    ensures user in members - bots && Flawless(x) && user in Holders(w.cases) ==> |closed| == 1
  {
    if user in members - bots && x.found {
      var a, newest :| IsAttempt(w, after, a, user, newest, x);
      closed := AttemptCloses(w, a, user, newest, x);
    } else {
      closed := {};
      ClosingNone(w.cases);
    }
  }

  /** The members, other than bots, for whom nothing fails. */
  function Served(users: seq<DiscordId>, members: set<DiscordId>, bots: set<DiscordId>, replies: DiscordId -> Replies): set<DiscordId> {
    set u | u in users && u in members - bots && Flawless(replies(u))
  }

  function Elements(users: seq<DiscordId>): set<DiscordId> {
    set u | u in users
  }

  lemma OneMoreServed(users: seq<DiscordId>, members: set<DiscordId>, bots: set<DiscordId>, replies: DiscordId -> Replies)
    requires users != []
    ensures var front, user := users[..|users| - 1], users[|users| - 1];
            && Elements(users) == Elements(front) + {user}
            && Served(users, members, bots, replies)
               == if user in members - bots && Flawless(replies(user)) then Served(front, members, bots, replies) + {user}
                  else Served(front, members, bots, replies)
  {
    assert users == users[..|users| - 1] + [users[|users| - 1]];
  }

  /** Each of these users holds one of these grants. */
  ghost predicate Covers(cases: map<RequestId, Case>, closed: set<RequestId>, users: set<DiscordId>) {
    forall u :: u in users ==> exists r :: r in closed && r in cases && LiveFor(cases[r], u)
  }

  /** No two of these grants are held by the same user. */
  ghost predicate OneEach(cases: map<RequestId, Case>, closed: set<RequestId>) {
    forall r, q, u :: r in closed && q in closed && r in cases && q in cases && LiveFor(cases[r], u) && LiveFor(cases[q], u) ==> r == q
  }

  /** What a turn of a user does to live grants. */
  ghost predicate Serves(before: map<RequestId, Case>, after: map<RequestId, Case>, one: set<RequestId>, user: DiscordId,
                         group: set<DiscordId>, x: Replies)
  {
    && Closes(before, after, one) && HeldBy(before, one, {user}) && |one| <= 1
    && (user !in group ==> one == {})
    && (user in group && Flawless(x) && user in Holders(before) ==> one != {})
  }

  ghost predicate ServesOnce(before: map<RequestId, Case>, after: map<RequestId, Case>, user: DiscordId, group: set<DiscordId>, x: Replies) {
    exists one :: Serves(before, after, one, user, group, x)
  }

  function Tables(worlds: seq<World>): (tables: seq<map<RequestId, Case>>)
    ensures |tables| == |worlds| && forall k :: 0 <= k < |worlds| ==> tables[k] == worlds[k].cases
  {
    seq(|worlds|, (i: int) requires 0 <= i < |worlds| => worlds[i].cases)
  }

  lemma {:induction false} TurnsServe(worlds: seq<World>, users: seq<DiscordId>, members: set<DiscordId>, bots: set<DiscordId>,
                                      replies: DiscordId -> Replies, n: nat)
    requires IsPass(worlds, users, members, bots, replies) && AllConsistent(worlds[0]) && n <= |users|
    ensures AllConsistent(worlds[n])
    ensures forall k: nat :: k < n ==> ServesOnce(worlds[k].cases, worlds[k + 1].cases, users[k], members - bots, replies(users[k]))
  {
    if n > 0 {
      TurnsServe(worlds, users, members, bots, replies, n - 1);
      var one := TurnCloses(worlds[n - 1], worlds[n], users[n - 1], members, bots, replies(users[n - 1]));
      assert Serves(worlds[n - 1].cases, worlds[n].cases, one, users[n - 1], members - bots, replies(users[n - 1]));
    }
  }

  /** A turn adds to what the turns of other users have closed since the pass began. */
  lemma TurnAdds(cases: map<RequestId, Case>, middle: map<RequestId, Case>, after: map<RequestId, Case>, first: set<RequestId>,
                 done: set<DiscordId>, served: set<DiscordId>, user: DiscordId, group: set<DiscordId>, x: Replies)
    returns (closed: set<RequestId>)
    requires ServesOnce(middle, after, user, group, x)
    requires Closes(cases, middle, first) && HeldBy(cases, first, group) && HeldBy(cases, first, done)
    requires OneEach(cases, first) && Covers(cases, first, served)
    requires user in Holders(cases) && user !in done
    ensures Closes(cases, after, closed) && HeldBy(cases, closed, group) && HeldBy(cases, closed, done + {user})
    ensures OneEach(cases, closed)
    ensures Covers(cases, closed, if user in group && Flawless(x) then served + {user} else served)
  {
    UserStillWaits(cases, middle, first, done, user);
    var one :| Serves(middle, after, one, user, group, x);
    AddClosed(cases, middle, after, first, one, user, group);
    closed := first + one;
    OneEachGrows(cases, first, one, done, user);
    CoversOneMore(cases, first, one, served, user, user in group && Flawless(x));
  }

  /**
    After n turns, a pass has closed live grants of members other than bots only, at most one each, and exactly
    one for everybody whose turn it was and for whom nothing failed.
  */
  lemma {:induction false} PassCloses(tables: seq<map<RequestId, Case>>, users: seq<DiscordId>, members: set<DiscordId>,
                                      bots: set<DiscordId>, replies: DiscordId -> Replies, n: nat) returns (closed: set<RequestId>)
    requires n <= |users| && |tables| == |users| + 1
    requires forall k: nat :: k < n ==> ServesOnce(tables[k], tables[k + 1], users[k], members - bots, replies(users[k]))
    requires forall u :: u in users ==> u in Holders(tables[0])
    requires forall i, j :: 0 <= i < j < |users| ==> users[i] != users[j]
    ensures Closes(tables[0], tables[n], closed)
    ensures HeldBy(tables[0], closed, members - bots) && HeldBy(tables[0], closed, Elements(users[..n]))
    ensures OneEach(tables[0], closed) && Covers(tables[0], closed, Served(users[..n], members, bots, replies))
    decreases n
  {
    if n == 0 {
      closed := {};
      ClosingNone(tables[0]);
    } else {
      var user := users[n - 1];
      var first := PassCloses(tables, users, members, bots, replies, n - 1);
      assert user in users && user !in Elements(users[..n - 1]);
      closed := TurnAdds(tables[0], tables[n - 1], tables[n], first, Elements(users[..n - 1]),
                         Served(users[..n - 1], members, bots, replies), user, members - bots, replies(user));
      assert users[..n][..n - 1] == users[..n - 1] && users[..n][n - 1] == user;
      OneMoreServed(users[..n], members, bots, replies);
    }
  }

  lemma OneEachGrows(cases: map<RequestId, Case>, first: set<RequestId>, one: set<RequestId>, done: set<DiscordId>, user: DiscordId)
    requires OneEach(cases, first) && HeldBy(cases, first, done) && user !in done
    requires HeldBy(cases, one, {user}) && |one| <= 1
    ensures OneEach(cases, first + one) && HeldBy(cases, first + one, done + {user})
  {
    AtMostOne(one);
  }

  lemma CoversOneMore(cases: map<RequestId, Case>, first: set<RequestId>, one: set<RequestId>, served: set<DiscordId>,
                      user: DiscordId, grew: bool)
    requires Covers(cases, first, served) && HeldBy(cases, one, {user}) && (grew ==> one != {})
    ensures Covers(cases, first + one, if grew then served + {user} else served)
  {
    forall u | u in served ensures exists r :: r in first + one && r in cases && LiveFor(cases[r], u) {
      var r :| r in first && r in cases && LiveFor(cases[r], u);
      assert r in first + one;
    }
    if grew {
      var r :| r in one;
      assert r in first + one && LiveFor(cases[r], user);
    }
  }

  lemma AtMostOne<T>(s: set<T>)
    requires |s| <= 1
    ensures forall x, y :: x in s && y in s ==> x == y
  {
    forall x, y | x in s && y in s ensures x == y {
      assert x != y ==> |s - {x} - {y}| == |s| - 2;
    }
  }

  // ---------------------------------------------------------------------------------------------
  // Pass after pass
  // ---------------------------------------------------------------------------------------------

  /** A pass over everybody with a live grant, after the pause between passes. */
  ghost predicate IsFullPass(before: World, after: World, members: set<DiscordId>, bots: set<DiscordId>,
                             replies: DiscordId -> Replies)
  {
    exists worlds, users :: PassesFrom(before, after, worlds, users, members, bots, replies)
  }

  ghost predicate PassesFrom(before: World, after: World, worlds: seq<World>, users: seq<DiscordId>,
                             members: set<DiscordId>, bots: set<DiscordId>, replies: DiscordId -> Replies)
  {
    && IsPass(worlds, users, members, bots, replies) && ListsHolders(users, before.cases)
    && worlds[0] == Pause(before) && worlds[|users|] == after
  }

  const RECONCILIATION_INTERVAL := 10

  function Pause(w: World): World {
    w.(now := w.now + RECONCILIATION_INTERVAL)
  }

  lemma PausedStaysConsistent(w: World)
    requires AllConsistent(w)
    ensures AllConsistent(Pause(w))
  {
    StepKeepsConsistent(w, Tick(RECONCILIATION_INTERVAL));
  }

  /** The distinct users of the worker's query, in some order. */
  ghost predicate ListsHolders(users: seq<DiscordId>, cases: map<RequestId, Case>) {
    && (forall u :: u in users <==> u in Holders(cases))
    && (forall i, j :: 0 <= i < j < |users| ==> users[i] != users[j])
  }

  lemma {:induction false} ImageSize(cases: map<RequestId, Case>, closed: set<RequestId>, users: set<DiscordId>)
    requires OneEach(cases, closed) && Covers(cases, closed, users) && HeldBy(cases, closed, users)
    ensures |users| == |closed|
    decreases closed
  {
    if closed == {} {
      assert users == {};
    } else {
      var r :| r in closed;
      var u := cases[r].grant.value.discordId;
      assert LiveFor(cases[r], u);
      forall v | v in users - {u} ensures exists q :: q in closed - {r} && q in cases && LiveFor(cases[q], v) {
        var q :| q in closed && q in cases && LiveFor(cases[q], v);
        assert q in closed - {r};
      }
      forall q | q in closed - {r} ensures cases[q].grant.value.discordId in users - {u} {
        assert LiveFor(cases[q], cases[q].grant.value.discordId);
      }
      ImageSize(cases, closed - {r}, users - {u});
    }
  }

  /** A pass in which nothing fails closes exactly one live grant of each waiting member who is not a bot. */
  lemma FullPassServesEachOnce(before: World, after: World, members: set<DiscordId>, bots: set<DiscordId>, replies: DiscordId -> Replies)
    requires AllConsistent(before) && IsFullPass(before, after, members, bots, replies)
    requires forall u :: u in members - bots ==> Flawless(replies(u))
    ensures AllConsistent(after)
    ensures LiveAmong(after.cases, members - bots) <= LiveAmong(before.cases, members - bots)
    ensures |LiveAmong(after.cases, members - bots)|
         == |LiveAmong(before.cases, members - bots)| - |Waiting(before.cases, members - bots)|
    ensures forall r :: r in before.cases && Live(before.cases[r]) && before.cases[r].grant.value.discordId !in members - bots ==>
              r in after.cases && after.cases[r].grant == before.cases[r].grant
  {
    var group := members - bots;
    var worlds, users :| PassesFrom(before, after, worlds, users, members, bots, replies);
    PausedStaysConsistent(before);
    TurnsServe(worlds, users, members, bots, replies, |users|);
    var closed := PassCloses(Tables(worlds), users, members, bots, replies, |users|);
    assert users[..|users|] == users;
    ClosesAmong(before.cases, after.cases, closed, group);
    assert closed <= LiveAmong(before.cases, group);
    WaitingAreServed(before.cases, users, members, bots, replies);
    ImageSize(before.cases, closed, Waiting(before.cases, group));
    forall r | r in before.cases && Live(before.cases[r]) && before.cases[r].grant.value.discordId !in group
      ensures r in after.cases && after.cases[r].grant == before.cases[r].grant
    {
      assert ClosesRow(before.cases[r], after.cases[r], r in closed);
    }
  }

  lemma WaitingAreServed(cases: map<RequestId, Case>, users: seq<DiscordId>, members: set<DiscordId>, bots: set<DiscordId>,
                         replies: DiscordId -> Replies)
    requires ListsHolders(users, cases) && forall u :: u in members - bots ==> Flawless(replies(u))
    ensures Waiting(cases, members - bots) == Served(users, members, bots, replies)
  {
    forall u ensures u in Waiting(cases, members - bots) <==> u in Served(users, members, bots, replies) {
      if u in Served(users, members, bots, replies) {
        var r :| r in cases && LiveFor(cases[r], u);
        assert r in LiveAmong(cases, members - bots);
      }
      if u in Waiting(cases, members - bots) {
        var r :| r in LiveAmong(cases, members - bots) && cases[r].grant.value.discordId == u;
        assert LiveFor(cases[r], u);
      }
    }
  }

  lemma FullPassShrinks(before: World, after: World, members: set<DiscordId>, bots: set<DiscordId>, replies: DiscordId -> Replies)
    requires AllConsistent(before) && IsFullPass(before, after, members, bots, replies)
    requires forall u :: u in members - bots ==> Flawless(replies(u))
    ensures AllConsistent(after)
    ensures LiveAmong(after.cases, members - bots) == {}
            || |LiveAmong(after.cases, members - bots)| < |LiveAmong(before.cases, members - bots)|
  {
    FullPassServesEachOnce(before, after, members, bots, replies);
    if LiveAmong(before.cases, members - bots) != {} {
      var r :| r in LiveAmong(before.cases, members - bots);
      assert before.cases[r].grant.value.discordId in Waiting(before.cases, members - bots);
    }
  }

  ghost predicate NothingFails(users: set<DiscordId>, replies: nat -> DiscordId -> Replies) {
    forall k: nat, u :: u in users ==> Flawless(replies(k)(u))
  }

  ghost predicate ArePasses(worlds: seq<World>, members: set<DiscordId>, bots: set<DiscordId>, replies: nat -> DiscordId -> Replies) {
    forall k: nat :: k + 1 < |worlds| ==> IsFullPass(worlds[k], worlds[k + 1], members, bots, replies(k))
  }

  /**
    Passes in which nothing fails, with nothing else happening in between, close live grants of members until
    none is left: every pass closes one at least.
  */
  lemma {:induction false} PassesReachZero(worlds: seq<World>, members: set<DiscordId>, bots: set<DiscordId>,
                                           replies: nat -> DiscordId -> Replies, n: nat)
    requires n < |worlds| && AllConsistent(worlds[0])
    requires ArePasses(worlds, members, bots, replies) && NothingFails(members - bots, replies)
    ensures AllConsistent(worlds[n])
    ensures LiveAmong(worlds[n].cases, members - bots) == {}
            || |LiveAmong(worlds[n].cases, members - bots)| + n <= |LiveAmong(worlds[0].cases, members - bots)|
  {
    if n > 0 {
      PassesReachZero(worlds, members, bots, replies, n - 1);
      assert IsFullPass(worlds[n - 1], worlds[n - 1 + 1], members, bots, replies(n - 1));
      FullPassShrinks(worlds[n - 1], worlds[n], members, bots, replies(n - 1));
    }
  }

  /** An attempt number that is not in use. */
  ghost function FreshAttempt(used: set<AttemptId>): (a: AttemptId)
    ensures a !in used
  {
    if used == {} then 0
    else
      var bound := Highest(used);
      bound + 1
  }

  ghost function Highest(used: set<AttemptId>): (bound: AttemptId)
    requires used != {}
    ensures forall a :: a in used ==> a <= bound
  {
    var a :| a in used;
    if used == {a} then a
    else
      assert used == (used - {a}) + {a};
      var other := Highest(used - {a});
      if a < other then other else a
  }
}
