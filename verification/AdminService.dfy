/**
  Administrator sessions and team operations as they run.  Each method is proved to perform a step of
  module Sessions, and each team operation to answer as module Team decides.
*/
module AdminService {
  import opened Common
  import opened SessionLimit
  import opened Sessions
  import Team

  datatype Denial = UnknownSession | Denied(failure: Failure)

  /** The answer of a team operation that runs with nobody else around. */
  predicate TeamAnswers(before: map<AdminId, Team.Admin>, history: State, actor: AdminId, target: AdminId,
                        op: Team.TeamOp, raised: Option<Team.TeamError>,
                        after: map<AdminId, Team.Admin>, historyAfter: State)
  {
    if actor !in Team.Owners(before) then raised == Some(Team.NotPermitted) && after == before && historyAfter == history
    else if target !in before then raised == Some(Team.NoSuchAdmin) && after == before && historyAfter == history
    else
      match Team.Decision(op, before[target], |Team.Owners(before)|)
      case Err(e) => raised == Some(e) && after == before && historyAfter == history
      case Ok(None) => raised == None && after == before && historyAfter == history
      case Ok(Some(row)) =>
        raised == None && after == before[target := row] && historyAfter == Step(history, Invalidate(target, row.active))
  }

  /** The first n rows, and the preserved session. */
  ghost predicate FirstRows(rows: seq<SessionId>, n: nat, preserve: SessionId, keep: set<SessionId>)
    requires n <= |rows|
  {
    && preserve in keep
    && (forall i :: 0 <= i < n ==> rows[i] in keep)
    && (forall x :: x in keep ==> x == preserve || exists i :: 0 <= i < n && rows[i] == x)
  }

  /** They are newer than all the others. */
  lemma FirstRowsAreNewer(sessions: Table, admin: AdminId, now: Time, rows: seq<SessionId>, n: nat, preserve: SessionId,
                          keep: set<SessionId>)
    requires IsQueryResult(sessions, admin, now, rows) && n <= |rows| && FirstRows(rows, n, preserve, keep)
    ensures forall x, y :: x in keep && x != preserve && y in Active(sessions, admin, now) - keep ==>
              x in sessions && y in sessions && Newer(sessions, x, y)
  {
    forall x, y | x in keep && x != preserve && y in Active(sessions, admin, now) - keep
      ensures x in sessions && y in sessions && Newer(sessions, x, y)
    {
      var i :| 0 <= i < n && rows[i] == x;
      var j :| 0 <= j < |rows| && rows[j] == y;
      assert i < j;
    }
  }

  lemma RevokeOneMore(sessions: Table, done: set<SessionId>, x: SessionId)
    requires x in sessions && x !in done
    ensures RevokeSet(sessions, done + {x}) == RevokeSet(sessions, done)[x := sessions[x].(revoked := true)]
  {
  }

  function Without(sessions: set<SessionId>, spared: Option<SessionId>): set<SessionId> {
    if spared.Some? then sessions - {spared.value} else sessions
  }

  class AdminStore {
    const settings: Settings
    var now: Time
    var roles: map<AdminId, Team.Role>
    var accounts: map<AdminId, Account>
    var sessions: Table
    var logins: map<LoginId, Snapshot>
    ghost var used: set<Token>
    ghost var log: seq<Event>

    ghost function History(): State
      reads this
    {
      State(settings, now, accounts, sessions, logins, used, log)
    }

    ghost predicate Valid()
      reads this
    {
      roles.Keys == accounts.Keys && DistinctTokens(History())
    }

    function Admins(): map<AdminId, Team.Admin>
      reads this
    {
      map a | a in accounts && a in roles :: Team.Admin(roles[a], accounts[a].active)
    }

    constructor (settings: Settings, now: Time)
      ensures History() == Fresh(settings, now) && Valid() && Admins() == map[]
    {
      this.settings, this.now := settings, now;
      roles, accounts, sessions, logins, used, log := map[], map[], map[], map[], {}, [];
    }

    // -------------------------------------------------------------------------------------------
    // Creating sessions
    // -------------------------------------------------------------------------------------------

    /** The query behind the cap: active sessions of one administrator, newest first. */
    method ActiveNewestFirst(admin: AdminId) returns (rows: seq<SessionId>)
      ensures IsQueryResult(sessions, admin, now, rows)
    {
      var rest := Active(sessions, admin, now);
      rows := [];
      while rest != {}
        invariant rest <= Active(sessions, admin, now) && |rows| + |rest| == |Active(sessions, admin, now)|
        invariant forall x :: x in Active(sessions, admin, now) <==> x in rest || x in rows
        invariant forall i :: 0 <= i < |rows| ==> rows[i] in sessions && rows[i] !in rest
        invariant forall i, j :: 0 <= i < j < |rows| ==> Newer(sessions, rows[i], rows[j])
        invariant forall i, x :: 0 <= i < |rows| && x in rest ==> Newer(sessions, rows[i], x)
        decreases rest
      {
        var first :| first in rest;
        var others := rest - {first};
        while others != {}
          invariant first in rest && others <= rest
          invariant forall x :: x in rest && x !in others && x != first ==> Newer(sessions, first, x)
          decreases others
        {
          var x :| x in others;
          if Newer(sessions, x, first) {
            first := x;
          }
          others := others - {x};
        }
        rows := rows + [first];
        rest := rest - {first};
      }
    }

    /** The first loop of the cap: the new session, then the newest rows until the maximum is reached. */
    method ChooseKept(admin: AdminId, rows: seq<SessionId>, preserve: SessionId, maximum: nat) returns (keep: set<SessionId>)
      requires IsQueryResult(sessions, admin, now, rows) && preserve in Active(sessions, admin, now)
      requires 0 < maximum < |rows|
      ensures preserve in keep && |keep| == maximum && keep <= Active(sessions, admin, now)
      ensures forall x, y :: x in keep && x != preserve && y in Active(sessions, admin, now) - keep ==> Newer(sessions, x, y)
    {
      keep := {preserve};
      var n := 0;
      while n < |rows| && |keep| < maximum
        invariant n <= |rows| && |keep| <= maximum
        invariant FirstRows(rows, n, preserve, keep)
      {
        keep := keep + {rows[n]};
        n := n + 1;
      }
      FirstRowsAreNewer(sessions, admin, now, rows, n, preserve, keep);
      forall x | x in keep ensures x in Active(sessions, admin, now) {
        assert x != preserve ==> x in rows;
      }
      if n == |rows| {
        SubsetSize(Active(sessions, admin, now), keep);
      }
    }

    /** The second loop of the cap: revoke the rows that were not kept. */
    method RevokeOthers(rows: seq<SessionId>, keep: set<SessionId>)
      requires forall x :: x in rows ==> x in sessions
      modifies this`sessions
      ensures sessions == RevokeSet(old(sessions), (set x | x in rows) - keep)
    {
      for k := 0 to |rows|
        invariant sessions.Keys == old(sessions).Keys
        invariant forall x :: x in sessions ==>
                    sessions[x] == if x in rows[..k] && x !in keep then old(sessions)[x].(revoked := true) else old(sessions)[x]
      {
        assert rows[..k + 1] == rows[..k] + [rows[k]];
        if rows[k] !in keep {
          sessions := sessions[rows[k] := sessions[rows[k]].(revoked := true)];
        }
      }
      assert rows[..|rows|] == rows;
    }

    method EnforceActiveSessionLimit(admin: AdminId, preserve: SessionId)
      requires Configured(settings) && preserve in Active(sessions, admin, now)
      modifies this`sessions
      ensures sessions == RevokeSet(old(sessions), Evicted(old(sessions), admin, preserve, settings.maxActive, now))
    {
      var rows := ActiveNewestFirst(admin);
      var maximum := settings.maxActive;
      if |rows| <= maximum {
        NobodyEvicted(sessions, admin, preserve, maximum, now);
        return;
      }
      var keep := ChooseKept(admin, rows, preserve, maximum);
      ghost var others := Active(sessions, admin, now) - {preserve};
      UpperPartIsNewest(sessions, others, keep - {preserve});
      assert (set x | x in rows) - keep == Evicted(sessions, admin, preserve, maximum, now);
      RevokeOthers(rows, keep);
    }

    /** Login, second half: the row read earlier decides, and the generated token has never been used. */
    method CreateAdminSession(login: LoginId, x: SessionId, token: Token) returns (created: bool)
      requires Valid() && Configured(settings) && login in logins && x !in sessions && token !in used
      modifies this`sessions, this`logins, this`used, this`log
      ensures Valid() && History() == Step(old(History()), Insert(login, x, token))
      ensures created <==> old(logins)[login].account.active
    {
      StepKeepsDistinctTokens(History(), Insert(login, x, token));
      var snapshot := logins[login];
      logins := logins - {login};
      if !snapshot.account.active {
        return false;
      }
      var expiresAt := now + settings.absoluteLifetime;
      sessions := sessions[x := Session(snapshot.admin, token, snapshot.account.version, now, now, expiresAt, false)];
      ghost var doomed := Evicted(sessions, snapshot.admin, x, settings.maxActive, now);
      EnforceActiveSessionLimit(snapshot.admin, x);
      used := used + {token};
      log := log + [Created(x, snapshot.admin, snapshot.readAt, token, now)] + [Ended(doomed)];
      return true;
    }

    // -------------------------------------------------------------------------------------------
    // Using sessions
    // -------------------------------------------------------------------------------------------

    /** Validate a token; a valid session is touched. */
    method GetValidAdminSession(token: Token, touch: bool) returns (answer: Result<SessionId, Denial>, row: Option<SessionId>)
      requires Valid() && forall x :: x in sessions ==> sessions[x].admin in accounts
      modifies this`sessions, this`log
      ensures Valid()
      ensures answer.Ok? <==> Accepts(old(History()), token, now)
      ensures answer.Ok? ==> row == Some(answer.value)
      ensures History() == if answer.Ok? && touch then Step(old(History()), Validate(answer.value)) else old(History())
      ensures row.Some? ==> row.value in old(sessions) && old(sessions)[row.value].token == token
      ensures answer.Err? ==> (row.None? <==> answer.error == UnknownSession)
      ensures answer.Err? && row.Some? ==>
                Check(old(sessions)[row.value], accounts[old(sessions)[row.value].admin], settings, now)
                  == Some(answer.error.failure)
    {
      var found := set x | x in sessions && sessions[x].token == token;
      if found == {} {
        assert forall x :: x in sessions && sessions[x].token == token ==> x in found;
        return Err(UnknownSession), None;
      }
      var x :| x in found;
      var s := sessions[x];
      if s.revoked {
        return Err(Denied(RevokedSession)), Some(x);
      }
      if s.expiresAt <= now {
        return Err(Denied(AbsoluteExpiry)), Some(x);
      }
      if s.lastSeen + settings.idleTimeout <= now {
        return Err(Denied(IdleTimeout)), Some(x);
      }
      if !accounts[s.admin].active {
        return Err(Denied(AdminDisabled)), Some(x);
      }
      if s.version != accounts[s.admin].version {
        return Err(Denied(SecurityChanged)), Some(x);
      }
      assert ValidAt(History(), x, now);
      if touch {
        StepKeepsDistinctTokens(History(), Validate(x));
        sessions := sessions[x := s.(lastSeen := now)];
        log := log + [Touched(x, now)];
      }
      return Ok(x), Some(x);
    }

    /** The authentication boundary: roll a failed validation back, then persist the revocation it calls for. */
    method AuthenticateRequest(token: Token) returns (answer: Result<SessionId, Denial>)
      requires Valid() && forall x :: x in sessions ==> sessions[x].admin in accounts
      modifies this`sessions, this`log
      ensures Valid()
      ensures answer.Ok? <==> Accepts(old(History()), token, now)
      ensures answer.Ok? ==> History() == Step(old(History()), Validate(answer.value))
      ensures answer.Err? && (answer.error == UnknownSession || answer.error.failure == RevokedSession) ==>
                History() == old(History())
      ensures answer.Err? && answer.error != UnknownSession && answer.error.failure != RevokedSession ==>
                exists x :: x in old(sessions) && old(sessions)[x].token == token
                            && History() == Step(old(History()), Revoke(x))
    {
      var row;
      answer, row := GetValidAdminSession(token, true);
      if answer.Err? && answer.error != UnknownSession && answer.error.failure != RevokedSession {
        var changed := RevokeAdminSessionById(row.value, Some(sessions[row.value].admin));
      }
    }

    /** Revoke by id; an administrator, if given, must be the owner. */
    method RevokeAdminSessionById(x: SessionId, owner: Option<AdminId>) returns (changed: bool)
      requires Valid()
      modifies this`sessions, this`log
      ensures Valid()
      ensures History() == if x in old(sessions) && (owner == None || owner == Some(old(sessions)[x].admin))
                           then Step(old(History()), Revoke(x)) else old(History())
      ensures changed <==> x in old(sessions) && (owner == None || owner == Some(old(sessions)[x].admin)) && !old(sessions)[x].revoked
    {
      StepKeepsDistinctTokens(History(), Revoke(x));
      if x !in sessions || (owner.Some? && owner.value != sessions[x].admin) {
        return false;
      }
      changed := !sessions[x].revoked;
      sessions := sessions[x := sessions[x].(revoked := true)];
      log := log + [Ended({x})];
    }

    method RotateAdminSession(x: SessionId, token: Token) returns (raised: Option<Failure>)
      requires Valid() && x in sessions && token !in used
      modifies this`sessions, this`used, this`log
      ensures Valid() && History() == Step(old(History()), Rotate(x, token))
      ensures raised == if old(sessions)[x].revoked then Some(RevokedSession)
                        else if old(sessions)[x].expiresAt <= now then Some(AbsoluteExpiry) else None
      ensures raised == None ==> Retired(History(), old(sessions)[x].token)
    {
      StepKeepsDistinctTokens(History(), Rotate(x, token));
      var s := sessions[x];
      if s.revoked {
        return Some(RevokedSession);
      }
      if s.expiresAt <= now {
        return Some(AbsoluteExpiry);
      }
      s := s.(token := token);
      s := s.(lastSeen := now);
      sessions := sessions[x := s];
      used := used + {token};
      log := log + [Rotated(x, token, now)];
      return None;
    }

    // -------------------------------------------------------------------------------------------
    // Invalidation and team operations
    // -------------------------------------------------------------------------------------------

    /** End the active sessions of one administrator; one session may be spared. */
    method RevokeAllAdminSessions(admin: AdminId, spared: Option<SessionId>) returns (changed: nat)
      modifies this`sessions
      ensures sessions == RevokeSet(old(sessions), Without(Active(old(sessions), admin, now), spared))
      ensures changed == |Without(Active(old(sessions), admin, now), spared)|
    {
      changed := RevokeEach(Active(sessions, admin, now), spared);
    }

    /** The loop over the rows that the query returned. */
    method RevokeEach(rows: set<SessionId>, spared: Option<SessionId>) returns (changed: nat)
      requires rows <= sessions.Keys
      modifies this`sessions
      ensures sessions == RevokeSet(old(sessions), Without(rows, spared))
      ensures changed == |Without(rows, spared)|
    {
      var rest := rows;
      ghost var done: set<SessionId> := {};
      changed := 0;
      while rest != {}
        invariant rest <= rows && done !! rest && changed == |done|
        invariant forall x :: x in done || (x in rest && spared != Some(x)) <==> x in Without(rows, spared)
        invariant sessions == RevokeSet(old(sessions), done)
        decreases rest
      {
        var x :| x in rest;
        if spared != Some(x) {
          RevokeOneMore(old(sessions), done, x);
          sessions := sessions[x := sessions[x].(revoked := true)];
          changed := changed + 1;
          done := done + {x};
        }
        rest := rest - {x};
      }
      assert done == Without(rows, spared);
    }

    /** Raise the version first, then end the sessions that are still running. */
    method InvalidateAdminSecurityState(admin: AdminId)
      requires Valid() && admin in accounts
      modifies this`accounts, this`sessions, this`log
      ensures Valid() && History() == Step(old(History()), Invalidate(admin, old(accounts)[admin].active))
    {
      StepKeepsDistinctTokens(History(), Invalidate(admin, accounts[admin].active));
      accounts := accounts[admin := accounts[admin].(version := accounts[admin].version + 1)];
      ghost var doomed := Active(sessions, admin, now);
      var changed := RevokeAllAdminSessions(admin, None);
      log := log + [Invalidated(admin)] + [Ended(doomed)];
    }

    method ChangeAdminRole(actor: AdminId, target: AdminId, role: Team.Role) returns (raised: Option<Team.TeamError>)
      requires Valid()
      modifies this`roles, this`accounts, this`sessions, this`log
      ensures Valid() && TeamAnswers(old(Admins()), old(History()), actor, target, Team.ChangeRole(role), raised, Admins(), History())
    {
      var admins := Admins();
      var owners := Team.Owners(admins);
      if actor !in owners {
        return Some(Team.NotPermitted);
      }
      if target !in admins {
        return Some(Team.NoSuchAdmin);
      }
      var oldRole := roles[target];
      if oldRole == role {
        return None;
      }
      if role != Team.SuperAdmin && Team.WouldRemoveLast(admins[target], |owners|) {
        return Some(Team.LastSuperAdmin);
      }
      roles := roles[target := role];
      InvalidateAdminSecurityState(target);
      return None;
    }

    method DisableAdmin(actor: AdminId, target: AdminId) returns (raised: Option<Team.TeamError>)
      requires Valid()
      modifies this`accounts, this`sessions, this`log
      ensures Valid() && TeamAnswers(old(Admins()), old(History()), actor, target, Team.Disable, raised, Admins(), History())
    {
      var admins := Admins();
      var owners := Team.Owners(admins);
      if actor !in owners {
        return Some(Team.NotPermitted);
      }
      if target !in admins {
        return Some(Team.NoSuchAdmin);
      }
      if !accounts[target].active {
        return None;
      }
      if Team.WouldRemoveLast(admins[target], |owners|) {
        return Some(Team.LastSuperAdmin);
      }
      accounts := accounts[target := accounts[target].(active := false)];
      InvalidateAdminSecurityState(target);
      return None;
    }

    method EnableAdmin(actor: AdminId, target: AdminId) returns (raised: Option<Team.TeamError>)
      requires Valid()
      modifies this`accounts, this`sessions, this`log
      ensures Valid() && TeamAnswers(old(Admins()), old(History()), actor, target, Team.Enable, raised, Admins(), History())
    {
      var admins := Admins();
      if actor !in Team.Owners(admins) {
        return Some(Team.NotPermitted);
      }
      if target !in admins {
        return Some(Team.NoSuchAdmin);
      }
      if accounts[target].active {
        return None;
      }
      accounts := accounts[target := accounts[target].(active := true)];
      InvalidateAdminSecurityState(target);
      return None;
    }

    method RevokeAdminAccessSessions(actor: AdminId, target: AdminId) returns (raised: Option<Team.TeamError>)
      requires Valid()
      modifies this`accounts, this`sessions, this`log
      ensures Valid() && TeamAnswers(old(Admins()), old(History()), actor, target, Team.RevokeSessions, raised, Admins(), History())
    {
      var admins := Admins();
      if actor !in Team.Owners(admins) {
        return Some(Team.NotPermitted);
      }
      if target !in admins {
        return Some(Team.NoSuchAdmin);
      }
      InvalidateAdminSecurityState(target);
      return None;
    }
  }
}
