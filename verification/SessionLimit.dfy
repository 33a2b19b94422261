/**
  The cap on concurrent administrator sessions: which sessions survive the creation of a new one.
*/
module SessionLimit {
  import opened Common

  type SessionId = nat
  type AdminId = nat
  type Token = nat
  type Time = int

  datatype Session = Session(
    admin: AdminId,
    token: Token,
    version: nat,
    createdAt: Time,
    lastSeen: Time,
    expiresAt: Time,
    revoked: bool)

  type Table = map<SessionId, Session>

  predicate IsActive(s: Session, admin: AdminId, now: Time) {
    s.admin == admin && !s.revoked && s.expiresAt > now
  }

  function Active(sessions: Table, admin: AdminId, now: Time): set<SessionId> {
    set s | s in sessions && IsActive(sessions[s], admin, now)
  }

  /** Newest first: by creation time, then by id. */
  predicate Newer(sessions: Table, x: SessionId, y: SessionId)
    requires x in sessions && y in sessions
  {
    sessions[x].createdAt > sessions[y].createdAt || (sessions[x].createdAt == sessions[y].createdAt && x > y)
  }

  /** The sessions of this group that are newer than x. */
  function NewerThan(sessions: Table, group: set<SessionId>, x: SessionId): set<SessionId>
    requires group <= sessions.Keys && x in sessions
  {
    set y | y in group && Newer(sessions, y, x)
  }

  /** Those with fewer than `room` newer ones in the group. */
  function Newest(sessions: Table, group: set<SessionId>, room: nat): set<SessionId>
    requires group <= sessions.Keys
  {
    set x | x in group && |NewerThan(sessions, group, x)| < room
  }

  /** Next to the new session, only the newest `maximum` - 1 others stay. */
  function Evicted(sessions: Table, admin: AdminId, created: SessionId, maximum: nat, now: Time): set<SessionId>
    requires maximum > 0
  {
    var others := Active(sessions, admin, now) - {created};
    others - Newest(sessions, others, maximum - 1)
  }

  function RevokeSet(sessions: Table, doomed: set<SessionId>): Table {
    map s | s in sessions :: if s in doomed then sessions[s].(revoked := true) else sessions[s]
  }

  /** The oldest member of a nonempty group. */
  lemma OldestExists(sessions: Table, group: set<SessionId>) returns (oldest: SessionId)
    requires group != {} && group <= sessions.Keys
    ensures oldest in group
    ensures forall x :: x in group && x != oldest ==> Newer(sessions, x, oldest)
  {
    var first :| first in group;
    oldest := first;
    if group != {first} {
      var rest := group - {first};
      var other := OldestExists(sessions, rest);
      if Newer(sessions, first, other) {
        oldest := other;
      }
      forall x | x in group && x != oldest ensures Newer(sessions, x, oldest) {
        assert x != first ==> x in rest;
        assert x in rest && x != other ==> Newer(sessions, x, other);
      }
    }
  }

  /** A group keeps min(size, room) members. */
  lemma {:induction false} NewestSize(sessions: Table, group: set<SessionId>, room: nat)
    requires group <= sessions.Keys
    ensures |Newest(sessions, group, room)| == if |group| <= room then |group| else room
    decreases |group|
  {
    if group == {} {
      assert Newest(sessions, group, room) == {};
    } else {
      var oldest := OldestExists(sessions, group);
      var rest := group - {oldest};
      NewestSize(sessions, rest, room);
      assert NewerThan(sessions, group, oldest) == rest;
      forall x | x in rest ensures NewerThan(sessions, group, x) == NewerThan(sessions, rest, x) {
        assert Newer(sessions, x, oldest);
      }
      if |rest| < room {
        assert Newest(sessions, group, room) == Newest(sessions, rest, room) + {oldest};
      } else {
        assert Newest(sessions, group, room) == Newest(sessions, rest, room);
      }
    }
  }

  /** Whoever stays is newer than whoever goes. */
  lemma KeptAreNewer(sessions: Table, group: set<SessionId>, room: nat, kept: SessionId, gone: SessionId)
    requires group <= sessions.Keys
    requires kept in Newest(sessions, group, room) && gone in group - Newest(sessions, group, room)
    ensures Newer(sessions, kept, gone)
  {
    var aboveKept, aboveGone := NewerThan(sessions, group, kept), NewerThan(sessions, group, gone);
    assert aboveGone <= aboveKept ==> aboveKept == aboveGone + (aboveKept - aboveGone);
  }

  /** After the cap is enforced the new session is active together with min(others, maximum - 1) newest others. */
  lemma CapIsExact(sessions: Table, admin: AdminId, created: SessionId, maximum: nat, now: Time)
    requires maximum > 0 && created in sessions && IsActive(sessions[created], admin, now)
    ensures var before := Active(sessions, admin, now);
            var after := Active(RevokeSet(sessions, Evicted(sessions, admin, created, maximum, now)), admin, now);
            && created in after
            && after == {created} + Newest(sessions, before - {created}, maximum - 1)
            && |after| == (if |before| <= maximum then |before| else maximum)
            && (|before| <= maximum ==> after == before)
  {
    var before := Active(sessions, admin, now);
    var others := before - {created};
    var doomed := Evicted(sessions, admin, created, maximum, now);
    var after := Active(RevokeSet(sessions, doomed), admin, now);
    var kept := Newest(sessions, others, maximum - 1);
    assert after == {created} + kept;
    NewestSize(sessions, others, maximum - 1);
    assert before == {created} + others;
    if |before| <= maximum {
      SubsetOfSameSize(kept, others);
    }
  }

  lemma SubsetOfSameSize<T>(small: set<T>, large: set<T>)
    requires small <= large && |small| == |large|
    ensures small == large
  {
    assert large == small + (large - small);
  }

  /** Revoking sessions or letting time pass never raises anybody's count. */
  lemma FewerActive(before: Table, after: Table, admin: AdminId, earlier: Time, now: Time)
    requires earlier <= now && before.Keys == after.Keys
    requires forall s :: s in before && IsActive(after[s], admin, now) ==> IsActive(before[s], admin, earlier)
    ensures |Active(after, admin, now)| <= |Active(before, admin, earlier)|
  {
    assert Active(after, admin, now) <= Active(before, admin, earlier);
    assert Active(before, admin, earlier)
        == Active(after, admin, now) + (Active(before, admin, earlier) - Active(after, admin, now));
  }

  /** The rows of the limit query: the admin's active sessions, each once, newest first. */
  ghost predicate IsQueryResult(sessions: Table, admin: AdminId, now: Time, rows: seq<SessionId>) {
    && |rows| == |Active(sessions, admin, now)|
    && (forall s :: s in rows <==> s in Active(sessions, admin, now))
    && (forall i, j :: 0 <= i < j < |rows| ==>
          rows[i] in sessions && rows[j] in sessions && Newer(sessions, rows[i], rows[j]))
  }

  /** A subset whose members are newer than everybody else in the group is what the cap keeps for its size. */
  lemma UpperPartIsNewest(sessions: Table, group: set<SessionId>, upper: set<SessionId>)
    requires upper <= group <= sessions.Keys
    requires forall x, y :: x in upper && y in group - upper ==> Newer(sessions, x, y)
    ensures Newest(sessions, group, |upper|) == upper
  {
    forall x | x in group ensures |NewerThan(sessions, group, x)| < |upper| <==> x in upper {
      if x in upper {
        forall y | y in NewerThan(sessions, group, x) ensures y in upper - {x} {
          assert y in group - upper ==> Newer(sessions, x, y);
        }
        SubsetSize(NewerThan(sessions, group, x), upper - {x});
      } else {
        assert upper <= NewerThan(sessions, group, x);
        SubsetSize(upper, NewerThan(sessions, group, x));
      }
    }
  }

  /** With at most `maximum` active sessions nobody is evicted. */
  lemma NobodyEvicted(sessions: Table, admin: AdminId, created: SessionId, maximum: nat, now: Time)
    requires maximum > 0 && created in Active(sessions, admin, now) && |Active(sessions, admin, now)| <= maximum
    ensures RevokeSet(sessions, Evicted(sessions, admin, created, maximum, now)) == sessions
  {
    var others := Active(sessions, admin, now) - {created};
    assert Active(sessions, admin, now) == others + {created};
    NewestSize(sessions, others, maximum - 1);
    SubsetOfSameSize(Newest(sessions, others, maximum - 1), others);
  }
}
