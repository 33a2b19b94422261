/**
  The mobile capture services as they run, each proved to perform a step of module Handoff and to raise
  exactly when that step is not allowed.
*/
module HandoffService {
  import opened Common
  import opened Handoff
  import Evidence
  import Lifecycle

  datatype Error = Unavailable | InvalidToken | InvalidSession | NotRequested | Incomplete

  class MobileCaptureService {
    const ttl: nat
    var now: Time
    var cases: map<RequestId, Lifecycle.Case>
    var sessions: map<SessionId, Session>
    var handoffs: map<HandoffId, Row>
    ghost var used: set<Token>
    ghost var log: seq<Event>

    ghost function History(): State
      reads this
    {
      State(ttl, now, cases, sessions, handoffs, used, log)
    }

    constructor (ttl: nat, now: Time)
      ensures History() == Start(ttl, now) && Sound(History()) && Logged(History())
    {
      this.ttl, this.now, cases, sessions, handoffs, used, log := ttl, now, map[], map[], map[], {}, [];
    }

    /** `h` is the id of the new row and `newToken` the generated secret. */
    method CreateMobileCaptureSession(request: RequestId, session: SessionId, h: HandoffId, newToken: Token)
      returns (raised: Option<Error>)
      requires request in cases && session in sessions && h !in handoffs && newToken !in used
      modifies this`handoffs, this`used, this`log
      ensures raised == None <==> ParentsAuthorize(old(History()), request, session)
      ensures History() == if raised == None then Step(old(History()), Create(h, session, newToken)) else old(History())
    {
      if cases[request].status !in {Lifecycle.Pending, Lifecycle.MoreInfo} {
        return Some(Unavailable);
      }
      if cases[request].expiresAt <= now {
        return Some(Unavailable);
      }
      if sessions[session].revoked || sessions[session].expiresAt <= now {
        return Some(Unavailable);
      }
      if sessions[session].request != request {
        return Some(Unavailable);
      }
      if sessions[session].discordId != cases[request].discordId {
        return Some(Unavailable);
      }
      RevokeExisting(session);
      handoffs := handoffs[h := NewRow(request, session, newToken, now + ttl)];
      used := used + {newToken};
      log := log + [Created(h, session)];
      return None;
    }

    /** The loop over the hand-offs that are still usable. */
    method RevokeExisting(session: SessionId)
      modifies this`handoffs
      ensures handoffs == WithdrawOpen(old(handoffs), session, now)
    {
      var existing := set x | x in handoffs && handoffs[x].session == session && Open(handoffs[x], now);
      while existing != {}
        invariant handoffs.Keys == old(handoffs).Keys && existing <= handoffs.Keys
        invariant forall x :: x in existing ==> handoffs[x] == old(handoffs)[x]
        invariant forall x :: x in existing ==> old(handoffs)[x].session == session && Open(old(handoffs)[x], now)
        invariant forall x :: x in handoffs && x !in existing ==> handoffs[x] == WithdrawOpen(old(handoffs), session, now)[x]
      {
        var x :| x in existing;
        var row := handoffs[x];
        row := row.(revokedAt := Some(now));
        row := row.(status := Revoked);
        row := row.(phone := None);
        row := row.(phoneExpiresAt := None);
        handoffs := handoffs[x := row];
        existing := existing - {x};
      }
    }

    method ValidateParentAuthorization(h: HandoffId) returns (ok: bool)
      requires h in handoffs
      ensures ok <==> ParentsAuthorize(History(), handoffs[h].request, handoffs[h].session)
    {
      var row := handoffs[h];
      if row.request !in cases || row.session !in sessions {
        return false;
      }
      var verification, session := cases[row.request], sessions[row.session];
      if verification.status !in {Lifecycle.Pending, Lifecycle.MoreInfo} || verification.expiresAt <= now {
        return false;
      }
      if session.revoked || session.expiresAt <= now {
        return false;
      }
      return session.request == row.request && session.discordId == verification.discordId;
    }

    /** Spend a QR token; `newToken` is the generated phone credential. */
    method ExchangeMobileCaptureToken(token: Token, newToken: Token) returns (raised: Option<Error>, exchanged: Option<HandoffId>)
      requires Sound(History()) && newToken !in used
      modifies this`handoffs, this`used, this`log
      ensures raised == None <==> exchanged.Some?
      ensures exchanged.Some? ==>
                && Exchangeable(old(History()), exchanged.value)
                && old(handoffs)[exchanged.value].token == token
                && History() == Step(old(History()), Exchange(exchanged.value, newToken))
                && Authorizes(History(), exchanged.value, newToken)
      ensures exchanged.None? ==>
                && History() == old(History())
                && forall h :: h in handoffs && handoffs[h].token == token ==> !Exchangeable(History(), h)
    {
      var found := set h | h in handoffs && handoffs[h].token == token;
      if found == {} {
        assert forall h :: h in handoffs && handoffs[h].token == token ==> h in found;
        return Some(InvalidToken), None;
      }
      var h :| h in found;
      assert forall x :: x in handoffs && x != h ==> !Collide(handoffs[x], handoffs[h]);
      var row := handoffs[h];
      if row.revokedAt.Some? || row.completedAt.Some? || row.expiresAt <= now || row.exchangedAt.Some? {
        return Some(InvalidToken), None;
      }
      var ok := ValidateParentAuthorization(h);
      if !ok {
        return Some(Unavailable), None;
      }
      var expiry := Min(row.expiresAt, sessions[row.session].expiresAt);
      row := row.(exchangedAt := Some(now));
      row := row.(phone := Some(newToken));
      row := row.(phoneExpiresAt := Some(expiry));
      row := row.(status := Connected);
      handoffs := handoffs[h := row];
      used := used + {newToken};
      log := log + [Exchanged(h, row.token)];
      return None, Some(h);
    }

    /** The dependency behind every request from the phone. */
    method GetValidMobileCaptureSession(phone: Token) returns (found: Option<HandoffId>)
      requires Sound(History())
      ensures found.Some? ==> Authorizes(History(), found.value, phone)
      ensures found.None? ==> forall h :: !Authorizes(History(), h, phone)
    {
      var candidates := set h | h in handoffs && handoffs[h].phone == Some(phone);
      if candidates == {} {
        assert forall h :: Authorizes(History(), h, phone) ==> h in candidates;
        return None;
      }
      var h :| h in candidates;
      assert forall x :: x in handoffs && x != h ==> !Collide(handoffs[h], handoffs[x]);
      var row := handoffs[h];
      if row.revokedAt.Some? || row.completedAt.Some? || row.exchangedAt.None? || row.phoneExpiresAt.None? {
        return None;
      }
      if row.phoneExpiresAt.value <= now || row.expiresAt <= now {
        return None;
      }
      var ok := ValidateParentAuthorization(h);
      return if ok then Some(h) else None;
    }

    /** `stored` says whether the kind was requested and the upload went through; module EvidenceService stores it. */
    method UploadMobileEvidence(phone: Token, stored: bool) returns (raised: Option<Error>, ghost op: Op)
      requires Sound(History())
      modifies this`handoffs
      ensures op.Upload? && op.phone == phone && op.stored == stored && History() == Step(old(History()), op)
      ensures raised == None <==> stored && Authorizes(old(History()), op.handoff, phone)
      ensures raised == Some(InvalidSession) <==> forall h :: !Authorizes(old(History()), h, phone)
    {
      op := Upload(0, phone, stored);
      var found := GetValidMobileCaptureSession(phone);
      if found.None? {
        return Some(InvalidSession), op;
      }
      var h := found.value;
      op := Upload(h, phone, stored);
      if !stored {
        return Some(NotRequested), op;
      }
      handoffs := handoffs[h := handoffs[h].(status := Connected)];
      return None, op;
    }

    /** Completion asks for every required kind; `rows` are the evidence rows. */
    method CompleteMobileCapture(phone: Token, required: set<Evidence.Kind>, rows: map<Evidence.EvidenceId, Evidence.Row>)
      returns (raised: Option<Error>, ghost op: Op)
      requires Sound(History())
      modifies this`handoffs
      ensures op.Complete? && op.phone == phone && History() == Step(old(History()), op)
      ensures op.complete <==> required <= Evidence.UploadedKinds(rows, op.handoff, now)
      ensures raised == None <==> op.complete && Authorizes(old(History()), op.handoff, phone)
      ensures raised == Some(InvalidSession) <==> forall h :: !Authorizes(old(History()), h, phone)
    {
      op := Complete(0, phone, required <= Evidence.UploadedKinds(rows, 0, now));
      var found := GetValidMobileCaptureSession(phone);
      if found.None? {
        return Some(InvalidSession), op;
      }
      var h := found.value;
      var uploaded := Evidence.UploadedKinds(rows, h, now);
      op := Complete(h, phone, required <= uploaded);
      if !(required <= uploaded) {
        return Some(Incomplete), op;
      }
      var row := handoffs[h];
      row := row.(completedAt := Some(now));
      row := row.(status := Completed);
      row := row.(phone := None);
      row := row.(phoneExpiresAt := None);
      handoffs := handoffs[h := row];
      return None, op;
    }

    method RevokeMobileCaptureSession(h: HandoffId, session: SessionId) returns (raised: Option<Error>)
      modifies this`handoffs
      ensures History() == Step(old(History()), Revoke(h, session))
      ensures raised == None <==> h in old(handoffs) && old(handoffs)[h].session == session
      ensures raised == None ==> forall phone :: !Authorizes(History(), h, phone)
    {
      if h !in handoffs {
        return Some(Unavailable);
      }
      if handoffs[h].session != session {
        return Some(Unavailable);
      }
      var row := handoffs[h];
      row := row.(revokedAt := Some(now));
      row := row.(status := Revoked);
      row := row.(phone := None);
      row := row.(phoneExpiresAt := None);
      handoffs := handoffs[h := row];
      return None;
    }
  }
}
