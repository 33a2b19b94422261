/**
  The evidence services as they run.  A session works on its own copy of the rows until it commits; private
  storage is changed at once, and each call to it may fail.  Each method is proved to perform a step of
  module Evidence, and the submission service to answer as module Lifecycle says.
*/
module EvidenceService {
  import opened Common
  import opened Evidence
  import Lifecycle

  /** What storage says to an upload; a failed one may have been carried out. */
  datatype Sending = Sent | NotSent | SentButFailed

  datatype JobRun = Running | Succeeded(processed: nat) | JobFailed

  lemma {:induction false} SizeWithoutDuplicates<T>(xs: seq<T>)
    ensures |set x | x in xs| <= |xs|
    ensures |set x | x in xs| == |xs| <==> NoDuplicates(xs)
  {
    var all := set x | x in xs;
    if xs == [] {
      assert all == {};
    } else {
      var front, last := xs[..|xs| - 1], xs[|xs| - 1];
      SizeWithoutDuplicates(front);
      assert all == (set x | x in front) + {last};
      assert last in front ==> !NoDuplicates(xs) by {
        if last in front {
          var i :| 0 <= i < |front| && front[i] == last;
          assert xs[i] == xs[|xs| - 1];
        }
      }
      assert NoDuplicates(xs) ==> NoDuplicates(front);
    }
  }

  /** A query for a set of ids returns as many rows as ids exactly when every id exists. */
  lemma SizeOfFound(wanted: set<EvidenceId>, existing: set<EvidenceId>, found: seq<EvidenceId>)
    requires Lists(found, wanted * existing)
    ensures |found| == |wanted| <==> wanted <= existing
  {
    SizeWithoutDuplicates(found);
    var present := set x | x in found;
    assert present == wanted * existing;
    assert wanted == present + (wanted - existing);
    assert |wanted| == |present| + |wanted - existing|;
    assert wanted - existing == {} <==> wanted <= existing;
  }

  lemma MarkOneMore(rows: map<EvidenceId, Row>, batch: seq<EvidenceId>, k: nat)
    requires k < |batch| && batch[k] in rows && batch[k] !in batch[..k]
    ensures MarkAll(rows, batch[..k + 1]) == MarkAll(rows, batch[..k])[batch[k] := rows[batch[k]].(status := Deleted)]
    ensures Keys(rows, batch[..k + 1]) == Keys(rows, batch[..k]) + {rows[batch[k]].key}
  {
  }

  predicate AllRemoved(rows: map<EvidenceId, Row>, batch: seq<EvidenceId>, storage: Storage) {
    forall e :: e in batch ==> e in rows && storage(rows[e].key) == Removed
  }

  /** The batch fails at its k-th row. */
  lemma {:induction false} FailureAt(rows: map<EvidenceId, Row>, batch: seq<EvidenceId>, storage: Storage, commits: bool, k: nat)
    requires k < |batch| && (forall e :: e in batch ==> e in rows) && AllRemoved(rows, batch[..k], storage)
    requires storage(rows[batch[k]].key) != Removed
    ensures FailureOf(rows, batch, storage, commits)
         == Some(if storage(rows[batch[k]].key) == FailedBefore then k else k + 1)
  {
    if k > 0 {
      assert batch[..k][0] == batch[0] && batch[1..][..k - 1] == batch[..k][1..];
      FailureAt(rows, batch[1..], storage, commits, k - 1);
    }
  }

  /** The batch gets through all its rows. */
  lemma {:induction false} FailureAtCommit(rows: map<EvidenceId, Row>, batch: seq<EvidenceId>, storage: Storage, commits: bool)
    requires AllRemoved(rows, batch, storage)
    ensures FailureOf(rows, batch, storage, commits) == if commits then None else Some(|batch|)
  {
    if batch != [] {
      FailureAtCommit(rows, batch[1..], storage, commits);
    }
  }

  class EvidenceStore {
    var now: Time
    var rows: map<EvidenceId, Row>
    var committed: map<EvidenceId, Row>
    var submissions: map<SubmissionId, Submission>
    var objects: set<Key>
    var cases: map<RequestId, Lifecycle.Case>
    var runs: seq<JobRun>

    /** What everybody else can see: the committed rows, and the objects in storage. */
    ghost function State(): Store
      reads this
    {
      Store(now, committed, submissions, objects)
    }

    /** No transaction is open. */
    ghost predicate Idle()
      reads this
    {
      rows == committed
    }

    constructor (now: Time)
      ensures State() == Empty(now) && Idle() && Sound(State())
    {
      this.now, rows, committed, submissions, objects, cases, runs := now, map[], map[], map[], {}, map[], [];
    }

    // -------------------------------------------------------------------------------------------
    // Storage
    // -------------------------------------------------------------------------------------------

    /** Deleting is idempotent; a call that reports failure may have been carried out all the same. */
    method DeletePrivateObject(key: Key, storage: Storage) returns (ok: bool)
      modifies this`objects
      ensures ok <==> storage(key) == Removed
      ensures objects == if storage(key) == FailedBefore then old(objects) else old(objects) - {key}
    {
      if storage(key) != FailedBefore {
        objects := objects - {key};
      }
      ok := storage(key) == Removed;
    }

    /** Storage first; the row claims deletion only if the object is gone. */
    method MarkEvidenceDeleted(e: EvidenceId, storage: Storage) returns (ok: bool)
      requires e in rows
      modifies this`rows, this`objects
      ensures ok <==> storage(old(rows)[e].key) == Removed
      ensures objects == if storage(old(rows)[e].key) == FailedBefore then old(objects) else old(objects) - {old(rows)[e].key}
      ensures rows == if ok then old(rows)[e := old(rows)[e].(status := Deleted)] else old(rows)
    {
      ok := DeletePrivateObject(rows[e].key, storage);
      if !ok {
        return;
      }
      if rows[e].status == Deleted {
        return;
      }
      rows := rows[e := rows[e].(status := Deleted)];
    }

    // -------------------------------------------------------------------------------------------
    // Batches
    // -------------------------------------------------------------------------------------------

    method ListAll(selected: set<EvidenceId>) returns (batch: seq<EvidenceId>)
      ensures Lists(batch, selected)
    {
      batch := [];
      var rest := selected;
      while rest != {}
        invariant NoDuplicates(batch) && rest <= selected
        invariant forall x :: x in batch <==> x in selected && x !in rest
      {
        var e :| e in rest;
        batch := batch + [e];
        rest := rest - {e};
      }
    }

    /** The first k rows of a batch are done, and nothing is committed yet. */
    ghost predicate Progress(start: Store, batch: seq<EvidenceId>, storage: Storage, k: nat)
      requires k <= |batch|
      reads this
    {
      && committed == start.rows && now == start.now && submissions == start.submissions
      && rows == MarkAll(start.rows, batch[..k])
      && objects == start.objects - Keys(start.rows, batch[..k])
      && AllRemoved(start.rows, batch[..k], storage)
    }

    /** The body of both loops. */
    method DeleteNext(ghost start: Store, batch: seq<EvidenceId>, k: nat, storage: Storage) returns (ok: bool)
      requires k < |batch| && NoDuplicates(batch) && (forall e :: e in batch ==> e in start.rows) && Progress(start, batch, storage, k)
      modifies this`rows, this`objects
      ensures ok ==> Progress(start, batch, storage, k + 1)
      ensures !ok ==> forall commits :: State() == Delete(start, batch, FailureOf(start.rows, batch, storage, commits))
                                        && FailureOf(start.rows, batch, storage, commits).Some?
    {
      assert batch[k] in batch;
      MarkOneMore(start.rows, batch, k);
      ok := MarkEvidenceDeleted(batch[k], storage);
      if !ok {
        forall commits: bool ensures FailureOf(start.rows, batch, storage, commits)
                                     == Some(if storage(start.rows[batch[k]].key) == FailedBefore then k else k + 1)
        {
          FailureAt(start.rows, batch, storage, commits, k);
        }
      } else {
        assert batch[..k + 1] == batch[..k] + [batch[k]];
      }
    }

    /** The job: it raises at the first storage failure, or when the commit fails, and only then. */
    method CleanupExpiredTemporaryUploads(storage: Storage, commits: bool) returns (raised: bool, cleaned: nat, ghost batch: seq<EvidenceId>)
      requires Idle()
      modifies this`rows, this`committed, this`objects
      ensures Lists(batch, Selected(old(State()), ExpiredUploads)) && forall e :: e in batch ==> e in old(rows)
      ensures var failure := FailureOf(old(rows), batch, storage, commits);
              State() == Delete(old(State()), batch, failure) && (raised <==> failure.Some?)
      ensures !raised ==> Idle() && cleaned == |batch|
    {
      var evidenceObjects := ListAll(set e | e in rows && InScope(rows[e], now, ExpiredUploads));
      assert (set e | e in rows && InScope(rows[e], now, ExpiredUploads)) == Selected(State(), ExpiredUploads);
      batch, cleaned := evidenceObjects, 0;
      assert forall e :: e in batch ==> e in Selected(State(), ExpiredUploads);
      while cleaned < |evidenceObjects|
        invariant cleaned <= |evidenceObjects| && Progress(old(State()), batch, storage, cleaned)
      {
        var ok := DeleteNext(old(State()), evidenceObjects, cleaned, storage);
        if !ok {
          raised := true;
          return;
        }
        cleaned := cleaned + 1;
      }
      assert batch[..|batch|] == batch;
      FailureAtCommit(committed, batch, storage, commits);
      raised := !commits;
      if commits {
        committed := rows;
      }
    }

    /**
      Run the clean-up as a recorded job; a job that raises is rolled back before the failure is recorded.
      `recorded` tells whether recording the success succeeds.
    */
    method ExecuteCleanupJob(storage: Storage, commits: bool, recorded: bool) returns (raised: bool, ghost batch: seq<EvidenceId>)
      requires Idle()
      modifies this`rows, this`committed, this`objects, this`runs
      ensures Idle() && Lists(batch, Selected(old(State()), ExpiredUploads)) && forall e :: e in batch ==> e in old(rows)
      ensures var failure := FailureOf(old(rows), batch, storage, commits);
              && State() == Step(old(State()), DeleteBatch(ExpiredUploads, batch, failure))
              && (raised <==> failure.Some? || !recorded)
      ensures runs == old(runs) + [if raised then JobFailed else Succeeded(|batch|)]
    {
      runs := runs + [Running];
      var processed;
      raised, processed, batch := CleanupExpiredTemporaryUploads(storage, commits);
      if !raised {
        if recorded {
          runs := runs[|runs| - 1 := Succeeded(processed)];
        } else {
          raised := true;
        }
      }
      if raised {
        rows := committed;
        runs := runs[|runs| - 1 := JobFailed];
      }
    }

    /** Delete all evidence of a request by hand; it raises under the same conditions. */
    method DeleteRequestEvidence(request: RequestId, storage: Storage, commits: bool)
      returns (raised: bool, deleted: nat, ghost batch: seq<EvidenceId>)
      requires Idle()
      modifies this`rows, this`committed, this`objects
      ensures Lists(batch, Selected(old(State()), EvidenceOf(request))) && forall e :: e in batch ==> e in old(rows)
      ensures var failure := FailureOf(old(rows), batch, storage, commits);
              State() == Delete(old(State()), batch, failure) && (raised <==> failure.Some?)
      ensures !raised ==> Idle() && deleted == |batch|
    {
      var evidenceObjects := ListAll(set e | e in rows && InScope(rows[e], now, EvidenceOf(request)));
      assert (set e | e in rows && InScope(rows[e], now, EvidenceOf(request))) == Selected(State(), EvidenceOf(request));
      batch, deleted := evidenceObjects, 0;
      assert forall e :: e in batch ==> e in Selected(State(), EvidenceOf(request));
      for k := 0 to |evidenceObjects|
        invariant Progress(old(State()), batch, storage, k)
      {
        var ok := DeleteNext(old(State()), evidenceObjects, k, storage);
        if !ok {
          raised := true;
          return;
        }
      }
      assert batch[..|batch|] == batch;
      FailureAtCommit(committed, batch, storage, commits);
      raised := !commits;
      if commits {
        committed := rows;
        deleted := |evidenceObjects|;
      }
    }

    /** The administrator's request: an exception closes its database session, which rolls the rows back. */
    method HandleManualDeletion(request: RequestId, storage: Storage, commits: bool)
      returns (raised: bool, deleted: nat, ghost batch: seq<EvidenceId>)
      requires Idle()
      modifies this`rows, this`committed, this`objects
      ensures Idle() && Lists(batch, Selected(old(State()), EvidenceOf(request))) && forall e :: e in batch ==> e in old(rows)
      ensures var failure := FailureOf(old(rows), batch, storage, commits);
              State() == Step(old(State()), DeleteBatch(EvidenceOf(request), batch, failure)) && (raised <==> failure.Some?)
      ensures !raised ==> deleted == |batch|
    {
      raised, deleted, batch := DeleteRequestEvidence(request, storage, commits);
      if raised {
        rows := committed;
      }
    }

    // -------------------------------------------------------------------------------------------
    // Uploading
    // -------------------------------------------------------------------------------------------

    /** The rows an upload from the phone replaces: same hand-off, same kind, still temporary. */
    method SupersedeEarlier(e: EvidenceId, handoff: Option<HandoffId>, kind: Kind)
      modifies this`rows
      ensures rows == map x | x in old(rows) ::
                        if x != e && Superseded(old(rows)[x], handoff, kind)
                        then old(rows)[x].(expiresAt := Some(now)) else old(rows)[x]
    {
      var superseded := ListAll(set x | x in rows && x != e && Superseded(rows[x], handoff, kind));
      for k := 0 to |superseded|
        invariant rows.Keys == old(rows).Keys
        invariant forall x :: x in rows ==>
                    rows[x] == if x in superseded[..k] then old(rows)[x].(expiresAt := Some(now)) else old(rows)[x]
      {
        assert superseded[..k + 1] == superseded[..k] + [superseded[k]];
        assert superseded[k] in superseded;
        rows := rows[superseded[k] := rows[superseded[k]].(expiresAt := Some(now))];
      }
      assert superseded[..|superseded|] == superseded;
    }

    /**
      Upload the object, insert the row, expire what it replaces, commit; undo the upload if that fails.  `sent` is
      the reply to the upload itself, whose failure nobody cleans up after.
    */
    method UploadMobileEvidence(e: EvidenceId, request: RequestId, kind: Kind, handoff: Option<HandoffId>, key: Key, ttl: nat,
                                sent: Sending, commits: bool, storage: Storage)
      returns (raised: bool)
      requires Idle() && e !in rows && key !in objects && !KeyIsTaken(State(), key) && ttl > 0
      modifies this`rows, this`committed, this`objects
      ensures Idle()
      ensures raised <==> sent != Sent || !commits
      ensures State() == Step(old(State()),
                              if !raised then DoUpload(e, request, kind, handoff, key, ttl)
                              else UploadFails(key, sent == NotSent || (sent == Sent && storage(key) != FailedBefore)))
    {
      raised := true;
      if sent != NotSent {
        objects := objects + {key};
      }
      if sent != Sent {
        return;
      }
      rows := rows[e := Fresh(request, kind, handoff, key, now + ttl)];
      SupersedeEarlier(e, handoff, kind);
      if !commits {
        rows := committed;
        var removed := DeletePrivateObject(key, storage);
        return;
      }
      committed := rows;
      raised := false;
    }

    // -------------------------------------------------------------------------------------------
    // Submitting
    // -------------------------------------------------------------------------------------------

    /** The checks on the evidence list, and the rows they were made on, in the order the query returned them. */
    method ValidateEvidence(request: RequestId, ids: seq<EvidenceId>) returns (accepted: bool, found: seq<EvidenceId>)
      requires Idle()
      ensures accepted <==> EvidenceAccepted(State(), request, ids)
      ensures accepted ==> Lists(found, set e | e in ids)
    {
      var unique := set e | e in ids;
      SizeWithoutDuplicates(ids);
      if |unique| != |ids| {
        return false, [];
      }
      found := ListAll(unique * rows.Keys);
      SizeOfFound(unique, rows.Keys, found);
      if |found| != |unique| {
        return false, found;
      }
      for k := 0 to |found|
        invariant forall j :: 0 <= j < k ==> Submittable(State(), request, found[j])
      {
        assert found[k] in found;
        assert found[k] in ids && found[k] in rows;
        var evidence := rows[found[k]];
        if evidence.request != request {
          return false, found;
        }
        if evidence.status != Temporary {
          return false, found;
        }
        if evidence.expiresAt.Some? && evidence.expiresAt.value <= now {
          return false, found;
        }
      }
      forall e | e in ids ensures Submittable(State(), request, e) {
        assert e in unique && e in found;
      }
      accepted := true;
    }

    method AttachAll(found: seq<EvidenceId>, sub: SubmissionId)
      requires NoDuplicates(found) && forall e :: e in found ==> e in rows
      modifies this`rows
      ensures rows == map x | x in old(rows) :: if x in found then Attach(old(rows)[x], sub) else old(rows)[x]
    {
      for k := 0 to |found|
        invariant rows.Keys == old(rows).Keys
        invariant forall x :: x in rows ==> rows[x] == if x in found[..k] then Attach(old(rows)[x], sub) else old(rows)[x]
      {
        assert found[..k + 1] == found[..k] + [found[k]];
        assert found[k] in found;
        var evidence := rows[found[k]];
        evidence := evidence.(submission := Some(sub));
        evidence := evidence.(status := Attached);
        evidence := evidence.(expiresAt := None);
        rows := rows[found[k] := evidence];
      }
      assert found[..|found|] == found;
    }

    /** `fieldsAccepted` is the outcome of the field-by-field checks of the submission rules. */
    method CreateSubmission(request: RequestId, sub: SubmissionId, fieldsAccepted: bool, ids: seq<EvidenceId>)
      returns (raised: Option<Lifecycle.Error>, ghost refs: seq<EvidenceId>)
      requires Idle() && request in cases && sub !in submissions
      modifies this`rows, this`committed, this`submissions, this`cases
      ensures Idle()
      ensures match Lifecycle.Submit(old(cases)[request], fieldsAccepted && EvidenceAccepted(old(State()), request, ids))
              case Ok(c) =>
                && raised == None
                && cases == old(cases)[request := c]
                && Lists(refs, set e | e in ids)
                && State() == Step(old(State()), DoSubmit(sub, request, ids, refs))
                && State().submissions[sub] == Submission(request, refs)
              case Err(e) => raised == Some(e) && cases == old(cases) && State() == old(State())
    {
      refs := [];
      var verification := cases[request];
      if verification.status !in {Lifecycle.Pending, Lifecycle.MoreInfo} {
        return Some(Lifecycle.NotSubmittable), refs;
      }
      if verification.submissions >= verification.maxSubmissions {
        return Some(Lifecycle.SubmissionLimitReached), refs;
      }
      if !fieldsAccepted {
        return Some(Lifecycle.EvidenceRefused), refs;
      }
      var accepted, found := ValidateEvidence(request, ids);
      if !accepted {
        return Some(Lifecycle.EvidenceRefused), refs;
      }
      refs := found;
      assert forall e :: e in found ==> Submittable(State(), request, e);
      AttachAll(found, sub);
      var previous := verification.status;
      if !Lifecycle.CanTransition(previous, Lifecycle.Queued) {
        rows := committed;
        return Some(Lifecycle.InvalidTransition), refs;
      }
      verification := verification.(status := Lifecycle.Queued);
      verification := verification.(submissions := verification.submissions + 1);
      var action := if previous == Lifecycle.Pending then Lifecycle.SubmissionCreated else Lifecycle.SubmissionResubmitted;
      verification := verification.(audit := verification.audit + [action]);
      submissions := submissions[sub := Submission(request, found)];
      cases := cases[request := verification];
      committed := rows;
      return None, refs;
    }
  }
}
