/**
  What each step on evidence achieves: how long an upload counts, what a retake, a submission and a deletion
  change, and what they leave alone.  Module Evidence says what no step breaks.
*/
module EvidenceEffects {
  import opened Common
  import opened Evidence

  /** The same tables and objects at another time. */
  function At(s: Store, t: Time): Store {
    s.(now := t)
  }

  // ---------------------------------------------------------------------------------------------
  // Uploading
  // ---------------------------------------------------------------------------------------------

  /** An upload can be submitted for its request until its lifetime ends, and from then on the clean-up selects it. */
  lemma UploadCountsUntil(s: Store, e: EvidenceId, request: RequestId, kind: Kind, handoff: Option<HandoffId>, key: Key, ttl: nat,
                          claimed: RequestId, t: Time)
    requires e !in s.rows && !KeyIsTaken(s, key) && ttl > 0
    ensures var after := Step(s, DoUpload(e, request, kind, handoff, key, ttl));
            && (Submittable(At(after, t), claimed, e) <==> claimed == request && t < s.now + ttl)
            && (e in Selected(At(after, t), ExpiredUploads) <==> s.now + ttl <= t)
            && key in after.objects && s.objects <= after.objects
  {
  }

  /** A retake within a hand-off takes the earlier uploads of its kind out at once; everything else stays as it is. */
  lemma RetakeReplacesEarlier(s: Store, e: EvidenceId, request: RequestId, kind: Kind, handoff: Option<HandoffId>, key: Key, ttl: nat,
                              x: EvidenceId, claimed: RequestId, t: Time)
    requires e !in s.rows && !KeyIsTaken(s, key) && ttl > 0 && x in s.rows && s.now <= t
    ensures var after := Step(s, DoUpload(e, request, kind, handoff, key, ttl));
            && x in after.rows
            && (if handoff.Some? && s.rows[x].handoff == handoff && s.rows[x].kind == kind && s.rows[x].status == Temporary
                then !Submittable(At(after, t), claimed, x) && x in Selected(At(after, t), ExpiredUploads)
                else after.rows[x] == s.rows[x])
  {
  }

  /** The kinds that count for a hand-off grow by exactly the kind that is uploaded through it. */
  lemma UploadAddsItsKind(s: Store, e: EvidenceId, request: RequestId, kind: Kind, handoff: Option<HandoffId>, key: Key, ttl: nat,
                          h: HandoffId)
    requires e !in s.rows && !KeyIsTaken(s, key) && ttl > 0
    ensures UploadedKinds(Step(s, DoUpload(e, request, kind, handoff, key, ttl)).rows, h, s.now)
         == UploadedKinds(s.rows, h, s.now) + (if handoff == Some(h) then {kind} else {})
  {
    var after := Step(s, DoUpload(e, request, kind, handoff, key, ttl));
    assert after.rows[e].kind == kind && Unexpired(after.rows[e], s.now);
    forall k | k in UploadedKinds(s.rows, h, s.now) ensures k in UploadedKinds(after.rows, h, s.now) {
      var x :| x in s.rows && s.rows[x].handoff == Some(h) && s.rows[x].status == Temporary && Unexpired(s.rows[x], s.now)
               && s.rows[x].kind == k;
      assert Superseded(s.rows[x], handoff, kind) || after.rows[x] == s.rows[x];
    }
    forall k | k in UploadedKinds(after.rows, h, s.now) ensures k in UploadedKinds(s.rows, h, s.now) || (handoff == Some(h) && k == kind) {
      var x :| x in after.rows && after.rows[x].handoff == Some(h) && after.rows[x].status == Temporary
               && Unexpired(after.rows[x], s.now) && after.rows[x].kind == k;
      assert x != e ==> after.rows[x] == s.rows[x];
    }
  }

  /** A failed upload leaves no row behind, and at most its own object, which no row knows. */
  lemma FailedUploadLeavesNoRow(s: Store, key: Key, cleaned: bool)
    ensures var after := Step(s, UploadFails(key, cleaned));
            && after.rows == s.rows && after.submissions == s.submissions
            && (forall k :: k != key || KeyIsTaken(s, k) ==> (k in after.objects <==> k in s.objects))
            && (cleaned && !KeyIsTaken(s, key) ==> key !in after.objects)
  {
  }

  // ---------------------------------------------------------------------------------------------
  // Submitting
  // ---------------------------------------------------------------------------------------------

  /** A list is accepted if and only if its entries are distinct and each can be submitted. */
  lemma {:induction false} AcceptedOneByOne(s: Store, request: RequestId, ids: seq<EvidenceId>, e: EvidenceId)
    ensures EvidenceAccepted(s, request, [])
    ensures EvidenceAccepted(s, request, ids + [e]) <==> EvidenceAccepted(s, request, ids) && e !in ids && Submittable(s, request, e)
  {
    var longer := ids + [e];
    assert longer[|ids|] == e && e in longer;
    assert forall x :: x in ids ==> x in longer;
    assert forall i :: 0 <= i < |ids| ==> longer[i] == ids[i];
  }

  /** A submission owns its evidence from then on: none of it expires, and none can be submitted again; the rest is untouched. */
  lemma SubmittedIsKept(s: Store, sub: SubmissionId, request: RequestId, ids: seq<EvidenceId>, refs: seq<EvidenceId>, x: EvidenceId,
                        claimed: RequestId, t: Time)
    requires sub !in s.submissions && EvidenceAccepted(s, request, ids) && Lists(refs, set e | e in ids) && x in s.rows
    ensures var after := Step(s, DoSubmit(sub, request, ids, refs));
            && sub in after.submissions && after.submissions[sub].request == request
            && (x in after.submissions[sub].refs <==> x in ids)
            && x in after.rows
            && (if x in ids
                then after.rows[x].submission == Some(sub) && after.rows[x].status == Attached
                     && !Submittable(At(after, t), claimed, x) && x !in Selected(At(after, t), ExpiredUploads)
                else after.rows[x] == s.rows[x])
            && after.objects == s.objects
  {
  }

  // ---------------------------------------------------------------------------------------------
  // Deleting
  // ---------------------------------------------------------------------------------------------

  /** A manual deletion leaves the request no evidence and no object, and everything else as it was. */
  lemma ManualDeletionLeavesNothing(s: Store, request: RequestId, batch: seq<EvidenceId>, e: EvidenceId)
    requires Sound(s) && Lists(batch, Selected(s, EvidenceOf(request))) && e in s.rows
    ensures var after := Step(s, DeleteBatch(EvidenceOf(request), batch, None));
            && e in after.rows
            && (s.rows[e].request == request ==> after.rows[e].status == Deleted && s.rows[e].key !in after.objects)
            && (s.rows[e].request != request ==>
                  after.rows[e] == s.rows[e] && (s.rows[e].key in after.objects <==> s.rows[e].key in s.objects))
  {
    BatchTakesItsObjects(s, EvidenceOf(request), batch, e);
    assert RowSound(s, e, s.rows[e]);
  }

  /** The clean-up takes exactly the temporary uploads that are not submittable any more. */
  lemma CleanupTakesTheExpired(s: Store, batch: seq<EvidenceId>, e: EvidenceId)
    requires Sound(s) && Lists(batch, Selected(s, ExpiredUploads)) && e in s.rows
    ensures var after := Step(s, DeleteBatch(ExpiredUploads, batch, None));
            && e in after.rows
            && (if s.rows[e].status == Temporary && !Submittable(s, s.rows[e].request, e)
                then after.rows[e].status == Deleted && s.rows[e].key !in after.objects
                else after.rows[e] == s.rows[e] && (s.rows[e].key in after.objects <==> s.rows[e].key in s.objects))
  {
    BatchTakesItsObjects(s, ExpiredUploads, batch, e);
  }

  lemma BatchTakesItsObjects(s: Store, scope: Scope, batch: seq<EvidenceId>, e: EvidenceId)
    requires Sound(s) && Lists(batch, Selected(s, scope)) && e in s.rows
    ensures var after := Step(s, DeleteBatch(scope, batch, None));
            && e in after.rows
            && (e in Selected(s, scope) ==> after.rows[e].status == Deleted && s.rows[e].key !in after.objects)
            && (e !in Selected(s, scope) ==>
                  after.rows[e] == s.rows[e] && (s.rows[e].key in after.objects <==> s.rows[e].key in s.objects))
  {
    if e !in Selected(s, scope) {
      forall x | x in batch ensures x in s.rows && s.rows[x].key != s.rows[e].key {
        assert x in Selected(s, scope);
      }
    }
  }

  /** Deletion is for good: the row never counts again, and its object never comes back. */
  lemma {:induction false} DeletedForever(s: Store, ops: seq<Op>, e: EvidenceId, request: RequestId)
    requires Sound(s) && e in s.rows && s.rows[e].status == Deleted
    ensures var later := Run(s, ops);
            && e in later.rows && later.rows[e].status == Deleted && later.rows[e].key == s.rows[e].key
            && s.rows[e].key !in later.objects && !Submittable(later, request, e)
  {
    EveryRunIsSound(s, ops);
    if ops != [] {
      DeletedForever(s, ops[..|ops| - 1], e, request);
      StepKeepsDeleted(Run(s, ops[..|ops| - 1]), ops[|ops| - 1], e);
    }
    assert RowSound(Run(s, ops), e, Run(s, ops).rows[e]);
  }

  lemma StepKeepsDeleted(s: Store, op: Op, e: EvidenceId)
    requires e in s.rows && s.rows[e].status == Deleted
    ensures e in Step(s, op).rows && Step(s, op).rows[e].status == Deleted && Step(s, op).rows[e].key == s.rows[e].key
  {
  }

  /** A batch stops at the first deletion that does not come back clean; what it was asked before that is gone. */
  lemma {:induction false} StopsAtTheFirstFailure(rows: map<EvidenceId, Row>, batch: seq<EvidenceId>, storage: Storage, commits: bool)
    requires forall e :: e in batch ==> e in rows
    requires FailureOf(rows, batch, storage, commits).Some?
    ensures var gone := FailureOf(rows, batch, storage, commits).value;
            && gone <= |batch|
            && (forall k :: 0 <= k < gone - 1 ==> storage(rows[batch[k]].key) == Removed)
            && (gone > 0 ==> storage(rows[batch[gone - 1]].key) != FailedBefore)
            && (gone == 0 || storage(rows[batch[gone - 1]].key) == Removed ==>
                  if gone < |batch| then storage(rows[batch[gone]].key) == FailedBefore else !commits)
  {
    if batch != [] && storage(rows[batch[0]].key) == Removed {
      StopsAtTheFirstFailure(rows, batch[1..], storage, commits);
      var gone := FailureOf(rows, batch[1..], storage, commits).value;
      forall k | 0 <= k < gone ensures storage(rows[batch[k]].key) == Removed {
        assert k > 0 ==> batch[k] == batch[1..][k - 1];
      }
    }
  }
}
