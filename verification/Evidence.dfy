/**
  Evidence objects: a row in the database and an object in private storage.  Uploads are temporary until a
  submission attaches them; deletion removes the stored object first and marks the row afterwards, in
  batches whose database part is rolled back when anything fails.
*/
module Evidence {
  import opened Common

  type Time = int
  type EvidenceId = nat
  type RequestId = nat
  type SubmissionId = nat
  type HandoffId = nat
  type Key = nat
  type Kind = nat

  datatype Status = Temporary | Attached | Deleted

  datatype Row = Row(
    request: RequestId,
    key: Key,
    kind: Kind,
    handoff: Option<HandoffId>,
    status: Status,
    submission: Option<SubmissionId>,
    expiresAt: Option<Time>)

  datatype Submission = Submission(request: RequestId, refs: seq<EvidenceId>)

  datatype Store = Store(
    now: Time,
    rows: map<EvidenceId, Row>,
    submissions: map<SubmissionId, Submission>,
    objects: set<Key>)

  function Empty(now: Time): Store {
    Store(now, map[], map[], {})
  }

  predicate NoDuplicates<T(==)>(xs: seq<T>) {
    forall i, j :: 0 <= i < j < |xs| ==> xs[i] != xs[j]
  }

  /** The sequence lists exactly the given set, in some order. */
  ghost predicate Lists<T(!new)>(xs: seq<T>, selected: set<T>) {
    NoDuplicates(xs) && forall x :: x in xs <==> x in selected
  }

  // ---------------------------------------------------------------------------------------------
  // Uploading and submitting
  // ---------------------------------------------------------------------------------------------

  predicate Unexpired(row: Row, now: Time) {
    row.expiresAt.None? || row.expiresAt.value > now
  }

  predicate Superseded(row: Row, handoff: Option<HandoffId>, kind: Kind) {
    handoff.Some? && row.handoff == handoff && row.kind == kind && row.status == Temporary
  }

  ghost predicate KeyIsTaken(s: Store, key: Key) {
    exists x :: x in s.rows && s.rows[x].key == key
  }

  function Fresh(request: RequestId, kind: Kind, handoff: Option<HandoffId>, key: Key, until: Time): Row {
    Row(request, key, kind, handoff, Temporary, None, Some(until))
  }

  /** A committed upload; a retake within one hand-off expires the earlier uploads of its kind. */
  function Upload(s: Store, e: EvidenceId, request: RequestId, kind: Kind, handoff: Option<HandoffId>, key: Key, ttl: nat): Store {
    var earlier := map x | x in s.rows ::
                     if Superseded(s.rows[x], handoff, kind) then s.rows[x].(expiresAt := Some(s.now)) else s.rows[x];
    s.(rows := earlier[e := Fresh(request, kind, handoff, key, s.now + ttl)], objects := s.objects + {key})
  }

  /** The kinds of evidence uploaded through one hand-off that still count. */
  function UploadedKinds(rows: map<EvidenceId, Row>, h: HandoffId, now: Time): set<Kind> {
    set e | e in rows && rows[e].handoff == Some(h) && rows[e].status == Temporary && Unexpired(rows[e], now) :: rows[e].kind
  }

  predicate Submittable(s: Store, request: RequestId, e: EvidenceId) {
    && e in s.rows
    && s.rows[e].request == request
    && s.rows[e].status == Temporary
    && Unexpired(s.rows[e], s.now)
  }

  predicate EvidenceAccepted(s: Store, request: RequestId, ids: seq<EvidenceId>) {
    NoDuplicates(ids) && forall e :: e in ids ==> Submittable(s, request, e)
  }

  function Attach(row: Row, sub: SubmissionId): Row {
    row.(status := Attached, submission := Some(sub), expiresAt := None)
  }

  function Submit(s: Store, sub: SubmissionId, request: RequestId, refs: seq<EvidenceId>): Store {
    s.(rows := map x | x in s.rows :: if x in refs then Attach(s.rows[x], sub) else s.rows[x],
       submissions := s.submissions[sub := Submission(request, refs)])
  }

  // ---------------------------------------------------------------------------------------------
  // Deleting in batches
  // ---------------------------------------------------------------------------------------------

  /** What a batch selects: the expired temporary uploads, or all evidence of one request. */
  datatype Scope = ExpiredUploads | EvidenceOf(request: RequestId)

  predicate InScope(row: Row, now: Time, scope: Scope) {
    match scope
    case ExpiredUploads => row.status == Temporary && row.expiresAt.Some? && row.expiresAt.value <= now
    case EvidenceOf(request) => row.request == request && row.status != Deleted
  }

  function Selected(s: Store, scope: Scope): set<EvidenceId> {
    set e | e in s.rows && InScope(s.rows[e], s.now, scope)
  }

  function Keys(rows: map<EvidenceId, Row>, ids: seq<EvidenceId>): set<Key> {
    set e | e in ids && e in rows :: rows[e].key
  }

  function MarkAll(rows: map<EvidenceId, Row>, ids: seq<EvidenceId>): map<EvidenceId, Row> {
    map x | x in rows :: if x in ids then rows[x].(status := Deleted) else rows[x]
  }

  /**
    One run of a batch.  It either goes through, or raises after the first `failure.value` objects are gone:
    then the rows are rolled back, and the objects stay gone.
  */
  function Delete(s: Store, batch: seq<EvidenceId>, failure: Option<nat>): Store {
    match failure
    case None => s.(rows := MarkAll(s.rows, batch), objects := s.objects - Keys(s.rows, batch))
    case Some(gone) => if gone <= |batch| then s.(objects := s.objects - Keys(s.rows, batch[..gone])) else s
  }

  /** What storage says to a deletion; `FailedAfter` is a deletion that was carried out all the same. */
  datatype Reply = Removed | FailedBefore | FailedAfter

  type Storage = Key -> Reply

  /** Where a batch fails, and with how many objects gone: at the first deletion that fails, or at the commit. */
  function FailureOf(rows: map<EvidenceId, Row>, batch: seq<EvidenceId>, storage: Storage, commits: bool): (failure: Option<nat>)
    requires forall e :: e in batch ==> e in rows
    ensures failure.Some? ==> failure.value <= |batch|
    ensures failure == None <==> commits && forall e :: e in batch ==> storage(rows[e].key) == Removed
  {
    if batch == [] then (if commits then None else Some(0))
    else
      match storage(rows[batch[0]].key)
      case FailedBefore => Some(0)
      case FailedAfter => Some(1)
      case Removed =>
        match FailureOf(rows, batch[1..], storage, commits)
        case None => None
        case Some(gone) => Some(gone + 1)
  }

  // ---------------------------------------------------------------------------------------------
  // Runs
  // ---------------------------------------------------------------------------------------------

  datatype Op =
    | Tick(seconds: nat)
    | DoUpload(e: EvidenceId, request: RequestId, kind: Kind, handoff: Option<HandoffId>, key: Key, ttl: nat)
    | UploadFails(key: Key, cleaned: bool)
    | DoSubmit(sub: SubmissionId, request: RequestId, ids: seq<EvidenceId>, refs: seq<EvidenceId>)
    | DeleteBatch(scope: Scope, batch: seq<EvidenceId>, failure: Option<nat>)

  ghost function Step(s: Store, op: Op): Store {
    match op
    case Tick(seconds) => s.(now := s.now + seconds)
    case DoUpload(e, request, kind, handoff, key, ttl) =>
      if e in s.rows || KeyIsTaken(s, key) || ttl == 0 then s else Upload(s, e, request, kind, handoff, key, ttl)
    case UploadFails(key, cleaned) =>
      if KeyIsTaken(s, key) then s
      else s.(objects := if cleaned then s.objects - {key} else s.objects + {key})
    case DoSubmit(sub, request, ids, refs) =>
      if sub in s.submissions || !EvidenceAccepted(s, request, ids) || !Lists(refs, set e | e in ids) then s
      else Submit(s, sub, request, refs)
    case DeleteBatch(scope, batch, failure) => if Lists(batch, Selected(s, scope)) then Delete(s, batch, failure) else s
  }

  ghost function Run(s: Store, ops: seq<Op>): Store {
    if ops == [] then s else Step(Run(s, ops[..|ops| - 1]), ops[|ops| - 1])
  }

  // ---------------------------------------------------------------------------------------------
  // What every run keeps
  // ---------------------------------------------------------------------------------------------

  predicate RowSound(s: Store, e: EvidenceId, row: Row) {
    && (row.status == Deleted ==> row.key !in s.objects)
    && (row.status == Temporary ==> row.submission.None?)
    && (row.status == Attached ==> row.submission.Some? && row.expiresAt.None?)
    && (row.submission.Some? ==>
          && row.submission.value in s.submissions
          && e in s.submissions[row.submission.value].refs
          && s.submissions[row.submission.value].request == row.request)
  }

  predicate SubmissionSound(s: Store, sub: SubmissionId, submission: Submission) {
    && NoDuplicates(submission.refs)
    && forall e :: e in submission.refs ==> e in s.rows && s.rows[e].submission == Some(sub)
  }

  /** Two uploads of one kind within one hand-off that both still count. */
  predicate Rivals(s: Store, x: EvidenceId, y: EvidenceId)
    requires x in s.rows && y in s.rows
  {
    && s.rows[x].handoff.Some? && s.rows[x].handoff == s.rows[y].handoff && s.rows[x].kind == s.rows[y].kind
    && s.rows[x].status == Temporary && Unexpired(s.rows[x], s.now)
    && s.rows[y].status == Temporary && Unexpired(s.rows[y], s.now)
  }

  ghost predicate Sound(s: Store) {
    && (forall e :: e in s.rows ==> RowSound(s, e, s.rows[e]))
    && (forall sub :: sub in s.submissions ==> SubmissionSound(s, sub, s.submissions[sub]))
    && (forall x, y :: x in s.rows && y in s.rows && s.rows[x].key == s.rows[y].key ==> x == y)
    && (forall x, y :: x in s.rows && y in s.rows && Rivals(s, x, y) ==> x == y)
  }

  lemma UploadKeepsSound(s: Store, e: EvidenceId, request: RequestId, kind: Kind, handoff: Option<HandoffId>, key: Key, ttl: nat)
    requires Sound(s) && e !in s.rows && !KeyIsTaken(s, key)
    ensures Sound(Upload(s, e, request, kind, handoff, key, ttl))
  {
    var after := Upload(s, e, request, kind, handoff, key, ttl);
    forall x | x in after.rows ensures RowSound(after, x, after.rows[x]) {
      assert x != e ==> RowSound(s, x, s.rows[x]);
    }
    forall sub | sub in after.submissions ensures SubmissionSound(after, sub, after.submissions[sub]) {
      assert SubmissionSound(s, sub, s.submissions[sub]);
    }
    UploadLeavesNoRivals(s, e, request, kind, handoff, key, ttl);
  }

  lemma UploadLeavesNoRivals(s: Store, e: EvidenceId, request: RequestId, kind: Kind, handoff: Option<HandoffId>, key: Key, ttl: nat)
    requires forall x, y :: x in s.rows && y in s.rows && Rivals(s, x, y) ==> x == y
    ensures var after := Upload(s, e, request, kind, handoff, key, ttl);
            forall x, y :: x in after.rows && y in after.rows && Rivals(after, x, y) ==> x == y
  {
  }

  lemma SubmitKeepsSound(s: Store, sub: SubmissionId, request: RequestId, refs: seq<EvidenceId>)
    requires Sound(s) && sub !in s.submissions && EvidenceAccepted(s, request, refs)
    ensures Sound(Submit(s, sub, request, refs))
  {
    var after := Submit(s, sub, request, refs);
    forall x | x in after.rows ensures RowSound(after, x, after.rows[x]) {
      assert RowSound(s, x, s.rows[x]);
      assert x in refs ==> Submittable(s, request, x);
    }
    forall t | t in after.submissions ensures SubmissionSound(after, t, after.submissions[t]) {
      if t != sub {
        assert SubmissionSound(s, t, s.submissions[t]);
        forall x | x in s.submissions[t].refs ensures x !in refs {
          assert x in refs ==> Submittable(s, request, x);
          assert RowSound(s, x, s.rows[x]);
        }
      }
    }
    forall x, y | x in after.rows && y in after.rows && Rivals(after, x, y) ensures x == y {
      assert Rivals(s, x, y);
    }
  }

  lemma DeleteKeepsSound(s: Store, batch: seq<EvidenceId>, failure: Option<nat>)
    requires Sound(s)
    ensures Sound(Delete(s, batch, failure))
  {
    var after := Delete(s, batch, failure);
    forall x | x in after.rows ensures RowSound(after, x, after.rows[x]) {
      assert RowSound(s, x, s.rows[x]);
    }
    forall sub | sub in after.submissions ensures SubmissionSound(after, sub, after.submissions[sub]) {
      assert SubmissionSound(s, sub, s.submissions[sub]);
    }
    forall x, y | x in after.rows && y in after.rows && Rivals(after, x, y) ensures x == y {
      assert Rivals(s, x, y);
    }
  }

  /** Time passing, and objects that belong to no row, disturb nothing. */
  lemma OutsideWorldKeepsSound(s: Store, after: Store)
    requires Sound(s) && after.rows == s.rows && after.submissions == s.submissions && s.now <= after.now
    requires forall k :: k in after.objects && k !in s.objects ==> !KeyIsTaken(s, k)
    ensures Sound(after)
  {
    forall x | x in after.rows ensures RowSound(after, x, after.rows[x]) {
      assert RowSound(s, x, s.rows[x]);
    }
    forall sub | sub in after.submissions ensures SubmissionSound(after, sub, after.submissions[sub]) {
      assert SubmissionSound(s, sub, s.submissions[sub]);
    }
    forall x, y | x in after.rows && y in after.rows && Rivals(after, x, y) ensures x == y {
      assert Rivals(s, x, y);
    }
  }

  lemma StepKeepsSound(s: Store, op: Op)
    requires Sound(s)
    ensures Sound(Step(s, op))
  {
    match op
    case Tick(_) => OutsideWorldKeepsSound(s, Step(s, op));
    case DoUpload(e, request, kind, handoff, key, ttl) =>
      if Step(s, op) != s {
        UploadKeepsSound(s, e, request, kind, handoff, key, ttl);
      }
    case UploadFails(_, _) => OutsideWorldKeepsSound(s, Step(s, op));
    case DoSubmit(sub, request, ids, refs) =>
      if Step(s, op) != s {
        SubmitKeepsSound(s, sub, request, refs);
      }
    case DeleteBatch(_, batch, failure) => DeleteKeepsSound(s, batch, failure);
  }

  lemma {:induction false} EveryRunIsSound(s: Store, ops: seq<Op>)
    requires Sound(s)
    ensures Sound(Run(s, ops))
  {
    if ops != [] {
      EveryRunIsSound(s, ops[..|ops| - 1]);
      StepKeepsSound(Run(s, ops[..|ops| - 1]), ops[|ops| - 1]);
    }
  }

  /**
    In every reachable store: a row that claims deletion has no stored object; a submission lists a piece of
    evidence exactly when the evidence points at it, once, and for the same request; and one hand-off
    never has two uploads of a kind that both still count.
  */
  lemma ReachableStoreLaws(now: Time, ops: seq<Op>)
    ensures var s := Run(Empty(now), ops);
            && (forall e :: e in s.rows && s.rows[e].status == Deleted ==> s.rows[e].key !in s.objects)
            && (forall e, sub :: (e in s.rows && s.rows[e].submission == Some(sub)) <==>
                                 (sub in s.submissions && e in s.submissions[sub].refs))
            && (forall sub :: sub in s.submissions ==> NoDuplicates(s.submissions[sub].refs))
            && (forall e, sub :: sub in s.submissions && e in s.submissions[sub].refs ==>
                                 e in s.rows && s.rows[e].request == s.submissions[sub].request)
            && (forall e, a, b | a in s.submissions && b in s.submissions ::
                  e in s.submissions[a].refs && e in s.submissions[b].refs ==> a == b)
            && (forall e :: e in s.rows && s.rows[e].status == Attached ==> s.rows[e].submission.Some?)
            && (forall x, y :: x in s.rows && y in s.rows && Rivals(s, x, y) ==> x == y)
  {
    EveryRunIsSound(Empty(now), ops);
    var s := Run(Empty(now), ops);
    forall e | e in s.rows ensures RowSound(s, e, s.rows[e]) {
    }
    forall sub | sub in s.submissions ensures SubmissionSound(s, sub, s.submissions[sub]) {
    }
  }

  /** What was submitted stays submitted with the same submission, which keeps its list. */
  lemma {:induction false} SubmittedForever(s: Store, ops: seq<Op>, e: EvidenceId)
    requires Sound(s) && e in s.rows && s.rows[e].submission.Some?
    ensures var after := Run(s, ops);
            var sub := s.rows[e].submission.value;
            && e in after.rows && after.rows[e].submission == Some(sub)
            && sub in s.submissions && sub in after.submissions && after.submissions[sub] == s.submissions[sub]
  {
    assert RowSound(s, e, s.rows[e]);
    if ops != [] {
      var before := Run(s, ops[..|ops| - 1]);
      SubmittedForever(s, ops[..|ops| - 1], e);
      EveryRunIsSound(s, ops[..|ops| - 1]);
      assert RowSound(before, e, before.rows[e]);
    }
  }

  /** The clean-up touches neither the rows nor the objects of submitted evidence, whether it fails or not. */
  lemma CleanupSparesSubmitted(s: Store, batch: seq<EvidenceId>, failure: Option<nat>, e: EvidenceId)
    requires Sound(s) && e in s.rows && s.rows[e].submission.Some?
    ensures var after := Step(s, DeleteBatch(ExpiredUploads, batch, failure));
            after.rows[e] == s.rows[e] && (s.rows[e].key in after.objects <==> s.rows[e].key in s.objects)
  {
    assert RowSound(s, e, s.rows[e]);
    if Lists(batch, Selected(s, ExpiredUploads)) {
      forall x | x in batch ensures s.rows[x].key != s.rows[e].key {
        assert x in Selected(s, ExpiredUploads);
      }
    }
  }

  // ---------------------------------------------------------------------------------------------
  // Failed batches leave no trace
  // ---------------------------------------------------------------------------------------------

  predicate Failed(op: Op, scope: Scope) {
    op.DeleteBatch? && op.scope == scope && op.failure.Some?
  }

  /** The same run without the failed batches of one scope. */
  function WithoutFailures(ops: seq<Op>, scope: Scope): seq<Op> {
    if ops == [] then []
    else
      var rest := WithoutFailures(ops[..|ops| - 1], scope);
      if Failed(ops[|ops| - 1], scope) then rest else rest + [ops[|ops| - 1]]
  }

  /** The two stores differ only in objects whose rows the next batch selects anyway. */
  ghost predicate Behind(s: Store, t: Store, scope: Scope) {
    && s.now == t.now && s.rows == t.rows && s.submissions == t.submissions && s.objects <= t.objects
    && forall k :: k in t.objects && k !in s.objects ==> KeyInScope(t, k, scope)
  }

  ghost predicate KeyInScope(s: Store, k: Key, scope: Scope) {
    exists x :: x in s.rows && s.rows[x].key == k && InScope(s.rows[x], s.now, scope)
  }

  lemma FailureFallsBehind(s: Store, t: Store, scope: Scope, batch: seq<EvidenceId>, gone: nat)
    requires Behind(s, t, scope)
    ensures Behind(Step(s, DeleteBatch(scope, batch, Some(gone))), t, scope)
  {
    if Lists(batch, Selected(s, scope)) {
      forall x | x in batch ensures KeyInScope(t, s.rows[x].key, scope) {
        assert x in Selected(s, scope);
      }
    }
  }

  /** Whatever else happens, selected rows stay selected until their objects are gone. */
  lemma StepKeepsBehind(s: Store, t: Store, scope: Scope, op: Op)
    requires Behind(s, t, scope)
    ensures Behind(Step(s, op), Step(t, op), scope)
  {
    var s', t' := Step(s, op), Step(t, op);
    assert forall k :: KeyIsTaken(s, k) <==> KeyIsTaken(t, k);
    forall k | k in t'.objects && k !in s'.objects ensures KeyInScope(t', k, scope) {
      assert k in t.objects && k !in s.objects;
      var x :| x in t.rows && t.rows[x].key == k && InScope(t.rows[x], t.now, scope);
      assert x in t'.rows && t'.rows[x].key == k;
      assert InScope(t'.rows[x], t'.now, scope);
    }
  }

  lemma {:induction false} RunKeepsBehind(s: Store, ops: seq<Op>, scope: Scope)
    ensures Behind(Run(s, ops), Run(s, WithoutFailures(ops, scope)), scope)
  {
    if ops != [] {
      var before, op := ops[..|ops| - 1], ops[|ops| - 1];
      var rest := WithoutFailures(before, scope);
      RunKeepsBehind(s, before, scope);
      if Failed(op, scope) {
        FailureFallsBehind(Run(s, before), Run(s, rest), scope, op.batch, op.failure.value);
      } else {
        StepKeepsBehind(Run(s, before), Run(s, rest), scope, op);
        assert (rest + [op])[..|rest|] == rest;
      }
    }
  }

  /**
    However often a batch failed, and whatever happened in between, one successful batch makes rows and
    storage those of the run in which it never failed; and no failure ever changed a row.
  */
  lemma FailedBatchesLeaveNoTrace(s: Store, ops: seq<Op>, scope: Scope, batch: seq<EvidenceId>)
    requires Lists(batch, Selected(Run(s, ops), scope))
    ensures Run(s, ops).rows == Run(s, WithoutFailures(ops, scope)).rows
    ensures Step(Run(s, ops), DeleteBatch(scope, batch, None))
         == Step(Run(s, WithoutFailures(ops, scope)), DeleteBatch(scope, batch, None))
  {
    RunKeepsBehind(s, ops, scope);
    var u, v := Run(s, ops), Run(s, WithoutFailures(ops, scope));
    assert Selected(u, scope) == Selected(v, scope);
    forall k | k in v.objects && k !in u.objects ensures k in Keys(v.rows, batch) {
      var x :| x in v.rows && v.rows[x].key == k && InScope(v.rows[x], v.now, scope);
      assert x in Selected(v, scope) && x in batch;
    }
    assert u.objects - Keys(u.rows, batch) == v.objects - Keys(v.rows, batch);
  }

  /** After a batch went through, nothing is left to select, and no object of the selected rows remains. */
  lemma BatchFinishes(s: Store, scope: Scope, batch: seq<EvidenceId>)
    requires Lists(batch, Selected(s, scope))
    ensures var after := Step(s, DeleteBatch(scope, batch, None));
            && Selected(after, scope) == {}
            && (forall e :: e in Selected(s, scope) ==> after.rows[e].status == Deleted && s.rows[e].key !in after.objects)
            && (forall e :: e in s.rows && e !in Selected(s, scope) ==> after.rows[e] == s.rows[e])
            && after.rows.Keys == s.rows.Keys
  {
  }

  // ---------------------------------------------------------------------------------------------
  // Which objects are still there
  // ---------------------------------------------------------------------------------------------

  predicate ManualFailure(op: Op) {
    op.DeleteBatch? && op.scope.EvidenceOf? && op.failure.Some?
  }

  /** Every row that still counts has its object. */
  ghost predicate Stored(s: Store) {
    forall e :: e in s.rows && s.rows[e].status != Deleted && !InScope(s.rows[e], s.now, ExpiredUploads) ==>
                  s.rows[e].key in s.objects
  }

  lemma StepKeepsStored(s: Store, op: Op)
    requires Sound(s) && Stored(s) && !ManualFailure(op)
    ensures Stored(Step(s, op))
  {
    var after := Step(s, op);
    if op.DeleteBatch? && Lists(op.batch, Selected(s, op.scope)) {
      forall e | e in after.rows && after.rows[e].status != Deleted && !InScope(after.rows[e], after.now, ExpiredUploads)
        ensures after.rows[e].key in after.objects
      {
        forall x | x in op.batch ensures x in s.rows && s.rows[x].key != s.rows[e].key {
          assert x in Selected(s, op.scope);
        }
      }
    }
  }

  /** Unless a manual deletion fails half way, every upload that still counts and all submitted evidence is in storage. */
  lemma {:induction false} EvidenceIsStored(now: Time, ops: seq<Op>)
    requires forall i :: 0 <= i < |ops| ==> !ManualFailure(ops[i])
    ensures Stored(Run(Empty(now), ops))
  {
    if ops != [] {
      var shorter := ops[..|ops| - 1];
      EvidenceIsStored(now, shorter);
      EveryRunIsSound(Empty(now), shorter);
      StepKeepsStored(Run(Empty(now), shorter), ops[|ops| - 1]);
    }
  }

  /** A manual deletion that fails after k objects costs exactly those rows their objects: they still count, and can still be submitted. */
  lemma ManualFailureLosesObjects(s: Store, request: RequestId, batch: seq<EvidenceId>, gone: nat)
    requires Sound(s) && Stored(s) && Lists(batch, Selected(s, EvidenceOf(request))) && gone <= |batch|
    ensures var after := Step(s, DeleteBatch(EvidenceOf(request), batch, Some(gone)));
            && after.rows == s.rows
            && (Stored(after) <==>
                forall k :: 0 <= k < gone ==> batch[k] in s.rows && InScope(s.rows[batch[k]], s.now, ExpiredUploads))
            && (forall k :: 0 <= k < gone ==>
                  && batch[k] in after.rows && after.rows[batch[k]].key !in after.objects
                  && (Submittable(s, request, batch[k]) ==> EvidenceAccepted(after, request, [batch[k]])))
  {
    var after := Step(s, DeleteBatch(EvidenceOf(request), batch, Some(gone)));
    forall k | 0 <= k < gone
      ensures batch[k] in s.rows && s.rows[batch[k]].status != Deleted && s.rows[batch[k]].key !in after.objects
    {
      assert batch[k] in batch && batch[k] in Selected(s, EvidenceOf(request));
      assert batch[..gone][k] == batch[k];
    }
    if forall k :: 0 <= k < gone ==> batch[k] in s.rows && InScope(s.rows[batch[k]], s.now, ExpiredUploads) {
      forall e | e in after.rows && after.rows[e].status != Deleted && !InScope(after.rows[e], after.now, ExpiredUploads)
        ensures after.rows[e].key in after.objects
      {
        forall x | x in batch[..gone] ensures x in s.rows && s.rows[x].key != s.rows[e].key {
        }
      }
    }
  }
}
