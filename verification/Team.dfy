/**
  Team operations as transactions with row locks.  A transaction takes a snapshot of the active super
  administrators in id order, locks their rows one by one (a row that no longer qualifies once its lock is
  free is left out), checks that the actor is among them, locks and reads the target, decides, and writes
  at commit.  Any number of transactions interleave; a step that must wait simply does not happen.
*/
module Team {
  import opened Common

  type AdminId = nat
  type TxnId = nat

  datatype Role = Reviewer | Administrator | SuperAdmin

  datatype Admin = Admin(role: Role, active: bool)

  predicate IsOwner(a: Admin) {
    a.active && a.role == SuperAdmin
  }

  datatype TeamOp =
    | ChangeRole(role: Role)
    | Disable
    | Enable
    | RevokeSessions

  datatype TeamError = NotPermitted | NoSuchAdmin | LastSuperAdmin

  /** Would taking owner capability from the target leave none among the locked owners? */
  predicate WouldRemoveLast(target: Admin, lockedOwners: nat) {
    IsOwner(target) && lockedOwners <= 1
  }

  /** The target row that the operation asks for. */
  function Requested(op: TeamOp, target: Admin): Admin {
    match op
    case ChangeRole(role) => target.(role := role)
    case Disable => target.(active := false)
    case Enable => target.(active := true)
    case RevokeSessions => target
  }

  /** Some(row) is the new target row; None means that the call returns without writing. */
  function Decision(op: TeamOp, target: Admin, lockedOwners: nat): Result<Option<Admin>, TeamError> {
    match op
    case ChangeRole(role) =>
      if target.role == role then Ok(None)
      else if role != SuperAdmin && WouldRemoveLast(target, lockedOwners) then Err(LastSuperAdmin)
      else Ok(Some(Requested(op, target)))
    case Disable =>
      if !target.active then Ok(None)
      else if WouldRemoveLast(target, lockedOwners) then Err(LastSuperAdmin)
      else Ok(Some(Requested(op, target)))
    case Enable => if target.active then Ok(None) else Ok(Some(Requested(op, target)))
    case RevokeSessions => Ok(Some(Requested(op, target)))
  }

  datatype Phase =
    | LockingOwners(todo: seq<AdminId>)
    | Authorized
    | Decided(write: Option<Admin>)

  datatype Txn = Txn(actor: AdminId, target: AdminId, op: TeamOp, owners: set<AdminId>, phase: Phase)

  /** `locks` maps a locked row to the transaction that holds it; `trail` lists committed writes with their actors. */
  datatype Board = Board(
    admins: map<AdminId, Admin>,
    locks: map<AdminId, TxnId>,
    txns: map<TxnId, Txn>,
    trail: seq<Committed>)

  /** `ownersThen` are the owners of the state in which the write was committed. */
  datatype Committed = Committed(actor: AdminId, target: AdminId, ownersThen: set<AdminId>)

  function Owners(admins: map<AdminId, Admin>): set<AdminId> {
    set a | a in admins && IsOwner(admins[a])
  }

  predicate Ascending(ids: seq<AdminId>) {
    forall i, j :: 0 <= i < j < |ids| ==> ids[i] < ids[j]
  }

  datatype Step =
    | Begin(txn: TxnId, actor: AdminId, target: AdminId, op: TeamOp, snapshot: seq<AdminId>)
    | LockNextOwner(txn: TxnId, keepsStaleLock: bool)
    | Authorize(txn: TxnId)
    | LockTarget(txn: TxnId)
    | Commit(txn: TxnId)
    | Abort(txn: TxnId)
    | AcceptInvitation(admin: AdminId, role: Role)

  predicate Grantable(b: Board, row: AdminId, t: TxnId) {
    row !in b.locks || b.locks[row] == t
  }

  /** The end of a transaction: every row it holds is released. */
  function Release(b: Board, t: TxnId): Board {
    b.(locks := map a | a in b.locks && b.locks[a] != t :: b.locks[a], txns := b.txns - {t})
  }

  function LockNextOwnerStep(b: Board, t: TxnId, keepsStaleLock: bool): Board {
    if t !in b.txns || !b.txns[t].phase.LockingOwners? || b.txns[t].phase.todo == [] then b
    else
      var row := b.txns[t].phase.todo[0];
      var rest := LockingOwners(b.txns[t].phase.todo[1..]);
      if !Grantable(b, row, t) || row !in b.admins then b
      else if IsOwner(b.admins[row]) then
        b.(locks := b.locks[row := t],
           txns := b.txns[t := b.txns[t].(owners := b.txns[t].owners + {row}, phase := rest)])
      else
        b.(locks := if keepsStaleLock then b.locks[row := t] else b.locks,
           txns := b.txns[t := b.txns[t].(phase := rest)])
  }

  function AuthorizeStep(b: Board, t: TxnId): Board {
    if t !in b.txns || b.txns[t].phase != LockingOwners([]) then b
    else if b.txns[t].actor in b.txns[t].owners then b.(txns := b.txns[t := b.txns[t].(phase := Authorized)])
    else Release(b, t)
  }

  function LockTargetStep(b: Board, t: TxnId): Board {
    if t !in b.txns || !b.txns[t].phase.Authorized? then b
    else
      var txn := b.txns[t];
      if txn.target !in b.admins then Release(b, t)
      else if !Grantable(b, txn.target, t) then b
      else
        match Decision(txn.op, b.admins[txn.target], |txn.owners|)
        case Err(_) => Release(b, t)
        case Ok(write) =>
          b.(locks := b.locks[txn.target := t], txns := b.txns[t := txn.(phase := Decided(write))])
  }

  function CommitStep(b: Board, t: TxnId): Board {
    if t !in b.txns || !b.txns[t].phase.Decided? then b
    else
      var txn := b.txns[t];
      match txn.phase.write
      case None => Release(b, t)
      case Some(row) =>
        Release(b.(admins := b.admins[txn.target := row],
                   trail := b.trail + [Committed(txn.actor, txn.target, Owners(b.admins))]), t)
  }

  function Take(b: Board, step: Step): Board {
    match step
    case Begin(t, actor, target, op, snapshot) =>
      if t in b.txns || !Ascending(snapshot) || (set a | a in snapshot) != Owners(b.admins) then b
      else b.(txns := b.txns[t := Txn(actor, target, op, {}, LockingOwners(snapshot))])
    case LockNextOwner(t, keeps) => LockNextOwnerStep(b, t, keeps)
    case Authorize(t) => AuthorizeStep(b, t)
    case LockTarget(t) => LockTargetStep(b, t)
    case Commit(t) => CommitStep(b, t)
    case Abort(t) => if t in b.txns then Release(b, t) else b
    case AcceptInvitation(a, role) => if a in b.admins then b else b.(admins := b.admins[a := Admin(role, true)])
  }

  function Run(b: Board, steps: seq<Step>): Board {
    if steps == [] then b else Take(Run(b, steps[..|steps| - 1]), steps[|steps| - 1])
  }

  // ---------------------------------------------------------------------------------------------
  // What every interleaving keeps
  // ---------------------------------------------------------------------------------------------

  /** A transaction's owners are locked by it and are owners still; after the check the actor is one of them. */
  predicate TxnSound(b: Board, t: TxnId, txn: Txn) {
    && (forall a :: a in txn.owners ==> a in b.locks && b.locks[a] == t && a in b.admins && IsOwner(b.admins[a]))
    && (!txn.phase.LockingOwners? ==> txn.actor in txn.owners)
    && (txn.phase.Decided? ==>
          && txn.target in b.locks && b.locks[txn.target] == t && txn.target in b.admins
          && Decision(txn.op, b.admins[txn.target], |txn.owners|) == Ok(txn.phase.write))
  }

  ghost predicate Sound(b: Board) {
    forall t :: t in b.txns ==> TxnSound(b, t, b.txns[t])
  }

  lemma ReleaseKeepsSound(b: Board, t: TxnId)
    requires Sound(b)
    ensures Sound(Release(b, t))
  {
    forall u | u in Release(b, t).txns ensures TxnSound(Release(b, t), u, b.txns[u]) {
      assert TxnSound(b, u, b.txns[u]);
    }
  }

  /** A committed write touches only the row that its transaction has locked. */
  lemma WriteKeepsOthersSound(b: Board, t: TxnId, row: Admin, trail: seq<Committed>)
    requires Sound(b) && t in b.txns && b.txns[t].phase.Decided?
    ensures Sound(b.(admins := b.admins[b.txns[t].target := row], trail := trail, txns := b.txns - {t}))
  {
  }

  /** Taking a free lock and moving on touches nobody else's rows. */
  lemma AdvanceKeepsOthersSound(b: Board, t: TxnId, locks: map<AdminId, TxnId>, txn: Txn)
    requires Sound(b)
    requires forall a :: a in b.locks && b.locks[a] != t ==> a in locks && locks[a] == b.locks[a]
    requires TxnSound(b.(locks := locks), t, txn)
    ensures Sound(b.(locks := locks, txns := b.txns[t := txn]))
  {
    var after := b.(locks := locks, txns := b.txns[t := txn]);
    forall u | u in after.txns ensures TxnSound(after, u, after.txns[u]) {
      if u != t {
        assert TxnSound(b, u, b.txns[u]);
      }
    }
  }

  lemma LockingKeepsSound(b: Board, t: TxnId, keeps: bool)
    requires Sound(b)
    ensures Sound(LockNextOwnerStep(b, t, keeps))
  {
    var after := LockNextOwnerStep(b, t, keeps);
    if after != b {
      assert TxnSound(b, t, b.txns[t]);
      AdvanceKeepsOthersSound(b, t, after.locks, after.txns[t]);
    }
  }

  lemma DecidingKeepsSound(b: Board, t: TxnId)
    requires Sound(b)
    ensures Sound(LockTargetStep(b, t))
    ensures Sound(AuthorizeStep(b, t))
  {
    ReleaseKeepsSound(b, t);
    if t in b.txns {
      var txn := b.txns[t];
      assert TxnSound(b, t, txn);
      if txn.phase == LockingOwners([]) && txn.actor in txn.owners {
        AdvanceKeepsOthersSound(b, t, b.locks, txn.(phase := Authorized));
        assert AuthorizeStep(b, t) == b.(locks := b.locks, txns := b.txns[t := txn.(phase := Authorized)]);
      }
      if txn.phase.Authorized? && txn.target in b.admins && Grantable(b, txn.target, t) {
        var decision := Decision(txn.op, b.admins[txn.target], |txn.owners|);
        if decision.Ok? {
          AdvanceKeepsOthersSound(b, t, b.locks[txn.target := t], txn.(phase := Decided(decision.value)));
        }
      }
    }
  }

  lemma CommittingKeepsSound(b: Board, t: TxnId)
    requires Sound(b)
    ensures Sound(CommitStep(b, t))
  {
    ReleaseKeepsSound(b, t);
    if t in b.txns && b.txns[t].phase.Decided? && b.txns[t].phase.write.Some? {
      var row := b.txns[t].phase.write.value;
      var trail := b.trail + [Committed(b.txns[t].actor, b.txns[t].target, Owners(b.admins))];
      WriteKeepsOthersSound(b, t, row, trail);
      var written := b.(admins := b.admins[b.txns[t].target := row], trail := trail, txns := b.txns - {t});
      ReleaseKeepsSound(written, t);
      assert CommitStep(b, t) == Release(written, t);
    }
  }

  lemma StepKeepsSound(b: Board, step: Step)
    requires Sound(b)
    ensures Sound(Take(b, step))
  {
    match step
    case Begin(t, actor, target, op, snapshot) =>
      AdvanceKeepsOthersSound(b, t, b.locks, Txn(actor, target, op, {}, LockingOwners(snapshot)));
    case LockNextOwner(t, keeps) => LockingKeepsSound(b, t, keeps);
    case Authorize(t) => DecidingKeepsSound(b, t);
    case LockTarget(t) => DecidingKeepsSound(b, t);
    case Commit(t) => CommittingKeepsSound(b, t);
    case Abort(t) => ReleaseKeepsSound(b, t);
    case AcceptInvitation(_, _) =>
      forall u | u in b.txns ensures TxnSound(Take(b, step), u, b.txns[u]) {
        assert TxnSound(b, u, b.txns[u]);
      }
  }

  lemma AnotherElement<T>(s: set<T>, x: T) returns (y: T)
    requires |s| > 1
    ensures y in s && y != x
  {
    var rest := s - {x};
    assert |rest| >= |s| - 1;
    y :| y in rest;
  }

  /** The write that a sound transaction has decided on leaves an owner. */
  lemma WriteLeavesAnOwner(b: Board, t: TxnId)
    requires Sound(b) && t in b.txns && b.txns[t].phase.Decided? && b.txns[t].phase.write.Some?
    ensures Owners(b.admins[b.txns[t].target := b.txns[t].phase.write.value]) != {}
    ensures b.txns[t].actor in Owners(b.admins)
  {
    var txn := b.txns[t];
    assert TxnSound(b, t, txn);
    var after := b.admins[txn.target := txn.phase.write.value];
    if IsOwner(b.admins[txn.target]) && !IsOwner(txn.phase.write.value) {
      var other := AnotherElement(txn.owners, txn.target);
      assert other in Owners(after);
    } else {
      assert txn.actor in b.admins && IsOwner(b.admins[txn.actor]);
      assert (if txn.actor == txn.target then txn.target else txn.actor) in Owners(after);
    }
  }

  lemma StepKeepsAnOwner(b: Board, step: Step)
    requires Sound(b) && Owners(b.admins) != {}
    ensures Owners(Take(b, step).admins) != {}
  {
    if step.Commit? && step.txn in b.txns && b.txns[step.txn].phase.Decided? && b.txns[step.txn].phase.write.Some? {
      WriteLeavesAnOwner(b, step.txn);
    } else {
      var a :| a in Owners(b.admins);
      assert a in Owners(Take(b, step).admins);
    }
  }

  lemma {:induction false} EveryInterleavingIsSound(admins: map<AdminId, Admin>, steps: seq<Step>)
    ensures Sound(Run(Board(admins, map[], map[], []), steps))
  {
    if steps != [] {
      EveryInterleavingIsSound(admins, steps[..|steps| - 1]);
      StepKeepsSound(Run(Board(admins, map[], map[], []), steps[..|steps| - 1]), steps[|steps| - 1]);
    }
  }

  /** No interleaving of team operations ever commits a state without an active super administrator. */
  lemma {:induction false} AlwaysAnActiveSuperAdmin(admins: map<AdminId, Admin>, steps: seq<Step>)
    requires Owners(admins) != {}
    ensures Owners(Run(Board(admins, map[], map[], []), steps).admins) != {}
    ensures Sound(Run(Board(admins, map[], map[], []), steps))
  {
    EveryInterleavingIsSound(admins, steps);
    if steps != [] {
      AlwaysAnActiveSuperAdmin(admins, steps[..|steps| - 1]);
      EveryInterleavingIsSound(admins, steps[..|steps| - 1]);
      StepKeepsAnOwner(Run(Board(admins, map[], map[], []), steps[..|steps| - 1]), steps[|steps| - 1]);
    }
  }

  /** Every committed write was made by someone who was still an active super administrator at the commit. */
  lemma {:induction false} WritersAreOwnersAtCommit(admins: map<AdminId, Admin>, steps: seq<Step>, i: nat)
    requires i < |Run(Board(admins, map[], map[], []), steps).trail|
    ensures var done := Run(Board(admins, map[], map[], []), steps).trail[i]; done.actor in done.ownersThen
  {
    var before := Run(Board(admins, map[], map[], []), steps[..|steps| - 1]);
    var step := steps[|steps| - 1];
    if i < |before.trail| {
      WritersAreOwnersAtCommit(admins, steps[..|steps| - 1], i);
      assert Take(before, step).trail[i] == before.trail[i];
    } else {
      EveryInterleavingIsSound(admins, steps[..|steps| - 1]);
      WriteLeavesAnOwner(before, step.txn);
    }
  }

  /** Run alone by an owner, an operation is refused exactly when it would leave no owner. */
  lemma RefusedIffItWouldRemoveTheLast(admins: map<AdminId, Admin>, actor: AdminId, target: AdminId, op: TeamOp)
    requires actor in Owners(admins) && target in admins
    ensures Decision(op, admins[target], |Owners(admins)|).Err?
       <==> Owners(admins[target := Requested(op, admins[target])]) == {}
  {
    var after := admins[target := Requested(op, admins[target])];
    if |Owners(admins)| > 1 {
      var other := AnotherElement(Owners(admins), target);
      assert other in Owners(after);
    } else {
      forall a | a in Owners(admins) ensures a == actor {
        SubsetSize({actor, a}, Owners(admins));
      }
      if actor != target {
        assert actor in Owners(after);
        assert target !in Owners(admins);
      } else if IsOwner(after[target]) {
        assert target in Owners(after);
      } else {
        assert forall a :: a in Owners(after) ==> a in Owners(admins);
      }
    }
  }
}
