/**
  What each team operation achieves: the role and the activity it writes, when it writes nothing, and that an
  owner who runs alone gets it done.  Module Team says what no interleaving breaks.
*/
module TeamEffects {
  import opened Common
  import opened Team

  /** Each operation writes what it says and leaves the other column alone. */
  lemma WritesAsAsked(op: TeamOp, target: Admin, lockedOwners: nat)
    ensures var outcome := Decision(op, target, lockedOwners);
            outcome.Ok? && outcome.value.Some? ==>
              var row := outcome.value.value;
              match op
              case ChangeRole(role) => row.role == role && row.active == target.active && row != target
              case Disable => !row.active && row.role == target.role && row != target
              case Enable => row.active && row.role == target.role && row != target
              case RevokeSessions => row == target
  {
  }

  /** It writes nothing exactly if the target is as asked already, and is refused exactly if the last owner would be lost. */
  lemma WritesNothingIff(op: TeamOp, target: Admin, lockedOwners: nat)
    ensures Decision(op, target, lockedOwners) == Ok(None) <==>
            || (op.ChangeRole? && op.role == target.role)
            || (op.Disable? && !target.active)
            || (op.Enable? && target.active)
    ensures Decision(op, target, lockedOwners).Err? <==>
            && target.active && target.role == SuperAdmin && lockedOwners <= 1
            && (op.Disable? || (op.ChangeRole? && op.role != SuperAdmin))
  {
  }

  /** No interleaving ever commits a team without an administrator that is active and super administrator. */
  lemma SomebodyIsInCharge(admins: map<AdminId, Admin>, steps: seq<Step>, first: AdminId)
    requires first in admins && admins[first].active && admins[first].role == SuperAdmin
    ensures var after := Run(Board(admins, map[], map[], []), steps).admins;
            exists a :: a in after && after[a].active && after[a].role == SuperAdmin
  {
    assert first in Owners(admins);
    AlwaysAnActiveSuperAdmin(admins, steps);
    var a :| a in Owners(Run(Board(admins, map[], map[], []), steps).admins);
  }

  // ---------------------------------------------------------------------------------------------
  // A transaction that runs alone
  // ---------------------------------------------------------------------------------------------

  /** The lock steps for n owners. */
  function Locking(t: TxnId, n: nat): seq<Step> {
    if n == 0 then [] else Locking(t, n - 1) + [LockNextOwner(t, false)]
  }

  function Members(ids: seq<AdminId>, n: nat): set<AdminId>
    requires n <= |ids|
  {
    if n == 0 then {} else Members(ids, n - 1) + {ids[n - 1]}
  }

  lemma {:induction false} MembersAre(ids: seq<AdminId>, n: nat)
    requires n <= |ids|
    ensures forall a :: a in Members(ids, n) <==> exists k :: 0 <= k < n && ids[k] == a
  {
    if n > 0 {
      MembersAre(ids, n - 1);
    }
  }

  /** A row is locked and counted if it still qualifies, and left out otherwise; only a lock of somebody else makes one wait. */
  lemma LocksOrSkips(b: Board, t: TxnId, row: AdminId, rest: seq<AdminId>, keeps: bool)
    requires t in b.txns && b.txns[t].phase == LockingOwners([row] + rest) && row in b.admins
    ensures var after := Take(b, LockNextOwner(t, keeps));
            && after.admins == b.admins && after.trail == b.trail
            && (if row in b.locks && b.locks[row] != t then after == b
                else if b.admins[row].active && b.admins[row].role == SuperAdmin then
                  && t in after.txns
                  && after.txns[t] == b.txns[t].(owners := b.txns[t].owners + {row}, phase := LockingOwners(rest))
                  && after.locks == b.locks[row := t]
                else
                  && t in after.txns && after.txns[t] == b.txns[t].(phase := LockingOwners(rest))
                  && after.locks == if keeps then b.locks[row := t] else b.locks)
  {
    assert ([row] + rest)[1..] == rest;
  }

  /** After n of its lock steps a transaction that nobody disturbs holds the first n owners, and no row has changed. */
  lemma {:induction false} LocksOneByOne(b: Board, t: TxnId, txn: Txn, snapshot: seq<AdminId>, n: nat)
    requires b.locks == map[] && n <= |snapshot|
    requires t in b.txns && b.txns[t] == txn && txn.owners == {} && txn.phase == LockingOwners(snapshot)
    requires forall a :: a in snapshot ==> a in b.admins && IsOwner(b.admins[a])
    ensures var after := Run(b, Locking(t, n));
            && after.admins == b.admins && after.trail == b.trail
            && t in after.txns
            && after.txns[t] == txn.(owners := Members(snapshot, n), phase := LockingOwners(snapshot[n..]))
            && forall a :: a in after.locks ==> after.locks[a] == t
  {
    if n > 0 {
      LocksOneByOne(b, t, txn, snapshot, n - 1);
      RunsOneMore(b, t, n);
      assert snapshot[n - 1..] == [snapshot[n - 1]] + snapshot[n..];
      LocksOrSkips(Run(b, Locking(t, n - 1)), t, snapshot[n - 1], snapshot[n..], false);
    }
  }

  lemma RunsOneMore(b: Board, t: TxnId, n: nat)
    requires n > 0
    ensures Run(b, Locking(t, n)) == Take(Run(b, Locking(t, n - 1)), LockNextOwner(t, false))
  {
    assert (Locking(t, n - 1) + [LockNextOwner(t, false)])[..|Locking(t, n - 1)|] == Locking(t, n - 1);
  }

  /** The rest of a transaction that holds all owners. */
  lemma FinishesAlone(b: Board, t: TxnId, txn: Txn)
    requires t in b.txns && b.txns[t] == txn && txn.phase == LockingOwners([]) && txn.owners == Owners(b.admins)
    requires forall a :: a in b.locks ==> b.locks[a] == t
    ensures var after := Take(Take(Take(b, Authorize(t)), LockTarget(t)), Commit(t));
            && t !in after.txns && after.locks == map[]
            && after.admins ==
               (if txn.target in b.admins && txn.actor in Owners(b.admins)
                   && Owners(b.admins[txn.target := Requested(txn.op, b.admins[txn.target])]) != {}
                then b.admins[txn.target := Requested(txn.op, b.admins[txn.target])]
                else b.admins)
  {
    if txn.target in b.admins && txn.actor in Owners(b.admins) {
      RefusedIffItWouldRemoveTheLast(b.admins, txn.actor, txn.target, txn.op);
    }
  }

  /**
    Run alone, an operation takes effect if and only if its target exists, its actor is an active super administrator
    and somebody stays one; either way the transaction ends and holds no lock.
  */
  lemma OwnerGetsItDone(b: Board, t: TxnId, actor: AdminId, target: AdminId, op: TeamOp, snapshot: seq<AdminId>)
    requires b.locks == map[] && t !in b.txns
    requires Ascending(snapshot) && (set a | a in snapshot) == Owners(b.admins)
    ensures var locked := Run(Take(b, Begin(t, actor, target, op, snapshot)), Locking(t, |snapshot|));
            var after := Take(Take(Take(locked, Authorize(t)), LockTarget(t)), Commit(t));
            && t !in after.txns && after.locks == map[]
            && after.admins ==
               (if target in b.admins && actor in Owners(b.admins)
                   && Owners(b.admins[target := Requested(op, b.admins[target])]) != {}
                then b.admins[target := Requested(op, b.admins[target])]
                else b.admins)
  {
    var begun := Take(b, Begin(t, actor, target, op, snapshot));
    forall a | a in snapshot ensures a in b.admins && IsOwner(b.admins[a]) {
      assert a in Owners(b.admins);
    }
    LocksOneByOne(begun, t, begun.txns[t], snapshot, |snapshot|);
    MembersAre(snapshot, |snapshot|);
    var locked := Run(begun, Locking(t, |snapshot|));
    assert locked.txns[t].owners == Owners(b.admins);
    FinishesAlone(locked, t, locked.txns[t]);
  }
}
