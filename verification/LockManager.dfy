/** pkg/tc/lock/lock_manager.go over the in-memory driver. */
module LockManager {
  import opened Apis
  import opened RowLocker
  import opened Storage
  import opened Driver
  import Text
  import Xid

  class LockManager {
    const manager: Driver

    constructor (manager: Driver)
      ensures this.manager == manager
    {
      this.manager := manager;
    }

    /** `skipCheckLock` is what the branch's application data decodes to; the in-memory driver ignores it. */
    method AcquireLock(branch: BranchSession?, skipCheckLock: bool) returns (ok: bool)
      requires manager.Valid()
      modifies manager
      ensures manager.Valid() && manager.SameObjects()
      ensures branch == null ==> ok && manager.store == old(manager.store)
      ensures branch != null ==>
          (ok, manager.LockMap) == Acquire(old(manager.LockMap), BranchClaims(branch), branch.TransactionID)
          && manager.store == old(manager.store).(locks := manager.LockMap)
    {
      if branch == null {
        return true;
      }
      var rows := CollectBranchSessionRowLocks(branch);
      BranchRowsOwned(branch);
      if |rows.Items()| == 0 {
        AcquireNothing(manager.LockMap, branch);
        return true;
      }
      ok := manager.AcquireLock(rows, skipCheckLock && branch.Type == AT);
      AcquireRowsMeaning(old(manager.LockMap), rows.Items(), branch.TransactionID);
    }

    method ReleaseLock(branch: BranchSession?)
      requires manager.Valid()
      modifies manager
      ensures manager.Valid() && manager.SameObjects()
      ensures manager.store == if branch == null then old(manager.store)
                               else old(manager.store).(locks := Released(old(manager.LockMap), BranchClaims(branch)))
    {
      if branch != null {
        var rows := CollectBranchSessionRowLocks(branch);
        if |rows.Items()| != 0 {
          manager.ReleaseLock(rows);
        } else {
          assert Claims(rows.Items()) == {} && Released(manager.LockMap, {}) == manager.LockMap;
        }
      }
    }

    method ReleaseGlobalSessionLock(gt: GlobalTransaction)
      requires manager.Valid()
      modifies manager
      ensures manager.Valid() && manager.SameObjects()
      ensures manager.store == old(manager.store).(locks := Released(old(manager.LockMap), ClaimsOf(gt.BranchSessions)))
    {
      var locks := RowsOfAll(gt.BranchSessions);
      manager.ReleaseLock(Slice(locks));
    }

    method IsLockable(xid: string, resourceID: string, lockKey: string) returns (r: bool)
      ensures r == LockableRows(manager.LockMap, CollectRowLocks(lockKey, resourceID, xid).Items())
    {
      r := manager.IsLockable(xid, resourceID, lockKey);
    }
  }

  method CollectBranchSessionRowLocks(branch: BranchSession) returns (rows: Rows)
    ensures rows == BranchRows(branch)
  {
    if branch.LockKey == "" {
      return Nil;
    }
    rows := CollectRowLocksOf(branch.LockKey, Owner(branch.ResourceID, branch.XID, branch.TransactionID, branch.BranchID));
  }

  method RowsOfAll(branches: set<BranchSession>) returns (locks: seq<RowLock>)
    ensures Claims(locks) == ClaimsOf(branches)
  {
    locks := [];
    var order := Walk(branches);
    var i := 0;
    while i < |order|
      invariant 0 <= i <= |order|
      invariant Claims(locks) == ClaimsOf(Members(order[..i]))
    {
      var rows := CollectBranchSessionRowLocks(order[i]);
      ClaimsAppend(locks, rows.Items());
      ClaimsOfNext(order, i);
      locks := locks + rows.Items();
      i := i + 1;
    }
    assert branches == Members(order[..i]);
  }

  lemma BranchRowsOwned(branch: BranchSession)
    ensures forall r :: r in BranchRows(branch).Items() ==> r.transactionID == branch.TransactionID
  {
    MeaningOwned(branch.LockKey, Owner(branch.ResourceID, branch.XID, branch.TransactionID, branch.BranchID));
  }

  lemma AcquireNothing(locks: LockTable, branch: BranchSession)
    requires |BranchRows(branch).Items()| == 0
    ensures Acquire(locks, BranchClaims(branch), branch.TransactionID) == (true, locks)
  {
    assert BranchClaims(branch) == {} && Keys(BranchClaims(branch)) == {};
    assert Granted(locks, BranchClaims(branch), branch.TransactionID) == locks;
  }

  lemma ClaimsAppend(a: seq<RowLock>, b: seq<RowLock>)
    ensures Claims(a + b) == Claims(a) + Claims(b)
  {
    forall r ensures r in a + b <==> r in a || r in b {
    }
  }

  lemma ClaimsOfNext(order: seq<BranchSession>, i: nat)
    requires i < |order|
    ensures ClaimsOf(Members(order[..i + 1])) == ClaimsOf(Members(order[..i])) + BranchClaims(order[i])
  {
    assert Members(order[..i + 1]) == Members(order[..i]) + {order[i]};
  }

  /** LockQuery predicts registration: for the XID the coordinator made and the id inside it, the rows are
      lockable exactly when a branch with that lock key would be granted them in the same state. */
  lemma LockQueryPredictsRegistration(locks: LockTable, b: BranchSession, addressing: string)
    requires Text.IsInt64(b.TransactionID) && b.XID == Xid.GenerateXID(addressing, b.TransactionID)
    ensures LockableRows(locks, CollectRowLocks(b.LockKey, b.ResourceID, b.XID).Items())
            == Acquire(locks, BranchClaims(b), b.TransactionID).0
  {
    Xid.TransactionIDOfGenerated(addressing, b.TransactionID);
    var asker := Owner(b.ResourceID, b.XID, b.TransactionID, 0);
    var owner := Owner(b.ResourceID, b.XID, b.TransactionID, b.BranchID);
    var asked, wanted := Meaning(b.LockKey, asker).Items(), Meaning(b.LockKey, owner).Items();
    GroupsRowsKeys(asker, owner, Text.Split(b.LockKey, ';'));
    MeaningOwned(b.LockKey, asker);
    MeaningOwned(b.LockKey, owner);
    SameRowsSameAnswer(locks, asked, wanted, b.TransactionID);
    if b.LockKey == "" {
      assert Text.Split("", ';') == [""];
      assert GroupsRows(asker, [""][1..]) == Slice([]);
      assert BranchClaims(b) == {};
    }
  }

  lemma SameRowsSameAnswer(locks: LockTable, asked: seq<RowLock>, wanted: seq<RowLock>, tid: int)
    requires |asked| == |wanted| && forall i :: 0 <= i < |asked| ==> asked[i].rowKey == wanted[i].rowKey
    requires (forall r :: r in asked ==> r.transactionID == tid) && (forall r :: r in wanted ==> r.transactionID == tid)
    ensures LockableRows(locks, asked) == Free(locks, Claims(wanted))
  {
    if LockableRows(locks, asked) {
      forall c | c in Claims(wanted) && c.0 in locks ensures locks[c.0] == c.1 {
        var i :| 0 <= i < |wanted| && c == (wanted[i].rowKey, wanted[i].transactionID);
        assert asked[i] in asked && wanted[i] in wanted;
      }
    } else {
      var i :| 0 <= i < |asked| && asked[i].rowKey in locks && locks[asked[i].rowKey] != asked[i].transactionID;
      assert asked[i] in asked && wanted[i] in wanted;
      assert (wanted[i].rowKey, wanted[i].transactionID).0 in locks;
    }
  }
}
