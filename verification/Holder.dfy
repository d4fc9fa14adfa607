/** pkg/tc/holder/session_holder.go over the in-memory driver. */
module Holder {
  import opened Apis
  import opened Storage
  import opened Driver

  class SessionHolder {
    const manager: Driver

    constructor (manager: Driver)
      ensures this.manager == manager
    {
      this.manager := manager;
    }

    /** The branch set of a transaction that is stored; a removed one has none. */
    ghost function BranchesOf(x: string): set<BranchSession>
      reads manager
    {
      if x in manager.store.txs then manager.store.txs[x].branches else {}
    }

    /** A new GlobalTransaction with the stored session and a copy of the stored branch set. */
    method FindGlobalTransaction(xid: string) returns (gt: GlobalTransaction?)
      requires manager.Valid()
      ensures (gt == null) == (xid !in manager.store.txs || !manager.store.txs[xid].live)
      ensures gt != null ==> fresh(gt) && gt.Session == manager.store.txs[xid].session && gt.BranchSessions == BranchesOf(xid)
    {
      var session := manager.FindGlobalSession(xid);
      if session == null {
        return null;
      }
      var found := manager.FindBranchSessions(xid);
      var branches := SetOf(found);
      gt := new GlobalTransaction(session, branches);
    }

    /** The status is written to the caller's session first, and stays written if the store has lost it. */
    method UpdateGlobalSessionStatus(session: GlobalSession, status: GlobalStatus) returns (ok: bool)
      requires manager.Valid() && session.XID in manager.store.txs && manager.store.txs[session.XID].session == session
      modifies manager`store, session`Status
      ensures manager.Valid() && manager.SameObjects()
      ensures ok == old(manager.store).txs[session.XID].live
      ensures manager.store == Put(old(manager.store), session.XID, old(manager.store).txs[session.XID].(status := status))
    {
      ghost var tx := manager.store.txs[session.XID].(status := status);
      manager.WriteStatus(session, status);
      PutTwice(old(manager.store), session.XID, tx, tx);
      assert tx.(status := status) == tx;
      ok := manager.UpdateGlobalSessionStatus(session, status);
    }

    method InactiveGlobalSession(session: GlobalSession) returns (ok: bool)
      requires manager.Valid() && session.XID in manager.store.txs && manager.store.txs[session.XID].session == session
      modifies manager`store, session`Active
      ensures manager.Valid() && manager.SameObjects()
      ensures ok == old(manager.store).txs[session.XID].live
      ensures manager.store == Put(old(manager.store), session.XID, old(manager.store).txs[session.XID].(active := false))
    {
      ghost var tx := manager.store.txs[session.XID].(active := false);
      manager.WriteInactive(session);
      PutTwice(old(manager.store), session.XID, tx, tx);
      assert tx.(active := false) == tx;
      ok := manager.InactiveGlobalSession(session);
    }

    method RemoveBranchSession(session: GlobalSession, branch: BranchSession) returns (ok: bool)
      requires manager.Valid() && session.XID in manager.store.txs
      modifies manager
      ensures manager.Valid() && manager.SameObjects()
      ensures ok == old(manager.store).txs[session.XID].live
      ensures
        var tx := old(manager.store).txs[session.XID];
        manager.store == Put(old(manager.store), session.XID, tx.(branches := tx.branches - {branch}))
    {
      ok := manager.RemoveBranchSession(session, branch);
    }

    /** The session goes first, so removing the first branch after it fails. */
    method RemoveGlobalTransaction(gt: GlobalTransaction) returns (ok: bool)
      requires manager.Valid() && gt.Session.XID in manager.store.txs
      modifies manager
      ensures manager.Valid() && manager.SameObjects()
      ensures ok == (gt.BranchSessions == {})
      ensures
        var x := gt.Session.XID;
        manager.store == Put(old(manager.store), x, Removed(old(manager.store).txs[x]))
    {
      var order := Walk(gt.BranchSessions);
      hide Driver.Valid;
      ghost var tx := Removed(manager.store.txs[gt.Session.XID]);
      manager.RemoveGlobalSession(gt.Session);
      if |order| > 0 {
        assert order[0] in gt.BranchSessions;
        RemovedOnce(old(manager.store), gt.Session.XID, tx, order[0]);
        var removed := manager.RemoveBranchSession(gt.Session, order[0]);
        return false;
      }
      return true;
    }

    /** The batch behind the retry finders: for each session in order, the same branch set that
        `FindGlobalTransaction` gives. */
    method FindGlobalTransactionsByGlobalSessions(sessions: seq<GlobalSession>) returns (found: seq<GlobalTransaction>)
      requires manager.Valid()
      ensures |found| == |sessions|
      ensures forall j :: 0 <= j < |found| ==>
          fresh(found[j]) && found[j].Session == sessions[j] && found[j].BranchSessions == BranchesOf(sessions[j].XID)
      ensures forall i, j :: 0 <= i < j < |found| ==> found[i] != found[j]
    {
      hide Driver.Valid, GroupOf, Members;
      var xids := XIDsOf(sessions);
      var groups := FindGroups(xids);
      found := [];
      var j := 0;
      while j < |sessions|
        invariant 0 <= j <= |sessions| && |found| == j
        invariant forall k :: 0 <= k < j ==>
            fresh(found[k]) && found[k].Session == sessions[k] && found[k].BranchSessions == BranchesOf(sessions[k].XID)
        invariant forall k, l :: 0 <= k < l < j ==> found[k] != found[l]
      {
        assert xids[j] in xids;
        var members := SetOf(GroupOf(groups, sessions[j].XID));
        var gt := new GlobalTransaction(sessions[j], members);
        found := found + [gt];
        j := j + 1;
      }
    }

    /** The retry finders differ in the statuses they ask for. */
    method FindGlobalTransactionsWithAddressingIdentities(statuses: seq<GlobalStatus>, addressings: seq<string>)
      returns (found: seq<GlobalTransaction>)
      requires manager.Valid()
      ensures forall i :: 0 <= i < |found| ==>
          fresh(found[i]) && manager.Found(found[i].Session) && found[i].Session.Status in statuses
          && found[i].Session.Addressing in addressings && found[i].BranchSessions == BranchesOf(found[i].Session.XID)
      ensures forall x :: x in manager.store.txs && manager.store.txs[x].live && manager.store.txs[x].status in statuses ==>
          manager.store.txs[x].session.Addressing in addressings ==> exists i :: 0 <= i < |found| && found[i].Session.XID == x
      ensures forall i, j :: 0 <= i < j < |found| ==> found[i] != found[j] && found[i].Session.XID != found[j].Session.XID
    {
      var sessions := manager.FindGlobalSessionsWithAddressingIdentities(statuses, addressings);
      found := FindGlobalTransactionsByGlobalSessions(sessions);
      forall x | x in manager.store.txs && manager.store.txs[x].live && manager.store.txs[x].status in statuses
                 && manager.store.txs[x].session.Addressing in addressings
        ensures exists i :: 0 <= i < |found| && found[i].Session.XID == x
      {
        var i :| 0 <= i < |sessions| && sessions[i] == manager.store.txs[x].session;
        assert found[i].Session.XID == x;
      }
    }

    /** The branches of all the transactions in one query, then told apart by their own XID. */
    method FindGroups(xids: seq<string>) returns (groups: map<string, seq<BranchSession>>)
      requires manager.Valid()
      ensures forall x :: x in xids ==> Members(GroupOf(groups, x)) == BranchesOf(x)
    {
      var branches := manager.FindBatchBranchSessions(xids);
      groups := GroupByXID(branches);
      forall x | x in xids ensures Members(GroupOf(groups, x)) == BranchesOf(x) {
        BranchXIDs(x);
        forall b | b in BranchesOf(x) ensures b in GroupOf(groups, x) {
          assert b in branches;
        }
        forall b | b in GroupOf(groups, x) ensures b in BranchesOf(x) {
          assert b in branches && b.XID == x;
        }
      }
    }

    /** A branch is stored under its own XID. */
    lemma BranchXIDs(x: string)
      requires manager.Valid()
      ensures forall b :: b in BranchesOf(x) ==> b.XID == x
    {
    }
  }

  /** A removed transaction has no branch to lose. */
  lemma RemovedOnce(st: Store, x: string, tx: Tx, b: BranchSession)
    requires tx.branches == {}
    ensures Put(Put(st, x, tx), x, tx.(branches := tx.branches - {b})) == Put(st, x, tx)
  {
    assert tx.(branches := tx.branches - {b}) == tx;
  }

  function GroupOf(groups: map<string, seq<BranchSession>>, x: string): seq<BranchSession>
  {
    if x in groups then groups[x] else []
  }

  method XIDsOf(sessions: seq<GlobalSession>) returns (xids: seq<string>)
    ensures |xids| == |sessions| && forall k :: 0 <= k < |xids| ==> xids[k] == sessions[k].XID
  {
    xids := [];
    var i := 0;
    while i < |sessions|
      invariant 0 <= i <= |sessions| && |xids| == i
      invariant forall k :: 0 <= k < i ==> xids[k] == sessions[k].XID
    {
      xids := xids + [sessions[i].XID];
      i := i + 1;
    }
  }

  method SetOf(branches: seq<BranchSession>) returns (s: set<BranchSession>)
    ensures s == Members(branches)
  {
    s := {};
    var i := 0;
    while i < |branches|
      invariant 0 <= i <= |branches|
      invariant s == Members(branches[..i])
    {
      s := s + {branches[i]};
      i := i + 1;
    }
    assert branches[..i] == branches;
  }

  method GroupByXID(branches: seq<BranchSession>) returns (groups: map<string, seq<BranchSession>>)
    ensures forall b :: b in branches ==> b.XID in groups && b in groups[b.XID]
    ensures forall x, b :: x in groups && b in groups[x] ==> b in branches && b.XID == x
  {
    groups := map[];
    var i := 0;
    while i < |branches|
      invariant 0 <= i <= |branches|
      invariant forall b :: b in branches[..i] ==> b.XID in groups && b in groups[b.XID]
      invariant forall x, b :: x in groups && b in groups[x] ==> b in branches && b.XID == x
    {
      var x := branches[i].XID;
      if x in groups {
        groups := groups[x := groups[x] + [branches[i]]];
      } else {
        groups := groups[x := [branches[i]]];
      }
      i := i + 1;
    }
  }
}
