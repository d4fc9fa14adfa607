/** pkg/tc/model/global_transaction.go and pkg/tc/storage/driver/inmemory/inmemory.go: the session map,
    the branch sets and the row locks, changed in place. */
module Driver {
  import opened Apis
  import opened RowLocker
  import opened Storage
  import Xid

  /** A session with its branches. SessionMap holds one; the holder makes others that share the session
      and the branches by pointer but not the set. */
  class GlobalTransaction {
    const Session: GlobalSession
    var BranchSessions: set<BranchSession>

    constructor (session: GlobalSession, branches: set<BranchSession>)
      ensures Session == session && BranchSessions == branches
    {
      Session, BranchSessions := session, branches;
    }

    method GetBranch(branchID: int) returns (found: BranchSession?)
      ensures found == null ==> forall b :: b in BranchSessions ==> b.BranchID != branchID
      ensures found != null ==> found in BranchSessions && found.BranchID == branchID
    {
      var rest := BranchSessions;
      while rest != {}
        invariant rest <= BranchSessions
        invariant forall b :: b in BranchSessions - rest ==> b.BranchID != branchID
        decreases |rest|
      {
        var b :| b in rest;
        if b.BranchID == branchID {
          return b;
        }
        rest := rest - {b};
      }
      return null;
    }

    method CanBeCommittedAsync() returns (r: bool)
      ensures r == AllAsync(BranchSessions)
    {
      var rest := BranchSessions;
      while rest != {}
        invariant rest <= BranchSessions && AllAsync(BranchSessions - rest)
        decreases |rest|
      {
        var b :| b in rest;
        if !b.AsyncCommit {
          return false;
        }
        rest := rest - {b};
      }
      return true;
    }

    method IsSaga() returns (r: bool)
      ensures r == HasSaga(BranchSessions)
    {
      var rest := BranchSessions;
      while rest != {}
        invariant rest <= BranchSessions && !HasSaga(BranchSessions - rest)
        decreases |rest|
      {
        var b :| b in rest;
        if b.Type == SAGA {
          return true;
        }
        rest := rest - {b};
      }
      return false;
    }

    predicate HasBranch()
      reads this
    {
      |BranchSessions| > 0
    }

    predicate IsTimeoutGlobalStatus()
      reads Session
    {
      IsTimeoutStatus(Session.Status)
    }
  }

  // Row locks -------------------------------------------------------------------------------------------

  /** The storing loop of `AcquireLock`: whether every row was stored or already ours, and the table when
      the loop stopped. */
  function TryStore(locks: LockTable, rows: seq<RowLock>): (bool, LockTable)
    decreases |rows|
  {
    if rows == [] then (true, locks)
    else if rows[0].rowKey !in locks then TryStore(locks[rows[0].rowKey := rows[0].transactionID], rows[1..])
    else if locks[rows[0].rowKey] == rows[0].transactionID then TryStore(locks, rows[1..])
    else (false, locks)
  }

  function AcquireRows(locks: LockTable, rows: seq<RowLock>): (bool, LockTable)
  {
    var (ok, stored) := TryStore(locks, rows);
    if ok then (true, stored) else (false, Released(locks, Claims(rows)))
  }

  lemma ClaimsCons(row: RowLock, rows: seq<RowLock>)
    ensures Claims([row] + rows) == {(row.rowKey, row.transactionID)} + Claims(rows)
  {
    var all := [row] + rows;
    assert all[0] == row && all[1..] == rows;
    forall r | r in rows ensures r in all {
    }
  }

  lemma GrantedCons(locks: LockTable, k: string, claims: set<Claim>, tid: int)
    requires forall c :: c in claims ==> c.1 == tid
    requires k !in locks || locks[k] == tid
    ensures Free(locks[k := tid], claims) == Free(locks, claims) == Free(locks, {(k, tid)} + claims)
    ensures Granted(locks[k := tid], claims, tid) == Granted(locks, {(k, tid)} + claims, tid)
  {
    assert Keys({(k, tid)} + claims) == {k} + Keys(claims) by {
      var c := (k, tid);
      assert c.0 == k;
    }
  }

  lemma ClaimsOwned(rows: seq<RowLock>, tid: int)
    requires forall r :: r in rows ==> r.transactionID == tid
    ensures forall c :: c in Claims(rows) ==> c.1 == tid
  {
  }

  lemma TakenByAnother(locks: LockTable, rows: seq<RowLock>)
    requires rows != [] && rows[0].rowKey in locks && locks[rows[0].rowKey] != rows[0].transactionID
    ensures !Free(locks, Claims(rows)) && TryStore(locks, rows) == (false, locks)
  {
    var c := (rows[0].rowKey, rows[0].transactionID);
    assert c in Claims(rows) && c.0 in locks;
  }

  lemma TryStoreHead(locks: LockTable, rows: seq<RowLock>)
    requires rows != [] && (rows[0].rowKey in locks ==> locks[rows[0].rowKey] == rows[0].transactionID)
    ensures TryStore(locks, rows) == TryStore(locks[rows[0].rowKey := rows[0].transactionID], rows[1..])
  {
    var k := rows[0].rowKey;
    assert k in locks ==> locks[k := rows[0].transactionID] == locks;
  }

  lemma {:induction false} TryStoreOneOwner(locks: LockTable, rows: seq<RowLock>, tid: int)
    requires forall r :: r in rows ==> r.transactionID == tid
    ensures TryStore(locks, rows).0 == Free(locks, Claims(rows))
    ensures Free(locks, Claims(rows)) ==> TryStore(locks, rows).1 == Granted(locks, Claims(rows), tid)
    decreases |rows|
  {
    if rows != [] {
      hide TryStore, Claims, Granted, Free;
      var k, rest := rows[0].rowKey, rows[1..];
      assert rows[0].transactionID == tid;
      if k !in locks || locks[k] == tid {
        assert rows == [rows[0]] + rest;
        TryStoreHead(locks, rows);
        ClaimsCons(rows[0], rest);
        ClaimsOwned(rest, tid);
        GrantedCons(locks, k, Claims(rest), tid);
        TryStoreOneOwner(locks[k := tid], rest, tid);
      } else {
        TakenByAnother(locks, rows);
      }
    }
  }

  /** For the rows of one transaction, repeated keys included, `AcquireLock` is all or nothing. */
  lemma AcquireRowsMeaning(locks: LockTable, rows: seq<RowLock>, tid: int)
    requires forall r :: r in rows ==> r.transactionID == tid
    ensures AcquireRows(locks, rows) == Acquire(locks, Claims(rows), tid)
  {
    TryStoreOneOwner(locks, rows, tid);
  }

  function LockableRows(locks: LockTable, rows: seq<RowLock>): bool
  {
    forall r :: r in rows ==> r.rowKey in locks ==> locks[r.rowKey] == r.transactionID
  }

  lemma ReleasedNext(locks: LockTable, rows: seq<RowLock>, i: nat)
    requires i < |rows|
    ensures
      var before, row := Released(locks, Claims(rows[..i])), rows[i];
      Released(locks, Claims(rows[..i + 1])) ==
        if row.rowKey in before && before[row.rowKey] == row.transactionID then before - {row.rowKey} else before
  {
    assert Claims(rows[..i + 1]) == Claims(rows[..i]) + {(rows[i].rowKey, rows[i].transactionID)} by {
      assert rows[..i + 1] == rows[..i] + [rows[i]];
      forall r ensures r in rows[..i + 1] <==> r in rows[..i] || r == rows[i] {
      }
    }
  }

  /** Releasing the request undoes what the loop stored before it was refused. */
  lemma {:induction false} TryStoreReleased(locks: LockTable, rows: seq<RowLock>, claims: set<Claim>)
    requires Claims(rows) <= claims
    ensures Released(TryStore(locks, rows).1, claims) == Released(locks, claims)
    decreases |rows|
  {
    if rows != [] {
      var row := rows[0];
      assert rows == [row] + rows[1..];
      ClaimsCons(row, rows[1..]);
      if row.rowKey !in locks {
        TryStoreReleased(locks[row.rowKey := row.transactionID], rows[1..], claims);
      } else {
        TryStoreReleased(locks, rows[1..], claims);
      }
    }
  }

  function Put(st: Store, x: string, tx: Tx): Store
  {
    st.(txs := st.txs[x := tx])
  }

  lemma PutTwice(st: Store, x: string, tx: Tx, tx': Tx)
    ensures Put(Put(st, x, tx), x, tx') == Put(st, x, tx')
  {
  }

  /** SessionMap's values. They never leave the driver: only their session and branches do. */
  datatype Entry = Entry(session: GlobalSession, branches: set<BranchSession>)

  /** The maps differ at x at most. */
  predicate OnlyAt(a: map<string, Entry>, b: map<string, Entry>, x: string)
  {
    b == a || b == a - {x} || (x in b && b == a[x := b[x]])
  }

  lemma OnlyAtElsewhere(a: map<string, Entry>, b: map<string, Entry>, x: string)
    requires OnlyAt(a, b, x)
    ensures forall y :: y != x ==> (y in b <==> y in a)
    ensures forall y :: y != x && y in b ==> b[y] == a[y]
  {
  }

  /** A Go `range` over a map visits each key once, in an order the program cannot rely on. */
  method Walk(bs: set<BranchSession>) returns (order: seq<BranchSession>)
    ensures Enumerates(order, bs)
  {
    order := [];
    var rest := bs;
    while rest != {}
      invariant rest <= bs && Enumerates(order, bs - rest)
      decreases |rest|
    {
      var b :| b in rest;
      order := order + [b];
      rest := rest - {b};
    }
  }

  class Driver {
    var SessionMap: map<string, Entry>
    var LockMap: LockTable

    /** The same as a value, sessions already removed included; and the objects it speaks of. */
    ghost var store: Store
    ghost var sessions: set<GlobalSession>
    ghost var registered: set<BranchSession>

    ghost function Footprint(): set<object>
      reads `sessions, `registered
    {
      {this} + sessions + registered
    }

    /** No session or branch has come or gone. */
    twostate predicate SameObjects()
      reads `sessions, `registered
    {
      sessions == old(sessions) && registered == old(registered)
    }

    /** The session object agrees with the value. */
    ghost predicate SessionOf(x: string, tx: Tx)
      reads this, sessions
    {
      tx.session in sessions && tx.session.XID == x
      && tx.session.Status == tx.status && tx.session.Active == tx.active
    }

    /** SessionMap agrees with the value. */
    ghost predicate EntryOf(x: string, tx: Tx)
      reads this
    {
      && (x in SessionMap <==> tx.live)
      && (x in SessionMap ==> SessionMap[x] == Entry(tx.session, tx.branches))
      && (!tx.live ==> tx.branches == {})
      && tx.branches <= tx.report.Keys
    }

    /** The branch objects agree with the value. */
    ghost predicate ReportOf(x: string, tx: Tx)
      reads this, registered
    {
      && (forall b :: b in tx.report ==> b in registered && b.XID == x && b.Status == tx.report[b])
      && (forall b :: b in registered && b.XID == x ==> b in tx.report)
    }

    ghost predicate Valid()
      reads this, sessions, registered
    {
      && (forall x :: x in store.txs ==> SessionOf(x, store.txs[x]) && EntryOf(x, store.txs[x]) && ReportOf(x, store.txs[x]))
      && (forall x :: x in SessionMap ==> x in store.txs)
      && (forall b :: b in registered ==> b.XID in store.txs)
      && store.locks == LockMap
    }

    /** An operation on transaction x keeps the driver valid if x still agrees with its value and
        nothing that belongs to another transaction has changed. */
    twostate lemma ValidAfter(x: string, new tx: Tx)
      requires old(Valid())
      requires SessionOf(x, tx)
      requires EntryOf(x, tx)
      requires ReportOf(x, tx)
      requires store == Store(old(store).txs[x := tx], LockMap)
      requires old(sessions) <= sessions && old(registered) <= registered
      requires forall s :: s in old(sessions) && s.XID != x ==> s.Status == old(s.Status) && s.Active == old(s.Active)
      requires forall b :: b in old(registered) && b.XID != x ==> b.Status == old(b.Status)
      requires forall b :: b in registered && b.XID != x ==> b in old(registered)
      requires OnlyAt(old(SessionMap), SessionMap, x)
      ensures Valid()
    {
      OnlyAtElsewhere(old(SessionMap), SessionMap, x);
    }

    /** What Valid says of one transaction. */
    lemma At(x: string)
      requires Valid() && x in store.txs
      ensures SessionOf(x, store.txs[x]) && EntryOf(x, store.txs[x]) && ReportOf(x, store.txs[x]) && store.locks == LockMap
    {
    }

    lemma Mapped(x: string)
      requires Valid() && x in SessionMap
      ensures x in store.txs && store.txs[x].live
    {
    }

    /** The lock map concerns nothing else. */
    twostate lemma ValidLocks()
      requires old(Valid())
      requires SessionMap == old(SessionMap) && sessions == old(sessions) && registered == old(registered)
      requires store == old(store).(locks := LockMap)
      requires forall s :: s in sessions ==> s.Status == old(s.Status) && s.Active == old(s.Active)
      requires forall b :: b in registered ==> b.Status == old(b.Status)
      ensures Valid()
    {
    }

    constructor ()
      ensures Valid() && fresh(Footprint())
      ensures store == Store(map[], map[])
    {
      SessionMap, LockMap, store, sessions, registered := map[], map[], Store(map[], map[]), {}, {};
    }

    predicate Live(x: string)
      reads this
    {
      x in SessionMap
    }

    method AddGlobalSession(session: GlobalSession)
      requires Valid()
      requires session.XID !in store.txs && session !in sessions && session.Status == Begin && session.Active
      modifies this
      ensures Valid() && sessions == old(sessions) + {session} && registered == old(registered)
      ensures store == Put(old(store), session.XID, Opened(session))
    {
      SessionMap := SessionMap[session.XID := Entry(session, {})];
      sessions := sessions + {session};
      store := Put(store, session.XID, Opened(session));
      ValidAfter(session.XID, Opened(session));
    }

    method FindGlobalSession(xid: string) returns (session: GlobalSession?)
      requires Valid()
      ensures session == if xid in store.txs && store.txs[xid].live then store.txs[xid].session else null
    {
      if xid in SessionMap {
        return SessionMap[xid].session;
      }
      return null;
    }

    /** Assign a session's status, stored or not. */
    method WriteStatus(session: GlobalSession, status: GlobalStatus)
      requires Valid() && session.XID in store.txs && store.txs[session.XID].session == session
      modifies `store, session`Status
      ensures Valid() && SameObjects()
      ensures store == Put(old(store), session.XID, old(store).txs[session.XID].(status := status))
    {
      session.Status := status;
      ghost var tx := store.txs[session.XID].(status := status);
      store := Put(store, session.XID, tx);
      ValidAfter(session.XID, tx);
    }

    method WriteInactive(session: GlobalSession)
      requires Valid() && session.XID in store.txs && store.txs[session.XID].session == session
      modifies `store, session`Active
      ensures Valid() && SameObjects()
      ensures store == Put(old(store), session.XID, old(store).txs[session.XID].(active := false))
    {
      session.Active := false;
      ghost var tx := store.txs[session.XID].(active := false);
      store := Put(store, session.XID, tx);
      ValidAfter(session.XID, tx);
    }

    method UpdateGlobalSessionStatus(session: GlobalSession, status: GlobalStatus) returns (ok: bool)
      requires Valid() && session.XID in store.txs && store.txs[session.XID].session == session
      modifies `store, session`Status
      ensures Valid() && SameObjects()
      ensures ok == old(store).txs[session.XID].live
      ensures store == if ok then Put(old(store), session.XID, old(store).txs[session.XID].(status := status)) else old(store)
    {
      ok := session.XID in SessionMap;
      if ok {
        WriteStatus(SessionMap[session.XID].session, status);
      }
    }

    method InactiveGlobalSession(session: GlobalSession) returns (ok: bool)
      requires Valid() && session.XID in store.txs && store.txs[session.XID].session == session
      modifies `store, session`Active
      ensures Valid() && SameObjects()
      ensures ok == old(store).txs[session.XID].live
      ensures store == if ok then Put(old(store), session.XID, old(store).txs[session.XID].(active := false)) else old(store)
    {
      ok := session.XID in SessionMap;
      if ok {
        WriteInactive(SessionMap[session.XID].session);
      }
    }

    method RemoveGlobalSession(session: GlobalSession)
      requires Valid() && session.XID in store.txs
      modifies this
      ensures Valid() && SameObjects()
      ensures store == Put(old(store), session.XID, Removed(old(store).txs[session.XID]))
    {
      var x := session.XID;
      At(x);
      hide Valid;
      SessionMap := SessionMap - {x};
      store := Put(store, x, Removed(store.txs[x]));
      ValidAfter(x, store.txs[x]);
    }

    method AddBranchSession(globalSession: GlobalSession, session: BranchSession) returns (ok: bool)
      requires Valid() && session.XID == globalSession.XID && session !in registered && session.Status == Registered
      modifies this
      ensures Valid()
      ensures ok == old(Live(globalSession.XID))
      ensures sessions == old(sessions) && registered == if ok then old(registered) + {session} else old(registered)
      ensures ok ==> session.XID in old(store).txs
      ensures store == if !ok then old(store) else
          var tx := old(store).txs[session.XID];
          Put(old(store), session.XID, tx.(branches := tx.branches + {session}, report := tx.report[session := Registered]))
    {
      var x := globalSession.XID;
      ok := x in SessionMap;
      if ok {
        Mapped(x);
        hide Valid;
        ghost var tx := store.txs[x];
        ghost var reported := tx.(report := tx.report[session := Registered]);
        PutTwice(store, x, reported, reported.(branches := tx.branches + {session}));
        Enroll(x, session);
        PutBranch(x, session);
      }
    }

    /** A new branch object joins the value of transaction x; */
    ghost method Enroll(x: string, session: BranchSession)
      requires Valid() && x in store.txs && session.XID == x && session !in registered && session.Status == Registered
      modifies `store, `registered
      ensures Valid() && registered == old(registered) + {session}
      ensures store == Put(old(store), x, old(store).txs[x].(report := old(store).txs[x].report[session := Registered]))
    {
      registered := registered + {session};
      ghost var tx := store.txs[x].(report := store.txs[x].report[session := Registered]);
      store := Put(store, x, tx);
      ValidAfter(x, tx);
    }

    /** and then its branch set. */
    method PutBranch(x: string, session: BranchSession)
      requires Valid() && x in SessionMap && x in store.txs && session in store.txs[x].report
      modifies `SessionMap, `store
      ensures Valid()
      ensures store == Put(old(store), x, old(store).txs[x].(branches := old(store).txs[x].branches + {session}))
    {
      ghost var tx := store.txs[x].(branches := store.txs[x].branches + {session});
      SessionMap := SessionMap[x := SessionMap[x].(branches := SessionMap[x].branches + {session})];
      store := Put(store, x, tx);
      ValidAfter(x, tx);
    }

    method RemoveBranchSession(globalSession: GlobalSession, session: BranchSession) returns (ok: bool)
      requires Valid() && globalSession.XID in store.txs
      modifies this
      ensures Valid() && SameObjects()
      ensures ok == old(store).txs[globalSession.XID].live
      ensures
        var tx := old(store).txs[globalSession.XID];
        store == Put(old(store), globalSession.XID, tx.(branches := tx.branches - {session}))
    {
      var x := globalSession.XID;
      At(x);
      hide Valid;
      ghost var tx := store.txs[x].(branches := store.txs[x].branches - {session});
      ok := x in SessionMap;
      if ok {
        SessionMap := SessionMap[x := SessionMap[x].(branches := SessionMap[x].branches - {session})];
      }
      store := Put(store, x, tx);
      ValidAfter(x, tx);
    }

    method UpdateBranchSessionStatus(session: BranchSession, status: BranchStatus)
      requires Valid() && session in registered
      modifies this, session
      ensures Valid() && SameObjects()
      ensures session.XID in old(store).txs
      ensures store == Put(old(store), session.XID, Report(old(store).txs[session.XID], session, status))
    {
      session.Status := status;
      ghost var x := session.XID;
      store := Put(store, x, Report(store.txs[x], session, status));
      ValidAfter(x, store.txs[x]);
    }

    // The lock map ------------------------------------------------------------------------------------

    method ReleaseLock(rowLocks: Rows)
      requires Valid()
      modifies this
      ensures Valid() && SameObjects()
      ensures store == old(store).(locks := Released(old(LockMap), Claims(rowLocks.Items())))
    {
      var rows := rowLocks.Items();
      var i := 0;
      while i < |rows|
        invariant 0 <= i <= |rows|
        invariant LockMap == Released(old(LockMap), Claims(rows[..i]))
        invariant SessionMap == old(SessionMap) && store == old(store) && sessions == old(sessions) && registered == old(registered)
      {
        ReleasedNext(old(LockMap), rows, i);
        var row := rows[i];
        if row.rowKey in LockMap && LockMap[row.rowKey] == row.transactionID {
          LockMap := LockMap - {row.rowKey};
        }
        i := i + 1;
      }
      assert rows[..i] == rows;
      store := store.(locks := LockMap);
      ValidLocks();
    }

    /** The loop of `AcquireLock`, up to the first row of another transaction. */
    method StoreRows(rows: seq<RowLock>) returns (ok: bool)
      modifies `LockMap
      ensures (ok, LockMap) == TryStore(old(LockMap), rows)
    {
      var i := 0;
      while i < |rows|
        invariant 0 <= i <= |rows|
        invariant TryStore(old(LockMap), rows) == TryStore(LockMap, rows[i..])
      {
        var row := rows[i];
        assert rows[i..][1..] == rows[i + 1..];
        if row.rowKey !in LockMap {
          LockMap := LockMap[row.rowKey := row.transactionID];
        } else if LockMap[row.rowKey] != row.transactionID {
          return false;
        }
        i := i + 1;
      }
      return true;
    }

    method AcquireLock(rowLocks: Rows, skipCheckLock: bool) returns (ok: bool)
      requires Valid()
      modifies this
      ensures Valid() && SameObjects()
      ensures (ok, LockMap) == AcquireRows(old(LockMap), rowLocks.Items())
      ensures store == old(store).(locks := LockMap)
    {
      if rowLocks.Nil? {
        return true;
      }
      ok := StoreRows(rowLocks.rows);
      store := store.(locks := LockMap);
      ValidLocks();
      if !ok {
        ReleaseLock(rowLocks);
        TryStoreReleased(old(LockMap), rowLocks.rows, Claims(rowLocks.rows));
      }
    }

    method IsLockable(xid: string, resourceID: string, lockKey: string) returns (r: bool)
      ensures r == LockableRows(LockMap, CollectRowLocks(lockKey, resourceID, xid).Items())
    {
      var rowLocks := CollectRowLocksOf(lockKey, Owner(resourceID, xid, Xid.GetTransactionID(xid), 0));
      r := NoneHeld(rowLocks.Items());
    }

    method NoneHeld(rows: seq<RowLock>) returns (r: bool)
      ensures r == LockableRows(LockMap, rows)
    {
      var i := 0;
      while i < |rows|
        invariant 0 <= i <= |rows|
        invariant LockableRows(LockMap, rows[..i])
      {
        if rows[i].rowKey in LockMap && LockMap[rows[i].rowKey] != rows[i].transactionID {
          return false;
        }
        i := i + 1;
      }
      return true;
    }

    // The finders ---------------------------------------------------------------------------------------

    method FindBranchSessions(xid: string) returns (branches: seq<BranchSession>)
      requires Valid()
      ensures Enumerates(branches, if xid in store.txs then store.txs[xid].branches else {})
    {
      if xid in SessionMap {
        branches := Walk(SessionMap[xid].branches);
      } else {
        branches := [];
      }
    }

    /** What Valid says of the branch sets. */
    lemma BranchesMapped()
      requires Valid()
      ensures forall x :: x in SessionMap ==> x in store.txs && SessionMap[x].branches == store.txs[x].branches
      ensures forall x :: x in store.txs && x !in SessionMap ==> store.txs[x].branches == {}
      ensures forall x, b :: x in store.txs && b in store.txs[x].branches ==> b.XID == x
    {
    }

    /** All the branches are stored under one of the xids, */
    ghost predicate OnlyOf(branches: seq<BranchSession>, xids: seq<string>)
      reads this
    {
      forall b :: b in branches ==> b.XID in xids && b.XID in store.txs && b in store.txs[b.XID].branches
    }

    /** and every branch that is stored under one is there. */
    ghost predicate AllOf(branches: seq<BranchSession>, xids: seq<string>)
      reads this
    {
      forall x, b :: x in xids && x in store.txs && b in store.txs[x].branches ==> b in branches
    }

    lemma BatchNext(branches: seq<BranchSession>, xids: seq<string>, i: nat, found: seq<BranchSession>)
      requires i < |xids| && OnlyOf(branches, xids) && AllOf(branches, xids[..i])
      requires forall x, b :: x in store.txs && b in store.txs[x].branches ==> b.XID == x
      requires if xids[i] in store.txs then Enumerates(found, store.txs[xids[i]].branches) else found == []
      ensures OnlyOf(branches + found, xids) && AllOf(branches + found, xids[..i + 1])
    {
    }

    /** The branches of each xid in turn. */
    method FindBatchBranchSessions(xids: seq<string>) returns (branches: seq<BranchSession>)
      requires Valid()
      ensures OnlyOf(branches, xids) && AllOf(branches, xids)
    {
      BranchesMapped();
      hide Valid, OnlyOf, AllOf;
      branches := [];
      BatchStarts(xids);
      var i := 0;
      while i < |xids|
        invariant 0 <= i <= |xids| && OnlyOf(branches, xids) && AllOf(branches, xids[..i])
      {
        var found := [];
        if xids[i] in SessionMap {
          found := Walk(SessionMap[xids[i]].branches);
        }
        BatchNext(branches, xids, i, found);
        branches := branches + found;
        i := i + 1;
      }
      assert xids[..i] == xids;
    }

    lemma BatchStarts(xids: seq<string>)
      ensures OnlyOf([], xids) && AllOf([], xids[..0])
    {
    }

    /** The stored sessions with one of the statuses, each once, in the map's order. */
    method FindGlobalSessions(statuses: seq<GlobalStatus>) returns (found: seq<GlobalSession>)
      requires Valid()
      ensures forall s :: s in found ==> Found(s) && s.Status in statuses
      ensures forall x :: x in store.txs && store.txs[x].live && store.txs[x].status in statuses ==> store.txs[x].session in found
      ensures forall i, j :: 0 <= i < j < |found| ==> found[i].XID != found[j].XID
    {
      found := [];
      var rest := SessionMap.Keys;
      while rest != {}
        invariant rest <= SessionMap.Keys
        invariant forall s :: s in found ==> Found(s) && s.Status in statuses && s.XID !in rest
        invariant forall x :: x in SessionMap && x !in rest && store.txs[x].status in statuses ==> store.txs[x].session in found
        invariant forall i, j :: 0 <= i < j < |found| ==> found[i].XID != found[j].XID
        decreases |rest|
      {
        var x :| x in rest;
        rest := rest - {x};
        var s := SessionMap[x].session;
        if s.Status in statuses {
          found := found + [s];
        }
      }
    }

    ghost predicate Found(s: GlobalSession)
      reads this
    {
      s.XID in store.txs && store.txs[s.XID].live && store.txs[s.XID].session == s
    }

    method FindGlobalSessionsWithAddressingIdentities(statuses: seq<GlobalStatus>, addressings: seq<string>)
      returns (found: seq<GlobalSession>)
      requires Valid()
      ensures forall s :: s in found ==> Found(s) && s.Status in statuses && s.Addressing in addressings
      ensures forall x :: x in store.txs && store.txs[x].live && store.txs[x].status in statuses ==>
          store.txs[x].session.Addressing in addressings ==> store.txs[x].session in found
      ensures forall i, j :: 0 <= i < j < |found| ==> found[i].XID != found[j].XID
    {
      found := [];
      var rest := SessionMap.Keys;
      while rest != {}
        invariant rest <= SessionMap.Keys
        invariant forall s :: s in found ==>
            Found(s) && s.Status in statuses && s.Addressing in addressings && s.XID !in rest
        invariant forall x :: x in SessionMap && x !in rest && store.txs[x].status in statuses ==>
            store.txs[x].session.Addressing in addressings ==> store.txs[x].session in found
        invariant forall i, j :: 0 <= i < j < |found| ==> found[i].XID != found[j].XID
        decreases |rest|
      {
        var x :| x in rest;
        rest := rest - {x};
        var s := SessionMap[x].session;
        if s.Status in statuses && s.Addressing in addressings {
          found := found + [s];
        }
      }
    }
  }
}
