/** The two row-lock algorithms meet one specification, and that specification is mutual exclusion on real
    rows: resource, table and primary key. */
module Locking {
  import opened Apis
  import opened RowLocker
  import opened Storage
  import opened Mysql
  import Driver
  import Text
  import Xid

  /** A row under the XID that names its transaction. */
  predicate NamedRow(row: RowLock, nameOf: int -> string)
  {
    Text.IsInt64(row.transactionID) && row.xid == nameOf(row.transactionID)
  }

  /** The rows of one transaction. */
  predicate Request(rows: seq<RowLock>, nameOf: int -> string)
  {
    |rows| > 0 && forall r :: r in rows ==> r.transactionID == rows[0].transactionID && NamedRow(r, nameOf)
  }

  predicate Named(table: Table, nameOf: int -> string)
  {
    forall k :: k in table ==> NamedRow(table[k], nameOf)
  }

  /** No two transaction ids, which are int64s, have one name. */
  ghost predicate Injective(nameOf: int -> string)
  {
    forall t, u :: Text.IsInt64(t) && Text.IsInt64(u) && nameOf(t) == nameOf(u) ==> t == u
  }

  /** Who holds each row, by transaction id as the in-memory driver tells it. */
  function Owners(table: Table): LockTable
  {
    map k | k in table :: table[k].transactionID
  }

  lemma ClaimsAreKeys(rows: seq<RowLock>, tid: int)
    requires forall r :: r in rows ==> r.transactionID == tid
    ensures forall c :: c in Claims(rows) <==> c.0 in KeysOf(rows) && c.1 == tid
    ensures Keys(Claims(rows)) == KeysOf(rows)
  {
    forall r | r in rows ensures (r.rowKey, tid) in Claims(rows) {
    }
    forall k | k in KeysOf(rows) ensures k in Keys(Claims(rows)) {
      var c := (k, tid);
      assert c in Claims(rows) && c.0 == k;
    }
  }

  /** A conflict by XID is a conflict by transaction id. */
  lemma SameConflict(table: Table, rows: seq<RowLock>, nameOf: int -> string)
    requires Request(rows, nameOf) && Named(table, nameOf) && Injective(nameOf)
    ensures HeldByAnother(table, rows, rows[0].xid) <==> !Free(Owners(table), Claims(rows))
  {
    var tid := rows[0].transactionID;
    ClaimsAreKeys(rows, tid);
    assert rows[0] in rows;
    if HeldByAnother(table, rows, rows[0].xid) {
      var k :| k in KeysOf(rows) && k in table && table[k].xid != rows[0].xid;
      assert (k, tid) in Claims(rows) && (k, tid).0 in Owners(table);
    }
  }

  function Given(locks: LockTable, keys: set<string>, tid: int): LockTable
  {
    locks + map k | k in keys :: tid
  }

  lemma OwnersPut(table: Table, row: RowLock)
    ensures Owners(table[row.rowKey := row]) == Owners(table)[row.rowKey := row.transactionID]
  {
  }

  lemma GivenOneMore(locks: LockTable, keys: set<string>, k: string, tid: int)
    ensures Given(locks, keys + {k}, tid) == Given(locks, keys, tid)[k := tid]
  {
  }

  lemma {:induction false} OwnersInserted(table: Table, rows: seq<RowLock>, tid: int)
    requires forall r :: r in rows ==> r.transactionID == tid
    ensures Owners(Inserted(table, rows)) == Given(Owners(table), KeysOf(rows), tid)
  {
    if rows == [] {
      assert Given(Owners(table), {}, tid) == Owners(table);
    } else {
      hide Given;
      var before, last := rows[..|rows| - 1], rows[|rows| - 1];
      assert rows == before + [last];
      KeysOfAppend(before, last);
      OwnersInserted(table, before, tid);
      OwnersPut(Inserted(table, before), last);
      GivenOneMore(Owners(table), KeysOf(before), last.rowKey, tid);
    }
  }

  /** What the table has already is the requester's. */
  lemma GivenMissing(table: Table, rows: seq<RowLock>, tid: int)
    requires forall r :: r in rows ==> r.transactionID == tid
    requires Free(Owners(table), Claims(rows))
    ensures Given(Owners(table), KeysOf(rows) - table.Keys, tid) == Granted(Owners(table), Claims(rows), tid)
  {
    ClaimsAreKeys(rows, tid);
    forall k | k in KeysOf(rows) && k in table ensures Owners(table)[k] == tid {
      assert (k, tid) in Claims(rows) && (k, tid).0 in Owners(table);
    }
  }

  lemma {:induction false} InsertedNamed(table: Table, rows: seq<RowLock>, nameOf: int -> string)
    requires Keyed(table) && Named(table, nameOf) && forall r :: r in rows ==> NamedRow(r, nameOf)
    ensures Keyed(Inserted(table, rows)) && Named(Inserted(table, rows), nameOf)
  {
    if rows != [] {
      InsertedNamed(table, rows[..|rows| - 1], nameOf);
    }
  }

  /** MySQL's `AcquireLock`: true exactly when no requested row is held by another transaction; then all of
      them are the requester's and nothing else changes. A refusal changes nothing. */
  lemma MysqlAcquires(table: Table, rows: seq<RowLock>, nameOf: int -> string)
    requires Keyed(table) && Named(table, nameOf) && Request(rows, nameOf) && Injective(nameOf)
    ensures
      var (ok, table') := Acquired(table, rows, false);
      && ok == Free(Owners(table), Claims(rows))
      && (ok ==> Owners(table') == Granted(Owners(table), Claims(rows), rows[0].transactionID))
      && (!ok ==> table' == table)
      && Keyed(table') && Named(table', nameOf)
  {
    hide Claims, Granted, Free, Keyed, Given;
    var tid := rows[0].transactionID;
    SameConflict(table, rows, nameOf);
    FirstsOf(rows);
    WithoutOf(table.Keys, Firsts(rows));
    var missing := Without(table.Keys, Firsts(rows));
    OwnersInserted(table, missing, tid);
    InsertedNamed(table, missing, nameOf);
    if Free(Owners(table), Claims(rows)) {
      GivenMissing(table, rows, tid);
    }
  }

  lemma MysqlReleases(table: Table, rows: seq<RowLock>, nameOf: int -> string)
    requires Named(table, nameOf) && Request(rows, nameOf) && Injective(nameOf)
    ensures Owners(Deleted(table, KeysOf(rows), rows[0].xid)) == Released(Owners(table), Claims(rows))
  {
    ClaimsAreKeys(rows, rows[0].transactionID);
    assert rows[0] in rows;
  }

  /** Both answer alike from like tables. They agree afterwards, too, except when a refused requester
      already held one of the rows it asked for: the in-memory driver drops it, MySQL does not. */
  predicate Alike(table: Table, locks: LockTable, rows: seq<RowLock>)
    requires |rows| > 0
  {
    var (ok, table') := Acquired(table, rows, false);
    var (ok', locks') := Driver.AcquireRows(locks, rows);
    var tid := rows[0].transactionID;
    && ok == ok' == Free(locks, Claims(rows))
    && (forall k :: k in locks && k !in KeysOf(rows) ==> k in locks' && locks'[k] == locks[k])
    && (forall k :: k in locks' && k !in KeysOf(rows) ==> k in locks)
    && (ok ==> forall k :: k in KeysOf(rows) ==> k in locks' && locks'[k] == tid)
    && (!ok ==> forall k :: k in KeysOf(rows) && k in locks' ==> k in locks && locks'[k] == locks[k] != tid)
    && (Owners(table') == locks' <==> ok || forall k :: k in KeysOf(rows) && k in locks ==> locks[k] != tid)
  }

  lemma TwoAlgorithmsOneSpecification(table: Table, locks: LockTable, rows: seq<RowLock>, nameOf: int -> string)
    requires Keyed(table) && Named(table, nameOf) && Request(rows, nameOf) && Injective(nameOf)
    requires Owners(table) == locks
    ensures Alike(table, locks, rows)
  {
    hide Acquired, Driver.AcquireRows, Named, Claims;
    var tid := rows[0].transactionID;
    MysqlAcquires(table, rows, nameOf);
    Driver.AcquireRowsMeaning(locks, rows, tid);
    ClaimsAreKeys(rows, tid);
    if !Free(locks, Claims(rows)) && Owners(table) == Released(locks, Claims(rows)) {
      forall k | k in KeysOf(rows) && k in locks ensures locks[k] != tid {
        assert k in Released(locks, Claims(rows));
      }
    }
  }

  /** The names the coordinator gives: `GenerateXID`, each with the address of its own client. */
  function Generated(addressOf: int -> string): int -> string
  {
    t => Xid.GenerateXID(addressOf(t), t)
  }

  lemma GeneratedNamesDiffer(addressOf: int -> string)
    ensures Injective(Generated(addressOf))
  {
    var nameOf := Generated(addressOf);
    forall t, u | Text.IsInt64(t) && Text.IsInt64(u) && nameOf(t) == nameOf(u) ensures t == u {
      Xid.GenerateXIDInjective(addressOf(t), t, addressOf(u), u);
    }
  }

  /** So the two drivers are alike for what the lock manager asks of them: the rows of a branch of a
      transaction that `Begin` has named, against the rows of others that it has named. */
  lemma AlikeForBranches(table: Table, locks: LockTable, branch: BranchSession, addressOf: int -> string)
    requires Keyed(table) && Named(table, Generated(addressOf)) && Owners(table) == locks
    requires Text.IsInt64(branch.TransactionID)
    requires branch.XID == Xid.GenerateXID(addressOf(branch.TransactionID), branch.TransactionID)
    requires |BranchRows(branch).Items()| > 0
    ensures Alike(table, locks, BranchRows(branch).Items())
    ensures Named(Acquired(table, BranchRows(branch).Items(), false).1, Generated(addressOf))
    ensures Owners(Deleted(table, KeysOf(BranchRows(branch).Items()), branch.XID)) == Released(locks, BranchClaims(branch))
  {
    var rows := BranchRows(branch).Items();
    MeaningOwned(branch.LockKey, Owner(branch.ResourceID, branch.XID, branch.TransactionID, branch.BranchID));
    assert rows[0] in rows;
    hide Alike, Acquired;
    GeneratedNamesDiffer(addressOf);
    TwoAlgorithmsOneSpecification(table, locks, rows, Generated(addressOf));
    MysqlAcquires(table, rows, Generated(addressOf));
    MysqlReleases(table, rows, Generated(addressOf));
  }

  /** And for what a lock query asks, if it asks for any row. */
  lemma LockableAlike(table: Table, locks: LockTable, t: int, resourceID: string, lockKey: string, addressOf: int -> string)
    requires Named(table, Generated(addressOf)) && Owners(table) == locks && Text.IsInt64(t)
    ensures
      var xid := Xid.GenerateXID(addressOf(t), t);
      var rows := CollectRowLocks(lockKey, resourceID, xid).Items();
      Driver.LockableRows(locks, rows) <==> forall k :: k in KeysOf(rows) && k in table ==> table[k].xid == xid
  {
    var nameOf, xid := Generated(addressOf), Xid.GenerateXID(addressOf(t), t);
    var rows := CollectRowLocks(lockKey, resourceID, xid).Items();
    Xid.TransactionIDOfGenerated(addressOf(t), t);
    MeaningOwned(lockKey, Owner(resourceID, xid, t, 0));
    GeneratedNamesDiffer(addressOf);
    assert xid == nameOf(t);
    forall r | r in rows && r.rowKey in table ensures locks[r.rowKey] == r.transactionID <==> table[r.rowKey].xid == xid {
      assert NamedRow(table[r.rowKey], nameOf);
    }
  }

  // Real rows ---------------------------------------------------------------------------------------------

  /** Resource, table and primary key. */
  type RealRow = (string, string, string)

  predicate Plain(r: RealRow) { '^' !in r.0 && '^' !in r.1 }

  function KeyOf(r: RealRow): string { GetRowKey(r.0, r.1, r.2) }

  datatype Op = Acquire(rows: set<RealRow>, tid: int) | Release(rows: set<RealRow>, tid: int) {
    predicate PlainRows() { forall r :: r in rows ==> Plain(r) }
    function ClaimedKeys(): set<Claim> { set r | r in rows :: (KeyOf(r), tid) }
  }

  type RealTable = map<RealRow, int>

  function Freed(held: RealTable, rows: set<RealRow>, tid: int): RealTable
  {
    map r | r in held && !(r in rows && held[r] == tid) :: held[r]
  }

  predicate Mine(held: RealTable, rows: set<RealRow>, tid: int)
  {
    forall r :: r in rows && r in held ==> held[r] == tid
  }

  /** Mutual exclusion on the rows themselves. */
  function StepReal(held: RealTable, op: Op): (bool, RealTable)
  {
    match op
    case Acquire(rows, tid) => if Mine(held, rows, tid) then (true, held + map r | r in rows :: tid) else (false, Freed(held, rows, tid))
    case Release(rows, tid) => (true, Freed(held, rows, tid))
  }

  /** What the in-memory driver does with their row keys. */
  function StepKeys(locks: LockTable, op: Op): (bool, LockTable)
  {
    match op
    case Acquire(_, tid) => Storage.Acquire(locks, op.ClaimedKeys(), tid)
    case Release(_, tid) => (true, Released(locks, op.ClaimedKeys()))
  }

  function RunReal(held: RealTable, ops: seq<Op>): (seq<bool>, RealTable)
    decreases |ops|
  {
    if ops == [] then ([], held)
    else
      var (ok, held') := StepReal(held, ops[0]);
      var (oks, final) := RunReal(held', ops[1..]);
      ([ok] + oks, final)
  }

  function RunKeys(locks: LockTable, ops: seq<Op>): (seq<bool>, LockTable)
    decreases |ops|
  {
    if ops == [] then ([], locks)
    else
      var (ok, locks') := StepKeys(locks, ops[0]);
      var (oks, final) := RunKeys(locks', ops[1..]);
      ([ok] + oks, final)
  }

  /** The string-keyed table holds the real rows' keys and nothing else. */
  predicate Refines(locks: LockTable, held: RealTable)
  {
    && (forall r :: r in held ==> Plain(r) && KeyOf(r) in locks && locks[KeyOf(r)] == held[r])
    && (forall k :: k in locks ==> exists r :: r in held && KeyOf(r) == k)
  }

  lemma KeyOfInjective(r: RealRow, s: RealRow)
    requires Plain(r) && Plain(s) && KeyOf(r) == KeyOf(s)
    ensures r == s
  {
    RowKeyInjective(r.0, r.1, r.2, s.0, s.1, s.2);
  }

  /** A plain row is held just when its key is. */
  lemma HeldKey(locks: LockTable, held: RealTable, r: RealRow)
    requires Refines(locks, held) && Plain(r)
    ensures KeyOf(r) in locks <==> r in held
    ensures r in held ==> locks[KeyOf(r)] == held[r]
  {
    if KeyOf(r) in locks {
      var s :| s in held && KeyOf(s) == KeyOf(r);
      KeyOfInjective(r, s);
    }
  }

  lemma SameMine(locks: LockTable, held: RealTable, op: Op)
    requires Refines(locks, held) && op.PlainRows()
    ensures Free(locks, op.ClaimedKeys()) <==> Mine(held, op.rows, op.tid)
  {
    forall r | r in op.rows ensures (KeyOf(r) in locks <==> r in held) && (r in held ==> locks[KeyOf(r)] == held[r]) {
      HeldKey(locks, held, r);
    }
    if Free(locks, op.ClaimedKeys()) {
      forall r | r in op.rows && r in held ensures held[r] == op.tid {
        assert (KeyOf(r), op.tid) in op.ClaimedKeys() && (KeyOf(r), op.tid).0 in locks;
      }
    }
  }

  lemma RowClaimed(op: Op, r: RealRow)
    requires r in op.rows
    ensures (KeyOf(r), op.tid) in op.ClaimedKeys()
  {
  }

  lemma FreedRefines(locks: LockTable, held: RealTable, op: Op)
    requires Refines(locks, held) && op.PlainRows()
    ensures Refines(Released(locks, op.ClaimedKeys()), Freed(held, op.rows, op.tid))
  {
    var locks', held' := Released(locks, op.ClaimedKeys()), Freed(held, op.rows, op.tid);
    forall r | r in held' ensures KeyOf(r) in locks' {
      if (KeyOf(r), locks[KeyOf(r)]) in op.ClaimedKeys() {
        var s :| s in op.rows && KeyOf(s) == KeyOf(r);
        KeyOfInjective(r, s);
      }
    }
    forall k | k in locks' ensures exists r :: r in held' && KeyOf(r) == k {
      var r :| r in held && KeyOf(r) == k;
      assert r in held' by {
        if r in op.rows && held[r] == op.tid {
          RowClaimed(op, r);
          assert false;
        }
      }
    }
  }

  lemma GrantedRefines(locks: LockTable, held: RealTable, op: Op)
    requires Refines(locks, held) && op.PlainRows()
    ensures Refines(Granted(locks, op.ClaimedKeys(), op.tid), held + map r | r in op.rows :: op.tid)
  {
    var locks', held' := Granted(locks, op.ClaimedKeys(), op.tid), held + map r | r in op.rows :: op.tid;
    forall r | r in held' ensures Plain(r) && KeyOf(r) in locks' && locks'[KeyOf(r)] == held'[r] {
      if r in op.rows {
        var c := (KeyOf(r), op.tid);
        assert c in op.ClaimedKeys() && c.0 == KeyOf(r);
      } else if KeyOf(r) in Keys(op.ClaimedKeys()) {
        var s :| s in op.rows && KeyOf(s) == KeyOf(r);
        KeyOfInjective(r, s);
      }
    }
    forall k | k in locks' ensures exists r :: r in held' && KeyOf(r) == k {
      if k in Keys(op.ClaimedKeys()) {
        var s :| s in op.rows && KeyOf(s) == k;
        assert s in held';
      } else {
        var s :| s in held && KeyOf(s) == k;
        assert s in held';
      }
    }
  }

  /** Over any run of requests and releases, as long as no resource or table has a '^', the row keys
      give the answers that locking the rows themselves would give, and hold the same rows. */
  lemma {:induction false} RowKeysAreFaithful(locks: LockTable, held: RealTable, ops: seq<Op>)
    requires Refines(locks, held) && forall op :: op in ops ==> op.PlainRows()
    ensures RunKeys(locks, ops).0 == RunReal(held, ops).0
    ensures Refines(RunKeys(locks, ops).1, RunReal(held, ops).1)
    decreases |ops|
  {
    if ops != [] {
      var op := ops[0];
      SameMine(locks, held, op);
      FreedRefines(locks, held, op);
      GrantedRefines(locks, held, op);
      RowKeysAreFaithful(StepKeys(locks, op).1, StepReal(held, op).1, ops[1..]);
    }
  }

  /** The rows that a printed lock key stands for on a resource. */
  function RealRows(resourceID: string, groups: seq<TableGroup>): set<RealRow>
  {
    set p | p in Pairs(groups) :: (resourceID, p.0, p.1)
  }

  lemma ClaimsOfPairs(rows: seq<RowLock>, owner: Owner, groups: seq<TableGroup>)
    requires |rows| == |Pairs(groups)|
    requires forall i :: 0 <= i < |rows| ==> IsRow(rows[i], owner, Pairs(groups)[i].0, Pairs(groups)[i].1)
    ensures Claims(rows) == Acquire(RealRows(owner.resourceID, groups), owner.transactionID).ClaimedKeys()
  {
    var pairs := Pairs(groups);
    var claims := Acquire(RealRows(owner.resourceID, groups), owner.transactionID).ClaimedKeys();
    forall c | c in Claims(rows) ensures c in claims {
      var i :| 0 <= i < |rows| && c == (rows[i].rowKey, rows[i].transactionID);
      assert pairs[i] in pairs && (owner.resourceID, pairs[i].0, pairs[i].1) in RealRows(owner.resourceID, groups);
    }
    forall c | c in claims ensures c in Claims(rows) {
      var r :| r in RealRows(owner.resourceID, groups) && c == (KeyOf(r), owner.transactionID);
      var i :| 0 <= i < |pairs| && r == (owner.resourceID, pairs[i].0, pairs[i].1);
      assert rows[i] in rows && IsRow(rows[i], owner, pairs[i].0, pairs[i].1);
    }
  }

  /** What a branch with that lock key claims are the keys of those rows, for its transaction. */
  lemma BranchClaimsRealRows(b: BranchSession, groups: seq<TableGroup>)
    requires b.LockKey == PrintLockKey(groups) && forall g :: g in groups ==> g.Printable()
    ensures BranchClaims(b) == Acquire(RealRows(b.ResourceID, groups), b.TransactionID).ClaimedKeys()
  {
    var owner := Owner(b.ResourceID, b.XID, b.TransactionID, b.BranchID);
    ParserUndoesPrinter(owner, groups);
    EmptyPrint(groups);
    hide Meaning, IsRow, Claims, RealRows, PrintLockKey, Op.ClaimedKeys;
    ClaimsOfPairs(BranchRows(b).Items(), owner, groups);
  }

  lemma EmptyPrint(groups: seq<TableGroup>)
    ensures PrintLockKey(groups) == "" <==> groups == []
  {
  }

  /** So an AT branch with a printed lock key, without '^' in resource and tables, is refused its rows if and
      only if one of the real rows is with another transaction, and is granted exactly those. */
  lemma RegistrationLocksRealRows(locks: LockTable, held: RealTable, tx: Tx, b: BranchSession, groups: seq<TableGroup>)
    requires Refines(locks, held) && b.LockKey == PrintLockKey(groups) && forall g :: g in groups ==> g.Printable()
    requires '^' !in b.ResourceID && forall g :: g in groups ==> '^' !in g.table
    requires tx.live && tx.active && tx.status == Begin && b.Type == AT
    ensures
      var (verdict, _, locks') := Storage.Register(tx, locks, b);
      var rows := RealRows(b.ResourceID, groups);
      && (verdict == Refused(LockKeyConflict) <==> exists r :: r in rows && r in held && held[r] != b.TransactionID)
      && (verdict == Accepted ==> Refines(locks', held + map r | r in rows :: b.TransactionID))
      && (verdict != Accepted ==> Refines(locks', Freed(held, rows, b.TransactionID)))
  {
    var op := Acquire(RealRows(b.ResourceID, groups), b.TransactionID);
    BranchClaimsRealRows(b, groups);
    PlainPairs(groups);
    SameMine(locks, held, op);
    GrantedRefines(locks, held, op);
    FreedRefines(locks, held, op);
    hide Refines, BranchClaims;
  }

  lemma {:induction false} PlainPairs(groups: seq<TableGroup>)
    requires forall g :: g in groups ==> '^' !in g.table
    ensures forall p :: p in Pairs(groups) ==> '^' !in p.0
  {
    if groups != [] {
      PlainPairs(groups[1..]);
    }
  }
}
