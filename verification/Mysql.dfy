/** pkg/tc/storage/driver/mysql/mysql.go, the row locks: dedupe, check, insert over a table with a unique
    key. It meets the specification that the in-memory driver meets (Storage.Acquire and Storage.Released),
    but for what a refusal leaves. */
module Mysql {
  import opened RowLocker
  import opened Storage
  import Driver
  import Xid

  /** lock_table: the row stored under each row_key. */
  type Table = map<string, RowLock>

  predicate Keyed(table: Table)
  {
    forall k :: k in table ==> table[k].rowKey == k
  }

  function KeysOf(rows: seq<RowLock>): set<string>
  {
    set r | r in rows :: r.rowKey
  }

  function Lookup(table: Table, keys: set<string>): set<RowLock>
  {
    set k | k in keys && k in table :: table[k]
  }

  predicate UniqueKeys(rows: seq<RowLock>)
  {
    forall i, j :: 0 <= i < j < |rows| ==> rows[i].rowKey != rows[j].rowKey
  }

  function Inserted(table: Table, rows: seq<RowLock>): Table
  {
    if rows == [] then table else Inserted(table, rows[..|rows| - 1])[rows[|rows| - 1].rowKey := rows[|rows| - 1]]
  }

  /** The first row of each key. */
  function Firsts(rows: seq<RowLock>): seq<RowLock>
  {
    if rows == [] then []
    else
      var before, last := rows[..|rows| - 1], rows[|rows| - 1];
      if last.rowKey in KeysOf(before) then Firsts(before) else Firsts(before) + [last]
  }

  function Without(keys: set<string>, rows: seq<RowLock>): seq<RowLock>
  {
    if rows == [] then []
    else
      var before, last := rows[..|rows| - 1], rows[|rows| - 1];
      if last.rowKey in keys then Without(keys, before) else Without(keys, before) + [last]
  }

  predicate HeldByAnother(table: Table, rows: seq<RowLock>, xid: string)
  {
    exists k :: k in KeysOf(rows) && k in table && table[k].xid != xid
  }

  /** What `AcquireLock` answers and leaves. */
  function Acquired(table: Table, rows: seq<RowLock>, skipCheckLock: bool): (bool, Table)
    requires |rows| > 0
  {
    if skipCheckLock then
      if UniqueKeys(rows) && KeysOf(rows) !! table.Keys then (true, Inserted(table, rows)) else (false, table)
    else if HeldByAnother(table, rows, rows[0].xid) then (false, table)
    else (true, Inserted(table, Without(table.Keys, Firsts(rows))))
  }

  lemma KeysOfAppend(rows: seq<RowLock>, row: RowLock)
    ensures KeysOf(rows + [row]) == KeysOf(rows) + {row.rowKey}
  {
    forall r ensures r in rows + [row] <==> r in rows || r == row {
    }
  }

  lemma KeysOfNext(rows: seq<RowLock>, i: nat)
    requires i < |rows|
    ensures KeysOf(rows[..i + 1]) == KeysOf(rows[..i]) + {rows[i].rowKey}
    ensures rows[..i + 1][..i] == rows[..i]
  {
    assert rows[..i + 1] == rows[..i] + [rows[i]];
    KeysOfAppend(rows[..i], rows[i]);
  }

  lemma UniqueAppend(rows: seq<RowLock>, row: RowLock)
    requires UniqueKeys(rows) && row.rowKey !in KeysOf(rows)
    ensures UniqueKeys(rows + [row])
  {
    forall r | r in rows ensures r.rowKey != row.rowKey {
      assert r.rowKey in KeysOf(rows);
    }
  }

  lemma {:induction false} FirstsOf(rows: seq<RowLock>)
    ensures KeysOf(Firsts(rows)) == KeysOf(rows) && UniqueKeys(Firsts(rows))
    ensures rows != [] ==> Firsts(rows) != [] && Firsts(rows)[0] == rows[0]
    ensures forall r :: r in Firsts(rows) ==> r in rows
  {
    if rows != [] {
      var before, last := rows[..|rows| - 1], rows[|rows| - 1];
      FirstsOf(before);
      assert rows == before + [last];
      hide KeysOf, UniqueKeys;
      KeysOfAppend(before, last);
      KeysOfAppend(Firsts(before), last);
      if last.rowKey !in KeysOf(before) {
        UniqueAppend(Firsts(before), last);
      }
    }
  }

  lemma {:induction false} WithoutOf(keys: set<string>, rows: seq<RowLock>)
    ensures KeysOf(Without(keys, rows)) == KeysOf(rows) - keys
    ensures UniqueKeys(rows) ==> UniqueKeys(Without(keys, rows))
    ensures forall r :: r in Without(keys, rows) ==> r in rows
  {
    if rows != [] {
      var before, last := rows[..|rows| - 1], rows[|rows| - 1];
      WithoutOf(keys, before);
      assert rows == before + [last];
      KeysOfAppend(before, last);
      KeysOfAppend(Without(keys, before), last);
    }
  }

  lemma UniqueInit(rows: seq<RowLock>)
    requires UniqueKeys(rows) && rows != []
    ensures
      var before, last := rows[..|rows| - 1], rows[|rows| - 1];
      UniqueKeys(before) && rows == before + [last] && forall r :: r in before ==> r.rowKey != last.rowKey
  {
  }

  /** Rows with different keys are stored as they are, and nothing else changes. */
  lemma {:induction false} InsertedRows(table: Table, rows: seq<RowLock>)
    requires UniqueKeys(rows)
    ensures forall r :: r in rows ==> r.rowKey in Inserted(table, rows) && Inserted(table, rows)[r.rowKey] == r
    ensures forall k :: k !in KeysOf(rows) ==>
        (k in Inserted(table, rows) <==> k in table) && (k in table ==> Inserted(table, rows)[k] == table[k])
  {
    if rows != [] {
      var before, last := rows[..|rows| - 1], rows[|rows| - 1];
      UniqueInit(rows);
      hide KeysOf, UniqueKeys;
      InsertedRows(table, before);
      KeysOfAppend(before, last);
    }
  }

  /** With `skipCheckLock`: granted exactly when no key is asked for twice or stored already, by whomever;
      then the rows are stored as they are, and otherwise nothing changes. */
  lemma SkippedCheck(table: Table, rows: seq<RowLock>)
    requires |rows| > 0
    ensures
      var (ok, table') := Acquired(table, rows, true);
      && (ok <==> (forall i, j :: 0 <= i < j < |rows| ==> rows[i].rowKey != rows[j].rowKey) && forall r :: r in rows ==> r.rowKey !in table)
      && (!ok ==> table' == table)
      && (ok ==> forall r :: r in rows ==> r.rowKey in table' && table'[r.rowKey] == r)
      && (ok ==> forall k :: k in table ==> k in table' && table'[k] == table[k])
      && (ok ==> forall k :: k in table' ==> k in table || exists r :: r in rows && r.rowKey == k)
  {
    assert KeysOf(rows) !! table.Keys <==> forall r :: r in rows ==> r.rowKey !in table by {
      forall r | r in rows ensures r.rowKey in KeysOf(rows) {
      }
    }
    if UniqueKeys(rows) {
      InsertedRows(table, rows);
    }
    hide Inserted;
  }

  /** Without it, a granted request stores, for each key that was free, the first of its rows with that key,
      and leaves what was stored as it was. */
  lemma CheckedStores(table: Table, rows: seq<RowLock>, i: nat)
    requires |rows| > 0 && i < |rows| && Acquired(table, rows, false).0
    requires forall j :: 0 <= j < i ==> rows[j].rowKey != rows[i].rowKey
    ensures
      var table' := Acquired(table, rows, false).1;
      var k := rows[i].rowKey;
      k in table' && table'[k] == if k in table then table[k] else rows[i]
  {
    FirstsOf(rows);
    var missing := Without(table.Keys, Firsts(rows));
    WithoutOf(table.Keys, Firsts(rows));
    InsertedRows(table, missing);
    FirstIsFirst(rows, i);
    if rows[i].rowKey !in table {
      KeptIfMissing(table.Keys, Firsts(rows), rows[i]);
    }
    hide Inserted, Firsts, Without, UniqueKeys;
  }

  lemma {:induction false} FirstIsFirst(rows: seq<RowLock>, i: nat)
    requires i < |rows| && forall j :: 0 <= j < i ==> rows[j].rowKey != rows[i].rowKey
    ensures rows[i] in Firsts(rows)
  {
    var before := rows[..|rows| - 1];
    if i < |rows| - 1 {
      FirstIsFirst(before, i);
    }
  }

  lemma {:induction false} KeptIfMissing(keys: set<string>, rows: seq<RowLock>, row: RowLock)
    requires row in rows && row.rowKey !in keys
    ensures row in Without(keys, rows)
  {
    var before, last := rows[..|rows| - 1], rows[|rows| - 1];
    assert rows == before + [last];
    if row in before {
      KeptIfMissing(keys, before, row);
    }
  }

  lemma {:induction false} SameWithout(a: set<string>, b: set<string>, rows: seq<RowLock>)
    requires forall r :: r in rows ==> (r.rowKey in a <==> r.rowKey in b)
    ensures Without(a, rows) == Without(b, rows)
  {
    if rows != [] {
      SameWithout(a, b, rows[..|rows| - 1]);
    }
  }

  lemma {:induction false} WithoutNothing(rows: seq<RowLock>)
    ensures Without({}, rows) == rows
  {
    if rows != [] {
      WithoutNothing(rows[..|rows| - 1]);
    }
  }

  /** What a call comes to: an answer, or an index out of range. */
  datatype Outcome = Answer(ok: bool) | OutOfRange

  class MysqlDriver {
    var lockTable: Table

    constructor ()
      ensures lockTable == map[]
    {
      lockTable := map[];
    }

    /** `select ... where row_key in (...)`: the rows come once each, in any order. */
    method QueryRowKey(keys: set<string>) returns (found: seq<RowLock>)
      requires Keyed(lockTable)
      ensures forall r :: r in found <==> r in Lookup(lockTable, keys)
      ensures KeysOf(found) == keys * lockTable.Keys
    {
      found := [];
      var done: set<string> := {};
      while done != keys * lockTable.Keys
        invariant done <= keys * lockTable.Keys
        invariant forall r :: r in found <==> r in Lookup(lockTable, done)
        invariant KeysOf(found) == done
        decreases keys * lockTable.Keys - done
      {
        assert keys * lockTable.Keys == (keys * lockTable.Keys - done) + done;
        var k :| k in keys * lockTable.Keys - done;
        KeysOfAppend(found, lockTable[k]);
        done := done + {k};
        found := found + [lockTable[k]];
      }
    }

    /** One multi-row insert: all the rows, or none if a key is taken. */
    method InsertRowLock(rows: seq<RowLock>) returns (ok: bool)
      requires Keyed(lockTable)
      modifies this
      ensures Keyed(lockTable)
      ensures ok == (UniqueKeys(rows) && KeysOf(rows) !! old(lockTable).Keys)
      ensures lockTable == if ok then Inserted(old(lockTable), rows) else old(lockTable)
    {
      var table;
      ok, table := TryInsert(lockTable, rows);
      if ok {
        lockTable := table;
      }
    }

    /** Without a row, `locks[0]` or the end of the SQL text is out of range. */
    method AcquireLock(rowLocks: seq<RowLock>, skipCheckLock: bool) returns (r: Outcome)
      requires Keyed(lockTable)
      modifies this
      ensures Keyed(lockTable)
      ensures |rowLocks| == 0 ==> r == OutOfRange && lockTable == old(lockTable)
      ensures |rowLocks| > 0 ==> r.Answer? && (r.ok, lockTable) == Acquired(old(lockTable), rowLocks, skipCheckLock)
    {
      var locks := DistinctByKey(rowLocks);
      FirstsOf(rowLocks);
      var existedRowLocks := QueryRowKey(KeysOf(locks));
      if |rowLocks| == 0 {
        return OutOfRange;
      }
      var unrepeatedLocks := rowLocks;
      if !skipCheckLock {
        var canLock, existedRowKeys := CheckXid(existedRowLocks, locks[0].xid);
        assert canLock == !HeldByAnother(lockTable, rowLocks, rowLocks[0].xid);
        if !canLock {
          return Answer(false);
        }
        unrepeatedLocks := Unrepeated(locks, existedRowKeys);
        SameWithout(Range(existedRowKeys), lockTable.Keys, locks);
        WithoutOf(lockTable.Keys, locks);
        if |unrepeatedLocks| == 0 {
          return Answer(true);
        }
      }
      var ok := InsertRowLock(unrepeatedLocks);
      r := Answer(ok);
    }

    /** Rows of one transaction, told by the first row's XID. */
    method ReleaseLock(rowLocks: seq<RowLock>)
      modifies this
      ensures lockTable == if |rowLocks| == 0 then old(lockTable) else Deleted(old(lockTable), KeysOf(rowLocks), rowLocks[0].xid)
    {
      if |rowLocks| == 0 {
        return;
      }
      var rowKeys := {};
      var i := 0;
      while i < |rowLocks|
        invariant 0 <= i <= |rowLocks| && lockTable == old(lockTable)
        invariant rowKeys == KeysOf(rowLocks[..i])
      {
        KeysOfNext(rowLocks, i);
        rowKeys := rowKeys + {rowLocks[i].rowKey};
        i := i + 1;
      }
      assert rowLocks[..i] == rowLocks;
      lockTable := Deleted(lockTable, rowKeys, rowLocks[0].xid);
    }

    /** Nobody with another XID has a row of the lock key. Without a row to ask for, `locks[0]` is out of range. */
    method IsLockable(xid: string, resourceID: string, lockKey: string) returns (r: Outcome)
      requires Keyed(lockTable)
      ensures
        var locks := CollectRowLocks(lockKey, resourceID, xid).Items();
        r == if locks == [] then OutOfRange else Answer(forall k :: k in KeysOf(locks) && k in lockTable ==> lockTable[k].xid == xid)
    {
      var rows := CollectRowLocksOf(lockKey, Owner(resourceID, xid, Xid.GetTransactionID(xid), 0));
      var locks := rows.Items();
      var existedRowLocks := QueryRowKey(KeysOf(locks));
      if |locks| == 0 {
        return OutOfRange;
      }
      MeaningOwned(lockKey, Owner(resourceID, xid, Xid.GetTransactionID(xid), 0));
      assert locks[0] in locks;
      var ok, keys := CheckXid(existedRowLocks, locks[0].xid);
      r := Answer(ok);
    }
  }

  /** `delete ... where row_key in (...) and xid = ?` */
  function Deleted(table: Table, keys: set<string>, xid: string): Table
  {
    map k | k in table && !(k in keys && table[k].xid == xid) :: table[k]
  }

  method TryInsert(start: Table, rows: seq<RowLock>) returns (ok: bool, table: Table)
    requires Keyed(start)
    ensures ok == (UniqueKeys(rows) && KeysOf(rows) !! start.Keys)
    ensures ok ==> table == Inserted(start, rows) && Keyed(table)
  {
    hide UniqueKeys;
    UniqueNone(rows);
    table := start;
    var i := 0;
    while i < |rows|
      invariant 0 <= i <= |rows| && Keyed(table)
      invariant table == Inserted(start, rows[..i]) && table.Keys == start.Keys + KeysOf(rows[..i])
      invariant UniqueKeys(rows[..i]) && KeysOf(rows[..i]) !! start.Keys
    {
      KeysOfNext(rows, i);
      if rows[i].rowKey in table {
        Taken(start, rows, i);
        return false, table;
      }
      UniqueNext(rows, i);
      table := table[rows[i].rowKey := rows[i]];
      i := i + 1;
    }
    assert rows[..i] == rows;
    return true, table;
  }

  lemma UniqueNone(rows: seq<RowLock>)
    ensures UniqueKeys(rows[..0])
  {
  }

  lemma UniqueNext(rows: seq<RowLock>, i: nat)
    requires i < |rows| && UniqueKeys(rows[..i]) && rows[i].rowKey !in KeysOf(rows[..i])
    ensures UniqueKeys(rows[..i + 1])
  {
    assert forall j :: 0 <= j < i ==> rows[..i][j].rowKey in KeysOf(rows[..i]);
  }

  lemma Taken(start: Table, rows: seq<RowLock>, i: nat)
    requires i < |rows| && rows[i].rowKey in start.Keys + KeysOf(rows[..i])
    ensures !(UniqueKeys(rows) && KeysOf(rows) !! start.Keys)
  {
    var k := rows[i].rowKey;
    assert k in KeysOf(rows);
    if k in KeysOf(rows[..i]) {
      var j :| 0 <= j < i && rows[..i][j].rowKey == k;
      assert rows[j].rowKey == rows[i].rowKey;
    }
  }

  /** The check loop: it stops at the first row of another transaction. */
  method CheckXid(existedRowLocks: seq<RowLock>, currentXID: string) returns (canLock: bool, existedRowKeys: seq<string>)
    ensures canLock == forall r :: r in existedRowLocks ==> r.xid == currentXID
    ensures canLock ==> Range(existedRowKeys) == KeysOf(existedRowLocks)
  {
    existedRowKeys := [];
    var i := 0;
    while i < |existedRowLocks|
      invariant 0 <= i <= |existedRowLocks|
      invariant forall r :: r in existedRowLocks[..i] ==> r.xid == currentXID
      invariant Range(existedRowKeys) == KeysOf(existedRowLocks[..i])
    {
      if existedRowLocks[i].xid != currentXID {
        return false, existedRowKeys;
      }
      KeysOfNext(existedRowLocks, i);
      RangeAppend(existedRowKeys, existedRowLocks[i].rowKey);
      existedRowKeys := existedRowKeys + [existedRowLocks[i].rowKey];
      i := i + 1;
    }
    assert existedRowLocks[..i] == existedRowLocks;
    return true, existedRowKeys;
  }

  method Unrepeated(locks: seq<RowLock>, existedRowKeys: seq<string>) returns (unrepeated: seq<RowLock>)
    ensures unrepeated == Without(Range(existedRowKeys), locks)
  {
    if |existedRowKeys| == 0 {
      WithoutNothing(locks);
      assert Range(existedRowKeys) == {};
      return locks;
    }
    unrepeated := [];
    var i := 0;
    while i < |locks|
      invariant 0 <= i <= |locks|
      invariant unrepeated == Without(Range(existedRowKeys), locks[..i])
    {
      assert locks[..i + 1][..i] == locks[..i];
      var known := Contains(existedRowKeys, locks[i].rowKey);
      if !known {
        unrepeated := unrepeated + [locks[i]];
      }
      i := i + 1;
    }
    assert locks[..i] == locks;
  }

  method Contains(s: seq<string>, e: string) returns (r: bool)
    ensures r == (e in s)
  {
    for i := 0 to |s|
      invariant e !in s[..i]
    {
      if s[i] == e {
        return true;
      }
    }
    return false;
  }

  function Range(s: seq<string>): set<string> { set k | k in s }

  lemma RangeAppend(s: seq<string>, k: string)
    ensures Range(s + [k]) == Range(s) + {k}
  {
  }

  method DistinctByKey(locks: seq<RowLock>) returns (result: seq<RowLock>)
    ensures result == Firsts(locks)
  {
    result := [];
    var lockMap: set<string> := {};
    var i := 0;
    while i < |locks|
      invariant 0 <= i <= |locks|
      invariant result == Firsts(locks[..i]) && lockMap == KeysOf(locks[..i])
    {
      KeysOfNext(locks, i);
      var l := |lockMap|;
      var grown := lockMap + {locks[i].rowKey};
      if locks[i].rowKey in lockMap {
        assert grown == lockMap;
      }
      lockMap := grown;
      if |lockMap| != l {
        result := result + [locks[i]];
      }
      i := i + 1;
    }
    assert locks[..i] == locks;
  }
}
