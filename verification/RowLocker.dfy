/** pkg/tc/storage/row_locker.go: lock keys "table:pk,pk;table:pk" and the row keys they stand for. */
module RowLocker {
  import opened Text
  import Xid

  datatype RowLock = RowLock(xid: string, transactionID: int, branchID: int, resourceID: string,
                             tableName: string, pk: string, rowKey: string)

  /** Who asks for the rows: the arguments of `collectRowLocks` besides the lock key. */
  datatype Owner = Owner(resourceID: string, xid: string, transactionID: int, branchID: int)

  /** A Go slice that may be nil: the parser answers nil for a malformed lock key. */
  datatype Rows = Nil | Slice(rows: seq<RowLock>) {
    function Items(): seq<RowLock> { if Nil? then [] else rows }
    function After(before: seq<RowLock>): Rows { if Nil? then Nil else Slice(before + rows) }
  }

  function GetRowKey(resourceID: string, tableName: string, pk: string): string
  {
    resourceID + "^^^" + tableName + "^^^" + pk
  }

  function Row(owner: Owner, table: string, pk: string): RowLock
  {
    RowLock(owner.xid, owner.transactionID, owner.branchID, owner.resourceID, table, pk,
            GetRowKey(owner.resourceID, table, pk))
  }

  /** One row per non-empty primary key, in order. */
  function RowsOf(owner: Owner, table: string, pks: seq<string>): seq<RowLock>
  {
    if pks == [] then []
    else if pks[0] == "" then RowsOf(owner, table, pks[1..])
    else [Row(owner, table, pks[0])] + RowsOf(owner, table, pks[1..])
  }

  predicate Malformed(group: string)
  {
    group != "" && (Index(group, ':') < 0 || Index(group, ':') == |group| - 1)
  }

  function GroupRows(owner: Owner, group: string): seq<RowLock>
  {
    var idx := Index(group, ':');
    if idx < 0 then [] else RowsOf(owner, group[..idx], Split(group[idx + 1..], ','))
  }

  /** Every group's rows in order, or nil if any group is malformed. */
  function GroupsRows(owner: Owner, groups: seq<string>): Rows
  {
    if groups == [] then Slice([])
    else if Malformed(groups[0]) then Nil
    else GroupsRows(owner, groups[1..]).After(GroupRows(owner, groups[0]))
  }

  /** What a lock key means to the lock table. */
  function Meaning(lockKey: string, owner: Owner): Rows
  {
    GroupsRows(owner, Split(lockKey, ';'))
  }

  lemma GroupsRowsStep(owner: Owner, groups: seq<string>, i: nat, rows: seq<RowLock>)
    requires i < |groups|
    ensures GroupsRows(owner, groups[i..]).After(rows)
            == if Malformed(groups[i]) then Nil
               else GroupsRows(owner, groups[i + 1..]).After(rows + GroupRows(owner, groups[i]))
  {
    assert groups[i..][1..] == groups[i + 1..];
    var rest := GroupsRows(owner, groups[i + 1..]);
    if rest.Slice? {
      assert rows + (GroupRows(owner, groups[i]) + rest.rows) == rows + GroupRows(owner, groups[i]) + rest.rows;
    }
  }

  method CollectRowLocksOf(lockKey: string, owner: Owner) returns (locks: Rows)
    ensures locks == Meaning(lockKey, owner)
  {
    hide Split, GroupRows, Malformed;
    var rows: seq<RowLock> := [];
    var groups := Split(lockKey, ';');
    var i := 0;
    while i < |groups|
      invariant 0 <= i <= |groups|
      invariant Meaning(lockKey, owner) == GroupsRows(owner, groups[i..]).After(rows)
    {
      GroupsRowsStep(owner, groups, i, rows);
      var ok;
      ok, rows := AppendGroup(rows, owner, groups[i]);
      if !ok {
        return Nil;
      }
      i := i + 1;
    }
    return Slice(rows);
  }

  /** The body of the outer loop: false is for a group without a table or without keys. */
  method AppendGroup(before: seq<RowLock>, owner: Owner, group: string) returns (ok: bool, rows: seq<RowLock>)
    ensures ok == !Malformed(group)
    ensures ok ==> rows == before + GroupRows(owner, group)
  {
    rows := before;
    if group != "" {
      var idx := Index(group, ':');
      if idx < 0 {
        return false, rows;
      }
      var table, merged := group[..idx], group[idx + 1..];
      if merged == "" {
        return false, rows;
      }
      var pks := Split(merged, ',');
      rows := AppendRows(rows, owner, table, pks);
    }
    ok := true;
  }

  method AppendRows(before: seq<RowLock>, owner: Owner, table: string, pks: seq<string>)
    returns (rows: seq<RowLock>)
    ensures rows == before + RowsOf(owner, table, pks)
  {
    rows := before;
    var j := 0;
    while j < |pks|
      invariant 0 <= j <= |pks|
      invariant before + RowsOf(owner, table, pks) == rows + RowsOf(owner, table, pks[j..])
    {
      assert pks[j..][1..] == pks[j + 1..];
      if pks[j] != "" {
        rows := rows + [Row(owner, table, pks[j])];
      }
      j := j + 1;
    }
  }

  /** `CollectRowLocks`: the rows an XID would ask for, owned by the id inside the XID. */
  function CollectRowLocks(lockKey: string, resourceID: string, xid: string): Rows
  {
    Meaning(lockKey, Owner(resourceID, xid, Xid.GetTransactionID(xid), 0))
  }

  /** `CollectBranchSessionRowLocks` on the fields of a branch. */
  function CollectBranchRowLocks(lockKey: string, owner: Owner): Rows
  {
    if lockKey == "" then Nil else Meaning(lockKey, owner)
  }

  /** The row carries all of its owner's fields, a primary key, and the key that goes with them. */
  predicate OwnedBy(r: RowLock, owner: Owner)
  {
    && r.xid == owner.xid && r.transactionID == owner.transactionID && r.branchID == owner.branchID
    && r.resourceID == owner.resourceID && r.pk != "" && r.rowKey == GetRowKey(owner.resourceID, r.tableName, r.pk)
  }

  lemma {:induction false} RowsOfOwned(owner: Owner, table: string, pks: seq<string>)
    ensures forall r :: r in RowsOf(owner, table, pks) ==> OwnedBy(r, owner)
  {
    if pks != [] {
      RowsOfOwned(owner, table, pks[1..]);
    }
  }

  lemma GroupRowsOwned(owner: Owner, group: string)
    ensures forall r :: r in GroupRows(owner, group) ==> OwnedBy(r, owner)
  {
    var idx := Index(group, ':');
    if idx >= 0 {
      RowsOfOwned(owner, group[..idx], Split(group[idx + 1..], ','));
    }
  }

  lemma {:induction false} GroupsRowsOwned(owner: Owner, groups: seq<string>)
    ensures forall r :: r in GroupsRows(owner, groups).Items() ==> OwnedBy(r, owner)
  {
    if groups != [] && !Malformed(groups[0]) {
      GroupsRowsOwned(owner, groups[1..]);
      GroupRowsOwned(owner, groups[0]);
    }
  }

  /** So does every row collected for an owner. */
  lemma MeaningOwned(lockKey: string, owner: Owner)
    ensures forall r :: r in Meaning(lockKey, owner).Items() ==> OwnedBy(r, owner)
  {
    GroupsRowsOwned(owner, Split(lockKey, ';'));
  }

  predicate SameKeys(x: seq<RowLock>, y: seq<RowLock>)
  {
    |x| == |y| && forall i :: 0 <= i < |x| ==> x[i].rowKey == y[i].rowKey
  }

  lemma SameKeysAppend(x: seq<RowLock>, y: seq<RowLock>, x': seq<RowLock>, y': seq<RowLock>)
    requires SameKeys(x, y) && SameKeys(x', y')
    ensures SameKeys(x + x', y + y')
  {
  }

  lemma {:induction false} RowsOfKeys(a: Owner, b: Owner, table: string, pks: seq<string>)
    requires a.resourceID == b.resourceID
    ensures SameKeys(RowsOf(a, table, pks), RowsOf(b, table, pks))
  {
    if pks != [] {
      RowsOfKeys(a, b, table, pks[1..]);
      SameKeysAppend([Row(a, table, pks[0])], [Row(b, table, pks[0])], RowsOf(a, table, pks[1..]), RowsOf(b, table, pks[1..]));
      hide SameKeys, Row;
    }
  }

  lemma GroupRowsKeys(a: Owner, b: Owner, group: string)
    requires a.resourceID == b.resourceID
    ensures SameKeys(GroupRows(a, group), GroupRows(b, group))
  {
    var idx := Index(group, ':');
    if idx >= 0 {
      RowsOfKeys(a, b, group[..idx], Split(group[idx + 1..], ','));
    }
  }

  /** The row keys depend on the lock key and the resource alone, not on who asks. */
  lemma {:induction false} GroupsRowsKeys(a: Owner, b: Owner, groups: seq<string>)
    requires a.resourceID == b.resourceID
    ensures GroupsRows(a, groups).Nil? == GroupsRows(b, groups).Nil?
    ensures SameKeys(GroupsRows(a, groups).Items(), GroupsRows(b, groups).Items())
  {
    hide GroupRows, Malformed;
    if groups != [] && !Malformed(groups[0]) {
      GroupsRowsKeys(a, b, groups[1..]);
      GroupRowsKeys(a, b, groups[0]);
      SameKeysAppend(GroupRows(a, groups[0]), GroupRows(b, groups[0]),
                     GroupsRows(a, groups[1..]).Items(), GroupsRows(b, groups[1..]).Items());
    }
  }

  // The printer the parser undoes ---------------------------------------------------------------

  datatype TableGroup = TableGroup(table: string, pks: seq<string>) {
    predicate Printable() {
      ';' !in table && ':' !in table && |pks| > 0
      && forall pk :: pk in pks ==> pk != "" && ';' !in pk && ',' !in pk
    }
    function Print(): string { table + ":" + Join(pks, ',') }
  }

  function PrintAll(groups: seq<TableGroup>): seq<string>
  {
    if groups == [] then [] else [groups[0].Print()] + PrintAll(groups[1..])
  }

  function PrintLockKey(groups: seq<TableGroup>): string { Join(PrintAll(groups), ';') }

  function TableRows(owner: Owner, table: string, pks: seq<string>): seq<RowLock>
  {
    seq(|pks|, i requires 0 <= i < |pks| => Row(owner, table, pks[i]))
  }

  function AllRows(owner: Owner, groups: seq<TableGroup>): seq<RowLock>
  {
    if groups == [] then []
    else TableRows(owner, groups[0].table, groups[0].pks) + AllRows(owner, groups[1..])
  }

  lemma {:induction false} RowsOfNonEmpty(owner: Owner, table: string, pks: seq<string>)
    requires forall pk :: pk in pks ==> pk != ""
    ensures RowsOf(owner, table, pks) == TableRows(owner, table, pks)
  {
    if pks != [] {
      assert pks[0] in pks;
      assert TableRows(owner, table, pks) == [Row(owner, table, pks[0])] + TableRows(owner, table, pks[1..]);
      forall pk | pk in pks[1..] ensures pk != "" { assert pk in pks; }
      RowsOfNonEmpty(owner, table, pks[1..]);
    }
  }

  lemma {:induction false} JoinFree(parts: seq<string>, sep: char, c: char)
    requires c != sep && forall p :: p in parts ==> c !in p
    ensures c !in Join(parts, sep)
  {
    if |parts| > 1 {
      JoinFree(parts[1..], sep, c);
    }
  }

  lemma GroupRoundTrip(owner: Owner, g: TableGroup)
    requires g.Printable()
    ensures ';' !in g.Print() && !Malformed(g.Print())
    ensures GroupRows(owner, g.Print()) == TableRows(owner, g.table, g.pks)
  {
    var text := g.Print();
    JoinFree(g.pks, ',', ';');
    assert g.pks[0] in g.pks;
    assert text[..|g.table|] == g.table && text[|g.table| + 1..] == Join(g.pks, ',');
    IndexAt(text, |g.table|, ':');
    SplitJoin(g.pks, ',');
    RowsOfNonEmpty(owner, g.table, g.pks);
  }

  lemma {:induction false} GroupsRoundTrip(owner: Owner, groups: seq<TableGroup>)
    requires forall g :: g in groups ==> g.Printable()
    ensures forall p :: p in PrintAll(groups) ==> ';' !in p && !Malformed(p)
    ensures GroupsRows(owner, PrintAll(groups)) == Slice(AllRows(owner, groups))
  {
    if groups != [] {
      assert groups[0] in groups;
      GroupRoundTrip(owner, groups[0]);
      GroupsRoundTrip(owner, groups[1..]);
      assert PrintAll(groups)[1..] == PrintAll(groups[1..]);
    }
  }

  /** The tables and primary keys of a printed list, in order. */
  function Pairs(groups: seq<TableGroup>): seq<(string, string)>
  {
    if groups == [] then []
    else seq(|groups[0].pks|, i requires 0 <= i < |groups[0].pks| => (groups[0].table, groups[0].pks[i])) + Pairs(groups[1..])
  }

  /** The row of an owner, written out. */
  predicate IsRow(r: RowLock, owner: Owner, table: string, pk: string)
  {
    && r.xid == owner.xid && r.transactionID == owner.transactionID && r.branchID == owner.branchID
    && r.resourceID == owner.resourceID && r.tableName == table && r.pk == pk
    && r.rowKey == owner.resourceID + "^^^" + table + "^^^" + pk
  }

  lemma {:induction false} AllRowsFields(owner: Owner, groups: seq<TableGroup>)
    ensures |AllRows(owner, groups)| == |Pairs(groups)|
    ensures forall i :: 0 <= i < |Pairs(groups)| ==> IsRow(AllRows(owner, groups)[i], owner, Pairs(groups)[i].0, Pairs(groups)[i].1)
  {
    if groups != [] {
      AllRowsFields(owner, groups[1..]);
    }
  }

  /** The parser returns exactly the rows of every printed list of groups, in order: table, primary key, row
      key and the owner's fields. */
  lemma ParserUndoesPrinter(owner: Owner, groups: seq<TableGroup>)
    requires forall g :: g in groups ==> g.Printable()
    ensures
      var parsed := Meaning(PrintLockKey(groups), owner);
      && parsed.Slice? && |parsed.rows| == |Pairs(groups)|
      && forall i :: 0 <= i < |Pairs(groups)| ==> IsRow(parsed.rows[i], owner, Pairs(groups)[i].0, Pairs(groups)[i].1)
  {
    GroupsRoundTrip(owner, groups);
    AllRowsFields(owner, groups);
    if groups == [] {
      assert Split("", ';') == [""];
      assert GroupsRows(owner, [""][1..]) == Slice([]);
    } else {
      SplitJoin(PrintAll(groups), ';');
    }
  }

  // Any text --------------------------------------------------------------------------------------------------

  /** The group names the table before its first colon and the primary key behind it. */
  predicate Names(group: string, table: string, pk: string)
  {
    && ':' !in table && pk != "" && |table| < |group| && group[..|table|] == table && group[|table|] == ':'
    && pk in Split(group[|table| + 1..], ',')
  }

  /** Something stands in the group, but not a table, a colon and something behind it. */
  predicate Garbled(group: string)
  {
    group != "" && (':' !in group || (group[|group| - 1] == ':' && ':' !in group[..|group| - 1]))
  }

  lemma GarbledIsMalformed(group: string)
    ensures Malformed(group) <==> Garbled(group)
  {
    if group != "" && group[|group| - 1] == ':' && ':' !in group[..|group| - 1] {
      IndexAt(group, |group| - 1, ':');
    }
  }

  lemma {:induction false} RowsOfAre(owner: Owner, table: string, pks: seq<string>, r: RowLock)
    ensures r in RowsOf(owner, table, pks) <==> IsRow(r, owner, table, r.pk) && r.pk != "" && r.pk in pks
  {
    if pks != [] {
      RowsOfAre(owner, table, pks[1..], r);
      assert pks == [pks[0]] + pks[1..];
      if IsRow(r, owner, table, pks[0]) {
        assert r == Row(owner, table, pks[0]);
      }
    }
  }

  lemma GroupRowsAre(owner: Owner, group: string, r: RowLock)
    ensures r in GroupRows(owner, group) <==> IsRow(r, owner, r.tableName, r.pk) && Names(group, r.tableName, r.pk)
  {
    var idx := Index(group, ':');
    if idx >= 0 {
      RowsOfAre(owner, group[..idx], Split(group[idx + 1..], ','), r);
    }
    if Names(group, r.tableName, r.pk) {
      IndexAt(group, |r.tableName|, ':');
    }
  }

  lemma {:induction false} GroupsRowsAre(owner: Owner, groups: seq<string>, r: RowLock)
    ensures GroupsRows(owner, groups).Nil? <==> exists g :: g in groups && Garbled(g)
    ensures GroupsRows(owner, groups).Slice? ==>
        (r in GroupsRows(owner, groups).rows <==> IsRow(r, owner, r.tableName, r.pk) && exists g :: g in groups && Names(g, r.tableName, r.pk))
  {
    hide Malformed, Garbled, Names, GroupRows, IsRow;
    if groups != [] {
      GarbledIsMalformed(groups[0]);
      GroupsRowsAre(owner, groups[1..], r);
      GroupRowsAre(owner, groups[0], r);
      assert groups == [groups[0]] + groups[1..];
    }
  }

  /** Whatever the text: it means nothing if and only if a group is garbled, and else exactly the rows that
      one of its groups names. */
  lemma ParserReads(lockKey: string, owner: Owner, r: RowLock)
    ensures Meaning(lockKey, owner).Nil? <==> exists g :: g in Split(lockKey, ';') && Garbled(g)
    ensures Meaning(lockKey, owner).Slice? ==>
        (r in Meaning(lockKey, owner).rows <==>
           IsRow(r, owner, r.tableName, r.pk) && exists g :: g in Split(lockKey, ';') && Names(g, r.tableName, r.pk))
  {
    GroupsRowsAre(owner, Split(lockKey, ';'), r);
  }

  // Row keys --------------------------------------------------------------------------------------

  lemma CaretPrefix(a: string, x: string, b: string, y: string)
    requires '^' !in a && '^' !in b
    requires a + "^^^" + x == b + "^^^" + y
    ensures a == b && x == y
  {
    var s, t := a + "^^^" + x, b + "^^^" + y;
    assert s[..|a|] == a && t[..|b|] == b;
    IndexAt(s, |a|, '^');
    IndexAt(t, |b|, '^');
    assert a == s[..|a|] && b == t[..|b|];
    assert x == s[|a| + 3..] && y == t[|b| + 3..];
  }

  /** What a row key begins with, before the primary key. */
  function KeyPrefix(resourceID: string, tableName: string): string
  {
    resourceID + "^^^" + tableName + "^^^"
  }

  lemma KeyIsPrefixed(r: string, t: string, p: string)
    ensures GetRowKey(r, t, p) == KeyPrefix(r, t) + p
  {
  }

  /** Exactly when two tables can have rows that share a key: one's prefix is a prefix of the other's. */
  lemma SomeRowsCollide(r1: string, t1: string, r2: string, t2: string)
    ensures (exists p1, p2 :: p1 != "" && p2 != "" && GetRowKey(r1, t1, p1) == GetRowKey(r2, t2, p2)) <==>
        KeyPrefix(r1, t1) <= KeyPrefix(r2, t2) || KeyPrefix(r2, t2) <= KeyPrefix(r1, t1)
  {
    var a, b := KeyPrefix(r1, t1), KeyPrefix(r2, t2);
    forall p1, p2 | GetRowKey(r1, t1, p1) == GetRowKey(r2, t2, p2) ensures a <= b || b <= a {
      SharedKey(r1, t1, p1, r2, t2, p2);
    }
    if a <= b {
      SameKey(r1, t1, b[|a|..] + "1", r2, t2, "1");
    } else if b <= a {
      SameKey(r1, t1, "1", r2, t2, a[|b|..] + "1");
    }
  }

  lemma SameKey(r1: string, t1: string, p1: string, r2: string, t2: string, p2: string)
    requires KeyPrefix(r1, t1) + p1 == KeyPrefix(r2, t2) + p2
    ensures GetRowKey(r1, t1, p1) == GetRowKey(r2, t2, p2)
  {
    KeyIsPrefixed(r1, t1, p1);
    KeyIsPrefixed(r2, t2, p2);
  }

  lemma SharedKey(r1: string, t1: string, p1: string, r2: string, t2: string, p2: string)
    requires GetRowKey(r1, t1, p1) == GetRowKey(r2, t2, p2)
    ensures KeyPrefix(r1, t1) <= KeyPrefix(r2, t2) || KeyPrefix(r2, t2) <= KeyPrefix(r1, t1)
  {
    KeyIsPrefixed(r1, t1, p1);
    KeyIsPrefixed(r2, t2, p2);
    var a, b, key := KeyPrefix(r1, t1), KeyPrefix(r2, t2), GetRowKey(r1, t1, p1);
    assert key[..|a|] == a && key[..|b|] == b;
  }

  /** Without carets in resource and table, only the same table has such a prefix. */
  lemma PlainPrefix(r1: string, t1: string, r2: string, t2: string)
    requires '^' !in r1 && '^' !in t1 && '^' !in r2 && '^' !in t2
    requires KeyPrefix(r1, t1) <= KeyPrefix(r2, t2)
    ensures r1 == r2 && t1 == t2
  {
    var rest := KeyPrefix(r2, t2)[|KeyPrefix(r1, t1)|..];
    assert KeyPrefix(r2, t2) == KeyPrefix(r1, t1) + rest;
    assert KeyPrefix(r1, t1) + rest == r1 + "^^^" + (t1 + "^^^" + rest);
    assert KeyPrefix(r2, t2) == r2 + "^^^" + (t2 + "^^^" + "");
    CaretPrefix(r1, t1 + "^^^" + rest, r2, t2 + "^^^" + "");
    CaretPrefix(t1, rest, t2, "");
  }

  /** So there distinct rows have distinct keys, whatever the primary keys hold. */
  lemma RowKeyInjective(r1: string, t1: string, p1: string, r2: string, t2: string, p2: string)
    requires '^' !in r1 && '^' !in t1 && '^' !in r2 && '^' !in t2
    requires GetRowKey(r1, t1, p1) == GetRowKey(r2, t2, p2)
    ensures r1 == r2 && t1 == t2 && p1 == p2
  {
    SharedKey(r1, t1, p1, r2, t2, p2);
    if KeyPrefix(r1, t1) <= KeyPrefix(r2, t2) {
      PlainPrefix(r1, t1, r2, t2);
    } else {
      PlainPrefix(r2, t2, r1, t1);
    }
    KeyIsPrefixed(r1, t1, p1);
    KeyIsPrefixed(r2, t2, p2);
    var a, key := KeyPrefix(r1, t1), GetRowKey(r1, t1, p1);
    assert p1 == key[|a|..] && p2 == key[|a|..];
  }

  /** Two such rows. */
  lemma RowKeyCollision()
    ensures GetRowKey("db^", "t", "1") == GetRowKey("db", "^t", "1")
  {
    assert GetRowKey("db^", "t", "1") == "db^^^^t^^^1";
    assert GetRowKey("db", "^t", "1") == "db^^^^t^^^1";
  }
}
