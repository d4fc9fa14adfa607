/** pkg/util/common/xid.go: the global transaction id "addressing:transactionID". */
module Xid {
  import opened Text

  function GenerateXID(addressing: string, tranID: int): string
  {
    addressing + ":" + Decimal(tranID)
  }

  function GetTransactionID(xid: string): (id: int)
    ensures IsInt64(id)
  {
    if xid == "" then -1
    else
      var idx := LastIndex(xid, ':');
      if |xid| == idx + 1 then -1 else ParseInt(xid[idx + 1..])
  }

  /** The id is recovered from any address (colons included) and any int64. */
  lemma TransactionIDOfGenerated(addressing: string, tranID: int)
    requires IsInt64(tranID)
    ensures GetTransactionID(GenerateXID(addressing, tranID)) == tranID
  {
    var xid := GenerateXID(addressing, tranID);
    assert xid[|addressing| + 1..] == Decimal(tranID);
    LastIndexAt(xid, |addressing|, ':');
    ParseDecimal(tranID);
  }

  /** Hence two transactions share an XID only if they share the address and the id. */
  lemma GenerateXIDInjective(a: string, m: int, b: string, n: int)
    requires IsInt64(m) && IsInt64(n)
    requires GenerateXID(a, m) == GenerateXID(b, n)
    ensures a == b && m == n
  {
    TransactionIDOfGenerated(a, m);
    TransactionIDOfGenerated(b, n);
    var x, y := GenerateXID(a, m), GenerateXID(b, n);
    assert |x| == |a| + 1 + |Decimal(m)|;
    assert a == x[..|a|] && b == y[..|b|];
  }

  /** An XID of another make: -1 if it is empty or ends with a colon; else what stands behind its last colon,
      or all of it, as a number. */
  lemma TransactionIDOfAny(address: string, digits: string)
    requires ':' !in digits
    ensures GetTransactionID("") == GetTransactionID(address + ":") == -1
    ensures digits != "" ==> GetTransactionID(digits) == GetTransactionID(address + ":" + digits) == ParseInt(digits)
  {
    var xid := address + ":" + digits;
    LastIndexAt(address + ":", |address|, ':');
    assert xid[|address| + 1..] == digits && xid[|address|] == ':';
    LastIndexAt(xid, |address|, ':');
    assert digits[0..] == digits;
  }
}
