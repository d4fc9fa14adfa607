/** What `Unmarshal` accepts, and what it makes of it: lists of fields, each written over the one before. */
module Parsing {
  import opened Varint
  import opened Message
  import Skip

  function NumberIn(f: Skip.Field): int { FieldNumber(Value(f.tag) % UINT64) }

  /** Its number is positive, and if the table has it, the field is of the kind there. */
  predicate Accepted(schema: Schema, f: Skip.Field)
  {
    var number := NumberIn(f);
    && number > 0
    && (number <= |schema| ==> if schema[number - 1] == Blob then f.Delimited? else f.VarintField?)
  }

  predicate AllAccepted(schema: Schema, fs: Skip.Fields)
  {
    match fs
    case None => true
    case More(f, rest) => Accepted(schema, f) && AllAccepted(schema, rest)
  }

  /** A varint that is longer than its type loses its upper bits. */
  function Held(k: Kind, f: Skip.Field): FieldValue
    requires if k == Blob then f.Delimited? else f.VarintField?
  {
    match k
    case Blob => Text(f.b)
    case Int64 => Number(Signed64(Value(f.v) % UINT64))
    case Int32 => Number(Signed32(Value(f.v) % UINT32))
    case Boolean => Flag(Value(f.v) % UINT64 != 0)
  }

  function Put(schema: Schema, m: Fields, f: Skip.Field): (m': Fields)
    requires |m| == |schema| && Accepted(schema, f)
    ensures |m'| == |m|
  {
    var number := NumberIn(f);
    if number > |schema| then m else m[number - 1 := Held(schema[number - 1], f)]
  }

  /** The last one of a number stands. */
  function PutAll(schema: Schema, m: Fields, fs: Skip.Fields): (m': Fields)
    requires |m| == |schema| && AllAccepted(schema, fs)
    ensures |m'| == |m|
    decreases fs
  {
    match fs
    case None => m
    case More(f, rest) => PutAll(schema, Put(schema, m, f), rest)
  }

  // One field ------------------------------------------------------------------------------------------

  lemma HeldRead(k: Kind, f: Skip.Field, contents: seq<byte>, rest: seq<byte>, at: int)
    requires Skip.WellFormed(f) && (if k == Blob then f.Delimited? else f.VarintField?)
    requires contents == if k == Blob then f.len + f.b else f.v
    requires 0 <= at && at + |contents + rest| < INT64
    ensures DecodeField(k, WireType(k), contents + rest, at) == Ok((Held(k, f), |contents|))
  {
    hide Extent, Value, ReadVarint, Signed64, Signed32, Skip.IsTag;
    var s := contents + rest;
    if k == Blob {
      assert s == f.len + (f.b + rest);
      Skip.ReadsVarint(f.len, f.b + rest);
      Fits64(at + |contents|);
      assert s[|f.len|..|contents|] == f.b;
    } else {
      Skip.ReadsVarint(f.v, rest);
      assert s[..|f.v|] == f.v;
    }
  }

  lemma Fits64(n: int)
    requires 0 <= n < INT64
    ensures Signed64(n) == n
  {
  }

  lemma PassedOver(m: Fields, f: Skip.Field, rest: seq<byte>, at: int)
    requires Skip.WellFormed(f) && 0 <= at && at + |Skip.Print(f) + rest| < INT64
    ensures PassOver(m, Skip.Print(f) + rest, at) == Ok((m, |Skip.Print(f)|))
  {
    hide Skip.WellFormed, Skip.Print, Skip.SkipFrom;
    Skip.SkipsField(f, rest, 0, 0);
    Fits64(at + |Skip.Print(f)|);
    hide Signed64;
  }

  /** A field that is accepted is put, */
  lemma PutIsRead(schema: Schema, m: Fields, f: Skip.Field, rest: seq<byte>, at: int)
    requires |m| == |schema| && Skip.WellFormed(f) && Accepted(schema, f)
    requires 0 <= at && at + |Skip.Print(f) + rest| < INT64
    ensures DecodeOne(schema, m, Skip.Print(f) + rest, at) == Ok((Put(schema, m, f), |Skip.Print(f)|))
  {
    hide Extent, Value, ReadVarint, DecodeField, FieldNumber, PassOver, Held;
    var s, number := Skip.Print(f) + rest, NumberIn(f);
    Skip.TagFirst(f);
    ReadLonger(Skip.Print(f), rest);
    if number > |schema| {
      PassedOver(m, f, rest, at);
    } else {
      var k := schema[number - 1];
      var contents := if k == Blob then f.len + f.b else f.v;
      assert s[|f.tag|..] == contents + rest;
      WireIs(k, f);
      HeldRead(k, f, contents, rest, at + |f.tag|);
    }
  }

  lemma WireIs(k: Kind, f: Skip.Field)
    requires Skip.WellFormed(f) && (if k == Blob then f.Delimited? else f.VarintField?)
    ensures Value(f.tag) % UINT64 % 8 == WireType(k)
  {
    hide Value;
  }

  lemma KnownIsSkipped(k: Kind, s: seq<byte>, at: int)
    requires 0 <= at && at + |s| < INT64 && ReadVarint(s).Ok?
    requires var (wire, n) := ReadVarint(s).value; DecodeField(k, wire % 8, s[n..], at + n).Ok?
    ensures Skip.SkipFrom(s, 0, 0).Ok? && Skip.SkipFrom(s, 0, 0).value <= |s|
  {
    hide Extent, Value, Signed64;
    var (wire, n) := ReadVarint(s).value;
    var contents := s[n..];
    var (x, size) := ReadVarint(contents).value;
    assert Extent(contents, 0) == Ok(size) by {
      assert ReadVarint(contents).Ok?;
    }
    Fits64(if k == Blob then n + size + Signed64(x) else n + size);
    assert Skip.Step(s, 0) == Ok((if k == Blob then n + size + Signed64(x) else n + size, 0)) by {
      hide ReadVarint;
    }
    Skip.SkipStops(s, 0, 0);
  }

  lemma KindIsWire(f: Skip.Field)
    requires Skip.WellFormed(f)
    ensures var wire := Value(f.tag) % UINT64 % 8;
      && (f.VarintField? <==> wire == 0) && (f.Delimited? <==> wire == 2)
  {
    hide Value, Extent, Skip.AllWellFormed;
  }

  /** and what is read is a field that is accepted. */
  lemma ReadIsPut(schema: Schema, m: Fields, s: seq<byte>, at: int) returns (f: Skip.Field)
    requires |m| == |schema| && 0 <= at && at + |s| < INT64 && DecodeOne(schema, m, s, at).Ok?
    ensures Skip.WellFormed(f) && Accepted(schema, f) && DecodeOne(schema, m, s, at).value == (Put(schema, m, f), |Skip.Print(f)|)
    ensures Skip.Print(f) <= s
  {
    hide Extent, Value, ReadVarint, DecodeField, FieldNumber, Skip.SkipFrom, Held, Skip.WellFormed, Skip.Print;
    var (wire, n) := ReadVarint(s).value;
    if FieldNumber(wire) <= |schema| {
      KnownIsSkipped(schema[FieldNumber(wire) - 1], s, at);
    }
    f := Skip.FieldSkipped(s);
    var rest := s[|Skip.Print(f)|..];
    assert s == Skip.Print(f) + rest;
    Skip.TagFirst(f);
    ReadLonger(Skip.Print(f), rest);
    KindIsWire(f);
    if FieldNumber(wire) <= |schema| {
      RightWire(schema[FieldNumber(wire) - 1], wire % 8, s[n..], at + n);
    }
    PutIsRead(schema, m, f, rest, at);
  }

  lemma RightWire(k: Kind, wireType: int, s: seq<byte>, at: int)
    requires DecodeField(k, wireType, s, at).Ok?
    ensures wireType == WireType(k)
  {
  }

  // A message ------------------------------------------------------------------------------------------

  lemma {:induction false} PutAllIsRead(schema: Schema, m: Fields, fs: Skip.Fields, at: int)
    requires |m| == |schema| && Skip.AllWellFormed(fs) && AllAccepted(schema, fs) && 0 <= at && at + |Skip.PrintAll(fs)| < INT64
    ensures Decode(schema, m, Skip.PrintAll(fs), at) == Ok(PutAll(schema, m, fs))
    decreases fs
  {
    hide DecodeOne, Put, Accepted, Skip.WellFormed, Skip.Print;
    if fs.More? {
      var head, rest := Skip.Print(fs.field), Skip.PrintAll(fs.rest);
      Skip.PrintNonEmpty(fs.field);
      PutIsRead(schema, m, fs.field, rest, at);
      assert (head + rest)[|head|..] == rest;
      DecodeTail(schema, m, head + rest, at);
      PutAllIsRead(schema, Put(schema, m, fs.field), fs.rest, at + |head|);
    }
  }

  lemma {:induction false} ReadIsPutAll(schema: Schema, m: Fields, s: seq<byte>, at: int) returns (fs: Skip.Fields)
    requires |m| == |schema| && 0 <= at && at + |s| < INT64 && Decode(schema, m, s, at).Ok?
    ensures Skip.AllWellFormed(fs) && AllAccepted(schema, fs) && Skip.PrintAll(fs) == s
    ensures Decode(schema, m, s, at) == Ok(PutAll(schema, m, fs))
    decreases |s|
  {
    hide DecodeOne, Put, Accepted, Skip.WellFormed, Skip.Print;
    if s == [] {
      fs := Skip.None;
    } else {
      var f := ReadIsPut(schema, m, s, at);
      var n := |Skip.Print(f)|;
      Skip.PrintNonEmpty(f);
      DecodeTail(schema, m, s, at);
      var rest := ReadIsPutAll(schema, Put(schema, m, f), s[n..], at + n);
      fs := Skip.More(f, rest);
      assert s == Skip.Print(f) + s[n..];
    }
  }

  /** `Unmarshal` accepts exactly the lists of fields with positive numbers, each that the table has of the
      kind there, and the message is what putting them in one after the other makes of it. */
  lemma DecodesLists(schema: Schema, m: Fields, s: seq<byte>, r: Fields)
    requires |m| == |schema| && |s| < INT64
    ensures
      Decode(schema, m, s, 0) == Ok(r)
      <==> exists fs :: Skip.AllWellFormed(fs) && AllAccepted(schema, fs) && Skip.PrintAll(fs) == s && PutAll(schema, m, fs) == r
  {
    hide Decode, Skip.AllWellFormed, AllAccepted, Skip.PrintAll, PutAll;
    if Decode(schema, m, s, 0).Ok? {
      var fs := ReadIsPutAll(schema, m, s, 0);
      assert Skip.AllWellFormed(fs) && AllAccepted(schema, fs) && Skip.PrintAll(fs) == s;
    }
    forall fs | Skip.AllWellFormed(fs) && AllAccepted(schema, fs) && Skip.PrintAll(fs) == s
      ensures Decode(schema, m, s, 0) == Ok(PutAll(schema, m, fs))
    {
      PutAllIsRead(schema, m, fs, 0);
    }
  }
}
