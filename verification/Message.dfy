/** Writing and reading session messages, pkg/apis/seata.pb.go. The generated code repeats the same lines
    for every field; here a table of field kinds drives one loop. Field f of the table has number f + 1. */
module Message {
  import opened Varint
  import Skip

  /** string and bytes; int64; int32 and the enumerations; bool. */
  datatype Kind = Blob | Int64 | Int32 | Boolean

  datatype FieldValue = Text(b: seq<byte>) | Number(n: int) | Flag(f: bool)

  type Schema = s: seq<Kind> | |s| < 16
  type Fields = seq<FieldValue>

  function WireType(k: Kind): int { if k == Blob then 2 else 0 }

  function Default(k: Kind): FieldValue
  {
    match k
    case Blob => Text([])
    case Int64 => Number(0)
    case Int32 => Number(0)
    case Boolean => Flag(false)
  }

  predicate Fits(k: Kind, v: FieldValue)
  {
    match k
    case Blob => v.Text? && |v.b| < INT64
    case Int64 => v.Number? && IsInt64(v.n)
    case Int32 => v.Number? && IsInt32(v.n)
    case Boolean => v.Flag?
  }

  predicate IsMessage(schema: Schema, m: Fields)
  {
    |m| == |schema| && forall f :: 0 <= f < |m| ==> Fits(schema[f], m[f])
  }

  function Zero(schema: Schema): (m: Fields)
    ensures |m| == |schema| && forall f :: 0 <= f < |m| ==> m[f] == Default(schema[f])
  {
    seq(|schema|, f requires 0 <= f < |schema| => Default(schema[f]))
  }

  // Writing ------------------------------------------------------------------------------------------

  function Payload(v: FieldValue): seq<byte>
  {
    match v
    case Text(b) => Bytes(|b|) + b
    case Number(n) => Bytes(Unsigned(n))
    case Flag(_) => [1]
  }

  /** The field as it is sent: nothing, if it has its default value. */
  function FieldBytes(f: nat, k: Kind, v: FieldValue): seq<byte>
    requires f < 15
  {
    if v == Default(k) then [] else [8 * (f + 1) + WireType(k)] + Payload(v)
  }

  function EncodeFrom(schema: Schema, m: Fields, f: nat): seq<byte>
    requires |m| == |schema| && f <= |schema|
    decreases |schema| - f
  {
    if f == |schema| then [] else FieldBytes(f, schema[f], m[f]) + EncodeFrom(schema, m, f + 1)
  }

  function Encode(schema: Schema, m: Fields): seq<byte>
    requires |m| == |schema|
  {
    EncodeFrom(schema, m, 0)
  }

  /** `Size`: a sum over the fields. */
  function FieldSize(k: Kind, v: FieldValue): int
  {
    if v == Default(k) then 0
    else match v
      case Text(b) => 1 + |b| + SovSeata(|b|)
      case Number(n) => 1 + SovSeata(Unsigned(n))
      case Flag(_) => 2
  }

  function SizeFrom(schema: Schema, m: Fields, f: nat): int
    requires |m| == |schema| && f <= |schema|
    decreases |schema| - f
  {
    if f == |schema| then 0 else FieldSize(schema[f], m[f]) + SizeFrom(schema, m, f + 1)
  }

  lemma FieldSizeExact(f: nat, k: Kind, v: FieldValue)
    requires f < 15
    ensures FieldSize(k, v) == |FieldBytes(f, k, v)|
  {
    match v
    case Text(b) => SovIsExact(|b|);
    case Number(n) => SovIsExact(Unsigned(n));
    case Flag(_) =>
  }

  /** `Size` is exact. */
  lemma {:induction false} SizeIsExact(schema: Schema, m: Fields, f: nat)
    requires |m| == |schema| && f <= |schema|
    ensures SizeFrom(schema, m, f) == |EncodeFrom(schema, m, f)|
    decreases |schema| - f
  {
    if f < |schema| {
      FieldSizeExact(f, schema[f], m[f]);
      SizeIsExact(schema, m, f + 1);
    }
  }

  /** One field, written backwards so that it ends where `end` is. */
  method MarshalField(dAtA: array<byte>, end: int, f: nat, k: Kind, v: FieldValue) returns (i: int)
    requires f < 15 && Fits(k, v) && |FieldBytes(f, k, v)| <= end <= dAtA.Length
    modifies dAtA
    ensures i == end - |FieldBytes(f, k, v)| && dAtA[i..end] == FieldBytes(f, k, v)
    ensures dAtA[..i] == old(dAtA[..i]) && dAtA[end..] == old(dAtA[end..])
  {
    hide Payload;
    i := end;
    if v == Default(k) {
      return;
    }
    ghost var below, above := dAtA[..end - 1 - |Payload(v)|], dAtA[end..];
    i := MarshalPayload(dAtA, end, v);
    ghost var payload := dAtA[i..end];
    i := i - 1;
    dAtA[i] := 8 * (f + 1) + WireType(k);
    assert dAtA[i..end] == [8 * (f + 1) + WireType(k)] + payload;
    assert dAtA[..i] == below && dAtA[end..] == above;
  }

  method MarshalPayload(dAtA: array<byte>, end: int, v: FieldValue) returns (i: int)
    requires |Payload(v)| <= end <= dAtA.Length && (v.Text? ==> |v.b| < INT64)
    modifies dAtA
    ensures i == end - |Payload(v)| && dAtA[i..end] == Payload(v)
    ensures dAtA[..i] == old(dAtA[..i]) && dAtA[end..] == old(dAtA[end..])
  {
    if v.Text? {
      i := MarshalBlob(dAtA, end, v.b);
    } else if v.Number? {
      SovIsExact(Unsigned(v.n));
      i := EncodeVarintSeata(dAtA, end, Unsigned(v.n));
    } else {
      i := end - 1;
      dAtA[i] := 1;
    }
  }

  method MarshalBlob(dAtA: array<byte>, end: int, b: seq<byte>) returns (i: int)
    requires |b| < INT64 && |Bytes(|b|)| + |b| <= end <= dAtA.Length
    modifies dAtA
    ensures i == end - |Bytes(|b|)| - |b| && dAtA[i..end] == Bytes(|b|) + b
    ensures dAtA[..i] == old(dAtA[..i]) && dAtA[end..] == old(dAtA[end..])
  {
    SovIsExact(|b|);
    hide SovSeata, Bytes;
    var middle := end - |b|;
    CopyIn(dAtA, middle, b);
    ghost var below, after := dAtA[..middle], dAtA[middle..];
    assert after[..|b|] == b && after[|b|..] == dAtA[end..];
    i := EncodeVarintSeata(dAtA, middle, |b|);
    assert dAtA[middle..] == after && dAtA[..i] == below[..i];
    assert dAtA[middle..end] == dAtA[middle..][..|b|] && dAtA[end..] == dAtA[middle..][|b|..];
    assert dAtA[i..end] == dAtA[i..middle] + dAtA[middle..end];
  }

  /** `copy` */
  method CopyIn(dAtA: array<byte>, at: int, b: seq<byte>)
    requires 0 <= at <= at + |b| <= dAtA.Length
    modifies dAtA
    ensures dAtA[at..at + |b|] == b
    ensures dAtA[..at] == old(dAtA[..at]) && dAtA[at + |b|..] == old(dAtA[at + |b|..])
  {
    var j := 0;
    while j < |b|
      invariant 0 <= j <= |b|
      invariant dAtA[at..at + j] == b[..j]
      invariant dAtA[..at] == old(dAtA[..at]) && dAtA[at + |b|..] == old(dAtA[at + |b|..])
    {
      dAtA[at + j] := b[j];
      assert dAtA[at..at + j + 1] == dAtA[at..at + j] + [b[j]];
      j := j + 1;
    }
  }

  lemma Pieces(s: seq<byte>, i: nat, j: nat)
    requires i <= j <= |s|
    ensures s[i..] == s[i..j] + s[j..]
  {
  }

  /** `MarshalToSizedBuffer`: the last field first, from the end of the buffer. */
  method MarshalToSizedBuffer(dAtA: array<byte>, schema: Schema, m: Fields) returns (n: int)
    requires IsMessage(schema, m) && SizeFrom(schema, m, 0) <= dAtA.Length
    modifies dAtA
    ensures 0 <= n == SizeFrom(schema, m, 0) <= dAtA.Length && dAtA[dAtA.Length - n..] == Encode(schema, m)
    ensures dAtA[..dAtA.Length - n] == old(dAtA[..dAtA.Length - n])
  {
    hide FieldBytes, Fits;
    SizeIsExact(schema, m, 0);
    var i, f := dAtA.Length, |schema|;
    while f > 0
      invariant 0 <= f <= |schema| && 0 <= i <= dAtA.Length
      invariant i == dAtA.Length - |EncodeFrom(schema, m, f)| && dAtA[i..] == EncodeFrom(schema, m, f)
      invariant dAtA[..i] == old(dAtA[..i])
    {
      f := f - 1;
      EncodeShrinks(schema, m, 0, f);
      ghost var after := dAtA[i..];
      ghost var end := i;
      ghost var before := dAtA[..end];
      hide EncodeFrom;
      i := MarshalField(dAtA, i, f, schema[f], m[f]);
      Pieces(dAtA[..], i, end);
      assert dAtA[..i] == before[..i];
    }
    n := dAtA.Length - i;
  }

  lemma {:induction false} EncodeShrinks(schema: Schema, m: Fields, f: nat, g: nat)
    requires |m| == |schema| && f <= g <= |schema|
    ensures |EncodeFrom(schema, m, g)| <= |EncodeFrom(schema, m, f)|
    decreases g - f
  {
    hide FieldBytes;
    if f < g {
      EncodeShrinks(schema, m, f + 1, g);
    }
  }

  /** `Marshal`: the buffer that `Size` calls for is filled to its first byte. */
  method Marshal(schema: Schema, m: Fields) returns (dAtA: array<byte>)
    requires IsMessage(schema, m)
    ensures fresh(dAtA) && dAtA[..] == Encode(schema, m)
  {
    var size := Size(schema, m);
    dAtA := new byte[size];
    var n := MarshalToSizedBuffer(dAtA, schema, m);
    assert dAtA[dAtA.Length - n..] == dAtA[..];
  }

  method Size(schema: Schema, m: Fields) returns (n: nat)
    requires |m| == |schema|
    ensures n == SizeFrom(schema, m, 0) == |Encode(schema, m)|
  {
    SizeIsExact(schema, m, 0);
    var f := |schema|;
    n := 0;
    while f > 0
      invariant 0 <= f <= |schema| && n == SizeFrom(schema, m, f)
    {
      f := f - 1;
      FieldSizeExact(f, schema[f], m[f]);
      n := n + FieldSize(schema[f], m[f]);
    }
  }

  // Reading ------------------------------------------------------------------------------------------

  /** The contents of a known field at index `at`: its value, and the bytes it takes. */
  function DecodeField(k: Kind, wireType: int, s: seq<byte>, at: int): (r: Result<(FieldValue, nat)>)
    ensures r.Ok? ==> Fits(k, r.value.0) || |s| >= INT64
    ensures r.Ok? ==> r.value.1 <= |s|
  {
    if wireType != WireType(k) then Err(WrongWireType)
    else
      var v := ReadVarint(s);
      if v.Err? then Err(v.error)
      else
        var (x, n) := v.value;
        match k
        case Blob => TakeBytes(s, n, Signed64(x), at)
        case Int64 => Ok((Number(Signed64(x)), n))
        case Int32 => Ok((Number(Signed32(Value(s[..n]) % UINT32)), n))
        case Boolean => Ok((Flag(x != 0), n))
  }

  function TakeBytes(s: seq<byte>, n: nat, length: int, at: int): (r: Result<(FieldValue, nat)>)
    requires n <= |s|
    ensures r.Ok? ==> r.value.0.Text? && |r.value.0.b| <= |s| && r.value.1 <= |s|
  {
    if length < 0 || Signed64(at + n + length) < 0 then Err(InvalidLength)
    else if n + length > |s| then Err(UnexpectedEOF)
    else Ok((Text(s[n..n + length]), n + length))
  }

  /** An unknown field is passed over. */
  function PassOver(m: Fields, s: seq<byte>, at: int): (r: Result<(Fields, nat)>)
    ensures r.Ok? ==> r.value.0 == m && r.value.1 <= |s| && (|s| < INT64 ==> r.value.1 >= 1)
  {
    Skip.SkipsAhead(s, 0, 0);
    var skippy := Skip.SkipFrom(s, 0, 0);
    if skippy.Err? then Err(skippy.error)
    else if Signed64(at + skippy.value) < 0 then Err(InvalidLength)
    else if skippy.value > |s| then Err(UnexpectedEOF)
    else Ok((m, skippy.value))
  }

  function FieldNumber(wire: int): int { Signed32(wire / 8 % UINT32) }

  /** One field: the message with it, and the bytes it takes. */
  function DecodeOne(schema: Schema, m: Fields, s: seq<byte>, at: int): (r: Result<(Fields, nat)>)
    requires |m| == |schema|
    ensures r.Ok? ==> |r.value.0| == |schema| && r.value.1 <= |s| && (|s| < INT64 ==> r.value.1 >= 1)
  {
    var tag := ReadVarint(s);
    if tag.Err? then Err(tag.error)
    else
      var (wire, n) := tag.value;
      var f := FieldNumber(wire);
      if wire % 8 == 4 then Err(EndGroupForNonGroup)
      else if f <= 0 then Err(IllegalTag)
      else if f > |schema| then PassOver(m, s, at)
      else
        var v := DecodeField(schema[f - 1], wire % 8, s[n..], at + n);
        if v.Err? then Err(v.error) else Ok((m[f - 1 := v.value.0], n + v.value.1))
  }

  /** `Unmarshal` into m, from index `at`. */
  function Decode(schema: Schema, m: Fields, s: seq<byte>, at: int): (r: Result<Fields>)
    requires |m| == |schema| && |s| < INT64
    ensures r.Ok? ==> |r.value| == |schema|
    decreases |s|
  {
    if s == [] then Ok(m)
    else
      var one := DecodeOne(schema, m, s, at);
      if one.Err? then Err(one.error) else Decode(schema, one.value.0, s[one.value.1..], at + one.value.1)
  }

  /** What a number's field holds when its varint breaks off: the groups that were read. */
  function Broken(k: Kind, wireType: int, s: seq<byte>, was: FieldValue): FieldValue
  {
    if wireType != WireType(k) || ReadVarint(s).Ok? then was
    else
      match k
      case Int64 => Number(Signed64(Value(s[..Groups(s)]) % UINT64))
      case Int32 => Number(Signed32(Value(s[..Groups(s)]) % UINT32))
      case _ => was
  }

  /** What a field that cannot be decoded leaves in the message. */
  function LeftByOne(schema: Schema, m: Fields, s: seq<byte>): (left: Fields)
    requires |m| == |schema|
    ensures |left| == |schema|
  {
    var tag := ReadVarint(s);
    if tag.Err? then m
    else
      var (wire, n) := tag.value;
      var f := FieldNumber(wire);
      if wire % 8 == 4 || f <= 0 || f > |schema| then m
      else m[f - 1 := Broken(schema[f - 1], wire % 8, s[n..], m[f - 1])]
  }

  /** What `Unmarshal` leaves in the message, successful or not. */
  function Left(schema: Schema, m: Fields, s: seq<byte>, at: int): (left: Fields)
    requires |m| == |schema| && |s| < INT64
    ensures |left| == |schema|
    decreases |s|
  {
    if s == [] then m
    else
      var one := DecodeOne(schema, m, s, at);
      if one.Err? then LeftByOne(schema, m, s) else Left(schema, one.value.0, s[one.value.1..], at + one.value.1)
  }

  lemma {:induction false} SuccessLeaves(schema: Schema, m: Fields, s: seq<byte>, at: int)
    requires |m| == |schema| && |s| < INT64 && Decode(schema, m, s, at).Ok?
    ensures Left(schema, m, s, at) == Decode(schema, m, s, at).value
    decreases |s|
  {
    hide DecodeOne, LeftByOne;
    if s != [] {
      var one := DecodeOne(schema, m, s, at).value;
      SuccessLeaves(schema, one.0, s[one.1..], at + one.1);
    }
  }

  method Unmarshal(dAtA: array<byte>, schema: Schema, zero: Fields) returns (r: Result<Fields>, m: Fields)
    requires |zero| == |schema| && dAtA.Length < INT64
    ensures r == Decode(schema, zero, dAtA[..], 0) && m == Left(schema, zero, dAtA[..], 0)
  {
    hide DecodeOne, LeftByOne;
    m := zero;
    var iNdEx := 0;
    assert dAtA[..] == dAtA[0..];
    while iNdEx < dAtA.Length
      invariant 0 <= iNdEx <= dAtA.Length && |m| == |schema|
      invariant Decode(schema, zero, dAtA[..], 0) == Decode(schema, m, dAtA[iNdEx..], iNdEx)
      invariant Left(schema, zero, dAtA[..], 0) == Left(schema, m, dAtA[iNdEx..], iNdEx)
    {
      var one;
      one, m := UnmarshalOne(dAtA, iNdEx, schema, m);
      if one.Err? {
        return Err(one.error), m;
      }
      assert dAtA[iNdEx..][one.value..] == dAtA[iNdEx + one.value..];
      iNdEx := iNdEx + one.value;
    }
    return Ok(m), m;
  }

  method UnmarshalOne(dAtA: array<byte>, preIndex: int, schema: Schema, m: Fields) returns (r: Result<nat>, m': Fields)
    requires |m| == |schema| && 0 <= preIndex < dAtA.Length < INT64
    ensures
      var one := DecodeOne(schema, m, dAtA[preIndex..], preIndex);
      if one.Ok? then r == Ok(one.value.1) && m' == one.value.0 else r == Err(one.error) && m' == LeftByOne(schema, m, dAtA[preIndex..])
  {
    hide Broken, Extent, Value, DecodeField, PassOver, FieldNumber;
    ghost var s := dAtA[preIndex..];
    m' := m;
    var wire, iNdEx, _ := DecodeVarint(dAtA, preIndex, UINT64);
    if wire.Err? {
      return Err(wire.error), m;
    }
    assert s[iNdEx - preIndex..] == dAtA[iNdEx..];
    var fieldNum, wireType := FieldNumber(wire.value), wire.value % 8;
    if wireType == 4 {
      return Err(EndGroupForNonGroup), m;
    }
    if fieldNum <= 0 {
      return Err(IllegalTag), m;
    }
    if fieldNum > |schema| {
      var skipped := UnmarshalUnknown(dAtA, preIndex, m);
      r := if skipped.Err? then Err(skipped.error) else Ok(skipped.value.1);
      return;
    }
    var n, v := UnmarshalField(dAtA, iNdEx, schema[fieldNum - 1], wireType, m[fieldNum - 1]);
    m' := m[fieldNum - 1 := v];
    r := if n.Err? then Err(n.error) else Ok(iNdEx - preIndex + n.value);
  }

  method UnmarshalUnknown(dAtA: array<byte>, iNdEx: int, m: Fields) returns (r: Result<(Fields, nat)>)
    requires 0 <= iNdEx < dAtA.Length < INT64
    ensures r == PassOver(m, dAtA[iNdEx..], iNdEx)
  {
    var skippy := Skip.SkipSeata(dAtA, iNdEx);
    if skippy.Err? {
      return Err(skippy.error);
    }
    if skippy.value < 0 || Signed64(iNdEx + skippy.value) < 0 {
      return Err(InvalidLength);
    }
    if iNdEx + skippy.value > dAtA.Length {
      return Err(UnexpectedEOF);
    }
    return Ok((m, skippy.value));
  }

  /** `v` is what the field holds afterwards. */
  method UnmarshalField(dAtA: array<byte>, start: int, k: Kind, wireType: int, was: FieldValue) returns (r: Result<nat>, v: FieldValue)
    requires 0 <= start <= dAtA.Length < INT64
    ensures
      var field := DecodeField(k, wireType, dAtA[start..], start);
      if field.Ok? then r == Ok(field.value.1) && v == field.value.0
      else r == Err(field.error) && v == Broken(k, wireType, dAtA[start..], was)
  {
    hide Extent, Value, TakeBytes, Signed32;
    if wireType != WireType(k) {
      return Err(WrongWireType), was;
    }
    var x, iNdEx, wire := DecodeVarint(dAtA, start, if k == Int32 then UINT32 else UINT64);
    var n := if x.Err? then Err(x.error) else Ok(iNdEx - start);
    match k
    case Blob =>
      if x.Err? {
        return n, was;
      }
      var blob := UnmarshalBlob(dAtA, start, iNdEx, Signed64(x.value));
      if blob.Err? {
        return Err(blob.error), was;
      }
      return Ok(blob.value.1), blob.value.0;
    case Int64 => return n, Number(Signed64(wire));
    case Int32 => return n, Number(Signed32(wire));
    case Boolean => return n, if x.Err? then was else Flag(x.value != 0);
  }

  method UnmarshalBlob(dAtA: array<byte>, start: int, iNdEx: int, length: int) returns (r: Result<(FieldValue, nat)>)
    requires 0 <= start <= iNdEx <= dAtA.Length < INT64 && length < INT64
    ensures r == TakeBytes(dAtA[start..], iNdEx - start, length, start)
  {
    if length < 0 {
      return Err(InvalidLength);
    }
    var postIndex := Signed64(iNdEx + length);
    if postIndex < 0 {
      return Err(InvalidLength);
    }
    if postIndex > dAtA.Length {
      return Err(UnexpectedEOF);
    }
    assert dAtA[start..][iNdEx - start..iNdEx - start + length] == dAtA[iNdEx..postIndex];
    return Ok((Text(dAtA[iNdEx..postIndex]), postIndex - start));
  }

  // Round trip ---------------------------------------------------------------------------------------

  lemma BlobRead(b: seq<byte>, rest: seq<byte>, at: int)
    requires 0 <= at && at + |Bytes(|b|)| + |b| + |rest| < INT64
    ensures DecodeField(Blob, 2, Bytes(|b|) + b + rest, at) == Ok((Text(b), |Bytes(|b|)| + |b|))
  {
    hide ReadVarint, Bytes;
    var s, n := Bytes(|b|) + b + rest, |Bytes(|b|)|;
    assert s == Bytes(|b|) + (b + rest);
    ReadBytes(|b|, b + rest);
    assert s[n..n + |b|] == b;
    assert Signed64(|b|) == |b|;
  }

  lemma NumberRead(k: Kind, n: int, rest: seq<byte>, at: int)
    requires (k == Int64 && IsInt64(n)) || (k == Int32 && IsInt32(n))
    ensures DecodeField(k, 0, Bytes(Unsigned(n)) + rest, at) == Ok((Number(n), |Bytes(Unsigned(n))|))
  {
    SignedUnsigned(n);
    hide ReadVarint, Bytes, Value, Unsigned, Signed64, Signed32;
    var x := Unsigned(n);
    ReadBytes(x, rest);
    assert (Bytes(x) + rest)[..|Bytes(x)|] == Bytes(x);
    ValueOfBytes(x);
  }

  lemma PayloadRead(k: Kind, v: FieldValue, rest: seq<byte>, at: int)
    requires Fits(k, v) && v != Default(k) && 0 <= at && at + |Payload(v) + rest| < INT64
    ensures DecodeField(k, WireType(k), Payload(v) + rest, at) == Ok((v, |Payload(v)|))
  {
    hide DecodeField;
    match v
    case Text(b) => BlobRead(b, rest, at);
    case Number(n) => NumberRead(k, n, rest, at);
    case Flag(_) => FlagRead(rest, at);
  }

  lemma FlagRead(rest: seq<byte>, at: int)
    ensures DecodeField(Boolean, 0, [1] + rest, at) == Ok((Flag(true), 1))
  {
    assert Bytes(1) == [1];
    ReadBytes(1, rest);
    hide ReadVarint, Extent, Value;
  }

  lemma NumberOfTag(f: nat, wireType: int)
    requires f < 15 && 0 <= wireType < 8
    ensures FieldNumber(8 * (f + 1) + wireType) == f + 1
  {
  }

  /** What was written for a field with another value than the default reads as that field. */
  lemma FieldRead(schema: Schema, m: Fields, f: nat, v: FieldValue, rest: seq<byte>, at: int)
    requires |m| == |schema| && f < |schema| && Fits(schema[f], v) && v != Default(schema[f])
    requires 0 <= at && at + |FieldBytes(f, schema[f], v) + rest| < INT64
    ensures DecodeOne(schema, m, FieldBytes(f, schema[f], v) + rest, at) == Ok((m[f := v], |FieldBytes(f, schema[f], v)|))
  {
    hide DecodeField, Payload, ReadVarint, FieldNumber, Fits, Default;
    var wire := 8 * (f + 1) + WireType(schema[f]);
    var s := FieldBytes(f, schema[f], v) + rest;
    NumberOfTag(f, WireType(schema[f]));
    assert Bytes(wire) == [wire];
    assert s == Bytes(wire) + (Payload(v) + rest);
    ReadBytes(wire, Payload(v) + rest);
    assert s[1..] == Payload(v) + rest;
    PayloadRead(schema[f], v, rest, at + 1);
  }

  /** The message when the first f fields have arrived. */
  function Partial(schema: Schema, m: Fields, f: nat): (p: Fields)
    requires |m| == |schema| && f <= |schema|
    ensures |p| == |schema|
  {
    m[..f] + Zero(schema)[f..]
  }

  lemma PartialNext(schema: Schema, m: Fields, f: nat)
    requires |m| == |schema| && f < |schema|
    ensures Partial(schema, m, f + 1) == Partial(schema, m, f)[f := m[f]]
    ensures m[f] == Default(schema[f]) ==> Partial(schema, m, f + 1) == Partial(schema, m, f)
  {
  }

  lemma DecodeHead(schema: Schema, m: Fields, head: seq<byte>, rest: seq<byte>, at: int, m': Fields)
    requires |m| == |schema| == |m'| && |head + rest| < INT64 && head != []
    requires DecodeOne(schema, m, head + rest, at) == Ok((m', |head|))
    ensures Decode(schema, m, head + rest, at) == Decode(schema, m', rest, at + |head|)
  {
    hide DecodeOne;
    assert (head + rest)[|head|..] == rest;
  }

  lemma DecodeNone(schema: Schema, m: Fields, at: int)
    requires |m| == |schema|
    ensures Decode(schema, m, [], at) == Ok(m)
  {
  }

  /** Sent or left out, field f brings the message one field further. */
  lemma DecodesField(schema: Schema, m: Fields, f: nat, rest: seq<byte>, at: int)
    requires IsMessage(schema, m) && f < |schema| && 0 <= at && at + |FieldBytes(f, schema[f], m[f]) + rest| < INT64
    ensures
      var head := FieldBytes(f, schema[f], m[f]);
      Decode(schema, Partial(schema, m, f), head + rest, at) == Decode(schema, Partial(schema, m, f + 1), rest, at + |head|)
  {
    hide DecodeOne, Decode, Partial, Fits, Default, Payload;
    var head := FieldBytes(f, schema[f], m[f]);
    PartialNext(schema, m, f);
    if m[f] == Default(schema[f]) {
      assert head + rest == rest;
    } else {
      FieldRead(schema, Partial(schema, m, f), f, m[f], rest, at);
      DecodeHead(schema, Partial(schema, m, f), head, rest, at, Partial(schema, m, f + 1));
    }
  }

  lemma {:induction false} DecodesFrom(schema: Schema, m: Fields, f: nat, at: int)
    requires IsMessage(schema, m) && f <= |schema| && 0 <= at && at + |EncodeFrom(schema, m, f)| < INT64
    ensures Decode(schema, Partial(schema, m, f), EncodeFrom(schema, m, f), at) == Ok(m)
    decreases |schema| - f
  {
    hide Decode, Fits, FieldBytes;
    if f == |schema| {
      assert Partial(schema, m, f) == m;
      DecodeNone(schema, m, at);
    } else {
      DecodesField(schema, m, f, EncodeFrom(schema, m, f + 1), at);
      DecodesFrom(schema, m, f + 1, at + |FieldBytes(f, schema[f], m[f])|);
    }
  }

  /** Reading undoes writing for every message, negative numbers, unset fields and empty bytes included. */
  lemma RoundTrip(schema: Schema, m: Fields)
    requires IsMessage(schema, m) && |Encode(schema, m)| < INT64
    ensures Decode(schema, Zero(schema), Encode(schema, m), 0) == Ok(m)
  {
    DecodesFrom(schema, m, 0, 0);
    assert Partial(schema, m, 0) == Zero(schema);
  }

  // Concatenation ------------------------------------------------------------------------------------

  lemma TakesLonger(a: seq<byte>, b: seq<byte>, n: nat, length: int, at: int, at': int)
    requires n <= |a| && 0 <= at && at + |a| < INT64 && 0 <= at' && at' + |a + b| < INT64 && length < INT64
    requires TakeBytes(a, n, length, at).Ok?
    ensures TakeBytes(a + b, n, length, at') == TakeBytes(a, n, length, at)
  {
    assert (a + b)[n..n + length] == a[n..n + length];
  }

  /** A field that was read is read the same elsewhere, and with more bytes behind it. */
  lemma FieldLonger(k: Kind, wireType: int, a: seq<byte>, b: seq<byte>, at: int, at': int)
    requires 0 <= at && at + |a| < INT64 && 0 <= at' && at' + |a + b| < INT64
    requires DecodeField(k, wireType, a, at).Ok?
    ensures DecodeField(k, wireType, a + b, at') == DecodeField(k, wireType, a, at)
  {
    hide Extent, Value, TakeBytes;
    ReadLonger(a, b);
    var (x, n) := ReadVarint(a).value;
    assert (a + b)[..n] == a[..n];
    if k == Blob {
      TakesLonger(a, b, n, Signed64(x), at, at');
    }
  }

  lemma SkipsLonger(a: seq<byte>, b: seq<byte>)
    requires |a + b| < INT64 && Skip.SkipFrom(a, 0, 0).Ok? && Skip.SkipFrom(a, 0, 0).value <= |a|
    ensures Skip.SkipFrom(a + b, 0, 0) == Skip.SkipFrom(a, 0, 0)
  {
    hide Skip.SkipFrom, Skip.WellFormed, Skip.Print;
    var n := Skip.SkipFrom(a, 0, 0).value;
    Skip.SkipIsGrammar(a, n);
    Skip.SkipIsGrammar(a + b, n);
    assert (a + b)[..n] == a[..n];
  }

  lemma OneLonger(schema: Schema, m: Fields, a: seq<byte>, b: seq<byte>, at: int, at': int)
    requires |m| == |schema| && 0 <= at && at + |a| < INT64 && 0 <= at' && at' + |a + b| < INT64
    requires DecodeOne(schema, m, a, at).Ok?
    ensures DecodeOne(schema, m, a + b, at') == DecodeOne(schema, m, a, at)
  {
    hide Extent, Value, DecodeField, FieldNumber, Skip.SkipFrom;
    ReadLonger(a, b);
    var (wire, n) := ReadVarint(a).value;
    var f := FieldNumber(wire);
    if f > |schema| {
      SkipsLonger(a, b);
    } else {
      assert (a + b)[n..] == a[n..] + b;
      FieldLonger(schema[f - 1], wire % 8, a[n..], b, at + n, at' + n);
    }
  }

  /** Whether and what a message decodes to does not depend on where in the input it stands. */
  lemma {:induction false} DecodesAnywhere(schema: Schema, m: Fields, s: seq<byte>, at: int, at': int)
    requires |m| == |schema| && 0 <= at && at + |s| < INT64 && 0 <= at' && at' + |s| < INT64
    requires Decode(schema, m, s, at).Ok?
    ensures Decode(schema, m, s, at') == Decode(schema, m, s, at)
    decreases |s|
  {
    hide DecodeOne;
    if s != [] {
      assert s + [] == s;
      OneLonger(schema, m, s, [], at, at');
      var one := DecodeOne(schema, m, s, at).value;
      DecodesAnywhere(schema, one.0, s[one.1..], at + one.1, at' + one.1);
    }
  }

  lemma DecodeTail(schema: Schema, m: Fields, s: seq<byte>, at: int)
    requires |m| == |schema| && 0 < |s| < INT64 && DecodeOne(schema, m, s, at).Ok?
    ensures
      var one := DecodeOne(schema, m, s, at).value;
      Decode(schema, m, s, at) == Decode(schema, one.0, s[one.1..], at + one.1)
  {
  }

  /** What was decoded, followed by more, is decoded the same, and decoding goes on with the rest. */
  lemma {:induction false} DecodesOn(schema: Schema, m: Fields, a: seq<byte>, b: seq<byte>, at: int)
    requires |m| == |schema| && 0 <= at && at + |a + b| < INT64 && Decode(schema, m, a, at).Ok?
    ensures Decode(schema, m, a + b, at) == Decode(schema, Decode(schema, m, a, at).value, b, at + |a|)
    decreases |a|
  {
    hide DecodeOne;
    if a == [] {
      assert a + b == b;
    } else {
      OneLonger(schema, m, a, b, at, at);
      var one := DecodeOne(schema, m, a, at).value;
      assert (a + b)[one.1..] == a[one.1..] + b;
      DecodeTail(schema, m, a + b, at);
      DecodeTail(schema, m, a, at);
      hide Decode;
      DecodesOn(schema, one.0, a[one.1..], b, at + one.1);
    }
  }

  lemma FieldShorter(k: Kind, wireType: int, s: seq<byte>, at: int)
    requires DecodeField(k, wireType, s, at).Ok?
    ensures
      var field := DecodeField(k, wireType, s, at);
      forall m :: field.value.1 <= m <= |s| ==> DecodeField(k, wireType, s[..m], at) == field
  {
    hide Extent, Value;
    var field := DecodeField(k, wireType, s, at);
    var (x, n) := ReadVarint(s).value;
    forall m | field.value.1 <= m <= |s| ensures DecodeField(k, wireType, s[..m], at) == field {
      ReadShorter(s, m);
      assert s[..m][..n] == s[..n];
      if k == Blob {
        assert s[..m][n..n + Signed64(x)] == s[n..n + Signed64(x)];
      }
    }
  }

  lemma SkipsShorter(s: seq<byte>, n: nat)
    requires |s| < INT64 && n <= |s| && Skip.SkipFrom(s, 0, 0) == Ok(n)
    ensures Skip.SkipFrom(s[..n], 0, 0) == Ok(n)
  {
    hide Skip.SkipFrom, Skip.WellFormed, Skip.Print;
    Skip.SkipIsGrammar(s, n);
    Skip.SkipIsGrammar(s[..n], n);
    assert s[..n][..n] == s[..n];
  }

  /** A field needs no byte but its own. */
  lemma OneShorter(schema: Schema, m: Fields, s: seq<byte>, at: int)
    requires |m| == |schema| && |s| < INT64 && DecodeOne(schema, m, s, at).Ok?
    ensures
      var one := DecodeOne(schema, m, s, at);
      DecodeOne(schema, m, s[..one.value.1], at) == one
  {
    hide Extent, Value, DecodeField, FieldNumber, Skip.SkipFrom;
    var one := DecodeOne(schema, m, s, at);
    var (wire, n) := ReadVarint(s).value;
    var f := FieldNumber(wire);
    if f > |schema| {
      SkipsShorter(s, one.value.1);
      SkipReads(s, one.value.1);
    } else {
      ReadShorter(s, one.value.1);
      FieldShorter(schema[f - 1], wire % 8, s[n..], at + n);
      assert s[..one.value.1][n..] == s[n..][..one.value.1 - n];
    }
  }

  /** What is skipped begins with its tag. */
  lemma SkipReads(s: seq<byte>, n: nat)
    requires |s| < INT64 && n <= |s| && Skip.SkipFrom(s, 0, 0) == Ok(n) && ReadVarint(s).Ok?
    ensures ReadVarint(s[..n]) == ReadVarint(s)
  {
    hide ReadVarint;
    SkipsShorter(s, n);
    assert Skip.Step(s[..n], 0).Ok?;
    ReadLonger(s[..n], s[n..]);
    assert s[..n] + s[n..] == s;
  }

  /** At most one field differs: a number, named by the tag, whose varint breaks off. */
  lemma LeavesOne(schema: Schema, m: Fields, s: seq<byte>) returns (f: nat)
    requires |m| == |schema|
    ensures forall g :: 0 <= g < |schema| && g != f ==> LeftByOne(schema, m, s)[g] == m[g]
    ensures f < |schema| && LeftByOne(schema, m, s)[f] != m[f] ==>
        && (schema[f].Int64? || schema[f].Int32?)
        && ReadVarint(s).Ok? && FieldNumber(ReadVarint(s).value.0) == f + 1 && ReadVarint(s).value.0 % 8 == 0
        && ReadVarint(s[ReadVarint(s).value.1..]).Err?
  {
    hide ReadVarint, FieldNumber, Value;
    var tag := ReadVarint(s);
    f := if tag.Err? || FieldNumber(tag.value.0) <= 0 then 0 else FieldNumber(tag.value.0) - 1;
  }

  /** What a failed `Unmarshal` leaves is what the whole fields in front decode to, with at most one number
      overwritten by the groups of a varint that breaks off. */
  lemma {:induction false} FailureLeaves(schema: Schema, m: Fields, s: seq<byte>, at: int) returns (i: nat, p: Fields)
    requires |m| == |schema| && 0 <= at && at + |s| < INT64 && Decode(schema, m, s, at).Err?
    ensures i < |s| && |p| == |schema| && Decode(schema, m, s[..i], at) == Ok(p)
    ensures Left(schema, m, s, at) == LeftByOne(schema, p, s[i..])
    ensures DecodeOne(schema, p, s[i..], at + i) == Err(Decode(schema, m, s, at).error)
    decreases |s|
  {
    hide DecodeOne, LeftByOne;
    var one := DecodeOne(schema, m, s, at);
    if one.Err? {
      assert s[..0] == [] && s[0..] == s;
      return 0, m;
    }
    var n := one.value.1;
    i, p := FailureLeaves(schema, one.value.0, s[n..], at + n);
    var head, middle := s[..n], s[n..][..i];
    OneShorter(schema, m, s, at);
    assert head[n..] == [];
    assert s[..n + i] == head + middle && s[n..][i..] == s[n + i..];
    DecodesOn(schema, m, head, middle, at);
    i := n + i;
  }

  /** Concatenation is sequential decoding: if a decodes, a followed by b decodes exactly when b decodes
      into what a left, and to the same message. */
  lemma Concatenation(schema: Schema, m: Fields, a: seq<byte>, b: seq<byte>)
    requires |m| == |schema| && |a + b| < INT64 && Decode(schema, m, a, 0).Ok?
    ensures
      var whole := Decode(schema, m, a + b, 0);
      var sequential := Decode(schema, Decode(schema, m, a, 0).value, b, 0);
      whole.Ok? == sequential.Ok? && (whole.Ok? ==> whole == sequential)
  {
    hide Decode;
    DecodesOn(schema, m, a, b, 0);
    var m' := Decode(schema, m, a, 0).value;
    if Decode(schema, m', b, 0).Ok? {
      DecodesAnywhere(schema, m', b, 0, |a|);
    } else if Decode(schema, m', b, |a|).Ok? {
      DecodesAnywhere(schema, m', b, |a|, 0);
    }
  }

  /** A field the table does not have leaves no trace, wherever between two messages it stands. */
  lemma UnknownFieldIgnored(schema: Schema, m: Fields, f: Skip.Field, rest: seq<byte>)
    requires |m| == |schema| && |Skip.Print(f) + rest| < INT64 && Skip.WellFormed(f)
    requires FieldNumber(Value(f.tag) % UINT64) > |schema|
    ensures
      var r, r' := Decode(schema, m, Skip.Print(f) + rest, 0), Decode(schema, m, rest, 0);
      r.Ok? == r'.Ok? && (r.Ok? ==> r == r')
  {
    var s := Skip.Print(f);
    UnknownFieldRead(schema, m, f);
    Concatenation(schema, m, s, rest);
  }

  lemma UnknownFieldRead(schema: Schema, m: Fields, f: Skip.Field)
    requires |m| == |schema| && |Skip.Print(f)| < INT64 && Skip.WellFormed(f)
    requires FieldNumber(Value(f.tag) % UINT64) > |schema|
    ensures Decode(schema, m, Skip.Print(f), 0) == Ok(m)
  {
    hide Extent, Value, FieldNumber, Skip.WellFormed, Skip.SkipFrom, Skip.Print, Decode, ReadVarint;
    var s := Skip.Print(f);
    assert s + [] == s;
    Skip.SkipsField(f, [], 0, 0);
    Skip.TagFirst(f);
    Skip.PrintNonEmpty(f);
    assert s[|s|..] == [];
    DecodeTail(schema, m, s, 0);
    DecodeNone(schema, m, |s|);
  }

  // The two messages -----------------------------------------------------------------------------------

  datatype GlobalSession = GlobalSession(addressing: seq<byte>, xid: seq<byte>, transactionID: int, transactionName: seq<byte>,
                                         timeout: int, beginTime: int, status: int, active: bool)

  datatype BranchSession = BranchSession(addressing: seq<byte>, xid: seq<byte>, branchID: int, transactionID: int,
                                         resourceID: seq<byte>, lockKey: seq<byte>, branchType: int, status: int,
                                         applicationData: seq<byte>, asyncCommit: bool)

  const GLOBAL_SESSION: Schema := [Blob, Blob, Int64, Blob, Int32, Int64, Int32, Boolean]
  const BRANCH_SESSION: Schema := [Blob, Blob, Int64, Int64, Blob, Blob, Int32, Int32, Blob, Boolean]

  function GlobalFields(g: GlobalSession): Fields
  {
    [Text(g.addressing), Text(g.xid), Number(g.transactionID), Text(g.transactionName), Number(g.timeout),
     Number(g.beginTime), Number(g.status), Flag(g.active)]
  }

  function GlobalOf(m: Fields): GlobalSession
    requires IsMessage(GLOBAL_SESSION, m)
  {
    GlobalSession(m[0].b, m[1].b, m[2].n, m[3].b, m[4].n, m[5].n, m[6].n, m[7].f)
  }

  function BranchFields(b: BranchSession): Fields
  {
    [Text(b.addressing), Text(b.xid), Number(b.branchID), Number(b.transactionID), Text(b.resourceID), Text(b.lockKey),
     Number(b.branchType), Number(b.status), Text(b.applicationData), Flag(b.asyncCommit)]
  }

  function BranchOf(m: Fields): BranchSession
    requires IsMessage(BRANCH_SESSION, m)
  {
    BranchSession(m[0].b, m[1].b, m[2].n, m[3].n, m[4].b, m[5].b, m[6].n, m[7].n, m[8].b, m[9].f)
  }

  /** The fields are of their Go types: int64, int32 and the int32 enumerations. */
  predicate IsGlobalSession(g: GlobalSession)
  {
    && |g.addressing| < INT64 && |g.xid| < INT64 && |g.transactionName| < INT64
    && IsInt64(g.transactionID) && IsInt32(g.timeout) && IsInt64(g.beginTime) && IsInt32(g.status)
  }

  predicate IsBranchSession(b: BranchSession)
  {
    && |b.addressing| < INT64 && |b.xid| < INT64 && |b.resourceID| < INT64 && |b.lockKey| < INT64 && |b.applicationData| < INT64
    && IsInt64(b.branchID) && IsInt64(b.transactionID) && IsInt32(b.branchType) && IsInt32(b.status)
  }

  function Tags(schema: Schema): seq<int>
  {
    seq(|schema|, f requires 0 <= f < |schema| => 8 * (f + 1) + WireType(schema[f]))
  }

  /** The tag bytes that the generated code has as constants. */
  lemma TagConstants()
    ensures Tags(GLOBAL_SESSION) == [0xa, 0x12, 0x18, 0x22, 0x28, 0x30, 0x38, 0x40]
    ensures Tags(BRANCH_SESSION) == [0xa, 0x12, 0x18, 0x20, 0x2a, 0x32, 0x38, 0x40, 0x4a, 0x50]
  {
  }

  /** Every GlobalSession survives, */
  lemma GlobalSessionRoundTrip(g: GlobalSession)
    requires IsGlobalSession(g) && |Encode(GLOBAL_SESSION, GlobalFields(g))| < INT64
    ensures
      var r := Decode(GLOBAL_SESSION, Zero(GLOBAL_SESSION), Encode(GLOBAL_SESSION, GlobalFields(g)), 0);
      r.Ok? && IsMessage(GLOBAL_SESSION, r.value) && GlobalOf(r.value) == g
  {
    hide Decode, Encode, Zero;
    RoundTrip(GLOBAL_SESSION, GlobalFields(g));
  }

  /** and so does every BranchSession. */
  lemma BranchSessionRoundTrip(b: BranchSession)
    requires IsBranchSession(b) && |Encode(BRANCH_SESSION, BranchFields(b))| < INT64
    ensures
      var r := Decode(BRANCH_SESSION, Zero(BRANCH_SESSION), Encode(BRANCH_SESSION, BranchFields(b)), 0);
      r.Ok? && IsMessage(BRANCH_SESSION, r.value) && BranchOf(r.value) == b
  {
    hide Decode, Encode, Zero;
    RoundTrip(BRANCH_SESSION, BranchFields(b));
  }
}
