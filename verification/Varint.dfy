/** Base-128 varints as pkg/apis/seata.pb.go writes and reads them (Protocol Buffers Encoding, "Base 128
    Varints"). A uint64 is an integer below 2^64. */
module Varint {
  type byte = x: int | 0 <= x < 256

  const UINT64: int := 0x1_0000_0000_0000_0000
  const INT64: int := 0x8000_0000_0000_0000
  const UINT32: int := 0x1_0000_0000

  predicate IsUint64(v: int) { 0 <= v < UINT64 }
  predicate IsInt64(n: int) { -INT64 <= n < INT64 }
  predicate IsInt32(n: int) { -0x8000_0000 <= n < 0x8000_0000 }

  /** `uint64(n)`, sign-extending an int32, and back. */
  function Unsigned(n: int): int { n % UINT64 }
  function Signed64(v: int): int { (v + INT64) % UINT64 - INT64 }
  function Signed32(v: int): int { (v + 0x8000_0000) % UINT32 - 0x8000_0000 }

  lemma SignedUnsigned(n: int)
    ensures IsInt64(n) ==> Signed64(Unsigned(n)) == n && IsUint64(Unsigned(n))
    ensures IsInt32(n) ==> Signed32(Unsigned(n) % UINT32) == n
  {
  }

  // Writing ------------------------------------------------------------------------------------------

  /** The bytes of v, least significant group first, every one but the last marked. */
  function Bytes(v: int): (s: seq<byte>)
    requires v >= 0
    ensures |s| >= 1
    decreases v
  {
    if v < 128 then [v] else [v % 128 + 128] + Bytes(v / 128)
  }

  /** `bits.Len64` */
  function Len(x: int): (n: int)
    requires x >= 0
    ensures n >= 0
    decreases x
  {
    if x == 0 then 0 else 1 + Len(x / 2)
  }

  /** `x | 1` */
  function Odd(x: int): int { if x % 2 == 0 then x + 1 else x }

  function SovSeata(x: int): int
    requires x >= 0
  {
    (Len(Odd(x)) + 6) / 7
  }

  lemma LenShift7(x: int)
    requires x >= 128
    ensures Len(x) == 7 + Len(x / 128)
  {
    assert x / 2 / 2 / 2 / 2 / 2 / 2 / 2 == x / 128;
    assert Len(x) == 1 + Len(x / 2);
    assert Len(x / 2) == 1 + Len(x / 2 / 2);
    assert Len(x / 2 / 2) == 1 + Len(x / 2 / 2 / 2);
    assert Len(x / 2 / 2 / 2) == 1 + Len(x / 2 / 2 / 2 / 2);
    assert Len(x / 2 / 2 / 2 / 2) == 1 + Len(x / 2 / 2 / 2 / 2 / 2);
    assert Len(x / 2 / 2 / 2 / 2 / 2) == 1 + Len(x / 2 / 2 / 2 / 2 / 2 / 2);
  }

  lemma {:induction false} LenSmall(x: int, n: nat, bound: int)
    requires 0 <= x < bound && bound == Pow2(n)
    ensures Len(x) <= n
  {
    if x > 0 {
      assert n > 0;
      LenSmall(x / 2, n - 1, Pow2(n - 1));
    }
  }

  function Pow2(n: nat): (p: int)
    ensures p >= 1
  {
    if n == 0 then 1 else 2 * Pow2(n - 1)
  }

  /** Setting the lowest bit changes the length of zero only. */
  lemma LenOdd(x: int)
    requires x >= 0
    ensures Len(Odd(x)) == if x == 0 then 1 else Len(x)
  {
    assert Odd(x) / 2 == x / 2;
    assert Len(Odd(x)) == 1 + Len(x / 2);
  }

  /** `sovSeata` is exact: it is the number of bytes written. */
  lemma {:induction false} SovIsExact(v: int)
    requires v >= 0
    ensures SovSeata(v) == |Bytes(v)|
    decreases v
  {
    LenOdd(v);
    if v < 128 {
      assert Pow2(7) == 128;
      LenSmall(v, 7, 128);
    } else {
      LenShift7(v);
      LenOdd(v / 128);
      SovIsExact(v / 128);
    }
  }

  /** A uint64 takes at most ten. */
  lemma {:induction false} AtMost(v: int, n: nat, bound: int)
    requires 0 <= v < bound && bound == Pow128(n) && n > 0
    ensures |Bytes(v)| <= n
    decreases n
  {
    if v >= 128 {
      assert n > 1;
      AtMost(v / 128, n - 1, Pow128(n - 1));
    }
  }

  function Pow128(n: nat): (p: int)
    ensures p >= 1
  {
    if n == 0 then 1 else 128 * Pow128(n - 1)
  }

  lemma TenBytes(v: int)
    requires IsUint64(v)
    ensures |Bytes(v)| <= 10
  {
    assert Pow128(10) == 0x40_0000_0000_0000_0000;
    AtMost(v, 10, Pow128(10));
  }

  /** `encodeVarintSeata`: the bytes end where `offset` was; it returns where they start. */
  method EncodeVarintSeata(dAtA: array<byte>, offset: int, value: int) returns (base: int)
    requires IsUint64(value) && SovSeata(value) <= offset <= dAtA.Length
    modifies dAtA
    ensures base == offset - SovSeata(value) && dAtA[base..offset] == Bytes(value)
    ensures dAtA[..base] == old(dAtA[..base]) && dAtA[offset..] == old(dAtA[offset..])
  {
    SovIsExact(value);
    hide SovSeata;
    base := offset - SovSeata(value);
    var v, at := value, base;
    ghost var all, written := Bytes(value), 0;
    assert all[0..] == all;
    while v >= 128
      invariant v >= 0 && 0 <= written <= |all| && at == base + written && Bytes(v) == all[written..]
      invariant forall j :: 0 <= j < written ==> dAtA[base + j] == all[j]
      invariant forall j :: 0 <= j < base || offset <= j < dAtA.Length ==> dAtA[j] == old(dAtA[j])
      decreases v
    {
      BytesNext(v);
      assert all[written] == Bytes(v)[0];
      dAtA[at] := v % 128 + 128;
      v := v / 128;
      at := at + 1;
      written := written + 1;
    }
    assert all[written] == v && written + 1 == |all|;
    dAtA[at] := v;
  }

  lemma BytesNext(v: int)
    requires v >= 128
    ensures Bytes(v)[0] == v % 128 + 128 && Bytes(v)[1..] == Bytes(v / 128)
  {
  }

  // Reading ------------------------------------------------------------------------------------------

  datatype Error =
    | IntOverflow | UnexpectedEOF | InvalidLength | UnexpectedEndOfGroup
    | EndGroupForNonGroup | IllegalTag | WrongWireType | IllegalWireType

  datatype Result<T> = Ok(value: T) | Err(error: Error)

  /** How many bytes the varint at the head of s takes when k were read before: at most ten in all. */
  function Extent(s: seq<byte>, k: nat): (r: Result<nat>)
    ensures r.Ok? ==> 1 <= r.value <= |s|
    decreases |s|
  {
    if k >= 10 then Err(IntOverflow)
    else if s == [] then Err(UnexpectedEOF)
    else if s[0] < 128 then Ok(1)
    else
      var rest := Extent(s[1..], k + 1);
      if rest.Ok? then Ok(rest.value + 1) else rest
  }

  function Value(s: seq<byte>): (v: int)
    ensures v >= 0
  {
    if s == [] then 0 else s[0] % 128 + 128 * Value(s[1..])
  }

  /** What is left of the tenth byte in a uint64 is its lowest bit. */
  function ReadVarint(s: seq<byte>): (r: Result<(int, nat)>)
    ensures r.Ok? ==> IsUint64(r.value.0) && 1 <= r.value.1 <= |s|
  {
    var n := Extent(s, 0);
    if n.Ok? then Ok((Value(s[..n.value]) % UINT64, n.value)) else Err(n.error)
  }

  /** `a | b` */
  function Or(a: int, b: int): (r: int)
    requires a >= 0 && b >= 0
    ensures r >= 0
    decreases a + b
  {
    if a == 0 && b == 0 then 0 else (if a % 2 == 0 && b % 2 == 0 then 0 else 1) + 2 * Or(a / 2, b / 2)
  }

  /** `x << shift` in an integer type with `modulus` values */
  function Shifted(x: int, shift: nat, modulus: int): (r: int)
    requires x >= 0 && modulus > 0
    ensures 0 <= r < modulus
  {
    x * Pow2(shift) % modulus
  }

  lemma {:induction false} OrZero(b: int)
    requires b >= 0
    ensures Or(0, b) == b
    decreases b
  {
    if b > 0 {
      OrZero(b / 2);
    }
  }

  lemma HalfAMultiple(b: int, k: nat)
    requires b >= 0 && k > 0 && b % Pow2(k) == 0
    ensures b % 2 == 0 && b / 2 % Pow2(k - 1) == 0
  {
    var p, q := Pow2(k - 1), b / Pow2(k);
    assert b == 2 * p * q == 2 * (p * q);
    assert b / 2 == p * q;
    MultipleModulo(p, q);
  }

  lemma MultipleModulo(p: int, q: int)
    requires p > 0
    ensures p * q % p == 0
  {
    ModuloIs(p * q, p, q, 0);
  }

  lemma ModuloIs(n: int, m: int, d: int, r: int)
    requires n == m * d + r && 0 <= r < m
    ensures n % m == r
  {
    var e := n / m - d;
    assert n % m - r == -m * e;
  }

  /** Joining bits with bits that lie above them adds them. */
  lemma {:induction false} OrIsSum(a: int, b: int, k: nat)
    requires 0 <= a < Pow2(k) && b >= 0 && b % Pow2(k) == 0
    ensures Or(a, b) == a + b
    decreases k
  {
    if k == 0 {
      OrZero(b);
    } else {
      HalfAMultiple(b, k);
      OrIsSum(a / 2, b / 2, k - 1);
    }
  }

  lemma {:induction false} Pow2Add(a: nat, b: nat)
    ensures Pow2(a + b) == Pow2(a) * Pow2(b)
  {
    if a > 0 {
      Pow2Add(a - 1, b);
    }
  }

  lemma Pow2Width()
    ensures Pow2(32) == UINT32 && Pow2(64) == UINT64
  {
    assert Pow2(8) == 0x100;
    hide Pow2;
    Pow2Add(8, 8);
    assert Pow2(16) == 0x1_0000;
    Pow2Add(16, 16);
    Pow2Add(32, 32);
  }

  lemma TimesModulo(x: int, p: int, q: int)
    requires x >= 0 && p > 0 && q > 0
    ensures x * p % (p * q) == p * (x % q)
    ensures p * (x % q) + p <= p * q
  {
    var n, r := x / q, x % q;
    assert x * p == (p * q) * n + p * r by {
      assert x == q * n + r;
      assert p * (q * n) == (p * q) * n;
    }
    assert p * (r + 1) <= p * q;
    ModuloIs(x * p, p * q, n, p * r);
  }

  /** A group shifted out of an accumulator has left nothing in it, */
  lemma ShiftedOut(x: int, shift: nat, bits: nat)
    requires x >= 0 && shift >= bits
    ensures Shifted(x, shift, Pow2(bits)) == 0
  {
    hide Pow2;
    Pow2Add(bits, shift - bits);
    var p, d := Pow2(bits), Pow2(shift - bits);
    assert x * (p * d) == p * (x * d);
    MultipleModulo(p, x * d);
  }

  /** and one shifted inside lies above the bits that were there. */
  lemma ShiftedAbove(x: int, shift: nat, bits: nat)
    requires x >= 0 && shift < bits
    ensures Shifted(x, shift, Pow2(bits)) % Pow2(shift) == 0
    ensures Shifted(x, shift, Pow2(bits)) + Pow2(shift) <= Pow2(bits)
  {
    hide Pow2;
    Pow2Add(shift, bits - shift);
    var p, q := Pow2(shift), Pow2(bits - shift);
    TimesModulo(x, p, q);
    MultipleModulo(p, x % q);
  }

  lemma {:induction false} PowersOf128(j: nat)
    ensures Pow128(j) == Pow2(7 * j)
  {
    if j > 0 {
      PowersOf128(j - 1);
      assert Pow2(7) == 128;
      Pow2Add(7, 7 * (j - 1));
    }
  }

  /** What j groups make fits below the next one. */
  lemma {:induction false} ValueBelow(s: seq<byte>)
    ensures Value(s) < Pow2(7 * |s|)
  {
    if s != [] {
      ValueBelow(s[1..]);
      assert Pow2(7) == 128;
      Pow2Add(7, 7 * |s[1..]|);
    }
  }

  /** So the `|` of the loop joins disjoint bits, in an accumulator of 32 bits as in one of 64, */
  lemma OrGroup(wire: int, x: int, shift: nat, modulus: int)
    requires (modulus == UINT64 || modulus == UINT32) && x >= 0
    requires 0 <= wire < modulus && wire < Pow2(shift)
    ensures Or(wire, Shifted(x, shift, modulus)) == wire + Shifted(x, shift, modulus) < modulus
  {
    Pow2Width();
    hide Or, Shifted, Pow2;
    var bits := if modulus == UINT64 then 64 else 32;
    if shift < bits {
      ShiftedAbove(x, shift, bits);
    } else {
      ShiftedOut(x, shift, bits);
    }
    OrIsSum(wire, Shifted(x, shift, modulus), shift);
  }

  /** and leaves there what the groups read so far make, modulo its size. */
  lemma OrNext(s: seq<byte>, j: nat, modulus: int)
    requires j < |s| && (modulus == UINT64 || modulus == UINT32)
    ensures Or(Value(s[..j]) % modulus, Shifted(s[j] % 128, 7 * j, modulus)) == Value(s[..j + 1]) % modulus
  {
    hide Or, Shifted, Value, Pow2, Pow128;
    var wire, x := Value(s[..j]) % modulus, s[j] % 128;
    ValueBelow(s[..j]);
    RemainderBelow(Value(s[..j]), modulus);
    OrGroup(wire, x, 7 * j, modulus);
    ValueNext(s, j, modulus);
    PowersOf128(j);
    ShiftedIs(x, 7 * j, modulus);
    SumModulo(wire, Pow128(j) * x, modulus);
  }

  lemma ShiftedIs(x: int, shift: nat, modulus: int)
    requires x >= 0 && modulus > 0
    ensures Shifted(x, shift, modulus) == Pow2(shift) * x % modulus
  {
    hide Pow2;
  }

  lemma RemainderBelow(v: int, modulus: int)
    requires v >= 0 && modulus > 0
    ensures v % modulus <= v
  {
  }

  lemma SumModulo(a: int, b: int, m: int)
    requires (m == UINT64 || m == UINT32) && 0 <= a && a + b % m < m
    ensures (a + b) % m == a + b % m
  {
  }

  lemma {:induction false} ValueAppend(s: seq<byte>, b: byte)
    ensures Value(s + [b]) == Value(s) + Pow128(|s|) * (b % 128)
  {
    if s != [] {
      assert (s + [b])[1..] == s[1..] + [b];
      ValueAppend(s[1..], b);
      var p, x := Pow128(|s| - 1), b % 128;
      assert 128 * (p * x) == (128 * p) * x;
    }
  }

  lemma {:induction false} ExtentFrom(s: seq<byte>, k: nat, j: nat)
    requires j <= |s| && k + j <= 10 && forall i :: 0 <= i < j ==> s[i] >= 128
    ensures Extent(s, k) == (var rest := Extent(s[j..], k + j); if rest.Ok? then Ok(rest.value + j) else rest)
    decreases j
  {
    if j == 0 {
      assert s[0..] == s;
    } else {
      ExtentFrom(s[1..], k + 1, j - 1);
      assert s[1..][j - 1..] == s[j..];
    }
  }

  /** Where the loop stands after j marked bytes. */
  lemma ExtentAt(s: seq<byte>, j: nat)
    requires j <= |s| && j <= 10 && forall i :: 0 <= i < j ==> s[i] >= 128
    ensures j == 10 ==> Extent(s, 0) == Err(IntOverflow)
    ensures j < 10 && j == |s| ==> Extent(s, 0) == Err(UnexpectedEOF)
    ensures j < 10 && j < |s| && s[j] < 128 ==> Extent(s, 0) == Ok(j + 1)
  {
    ExtentFrom(s, 0, j);
  }

  lemma ValueNext(s: seq<byte>, j: nat, modulus: int)
    requires j < |s| && (modulus == UINT64 || modulus == UINT32)
    ensures Value(s[..j + 1]) % modulus == (Value(s[..j]) % modulus + Pow128(j) * (s[j] % 128)) % modulus
  {
    assert s[..j + 1] == s[..j] + [s[j]];
    ValueAppend(s[..j], s[j]);
    AddModulo(Value(s[..j]), Pow128(j) * (s[j] % 128), modulus);
  }

  /** The groups that a varint's loop reads before it breaks off. */
  function Groups(s: seq<byte>): nat { if |s| < 10 then |s| else 10 }

  /** The loop that every field inlines, with an accumulator `wire` of 32 or 64 bits. */
  method DecodeVarint(dAtA: array<byte>, start: int, modulus: int) returns (r: Result<int>, iNdEx: int, wire: int)
    requires 0 <= start <= dAtA.Length && (modulus == UINT64 || modulus == UINT32)
    ensures r.Ok? <==> Extent(dAtA[start..], 0).Ok?
    ensures r.Err? ==> r.error == Extent(dAtA[start..], 0).error
    ensures r.Ok? ==>
      var n := Extent(dAtA[start..], 0).value;
      iNdEx == start + n && r.value == wire == Value(dAtA[start..][..n]) % modulus
    ensures r.Err? ==> wire == Value(dAtA[start..][..Groups(dAtA[start..])]) % modulus
  {
    hide Extent, Value, Or, Shifted;
    ghost var s := dAtA[start..];
    iNdEx := start;
    wire := 0;
    var shift := 0;
    assert Value(s[..0]) == 0 by { ValueNone(); }
    while true
      invariant start <= iNdEx <= dAtA.Length && shift == 7 * (iNdEx - start) && shift <= 70
      invariant forall i :: 0 <= i < iNdEx - start ==> s[i] >= 128
      invariant wire == Value(s[..iNdEx - start]) % modulus
      decreases dAtA.Length - iNdEx
    {
      ghost var j := iNdEx - start;
      ExtentAt(s, j);
      if shift >= 64 {
        return Err(IntOverflow), iNdEx, wire;
      }
      if iNdEx >= dAtA.Length {
        return Err(UnexpectedEOF), iNdEx, wire;
      }
      var b := dAtA[iNdEx];
      assert b == s[j];
      OrNext(s, j, modulus);
      iNdEx := iNdEx + 1;
      wire := Or(wire, Shifted(b % 128, shift, modulus));
      if b < 128 {
        return Ok(wire), iNdEx, wire;
      }
      shift := shift + 7;
    }
  }

  lemma ValueNone()
    ensures Value([]) == 0
  {
  }

  lemma AddModulo(a: int, b: int, m: int)
    requires m == UINT64 || m == UINT32
    ensures (a % m + b) % m == (a + b) % m
  {
  }

  lemma {:induction false} ExtentOfBytes(v: int, rest: seq<byte>, k: nat)
    requires v >= 0 && k + |Bytes(v)| <= 10
    ensures Extent(Bytes(v) + rest, k) == Ok(|Bytes(v)|)
    decreases v
  {
    if v >= 128 {
      assert (Bytes(v) + rest)[1..] == Bytes(v / 128) + rest;
      ExtentOfBytes(v / 128, rest, k + 1);
    }
  }

  lemma {:induction false} ValueOfBytes(v: int)
    requires v >= 0
    ensures Value(Bytes(v)) == v
    decreases v
  {
    if v >= 128 {
      ValueOfBytes(v / 128);
    }
  }

  /** Reading undoes writing, whatever follows. */
  lemma ReadBytes(v: int, rest: seq<byte>)
    requires IsUint64(v)
    ensures ReadVarint(Bytes(v) + rest) == Ok((v, |Bytes(v)|))
  {
    TenBytes(v);
    ExtentOfBytes(v, rest, 0);
    ValueOfBytes(v);
    assert (Bytes(v) + rest)[..|Bytes(v)|] == Bytes(v);
  }

  /** A varint that was read is read the same when more bytes follow. */
  lemma {:induction false} ExtentLonger(a: seq<byte>, b: seq<byte>, k: nat)
    requires Extent(a, k).Ok?
    ensures Extent(a + b, k) == Extent(a, k)
    decreases |a|
  {
    assert (a + b)[1..] == a[1..] + b;
    if a[0] >= 128 {
      ExtentLonger(a[1..], b, k + 1);
    }
  }

  /** Nor does it need more than its own bytes. */
  lemma {:induction false} ExtentShorter(s: seq<byte>, k: nat, m: nat)
    requires Extent(s, k).Ok? && Extent(s, k).value <= m <= |s|
    ensures Extent(s[..m], k) == Extent(s, k)
    decreases |s|
  {
    assert s[..m][1..] == s[1..][..m - 1];
    if s[0] >= 128 {
      ExtentShorter(s[1..], k + 1, m - 1);
    }
  }

  lemma ReadShorter(s: seq<byte>, m: nat)
    requires ReadVarint(s).Ok? && ReadVarint(s).value.1 <= m <= |s|
    ensures ReadVarint(s[..m]) == ReadVarint(s)
  {
    ExtentShorter(s, 0, m);
    var n := Extent(s, 0).value;
    assert s[..m][..n] == s[..n];
  }

  lemma ReadLonger(a: seq<byte>, b: seq<byte>)
    requires ReadVarint(a).Ok?
    ensures ReadVarint(a + b) == ReadVarint(a)
  {
    ExtentLonger(a, b, 0);
    var n := Extent(a, 0).value;
    assert (a + b)[..n] == a[..n];
  }
}
