/** The operations of Go's `strings` and `strconv` packages that the lock-key parser and the XID
    functions use, with the exact results of the Go library on every input. */
module Text {

  /** `strings.Index` for a one-character separator: the first position, or -1. */
  function Index(s: string, c: char): (i: int)
    ensures -1 <= i < |s|
    ensures i < 0 <==> c !in s
    ensures i >= 0 ==> s[i] == c && c !in s[..i]
  {
    if s == "" then -1
    else if s[0] == c then 0
    else
      var i := Index(s[1..], c);
      if i < 0 then -1 else assert s[..i + 1] == [s[0]] + s[1..][..i]; i + 1
  }

  /** `strings.LastIndex`: the last position, or -1. */
  function LastIndex(s: string, c: char): (i: int)
    ensures -1 <= i < |s|
    ensures i < 0 <==> c !in s
    ensures i >= 0 ==> s[i] == c && c !in s[i + 1..]
  {
    if s == "" then -1
    else if s[|s| - 1] == c then |s| - 1
    else
      var init := s[..|s| - 1];
      var i := LastIndex(init, c);
      assert s == init + [s[|s| - 1]];
      if i < 0 then -1 else assert s[i + 1..] == init[i + 1..] + [s[|s| - 1]]; i
  }

  /** `strings.Split`: the pieces between separators, one more than there are separators. */
  function Split(s: string, sep: char): (parts: seq<string>)
    ensures |parts| > 0
    ensures forall p :: p in parts ==> sep !in p
    decreases |s|
  {
    var i := Index(s, sep);
    if i < 0 then [s] else [s[..i]] + Split(s[i + 1..], sep)
  }

  function Join(parts: seq<string>, sep: char): string
  {
    if parts == [] then ""
    else if |parts| == 1 then parts[0]
    else parts[0] + [sep] + Join(parts[1..], sep)
  }

  lemma {:induction false} IndexAt(s: string, i: nat, c: char)
    requires i < |s| && s[i] == c && c !in s[..i]
    ensures Index(s, c) == i
  {
    if i > 0 {
      assert s[0] == s[..i][0];
      assert s[1..][..i - 1] == s[..i][1..];
      IndexAt(s[1..], i - 1, c);
    }
  }

  lemma {:induction false} LastIndexAt(s: string, i: nat, c: char)
    requires i < |s| && s[i] == c && c !in s[i + 1..]
    ensures LastIndex(s, c) == i
  {
    if i < |s| - 1 {
      var init := s[..|s| - 1];
      assert s[i + 1..] == init[i + 1..] + [s[|s| - 1]];
      LastIndexAt(init, i, c);
    }
  }

  lemma SplitCons(head: string, rest: string, sep: char)
    requires sep !in head
    ensures Split(head + [sep] + rest, sep) == [head] + Split(rest, sep)
  {
    var s := head + [sep] + rest;
    assert s[..|head|] == head && s[|head| + 1..] == rest;
    IndexAt(s, |head|, sep);
  }

  /** Splitting undoes joining when no piece holds the separator. */
  lemma {:induction false} SplitJoin(parts: seq<string>, sep: char)
    requires |parts| > 0
    requires forall p :: p in parts ==> sep !in p
    ensures Split(Join(parts, sep), sep) == parts
  {
    if |parts| > 1 {
      SplitCons(parts[0], Join(parts[1..], sep), sep);
      SplitJoin(parts[1..], sep);
    } else {
      assert parts == [parts[0]];
    }
  }

  // Decimal integers ---------------------------------------------------------------------------

  const INT64_MAX: int := 0x7FFF_FFFF_FFFF_FFFF
  const INT64_MIN: int := -0x8000_0000_0000_0000
  const UINT64_MAX: int := 0xFFFF_FFFF_FFFF_FFFF

  predicate IsInt64(n: int) { INT64_MIN <= n <= INT64_MAX }

  function Digit(d: int): (c: char)
    requires 0 <= d < 10
    ensures IsDigit(c) && DigitValue(c) == d
  {
    '0' + (d as char)
  }

  predicate IsDigit(c: char) { '0' <= c <= '9' }

  function DigitValue(c: char): (d: int)
    requires IsDigit(c)
    ensures 0 <= d < 10
  {
    c as int - '0' as int
  }

  function DecimalNat(n: nat): (s: string)
    ensures |s| > 0 && forall c :: c in s ==> IsDigit(c)
  {
    if n < 10 then [Digit(n)] else DecimalNat(n / 10) + [Digit(n % 10)]
  }

  /** The verb `%d`. */
  function Decimal(n: int): (s: string)
    ensures |s| > 0 && ':' !in s
  {
    if n < 0 then "-" + DecimalNat(-n) else DecimalNat(n)
  }

  datatype Scan = Number(n: nat) | Syntax | Range

  /** The digit loop of `strconv.ParseUint(s, 10, 64)`: it stops at the first bad character or at the
      first digit that overflows 64 bits, whichever comes first. */
  function ScanUint(s: string, acc: nat): Scan
  {
    if s == "" then Number(acc)
    else if !IsDigit(s[0]) then Syntax
    else
      var n := acc * 10 + DigitValue(s[0]);
      if n > UINT64_MAX then Range else ScanUint(s[1..], n)
  }

  /** `strconv.ParseInt(s, 10, 64)` with the error dropped: 0 on bad syntax, the nearest bound when
      out of range. */
  function ParseInt(s: string): (n: int)
    ensures IsInt64(n)
  {
    var neg := s != "" && s[0] == '-';
    var digits := if s != "" && (s[0] == '-' || s[0] == '+') then s[1..] else s;
    if digits == "" then 0
    else
      match ScanUint(digits, 0)
      case Syntax => 0
      case Range => if neg then INT64_MIN else INT64_MAX
      case Number(m) =>
        var u: int := m;
        if !neg && u > INT64_MAX then INT64_MAX
        else if neg && u > INT64_MAX + 1 then INT64_MIN
        else if neg then -u else u
  }

  lemma {:induction false} ScanAppend(s: string, t: string, acc: nat)
    requires ScanUint(s, acc).Number?
    ensures ScanUint(s + t, acc) == ScanUint(t, ScanUint(s, acc).n)
  {
    if s == "" {
      assert s + t == t;
    } else {
      assert (s + t)[1..] == s[1..] + t;
      ScanAppend(s[1..], t, acc * 10 + DigitValue(s[0]));
    }
  }

  lemma {:induction false} ScanDecimal(n: nat)
    requires n <= UINT64_MAX
    ensures ScanUint(DecimalNat(n), 0) == Number(n)
  {
    if n < 10 {
      var s := DecimalNat(n);
      assert s[1..] == "" && DigitValue(s[0]) == n;
      assert ScanUint(s[1..], n) == Number(n);
    } else {
      ScanDecimal(n / 10);
      var last := [Digit(n % 10)];
      ScanAppend(DecimalNat(n / 10), last, 0);
      assert last[1..] == "";
      assert ScanUint(last[1..], n) == Number(n);
    }
  }

  /** Parsing undoes printing for every int64. */
  lemma ParseDecimal(n: int)
    requires IsInt64(n)
    ensures ParseInt(Decimal(n)) == n
  {
    if n < 0 {
      ScanDecimal(-n);
      assert Decimal(n)[1..] == DecimalNat(-n);
    } else {
      ScanDecimal(n);
      assert IsDigit(DecimalNat(n)[0]);
    }
  }

  // Other texts ------------------------------------------------------------------------------------------

  predicate Digits(s: string) { forall c :: c in s ==> IsDigit(c) }

  /** The number that digits go on from acc to stand for. */
  function NumberOf(s: string, acc: nat): (n: nat)
    requires Digits(s)
    ensures n >= acc
  {
    if s == "" then acc else assert s[0] in s; NumberOf(s[1..], acc * 10 + DigitValue(s[0]))
  }

  lemma {:induction false} ScanDigits(s: string, acc: nat)
    requires Digits(s) && acc <= UINT64_MAX
    ensures ScanUint(s, acc) == if NumberOf(s, acc) > UINT64_MAX then Range else Number(NumberOf(s, acc))
  {
    if s != "" {
      assert s[0] in s;
      var n := acc * 10 + DigitValue(s[0]);
      if n <= UINT64_MAX {
        ScanDigits(s[1..], n);
      }
    }
  }

  /** A number that an int64 cannot hold becomes the nearest bound, with either sign. */
  lemma ParseDigits(s: string)
    requires Digits(s) && s != ""
    ensures ParseInt(s) == ParseInt("+" + s) == if NumberOf(s, 0) > INT64_MAX then INT64_MAX else NumberOf(s, 0)
    ensures var n: int := NumberOf(s, 0); ParseInt("-" + s) == if -n < INT64_MIN then INT64_MIN else -n
  {
    assert s[0] in s;
    ScanDigits(s, 0);
    assert ("+" + s)[1..] == s && ("-" + s)[1..] == s;
    hide NumberOf, ScanUint;
  }

  /** A character that is no digit, behind a number that 64 bits hold, makes it 0. */
  lemma ParseBad(s: string, c: char, t: string)
    requires Digits(s) && NumberOf(s, 0) <= UINT64_MAX && !IsDigit(c) && (s == "" ==> c != '-' && c != '+')
    ensures ParseInt(s + [c] + t) == 0
  {
    var text := s + [c] + t;
    if s != "" {
      assert s[0] in s && text[0] == s[0];
    }
    ScanDigits(s, 0);
    assert text == s + ([c] + t);
    ScanAppend(s, [c] + t, 0);
    assert ([c] + t)[0] == c;
    assert ScanUint([c] + t, NumberOf(s, 0)) == Syntax;
  }
}
