/** `skipSeata` of pkg/apis/seata.pb.go, which counts open groups, against the grammar of fields, which
    nests them (Protocol Buffers Encoding, "Message Structure"). */
module Skip {
  import opened Varint

  // The scan -----------------------------------------------------------------------------------------

  /** One field head and, unless it opens or closes a group, its contents: the bytes to move on by, which
      may be more than there are, and the depth after it. */
  function Step(s: seq<byte>, depth: nat): (r: Result<(int, nat)>)
    ensures r.Ok? ==> 1 <= r.value.0 < |s| + INT64 && (r.value.1 == depth || r.value.1 == depth + 1 || r.value.1 == depth - 1)
  {
    var tag := ReadVarint(s);
    if tag.Err? then Err(tag.error)
    else
      var (wire, n) := tag.value;
      match wire % 8
      case 0 => var e := Extent(s[n..], 0); if e.Ok? then Ok((n + e.value, depth)) else Err(e.error)
      case 1 => Ok((n + 8, depth))
      case 2 =>
        var len := ReadVarint(s[n..]);
        if len.Err? then Err(len.error)
        else if Signed64(len.value.0) < 0 then Err(InvalidLength)
        else Ok((n + len.value.1 + Signed64(len.value.0), depth))
      case 3 => Ok((n, depth + 1))
      case 4 => if depth == 0 then Err(UnexpectedEndOfGroup) else Ok((n, depth - 1))
      case 5 => Ok((n + 4, depth))
      case _ => Err(IllegalWireType)
  }

  /** The scan at index `at`, with the bytes from there on; the index is an int64. */
  function SkipFrom(s: seq<byte>, at: int, depth: nat): (r: Result<int>)
    ensures r.Ok? ==> r.value >= 0
    decreases |s|
  {
    if s == [] then Err(UnexpectedEOF)
    else
      var step := Step(s, depth);
      if step.Err? then Err(step.error)
      else
        var (advance, depth') := step.value;
        var next := Signed64(at + advance);
        if next < 0 then Err(InvalidLength)
        else if depth' == 0 then Ok(next)
        else if advance >= |s| then Err(UnexpectedEOF)
        else SkipFrom(s[advance..], next, depth')
  }

  method SkipStep(dAtA: array<byte>, start: int, depth: nat) returns (r: Result<(int, nat)>)
    requires 0 <= start <= dAtA.Length
    ensures r == Step(dAtA[start..], depth)
  {
    hide Extent, Value, Signed64;
    ghost var s := dAtA[start..];
    var wire, iNdEx, _ := DecodeVarint(dAtA, start, UINT64);
    if wire.Err? {
      return Err(wire.error);
    }
    ghost var n := iNdEx - start;
    assert s[n..] == dAtA[iNdEx..];
    match wire.value % 8
    case 0 =>
      var skipped, end, _ := DecodeVarint(dAtA, iNdEx, UINT64);
      return if skipped.Err? then Err(skipped.error) else Ok((end - start, depth));
    case 1 =>
      return Ok((iNdEx + 8 - start, depth));
    case 2 =>
      var length, end, _ := DecodeVarint(dAtA, iNdEx, UINT64);
      if length.Err? {
        return Err(length.error);
      }
      if Signed64(length.value) < 0 {
        return Err(InvalidLength);
      }
      return Ok((end + Signed64(length.value) - start, depth));
    case 3 =>
      return Ok((iNdEx - start, depth + 1));
    case 4 =>
      return if depth == 0 then Err(UnexpectedEndOfGroup) else Ok((iNdEx - start, depth - 1));
    case 5 =>
      return Ok((iNdEx + 4 - start, depth));
    case _ =>
      return Err(IllegalWireType);
  }

  /** On the slice of the array from `start`. */
  method SkipSeata(dAtA: array<byte>, start: int) returns (r: Result<int>)
    requires 0 <= start <= dAtA.Length < INT64
    ensures r == SkipFrom(dAtA[start..], 0, 0)
  {
    hide SkipFrom, Step;
    SkipNothing();
    var l := dAtA.Length - start;
    assert l == 0 ==> dAtA[start..] == [];
    var iNdEx, depth := 0, 0;
    while iNdEx < l
      invariant 0 <= iNdEx && 0 <= depth
      invariant SkipFrom(dAtA[start..], 0, 0) == if iNdEx < l then SkipFrom(dAtA[start + iNdEx..], iNdEx, depth) else Err(UnexpectedEOF)
      decreases l - iNdEx
    {
      ghost var s := dAtA[start + iNdEx..];
      SkipStops(s, iNdEx, depth);
      var step := SkipStep(dAtA, start + iNdEx, depth);
      if step.Err? {
        return Err(step.error);
      }
      var (advance, depth') := step.value;
      var next := Signed64(iNdEx + advance);
      if next < 0 {
        return Err(InvalidLength);
      }
      if depth' == 0 {
        return Ok(next);
      }
      NoWrap(iNdEx, advance);
      SkipNext(s, iNdEx, depth);
      assert advance < |s| ==> s[advance..] == dAtA[start + next..];
      iNdEx, depth := next, depth';
    }
    return Err(UnexpectedEOF);
  }

  lemma SkipNothing()
    ensures forall at, depth: nat :: SkipFrom([], at, depth) == Err(UnexpectedEOF)
  {
  }

  /** When the scan stops, */
  lemma SkipStops(s: seq<byte>, at: int, depth: nat)
    requires s != []
    ensures
      var step := Step(s, depth);
      && (step.Err? ==> SkipFrom(s, at, depth) == Err(step.error))
      && (step.Ok? && Signed64(at + step.value.0) < 0 ==> SkipFrom(s, at, depth) == Err(InvalidLength))
      && (step.Ok? && Signed64(at + step.value.0) >= 0 && step.value.1 == 0 ==> SkipFrom(s, at, depth) == Ok(Signed64(at + step.value.0)))
  {
    hide Step, Signed64;
  }

  /** and how it goes on. */
  lemma SkipNext(s: seq<byte>, at: int, depth: nat)
    requires s != [] && Step(s, depth).Ok? && Step(s, depth).value.1 > 0 && Signed64(at + Step(s, depth).value.0) >= 0
    ensures
      var (advance, depth') := Step(s, depth).value;
      SkipFrom(s, at, depth) == if advance >= |s| then Err(UnexpectedEOF) else SkipFrom(s[advance..], Signed64(at + advance), depth')
  {
    hide Step, Signed64;
  }

  lemma NoWrap(at: int, advance: int)
    requires 0 <= at + advance < UINT64 && Signed64(at + advance) >= 0
    ensures Signed64(at + advance) == at + advance
  {
  }

  /** The scan only moves forward. */
  lemma {:induction false} SkipsAhead(s: seq<byte>, at: int, depth: nat)
    requires 0 <= at
    ensures at + |s| < INT64 && SkipFrom(s, at, depth).Ok? ==> SkipFrom(s, at, depth).value > at
    decreases |s|
  {
    hide Step;
    if at + |s| < INT64 && SkipFrom(s, at, depth).Ok? {
      var (advance, depth') := Step(s, depth).value;
      NoWrap(at, advance);
      if depth' > 0 {
        SkipsAhead(s[advance..], at + advance, depth');
      }
    }
  }

  // The grammar ----------------------------------------------------------------------------------------

  datatype Field =
    | VarintField(tag: seq<byte>, v: seq<byte>)
    | Fixed64(tag: seq<byte>, b: seq<byte>)
    | Delimited(tag: seq<byte>, len: seq<byte>, b: seq<byte>)
    | Group(tag: seq<byte>, fields: Fields, end: seq<byte>)
    | Fixed32(tag: seq<byte>, b: seq<byte>)

  datatype Fields = None | More(field: Field, rest: Fields)

  /** A varint in full, minimal or not. */
  predicate IsVarint(s: seq<byte>) { Extent(s, 0) == Ok(|s|) }

  predicate IsTag(s: seq<byte>, wireType: int) { IsVarint(s) && Value(s) % UINT64 % 8 == wireType }

  predicate WellFormed(f: Field)
  {
    match f
    case VarintField(tag, v) => IsTag(tag, 0) && IsVarint(v)
    case Fixed64(tag, b) => IsTag(tag, 1) && |b| == 8
    case Delimited(tag, len, b) => IsTag(tag, 2) && IsVarint(len) && Signed64(Value(len) % UINT64) == |b|
    case Group(tag, fields, end) => IsTag(tag, 3) && AllWellFormed(fields) && IsTag(end, 4)
    case Fixed32(tag, b) => IsTag(tag, 5) && |b| == 4
  }

  predicate AllWellFormed(fs: Fields)
  {
    match fs
    case None => true
    case More(f, rest) => WellFormed(f) && AllWellFormed(rest)
  }

  function Print(f: Field): seq<byte>
  {
    match f
    case VarintField(tag, v) => tag + v
    case Fixed64(tag, b) => tag + b
    case Delimited(tag, len, b) => tag + len + b
    case Group(tag, fields, end) => tag + PrintAll(fields) + end
    case Fixed32(tag, b) => tag + b
  }

  function PrintAll(fs: Fields): seq<byte>
  {
    match fs
    case None => []
    case More(f, rest) => Print(f) + PrintAll(rest)
  }

  lemma ReadsVarint(v: seq<byte>, rest: seq<byte>)
    requires IsVarint(v)
    ensures ReadVarint(v + rest) == Ok((Value(v) % UINT64, |v|)) && Extent(v + rest, 0) == Ok(|v|)
    ensures (v + rest)[|v|..] == rest && |v| >= 1
  {
    assert v[..|v|] == v;
    ReadLonger(v, rest);
    ExtentLonger(v, rest, 0);
  }

  /** A field other than a group is one step. */
  lemma StepsOver(f: Field, rest: seq<byte>, depth: nat)
    requires WellFormed(f) && !f.Group?
    ensures Step(Print(f) + rest, depth) == Ok((|Print(f)|, depth))
  {
    hide Extent, Value, ReadVarint, PrintAll, AllWellFormed;
    if f.VarintField? {
      assert Print(f) + rest == f.tag + (f.v + rest);
      ReadsVarint(f.tag, f.v + rest);
      ReadsVarint(f.v, rest);
    } else if f.Delimited? {
      assert Print(f) + rest == f.tag + (f.len + (f.b + rest));
      ReadsVarint(f.tag, f.len + (f.b + rest));
      ReadsVarint(f.len, f.b + rest);
    } else {
      assert Print(f) + rest == f.tag + (f.b + rest);
      ReadsVarint(f.tag, f.b + rest);
    }
  }

  lemma StepsIn(tag: seq<byte>, rest: seq<byte>, depth: nat)
    requires IsTag(tag, 3)
    ensures Step(tag + rest, depth) == Ok((|tag|, depth + 1)) && |tag| >= 1
  {
    ReadsVarint(tag, rest);
  }

  lemma StepsOut(tag: seq<byte>, rest: seq<byte>, depth: nat)
    requires IsTag(tag, 4) && depth > 0
    ensures Step(tag + rest, depth) == Ok((|tag|, depth - 1)) && |tag| >= 1
  {
    ReadsVarint(tag, rest);
  }

  /** From one step to the rest of the scan. */
  lemma Moves(head: seq<byte>, rest: seq<byte>, at: int, depth: nat, depth': nat)
    requires 0 <= at && at + |head + rest| < INT64 && |head| >= 1
    requires Step(head + rest, depth) == Ok((|head|, depth'))
    ensures SkipFrom(head + rest, at, depth) == if depth' == 0 then Ok(at + |head|) else SkipFrom(rest, at + |head|, depth')
  {
    assert (head + rest)[|head|..] == rest;
    assert Signed64(at + |head|) == at + |head|;
  }

  /** At the top level the scan ends after one well-formed field; inside a group it goes on behind it. */
  lemma {:induction false} SkipsField(f: Field, rest: seq<byte>, at: int, depth: nat)
    requires WellFormed(f) && 0 <= at && at + |Print(f) + rest| < INT64
    ensures SkipFrom(Print(f) + rest, at, depth) ==
        if depth == 0 then Ok(at + |Print(f)|) else SkipFrom(rest, at + |Print(f)|, depth)
    decreases f
  {
    hide SkipFrom, Step, IsTag, IsVarint;
    if f.Group? {
      var inner := PrintAll(f.fields) + (f.end + rest);
      assert Print(f) + rest == f.tag + inner;
      StepsIn(f.tag, inner, depth);
      Moves(f.tag, inner, at, depth, depth + 1);
      SkipsFields(f.fields, f.end + rest, at + |f.tag|, depth + 1);
      StepsOut(f.end, rest, depth + 1);
      Moves(f.end, rest, at + |f.tag| + |PrintAll(f.fields)|, depth + 1, depth);
    } else {
      StepsOver(f, rest, depth);
      PrintNonEmpty(f);
      Moves(Print(f), rest, at, depth, depth);
    }
  }

  lemma TagFirst(f: Field)
    requires WellFormed(f)
    ensures ReadVarint(Print(f)) == Ok((Value(f.tag) % UINT64, |f.tag|))
    ensures Value(f.tag) % UINT64 % 8 != 4
  {
    hide Extent, Value, PrintAll, AllWellFormed;
    assert Print(f) == f.tag + Print(f)[|f.tag|..];
    ReadsVarint(f.tag, Print(f)[|f.tag|..]);
  }

  lemma PrintNonEmpty(f: Field)
    requires WellFormed(f)
    ensures |Print(f)| >= 1
  {
  }

  lemma {:induction false} SkipsFields(fs: Fields, rest: seq<byte>, at: int, depth: nat)
    requires AllWellFormed(fs) && 0 <= at && at + |PrintAll(fs) + rest| < INT64 && depth > 0
    ensures SkipFrom(PrintAll(fs) + rest, at, depth) == SkipFrom(rest, at + |PrintAll(fs)|, depth)
    decreases fs
  {
    hide SkipFrom, WellFormed, Print;
    if fs == None {
      assert PrintAll(fs) + rest == rest;
    } else {
      assert PrintAll(fs) + rest == Print(fs.field) + (PrintAll(fs.rest) + rest);
      SkipsField(fs.field, PrintAll(fs.rest) + rest, at, depth);
      SkipsFields(fs.rest, rest, at + |Print(fs.field)|, depth);
    }
  }

  // And back: whatever the scan accepts is a field of the grammar -------------------------------------

  lemma VarintAtHead(s: seq<byte>, n: nat)
    requires Extent(s, 0) == Ok(n)
    ensures n <= |s| && IsVarint(s[..n])
  {
    ExtentPrefix(s, n, 0);
  }

  lemma {:induction false} ExtentPrefix(s: seq<byte>, n: nat, k: nat)
    requires Extent(s, k) == Ok(n)
    ensures n <= |s| && Extent(s[..n], k) == Ok(n)
    decreases n
  {
    if s[0] >= 128 {
      ExtentPrefix(s[1..], n - 1, k + 1);
      assert s[..n][1..] == s[1..][..n - 1];
    }
  }

  /** The head of a successful step is a tag. */
  lemma TagAtHead(s: seq<byte>, depth: nat) returns (n: nat)
    requires Step(s, depth).Ok?
    ensures ReadVarint(s).Ok? && n == ReadVarint(s).value.1 <= |s|
    ensures IsTag(s[..n], ReadVarint(s).value.0 % 8)
  {
    n := ReadVarint(s).value.1;
    VarintAtHead(s, n);
  }

  lemma StepKinds(s: seq<byte>, depth: nat)
    requires Step(s, depth).Ok?
    ensures
      var (wire, n) := ReadVarint(s).value;
      var (advance, depth') := Step(s, depth).value;
      && (depth' == depth + 1 ==> wire % 8 == 3 && advance == n)
      && (depth' == depth - 1 ==> wire % 8 == 4 && advance == n)
      && (depth' == depth ==> wire % 8 in {0, 1, 2, 5})
  {
  }

  /** A step that leaves the depth alone and stays inside passes one field. */
  lemma FieldAtHead(s: seq<byte>, depth: nat) returns (f: Field)
    requires Step(s, depth).Ok? && Step(s, depth).value.1 == depth && Step(s, depth).value.0 <= |s|
    ensures !f.Group? && WellFormed(f) && Print(f) == s[..Step(s, depth).value.0]
  {
    var n := TagAtHead(s, depth);
    StepKinds(s, depth);
    var tag, advance := s[..n], Step(s, depth).value.0;
    match ReadVarint(s).value.0 % 8
    case 0 =>
      f := VarintField(tag, s[n..advance]);
      VarintAtHead(s[n..], advance - n);
      assert s[n..advance] == s[n..][..advance - n];
    case 1 => f := Fixed64(tag, s[n..advance]);
    case 2 =>
      var m := ReadVarint(s[n..]).value.1;
      f := DelimitedAtHead(s, n, m, advance, tag);
    case 5 => f := Fixed32(tag, s[n..advance]);
  }

  lemma DelimitedAtHead(s: seq<byte>, n: nat, m: nat, advance: nat, tag: seq<byte>) returns (f: Field)
    requires n <= advance <= |s| && tag == s[..n] && IsTag(tag, 2)
    requires ReadVarint(s[n..]).Ok? && ReadVarint(s[n..]).value.1 == m
    requires advance == n + m + Signed64(ReadVarint(s[n..]).value.0) && Signed64(ReadVarint(s[n..]).value.0) >= 0
    ensures !f.Group? && WellFormed(f) && Print(f) == s[..advance]
  {
    hide IsTag;
    VarintAtHead(s[n..], m);
    var len := s[n..][..m];
    f := Delimited(tag, len, s[n + m..advance]);
    assert len[..m] == len;
    assert s[..advance] == tag + len + s[n + m..advance];
  }

  /** What closes the groups that are open: the rest of each one's fields, and its end tag. */
  datatype Closer = Closer(fields: Fields, end: seq<byte>)

  function PrintClosers(cs: seq<Closer>): seq<byte>
  {
    if cs == [] then [] else PrintAll(cs[0].fields) + cs[0].end + PrintClosers(cs[1..])
  }

  predicate ClosersOk(cs: seq<Closer>)
  {
    forall c :: c in cs ==> AllWellFormed(c.fields) && IsTag(c.end, 4)
  }

  lemma ClosersTail(cs: seq<Closer>)
    requires ClosersOk(cs) && cs != []
    ensures ClosersOk(cs[1..]) && AllWellFormed(cs[0].fields) && IsTag(cs[0].end, 4)
  {
    assert cs[0] in cs;
    forall c | c in cs[1..] ensures c in cs {
    }
  }

  lemma ClosersCons(c: Closer, cs: seq<Closer>)
    requires ClosersOk(cs) && AllWellFormed(c.fields) && IsTag(c.end, 4)
    ensures ClosersOk([c] + cs) && PrintClosers([c] + cs) == PrintAll(c.fields) + c.end + PrintClosers(cs)
  {
    assert ([c] + cs)[0] == c && ([c] + cs)[1..] == cs;
    forall d | d in [c] + cs ensures d == c || d in cs {
    }
  }

  /** A field in front of what closes the innermost group. */
  lemma PutField(f: Field, cs: seq<Closer>) returns (cs': seq<Closer>)
    requires WellFormed(f) && ClosersOk(cs) && cs != []
    ensures |cs'| == |cs| && ClosersOk(cs') && PrintClosers(cs') == Print(f) + PrintClosers(cs)
  {
    hide IsTag, WellFormed, Print;
    ClosersTail(cs);
    var c := Closer(More(f, cs[0].fields), cs[0].end);
    ClosersCons(c, cs[1..]);
    assert PrintAll(c.fields) + c.end + PrintClosers(cs[1..]) == Print(f) + (PrintAll(cs[0].fields) + cs[0].end + PrintClosers(cs[1..]));
    cs' := [c] + cs[1..];
  }

  /** A group opened just before is now closed, and is itself a field. */
  lemma PutGroup(tag: seq<byte>, cs: seq<Closer>) returns (cs': seq<Closer>)
    requires IsTag(tag, 3) && ClosersOk(cs) && |cs| >= 2
    ensures |cs'| == |cs| - 1 && ClosersOk(cs') && PrintClosers(cs') == tag + PrintClosers(cs)
  {
    hide IsTag;
    ClosersTail(cs);
    var g := Group(tag, cs[0].fields, cs[0].end);
    assert Print(g) + PrintClosers(cs[1..]) == tag + (PrintAll(cs[0].fields) + cs[0].end + PrintClosers(cs[1..]));
    cs' := PutField(g, cs[1..]);
  }

  lemma PutEnd(tag: seq<byte>, cs: seq<Closer>) returns (cs': seq<Closer>)
    requires IsTag(tag, 4) && ClosersOk(cs)
    ensures |cs'| == |cs| + 1 && ClosersOk(cs') && PrintClosers(cs') == tag + PrintClosers(cs)
  {
    ClosersCons(Closer(None, tag), cs);
    assert PrintAll(None) + tag + PrintClosers(cs) == tag + PrintClosers(cs);
    cs' := [Closer(None, tag)] + cs;
  }

  lemma ClosersNone()
    ensures ClosersOk([]) && PrintClosers([]) == []
  {
  }

  lemma {:induction false} ClosesAtHead(s: seq<byte>, at: int, depth: nat) returns (cs: seq<Closer>)
    requires depth > 0 && 0 <= at && at + |s| < INT64
    requires SkipFrom(s, at, depth).Ok? && SkipFrom(s, at, depth).value <= at + |s|
    ensures at <= SkipFrom(s, at, depth).value
    ensures |cs| == depth && ClosersOk(cs) && PrintClosers(cs) == s[..SkipFrom(s, at, depth).value - at]
    decreases |s|
  {
    hide IsTag, WellFormed, Step, ReadVarint, PrintClosers, ClosersOk;
    ClosersNone();
    var (advance, depth') := Step(s, depth).value;
    NoWrap(at, advance);
    var n := TagAtHead(s, depth);
    StepKinds(s, depth);
    if depth' == 0 {
      cs := PutEnd(s[..n], []);
      return;
    }
    var rest := ClosesAtHead(s[advance..], at + advance, depth');
    var e := SkipFrom(s, at, depth).value - at;
    assert s[..e] == s[..advance] + s[advance..][..e - advance];
    if depth' == depth {
      var f := FieldAtHead(s, depth);
      cs := PutField(f, rest);
    } else if depth' == depth + 1 {
      cs := PutGroup(s[..n], rest);
    } else {
      cs := PutEnd(s[..n], rest);
    }
  }

  lemma OpensGroup(s: seq<byte>) returns (f: Field)
    requires |s| < INT64 && SkipFrom(s, 0, 0).Ok? && SkipFrom(s, 0, 0).value <= |s| && Step(s, 0).value.1 == 1
    ensures WellFormed(f) && Print(f) == s[..SkipFrom(s, 0, 0).value]
  {
    hide IsTag, Step, ReadVarint, Extent, Value;
    var (n, _) := Step(s, 0).value;
    var m := TagAtHead(s, 0);
    StepKinds(s, 0);
    NoWrap(0, n);
    SkipNext(s, 0, 0);
    hide SkipFrom, ClosersOk, AllWellFormed;
    var cs := ClosesAtHead(s[n..], n, 1);
    var e := SkipFrom(s, 0, 0).value;
    assert s[n..][..e - n] == s[n..e];
    ClosersTail(cs);
    f := Group(s[..n], cs[0].fields, cs[0].end);
    GroupPrints(s, n, e, cs);
  }

  lemma GroupPrints(s: seq<byte>, n: nat, e: nat, cs: seq<Closer>)
    requires n <= e <= |s| && |cs| == 1 && PrintClosers(cs) == s[n..e]
    ensures Print(Group(s[..n], cs[0].fields, cs[0].end)) == s[..e]
  {
    hide PrintAll;
    assert PrintClosers(cs[1..]) == [];
    assert s[n..e] == PrintAll(cs[0].fields) + cs[0].end;
    assert s[..e] == s[..n] + s[n..e];
  }

  lemma FieldSkipped(s: seq<byte>) returns (f: Field)
    requires |s| < INT64 && SkipFrom(s, 0, 0).Ok? && SkipFrom(s, 0, 0).value <= |s|
    ensures WellFormed(f) && Print(f) == s[..SkipFrom(s, 0, 0).value]
  {
    var (advance, depth) := Step(s, 0).value;
    NoWrap(0, advance);
    if depth == 0 {
      f := FieldAtHead(s, 0);
    } else {
      f := OpensGroup(s);
    }
  }

  lemma PrintSkipped(s: seq<byte>, n: nat, f: Field)
    requires |s| < INT64 && n <= |s| && WellFormed(f) && Print(f) == s[..n]
    ensures SkipFrom(s, 0, 0) == Ok(n)
  {
    hide SkipFrom, WellFormed, Print;
    assert s == Print(f) + s[n..];
    SkipsField(f, s[n..], 0, 0);
  }

  /** The iterative scan and the recursive grammar agree: it stops at n, inside the input, if and only if
      the first n bytes are one well-formed field, groups nested to any depth. */
  lemma SkipIsGrammar(s: seq<byte>, n: nat)
    requires |s| < INT64 && n <= |s|
    ensures SkipFrom(s, 0, 0) == Ok(n) <==> exists f :: WellFormed(f) && Print(f) == s[..n]
  {
    hide WellFormed, Print;
    if SkipFrom(s, 0, 0) == Ok(n) {
      var f := FieldSkipped(s);
      assert WellFormed(f) && Print(f) == s[..n];
    }
    forall f | WellFormed(f) && Print(f) == s[..n] ensures SkipFrom(s, 0, 0) == Ok(n) {
      PrintSkipped(s, n, f);
    }
  }
}
