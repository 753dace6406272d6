// rucelium-abi/src/cbor.rs: deterministic CBOR (section 4.2.1 of RFC 8949) for
// the sample and for the signed envelope.  The functions say what a reading at a
// position yields; the Reader and the writers are proved against them.
module Cbor {
  import opened Common
  import opened Words
  import opened Wire

  const I64_MAX := 0x7fff_ffff_ffff_ffff

  datatype CborError =
    | Truncated
    | BadHead(first: Byte)
    | NotCanonical
    | WrongType(expected: nat, found: nat)
    | WrongLength(expected: nat, actual: nat)
    | TrailingBytes(count: nat)
    | IntOutOfRange

  // ---------------------------------------------------------------------
  // Big-endian integers
  // ---------------------------------------------------------------------

  function ToBe(v: nat, n: nat): (b: Bytes)
    ensures |b| == n
  {
    if n == 0 then [] else ToBe(v / 256, n - 1) + [v % 256]
  }

  function FromBe(b: Bytes): (v: nat)
    ensures v < Pow256(|b|)
  {
    if b == [] then 0 else 256 * FromBe(b[..|b| - 1]) + b[|b| - 1]
  }

  lemma {:induction false} BeRoundTrips(v: nat, n: nat)
    requires v < Pow256(n)
    ensures FromBe(ToBe(v, n)) == v
  {
    if n > 0 {
      BeRoundTrips(v / 256, n - 1);
      assert ToBe(v, n)[..n - 1] == ToBe(v / 256, n - 1);
    }
  }

  lemma {:induction false} BeIsCanonical(b: Bytes)
    ensures ToBe(FromBe(b), |b|) == b
  {
    if b != [] {
      BeIsCanonical(b[..|b| - 1]);
      assert FromBe(b) % 256 == b[|b| - 1] && FromBe(b) / 256 == FromBe(b[..|b| - 1]);
    }
  }

  // ---------------------------------------------------------------------
  // Heads: a major type and an argument in one of five widths
  // ---------------------------------------------------------------------

  // The additional information a shortest-form head carries for v.
  function Additional(v: U64): (ai: nat)
    ensures ai <= 27
  {
    if v < 24 then v
    else if v < U8_LIMIT then 24
    else if v < U16_LIMIT then 25
    else if v < U32_LIMIT then 26
    else 27
  }

  // How many argument bytes follow the first byte, and the least argument that
  // needs them.
  function Extra(ai: nat): nat {
    if ai < 24 then 0 else if ai == 24 then 1 else if ai == 25 then 2 else if ai == 26 then 4 else 8
  }

  function Least(ai: nat): nat {
    if ai < 24 then ai
    else if ai == 24 then 24 else if ai == 25 then U8_LIMIT else if ai == 26 then U16_LIMIT else U32_LIMIT
  }

  function HeadBytes(major: nat, v: U64): Bytes
    requires major < 8
  {
    [major * 32 + Additional(v)] + ToBe(v, Extra(Additional(v)))
  }

  datatype Head = Head(major: nat, value: nat, next: nat)

  function ReadHead(b: Bytes, pos: nat): (r: Result<Head, CborError>)
    ensures r.Ok? ==> pos < r.value.next <= |b| && r.value.major < 8 && r.value.value < U64_LIMIT
  {
    if pos >= |b| then Err(Truncated)
    else
      var major, ai := b[pos] / 32, b[pos] % 32;
      var next := pos + 1 + Extra(ai);
      if ai < 24 then Ok(Head(major, ai, pos + 1))
      else if ai > 27 then Err(BadHead(b[pos]))
      else if next > |b| then Err(Truncated)
      else
        var v := FromBe(b[pos + 1..next]);
        WidthLimits();
        if v < Least(ai) then Err(NotCanonical) else Ok(Head(major, v, next))
  }

  // b holds x at position pos.
  predicate At(b: Bytes, pos: nat, x: Bytes) {
    pos + |x| <= |b| && b[pos..pos + |x|] == x
  }

  lemma ReadHeadOfBytes(b: Bytes, pos: nat, major: nat, v: U64)
    requires major < 8 && At(b, pos, HeadBytes(major, v))
    ensures ReadHead(b, pos) == Ok(Head(major, v, pos + |HeadBytes(major, v)|))
  {
    var x, ai := HeadBytes(major, v), Additional(v);
    assert b[pos] == x[0] == major * 32 + ai;
    assert b[pos] / 32 == major && b[pos] % 32 == ai;
    if ai >= 24 {
      WidthLimits();
      BeRoundTrips(v, Extra(ai));
      assert b[pos + 1..pos + |x|] == x[1..] == ToBe(v, Extra(ai));
    }
  }

  // Only the shortest form is read.
  lemma ReadHeadIsCanonical(b: Bytes, pos: nat)
    requires ReadHead(b, pos).Ok?
    ensures var head := ReadHead(b, pos).value;
            At(b, pos, HeadBytes(head.major, head.value)) && head.next == pos + |HeadBytes(head.major, head.value)|
  {
    hide ToBe, FromBe, Pow256;
    var head := ReadHead(b, pos).value;
    var ai := b[pos] % 32;
    if ai >= 24 {
      ArgumentFits(ai, b[pos + 1..head.next]);
      BeIsCanonical(b[pos + 1..head.next]);
      assert b[pos..head.next] == [b[pos]] + b[pos + 1..head.next];
    } else {
      assert ToBe(head.value, 0) == [];
    }
  }

  // The argument bytes hold what needs exactly their width.
  lemma ArgumentFits(ai: nat, arg: Bytes)
    requires 24 <= ai <= 27 && |arg| == Extra(ai) && FromBe(arg) >= Least(ai)
    ensures FromBe(arg) < U64_LIMIT && Additional(FromBe(arg)) == ai
  {
    hide FromBe;
    WidthLimits();
  }

  // Cutting the input short of the head's end is noticed; cutting it later is not.
  lemma ReadHeadOfPrefix(b: Bytes, pos: nat, n: nat)
    requires ReadHead(b, pos).Ok? && pos <= n <= |b|
    ensures ReadHead(b[..n], pos)
         == if n < ReadHead(b, pos).value.next then Err(Truncated) else ReadHead(b, pos)
  {
    var next := ReadHead(b, pos).value.next;
    if next <= n {
      assert b[..n][pos + 1..next] == b[pos + 1..next];
    }
  }

  function ReadArray(b: Bytes, pos: nat, expected: nat): (r: Result<nat, CborError>)
    ensures r.Ok? ==> pos < r.value <= |b|
  {
    var head :- ReadHead(b, pos);
    if head.major != 4 then Err(WrongType(4, head.major))
    else if head.value != expected then Err(CborError.WrongLength(expected, head.value))
    else Ok(head.next)
  }

  // ---------------------------------------------------------------------
  // Integer fields
  // ---------------------------------------------------------------------

  // write_uint and write_int: a negative n is the argument -1 - n of major 1.
  function FieldBytes(kind: Kind, v: int): (x: Bytes)
    requires kind.width <= 8 && kind.Holds(v)
    ensures |x| > 0
  {
    FieldFitsHead(kind, v);
    if v < 0 then HeadBytes(1, -1 - v) else HeadBytes(0, v)
  }

  lemma FieldFitsHead(kind: Kind, v: int)
    requires kind.width <= 8 && kind.Holds(v)
    ensures -U64_LIMIT <= v < U64_LIMIT
    ensures kind.signed ==> -I64_MAX - 1 <= v <= I64_MAX
  {
    WidthLimits();
    Pow256Monotone(kind.width, 8);
  }

  lemma {:induction false} Pow256Monotone(m: nat, n: nat)
    requires m <= n
    ensures Pow256(m) <= Pow256(n)
  {
    if m < n {
      Pow256Monotone(m, n - 1);
    }
  }

  // read_uint or read_int followed by the narrowing of the field.
  function ReadField(kind: Kind, b: Bytes, pos: nat): (r: Result<(int, nat), CborError>)
    ensures r.Ok? ==> kind.Holds(r.value.0) && pos < r.value.1 <= |b|
  {
    var head :- ReadHead(b, pos);
    if kind.signed then
      if head.major > 1 then Err(WrongType(0, head.major))
      else if head.value > I64_MAX then Err(IntOutOfRange)
      else
        var v := if head.major == 0 then head.value else -1 - head.value;
        if -(Pow256(kind.width) as int) <= 2 * v < Pow256(kind.width) then Ok((v, head.next)) else Err(IntOutOfRange)
    else
      if head.major != 0 then Err(WrongType(0, head.major))
      else if head.value < Pow256(kind.width) then Ok((head.value, head.next))
      else Err(IntOutOfRange)
  }

  lemma ReadFieldOfBytes(kind: Kind, v: int, b: Bytes, pos: nat)
    requires kind.width <= 8 && kind.Holds(v) && At(b, pos, FieldBytes(kind, v))
    ensures ReadField(kind, b, pos) == Ok((v, pos + |FieldBytes(kind, v)|))
  {
    FieldFitsHead(kind, v);
    if v < 0 {
      ReadHeadOfBytes(b, pos, 1, -1 - v);
    } else {
      ReadHeadOfBytes(b, pos, 0, v);
    }
  }

  lemma ReadFieldIsCanonical(kind: Kind, b: Bytes, pos: nat)
    requires kind.width <= 8 && ReadField(kind, b, pos).Ok?
    ensures var (v, next) := ReadField(kind, b, pos).value;
            At(b, pos, FieldBytes(kind, v)) && next == pos + |FieldBytes(kind, v)|
  {
    ReadHeadIsCanonical(b, pos);
  }

  // ---------------------------------------------------------------------
  // A fixed list of fields
  // ---------------------------------------------------------------------

  ghost predicate Narrow(kinds: seq<Kind>) {
    forall k :: 0 <= k < |kinds| ==> kinds[k].width <= 8
  }

  function FieldsBytes(kinds: seq<Kind>, vs: seq<int>): Bytes
    requires Narrow(kinds) && Fit(kinds, vs)
  {
    if kinds == [] then [] else FieldBytes(kinds[0], vs[0]) + FieldsBytes(kinds[1..], vs[1..])
  }

  function ReadFields(kinds: seq<Kind>, b: Bytes, pos: nat): (r: Result<(seq<int>, nat), CborError>)
    requires pos <= |b|
    ensures r.Ok? ==> Fit(kinds, r.value.0) && pos <= r.value.1 <= |b|
    decreases |kinds|
  {
    if kinds == [] then Ok(([], pos))
    else
      var (v, next) :- ReadField(kinds[0], b, pos);
      var (vs, end) :- ReadFields(kinds[1..], b, next);
      Ok(([v] + vs, end))
  }

  lemma {:induction false} ReadFieldsOfBytes(kinds: seq<Kind>, vs: seq<int>, b: Bytes, pos: nat)
    requires Narrow(kinds) && Fit(kinds, vs) && At(b, pos, FieldsBytes(kinds, vs))
    ensures ReadFields(kinds, b, pos) == Ok((vs, pos + |FieldsBytes(kinds, vs)|))
    decreases |kinds|
  {
    hide FieldBytes, ReadField, Pow256, At;
    if kinds != [] {
      var x, rest := FieldBytes(kinds[0], vs[0]), FieldsBytes(kinds[1..], vs[1..]);
      AtSplit(b, pos, x, rest);
      ReadFieldOfBytes(kinds[0], vs[0], b, pos);
      ReadFieldsOfBytes(kinds[1..], vs[1..], b, pos + |x|);
      assert [vs[0]] + vs[1..] == vs;
    }
  }

  lemma AtSplit(b: Bytes, pos: nat, x: Bytes, y: Bytes)
    ensures At(b, pos, x + y) <==> At(b, pos, x) && At(b, pos + |x|, y)
  {
    var n := pos + |x|;
    if n + |y| <= |b| {
      assert b[pos..n + |y|] == b[pos..n] + b[n..n + |y|];
      if At(b, pos, x + y) {
        assert b[pos..n] == (x + y)[..|x|] && b[n..n + |y|] == (x + y)[|x|..];
      }
    }
  }

  lemma {:induction false} ReadFieldsIsCanonical(kinds: seq<Kind>, b: Bytes, pos: nat)
    requires Narrow(kinds) && pos <= |b| && ReadFields(kinds, b, pos).Ok?
    ensures var (vs, end) := ReadFields(kinds, b, pos).value;
            At(b, pos, FieldsBytes(kinds, vs)) && end == pos + |FieldsBytes(kinds, vs)|
    decreases |kinds|
  {
    if kinds != [] {
      var (v, next) := ReadField(kinds[0], b, pos).value;
      var (vs, end) := ReadFields(kinds[1..], b, next).value;
      ReadFieldIsCanonical(kinds[0], b, pos);
      ReadFieldsIsCanonical(kinds[1..], b, next);
      AtSplit(b, pos, FieldBytes(kinds[0], v), FieldsBytes(kinds[1..], vs));
      assert ([v] + vs)[1..] == vs;
    }
  }

  lemma {:induction false} ReadFieldsOfPrefix(kinds: seq<Kind>, b: Bytes, pos: nat, n: nat)
    requires pos <= n <= |b| && ReadFields(kinds, b, pos).Ok?
    ensures ReadFields(kinds, b[..n], pos)
         == if n < ReadFields(kinds, b, pos).value.1 then Err(Truncated) else ReadFields(kinds, b, pos)
    decreases |kinds|
  {
    if kinds != [] {
      ReadHeadOfPrefix(b, pos, n);
      var next := ReadField(kinds[0], b, pos).value.1;
      if next <= n {
        ReadFieldsOfPrefix(kinds[1..], b, next, n);
      }
    }
  }

  // ---------------------------------------------------------------------
  // The sample
  // ---------------------------------------------------------------------

  function SampleBytes(s: Sample): Bytes {
    SampleFieldsFit(s);
    HeadBytes(4, 13) + FieldsBytes(KINDS, Fields(s))
  }

  function Finish<T>(v: T, b: Bytes, pos: nat): Result<T, CborError>
    requires pos <= |b|
  {
    if pos != |b| then Err(TrailingBytes(|b| - pos)) else Ok(v)
  }

  function ReadSample(b: Bytes): Result<Sample, CborError> {
    var start :- ReadArray(b, 0, 13);
    var (vs, end) :- ReadFields(KINDS, b, start);
    Finish(OfFields(vs), b, end)
  }

  lemma SampleIsRead(s: Sample, b: Bytes)
    requires At(b, 0, SampleBytes(s))
    ensures var start := |HeadBytes(4, 13)|;
            start <= |b| && ReadArray(b, 0, 13) == Ok(start)
            && ReadFields(KINDS, b, start) == Ok((Fields(s), |SampleBytes(s)|))
  {
    hide HeadBytes, FieldsBytes, ReadFields, ReadHead, Pow256, At;
    SampleFieldsFit(s);
    var head, body := HeadBytes(4, 13), FieldsBytes(KINDS, Fields(s));
    AtSplit(b, 0, head, body);
    ReadHeadOfBytes(b, 0, 4, 13);
    ReadFieldsOfBytes(KINDS, Fields(s), b, |head|);
  }

  // Reading undoes writing ...
  lemma ReadSampleOfBytes(s: Sample)
    ensures ReadSample(SampleBytes(s)) == Ok(s)
  {
    hide SampleBytes, ReadFields, ReadArray;
    var b := SampleBytes(s);
    assert b[0..|b|] == b;
    SampleIsRead(s, b);
    FieldsAreInjective(OfFields(Fields(s)), s);
  }

  // ... nothing but the writer's output is read ...
  lemma ReadSampleIsCanonical(b: Bytes)
    requires ReadSample(b).Ok?
    ensures b == SampleBytes(ReadSample(b).value)
  {
    hide ReadFields, FieldsBytes, Pow256;
    var start := ReadArray(b, 0, 13).value;
    var (vs, end) := ReadFields(KINDS, b, start).value;
    ReadHeadIsCanonical(b, 0);
    ReadFieldsIsCanonical(KINDS, b, start);
    AtSplit(b, 0, HeadBytes(4, 13), FieldsBytes(KINDS, vs));
    assert b[0..|b|] == b;
  }

  // ... and no proper prefix or extension of an encoding is one.
  lemma SampleEncodingsAreIsolated(s: Sample, n: nat, extra: Bytes)
    requires n < |SampleBytes(s)| && extra != []
    ensures ReadSample(SampleBytes(s)[..n]) == Err(Truncated)
    ensures ReadSample(SampleBytes(s) + extra) == Err(TrailingBytes(|extra|))
  {
    hide SampleBytes, ReadFields;
    var b, start := SampleBytes(s), |HeadBytes(4, 13)|;
    assert b[0..|b|] == b;
    SampleIsRead(s, b);
    ReadHeadOfPrefix(b, 0, n);
    if start <= n {
      ReadFieldsOfPrefix(KINDS, b, start, n);
    }
    var longer := b + extra;
    assert longer[0..|b|] == b;
    SampleIsRead(s, longer);
  }

  // ---------------------------------------------------------------------
  // The signed envelope
  // ---------------------------------------------------------------------

  datatype Envelope = Envelope(payload: Bytes, pubkey: Bytes, signature: Bytes) {
    // The fixed array lengths of the Rust fields.
    predicate Sized() {
      |payload| == WIRE_LEN && |pubkey| == 32 && |signature| == 64
    }
  }

  function StringBytes(x: Bytes): Bytes
    requires |x| < U64_LIMIT
  {
    HeadBytes(2, |x|) + x
  }

  function ReadBytes(b: Bytes, pos: nat): (r: Result<(Bytes, nat), CborError>)
    ensures r.Ok? ==> pos < r.value.1 <= |b|
  {
    var head :- ReadHead(b, pos);
    if head.major != 2 then Err(WrongType(2, head.major))
    else if head.next + head.value > |b| then Err(Truncated)
    else Ok((b[head.next..head.next + head.value], head.next + head.value))
  }

  // A byte string that must have the given length.
  function ReadSized(b: Bytes, pos: nat, len: nat): (r: Result<(Bytes, nat), CborError>)
    ensures r.Ok? ==> pos < r.value.1 <= |b| && |r.value.0| == len
  {
    var (x, next) :- ReadBytes(b, pos);
    if |x| != len then Err(CborError.WrongLength(len, 0)) else Ok((x, next))
  }

  function EnvelopeBytes(e: Envelope): Bytes
    requires e.Sized()
  {
    HeadBytes(4, 3) + (StringBytes(e.payload) + (StringBytes(e.pubkey) + StringBytes(e.signature)))
  }

  function ReadEnvelope(b: Bytes): (r: Result<Envelope, CborError>)
    ensures r.Ok? ==> r.value.Sized()
  {
    var start :- ReadArray(b, 0, 3);
    var (payload, p1) :- ReadSized(b, start, WIRE_LEN);
    var (pubkey, p2) :- ReadSized(b, p1, 32);
    var (signature, p3) :- ReadSized(b, p2, 64);
    Finish(Envelope(payload, pubkey, signature), b, p3)
  }

  lemma ReadSizedOfBytes(x: Bytes, b: Bytes, pos: nat)
    requires |x| < U64_LIMIT && At(b, pos, StringBytes(x))
    ensures ReadSized(b, pos, |x|) == Ok((x, pos + |StringBytes(x)|))
  {
    AtSplit(b, pos, HeadBytes(2, |x|), x);
    ReadHeadOfBytes(b, pos, 2, |x|);
  }

  lemma ReadSizedIsCanonical(b: Bytes, pos: nat, len: nat)
    requires len < U64_LIMIT && ReadSized(b, pos, len).Ok?
    ensures var (x, next) := ReadSized(b, pos, len).value;
            At(b, pos, StringBytes(x)) && next == pos + |StringBytes(x)|
  {
    var (x, next) := ReadSized(b, pos, len).value;
    ReadHeadIsCanonical(b, pos);
    AtSplit(b, pos, HeadBytes(2, |x|), x);
  }

  lemma ReadEnvelopeOfBytes(e: Envelope)
    requires e.Sized()
    ensures ReadEnvelope(EnvelopeBytes(e)) == Ok(e)
  {
    hide HeadBytes, ReadHead, StringBytes, ReadSized;
    var b, h := EnvelopeBytes(e), HeadBytes(4, 3);
    var x, y, z := StringBytes(e.payload), StringBytes(e.pubkey), StringBytes(e.signature);
    assert b[0..|b|] == b;
    AtSplit(b, 0, h, x + (y + z));
    AtSplit(b, |h|, x, y + z);
    AtSplit(b, |h| + |x|, y, z);
    ReadHeadOfBytes(b, 0, 4, 3);
    ReadSizedOfBytes(e.payload, b, |h|);
    ReadSizedOfBytes(e.pubkey, b, |h| + |x|);
    ReadSizedOfBytes(e.signature, b, |h| + |x| + |y|);
  }

  lemma ReadEnvelopeIsCanonical(b: Bytes)
    requires ReadEnvelope(b).Ok?
    ensures b == EnvelopeBytes(ReadEnvelope(b).value)
  {
    hide HeadBytes, StringBytes, ReadSized;
    var start := ReadArray(b, 0, 3).value;
    var (payload, p1) := ReadSized(b, start, WIRE_LEN).value;
    var (pubkey, p2) := ReadSized(b, p1, 32).value;
    var (signature, p3) := ReadSized(b, p2, 64).value;
    ReadHeadIsCanonical(b, 0);
    ReadSizedIsCanonical(b, start, WIRE_LEN);
    ReadSizedIsCanonical(b, p1, 32);
    ReadSizedIsCanonical(b, p2, 64);
    var x, y, z := StringBytes(payload), StringBytes(pubkey), StringBytes(signature);
    AtSplit(b, p1, y, z);
    AtSplit(b, start, x, y + z);
    AtSplit(b, 0, HeadBytes(4, 3), x + (y + z));
    assert b[0..|b|] == b;
  }

  // The record an envelope denotes: the wire sample, its key and its signature.
  function Denotes(b: Bytes): Option<(Sample, Bytes, Bytes)> {
    match ReadEnvelope(b)
    case Err(_) => None
    case Ok(e) => Some((ParseWire(e.payload).value, e.pubkey, e.signature))
  }

  // No two accepted byte strings denote the same record, so a signature over an
  // encoding is a signature over the one possible encoding.
  lemma EncodingIsUnique(b: Bytes, b': Bytes)
    requires Denotes(b).Some? && Denotes(b) == Denotes(b')
    ensures b == b'
  {
    ReadEnvelopeIsCanonical(b);
    ReadEnvelopeIsCanonical(b');
    EncodeOfParse(ReadEnvelope(b).value.payload);
    EncodeOfParse(ReadEnvelope(b').value.payload);
  }

  // ---------------------------------------------------------------------
  // Both forms byte by byte
  // ---------------------------------------------------------------------

  ghost function Be16(b: Bytes, off: nat): nat
    requires off + 2 <= |b|
  {
    0x100 * (b[off] as int) + (b[off + 1] as int)
  }

  ghost function Be32(b: Bytes, off: nat): nat
    requires off + 4 <= |b|
  {
    0x1_0000 * Be16(b, off) + Be16(b, off + 2)
  }

  ghost function Be64(b: Bytes, off: nat): nat
    requires off + 8 <= |b|
  {
    0x1_0000_0000 * Be32(b, off) + Be32(b, off + 4)
  }

  // The first byte of the item at pos: three bits of major type, five of length.
  ghost function FirstByte(b: Bytes, pos: nat): Byte {
    if pos < |b| then b[pos] else 0
  }

  ghost function HeadEnd(b: Bytes, pos: nat): nat {
    var ai := FirstByte(b, pos) % 32;
    pos + (if ai == 24 then 2 else if ai == 25 then 3 else if ai == 26 then 5 else if ai == 27 then 9 else 1)
  }

  ghost function Argument(b: Bytes, pos: nat): nat
    requires pos < HeadEnd(b, pos) <= |b|
  {
    var ai := FirstByte(b, pos) % 32;
    if ai == 24 then b[pos + 1]
    else if ai == 25 then Be16(b, pos + 1)
    else if ai == 26 then Be32(b, pos + 1)
    else if ai == 27 then Be64(b, pos + 1)
    else ai
  }

  // No shorter head holds the argument.
  ghost predicate Shortest(b: Bytes, pos: nat)
    requires pos < HeadEnd(b, pos) <= |b|
  {
    var ai, n := FirstByte(b, pos) % 32, Argument(b, pos);
    && (ai == 24 ==> n >= 24) && (ai == 25 ==> n >= 0x100)
    && (ai == 26 ==> n >= 0x1_0000) && (ai == 27 ==> n >= 0x1_0000_0000)
  }

  ghost function HeadChecks(b: Bytes, pos: nat): seq<Check<CborError>> {
    [Check(pos < |b|, Truncated),
     Check(FirstByte(b, pos) % 32 <= 27, BadHead(FirstByte(b, pos))),
     Check(HeadEnd(b, pos) <= |b|, Truncated),
     Check(HeadEnd(b, pos) <= |b| ==> Shortest(b, pos), NotCanonical)]
  }

  // The head with this major type and argument stands at pos and ends before next.
  ghost predicate HeadAt(b: Bytes, pos: nat, major: nat, n: nat, next: nat) {
    && pos < |b| && b[pos] / 32 == major && b[pos] % 32 <= 27
    && next == HeadEnd(b, pos) <= |b| && Shortest(b, pos) && n == Argument(b, pos)
  }

  lemma {:induction false} ReadsBigEndian(b: Bytes, off: nat)
    ensures off + 1 <= |b| ==> FromBe(b[off..off + 1]) == b[off]
    ensures off + 2 <= |b| ==> FromBe(b[off..off + 2]) == Be16(b, off)
  {
    if off + 1 <= |b| {
      BeUnfolds(b, off, 1);
    }
    if off + 2 <= |b| {
      BeUnfolds(b, off, 2);
    }
  }

  lemma {:induction false} BeUnfolds(b: Bytes, off: nat, n: nat)
    requires 0 < n && off + n <= |b|
    ensures FromBe(b[off..off + n]) == 256 * (if n == 1 then 0 else FromBe(b[off..off + n - 1])) + b[off + n - 1]
  {
    assert b[off..off + n][..n - 1] == b[off..off + n - 1];
  }

  lemma {:induction false} ReadsBigEndian32(b: Bytes, off: nat)
    requires off + 4 <= |b|
    ensures FromBe(b[off..off + 4]) == Be32(b, off)
  {
    BeUnfolds(b, off, 4);
    BeUnfolds(b, off, 3);
    ReadsBigEndian(b, off);
    hide FromBe;
  }

  lemma {:induction false} ReadsBigEndian64(b: Bytes, off: nat)
    requires off + 8 <= |b|
    ensures FromBe(b[off..off + 8]) == Be64(b, off)
  {
    BeUnfolds(b, off, 8);
    BeUnfolds(b, off, 7);
    BeUnfolds(b, off, 6);
    BeUnfolds(b, off, 5);
    ReadsBigEndian32(b, off);
    hide FromBe;
  }

  // A head is read exactly as its bytes say, or fails with the first thing wrong.
  lemma {:induction false} HeadsAreReadByByte(b: Bytes, pos: nat)
    ensures IsFirstFailure(Failure(ReadHead(b, pos)), HeadChecks(b, pos))
    ensures forall major, n, next :: ReadHead(b, pos) == Ok(Head(major, n, next)) <==> HeadAt(b, pos, major, n, next)
  {
    hide FromBe, Be16, Be32, Be64, Pow256;
    if HeadEnd(b, pos) <= |b| {
      ReadsBigEndian(b, pos + 1);
      if FirstByte(b, pos) % 32 == 26 {
        ReadsBigEndian32(b, pos + 1);
      } else if FirstByte(b, pos) % 32 == 27 {
        ReadsBigEndian64(b, pos + 1);
      }
    }
    if ReadHead(b, pos).Err? {
      var k := if pos >= |b| then 0 else if b[pos] % 32 > 27 then 1 else if HeadEnd(b, pos) > |b| then 2 else 3;
      assert FailsFirst(HeadChecks(b, pos), k) && HeadChecks(b, pos)[k].error == ReadHead(b, pos).error;
    }
  }

  ghost predicate IntegerAt(b: Bytes, pos: nat, v: int, next: nat) {
    if v >= 0 then HeadAt(b, pos, 0, v, next) else HeadAt(b, pos, 1, -1 - v, next)
  }

  // The thirteen items, one after the other, each between the bounds of its field.
  ghost predicate SampleAt(b: Bytes, s: Sample, at: seq<nat>) {
    && b != [] && b[0] == 0x8d && |at| == 14 && at[0] == 1 && at[13] == |b|
    && IntegerAt(b, at[0], s.schemaVersion, at[1]) && IntegerAt(b, at[1], s.sensorType, at[2])
    && IntegerAt(b, at[2], s.flags, at[3]) && IntegerAt(b, at[3], s.nodeId, at[4])
    && IntegerAt(b, at[4], s.timestampNs, at[5]) && IntegerAt(b, at[5], s.sequence, at[6])
    && IntegerAt(b, at[6], s.latitudeE7, at[7]) && IntegerAt(b, at[7], s.longitudeE7, at[8])
    && IntegerAt(b, at[8], s.altitudeMm, at[9]) && IntegerAt(b, at[9], s.valueQ16, at[10])
    && IntegerAt(b, at[10], s.qualityQ15, at[11]) && IntegerAt(b, at[11], s.batteryMv, at[12])
    && IntegerAt(b, at[12], s.calibrationId, at[13])
  }

  lemma {:induction false} IntegerIsRead(kind: Kind, v: int, b: Bytes, pos: nat, next: nat)
    requires kind.width <= 8 && kind.Holds(v) && (v < 0 ==> kind.signed)
    ensures ReadField(kind, b, pos) == Ok((v, next)) <==> IntegerAt(b, pos, v, next)
  {
    hide HeadAt, ReadHead;
    HeadsAreReadByByte(b, pos);
    FieldFitsHead(kind, v);
  }

  // The values and positions of a list of integers read in a row.
  ghost predicate IntegersAt(b: Bytes, vs: seq<int>, at: seq<nat>) {
    |at| == |vs| + 1 && forall i :: 0 <= i < |vs| ==> IntegerAt(b, at[i], vs[i], at[i + 1])
  }

  lemma {:induction false} IntegersAreRead(kinds: seq<Kind>, vs: seq<int>, b: Bytes, at: seq<nat>)
    requires Narrow(kinds) && Fit(kinds, vs) && IntegersAt(b, vs, at) && at[0] <= |b|
    ensures ReadFields(kinds, b, at[0]) == Ok((vs, at[|vs|]))
    decreases |kinds|
  {
    hide ReadField, IntegerAt, Kind.Holds;
    if kinds != [] {
      assert kinds[0].Holds(vs[0]);
      assert kinds[0].Holds(vs[0]) && vs[0] < 0 ==> kinds[0].signed by { NegativeIsSigned(kinds[0], vs[0]); }
      IntegerIsRead(kinds[0], vs[0], b, at[0], at[1]);
      IntegersAreRead(kinds[1..], vs[1..], b, at[1..]);
      assert [vs[0]] + vs[1..] == vs;
    }
  }

  lemma {:induction false} NegativeIsSigned(kind: Kind, v: int)
    requires kind.Holds(v)
    ensures v < 0 ==> kind.signed
  {
  }

  lemma {:induction false} ReadIntegers(kinds: seq<Kind>, b: Bytes, pos: nat) returns (at: seq<nat>)
    requires Narrow(kinds) && pos <= |b| && ReadFields(kinds, b, pos).Ok?
    ensures var (vs, end) := ReadFields(kinds, b, pos).value;
            IntegersAt(b, vs, at) && at[0] == pos && at[|vs|] == end
    decreases |kinds|
  {
    hide IntegerAt, Kind.Holds;
    if kinds == [] {
      at := [pos];
    } else {
      hide ReadField;
      var (v, next) := ReadField(kinds[0], b, pos).value;
      NegativeIsSigned(kinds[0], v);
      IntegerIsRead(kinds[0], v, b, pos, next);
      var rest := ReadIntegers(kinds[1..], b, next);
      at := [pos] + rest;
      var (vs, end) := ReadFields(kinds[1..], b, next).value;
      assert forall i :: 0 < i < |vs| + 1 ==>
               ([v] + vs)[i] == vs[i - 1] && at[i] == rest[i - 1] && at[i + 1] == rest[i];
    }
  }

  lemma {:induction false} ArrayOfThirteen(b: Bytes)
    ensures ReadArray(b, 0, 13).Ok? <==> b != [] && b[0] == 0x8d
    ensures ReadArray(b, 0, 13).Ok? ==> ReadArray(b, 0, 13).value == 1
  {
    HeadsAreReadByByte(b, 0);
    hide ReadHead;
    if ReadHead(b, 0).Ok? {
      var head := ReadHead(b, 0).value;
      assert HeadAt(b, 0, head.major, head.value, head.next);
    }
    if b != [] && b[0] == 0x8d {
      assert HeadAt(b, 0, 4, 13, 1);
    }
  }

  // Decoding yields exactly the record whose named fields are the items of the array.
  lemma {:induction false} DecodesTheItems(b: Bytes, s: Sample)
    ensures ReadSample(b) == Ok(s) <==> exists at :: SampleAt(b, s, at)
  {
    hide IntegerAt, ReadFields, ReadArray, Pow256;
    ArrayOfThirteen(b);
    SampleFieldsFit(s);
    if ReadSample(b) == Ok(s) {
      var at := ReadIntegers(KINDS, b, 1);
      ItemsOfFields(b, s, at);
    }
    forall at | SampleAt(b, s, at)
      ensures ReadSample(b) == Ok(s)
    {
      ItemsOfFields(b, s, at);
      IntegersAreRead(KINDS, Fields(s), b, at);
      FieldsAreInjective(OfFields(Fields(s)), s);
    }
  }

  lemma {:induction false} ItemsOfFields(b: Bytes, s: Sample, at: seq<nat>)
    requires b != [] && b[0] == 0x8d && |at| == 14 && at[0] == 1
    ensures IntegersAt(b, Fields(s), at) && at[13] == |b| <==> SampleAt(b, s, at)
  {
    hide IntegerAt;
    var vs := Fields(s);
    if SampleAt(b, s, at) {
      forall i | 0 <= i < 13
        ensures IntegerAt(b, at[i], vs[i], at[i + 1])
      {
      }
    }
  }

  lemma {:induction false} EncodesTheItems(s: Sample)
    ensures exists at :: SampleAt(SampleBytes(s), s, at)
  {
    hide SampleBytes, ReadSample, SampleAt;
    ReadSampleOfBytes(s);
    DecodesTheItems(SampleBytes(s), s);
  }

  // What a field between lo and hi refuses, in order; only below zero does it take a
  // negative integer.
  ghost function FieldChecks(lo: int, hi: int, b: Bytes, pos: nat): seq<Check<CborError>> {
    var major := FirstByte(b, pos) / 32;
    HeadChecks(b, pos)
    + [Check(major == 0 || (lo < 0 && major == 1), WrongType(0, major)),
       Check(pos < HeadEnd(b, pos) <= |b| ==>
               lo <= (if major == 1 then -1 - Argument(b, pos) else Argument(b, pos)) < hi, IntOutOfRange)]
  }

  lemma {:induction false} FieldsRefuseTheFirst(b: Bytes, pos: nat)
    ensures IsFirstFailure(Failure(ReadField(U8K, b, pos)), FieldChecks(0, 0x100, b, pos))
    ensures IsFirstFailure(Failure(ReadField(U16K, b, pos)), FieldChecks(0, 0x1_0000, b, pos))
    ensures IsFirstFailure(Failure(ReadField(U32K, b, pos)), FieldChecks(0, 0x1_0000_0000, b, pos))
    ensures IsFirstFailure(Failure(ReadField(U64K, b, pos)), FieldChecks(0, 0x1_0000_0000_0000_0000, b, pos))
    ensures IsFirstFailure(Failure(ReadField(I32K, b, pos)), FieldChecks(-0x8000_0000, 0x8000_0000, b, pos))
  {
    hide Pow256, ReadField;
    WidthLimits();
    FieldRefusesTheFirst(U8K, 0, 0x100, b, pos);
    FieldRefusesTheFirst(U16K, 0, 0x1_0000, b, pos);
    FieldRefusesTheFirst(U32K, 0, 0x1_0000_0000, b, pos);
    FieldRefusesTheFirst(U64K, 0, 0x1_0000_0000_0000_0000, b, pos);
    FieldRefusesTheFirst(I32K, -0x8000_0000, 0x8000_0000, b, pos);
  }

  lemma {:induction false} FieldRefusesTheFirst(kind: Kind, lo: int, hi: int, b: Bytes, pos: nat)
    requires if kind.signed then -2 * lo == 2 * hi == Pow256(kind.width) else lo == 0 && hi == Pow256(kind.width)
    requires kind.width == 4 || !kind.signed
    ensures IsFirstFailure(Failure(ReadField(kind, b, pos)), FieldChecks(lo, hi, b, pos))
  {
    hide ReadHead, Shortest, Argument, Pow256;
    WidthLimits();
    HeadsAreReadByByte(b, pos);
    var heads, checks := HeadChecks(b, pos), FieldChecks(lo, hi, b, pos);
    if ReadHead(b, pos).Err? {
      var k: nat :| FailsFirst(heads, k) && heads[k].error == ReadHead(b, pos).error;
      assert FailsFirst(checks, k) && checks[k] == heads[k];
    } else {
      var head := ReadHead(b, pos).value;
      assert HeadAt(b, pos, head.major, head.value, head.next);
      if ReadField(kind, b, pos).Err? {
        var k := if checks[4].passes then 5 else 4;
        assert FailsFirst(checks, k) && checks[k].error == ReadField(kind, b, pos).error;
      }
    }
  }

  // A byte string of a demanded length: its type, its extent, its length.
  ghost function StringChecks(len: nat, b: Bytes, pos: nat): seq<Check<CborError>> {
    var major := FirstByte(b, pos) / 32;
    HeadChecks(b, pos)
    + [Check(major == 2, WrongType(2, major)),
       Check(pos < HeadEnd(b, pos) <= |b| ==> HeadEnd(b, pos) + Argument(b, pos) <= |b|, Truncated),
       Check(pos < HeadEnd(b, pos) <= |b| ==> Argument(b, pos) == len, CborError.WrongLength(len, 0))]
  }

  lemma {:induction false} StringsRefuseTheFirst(len: nat, b: Bytes, pos: nat)
    ensures IsFirstFailure(Failure(ReadSized(b, pos, len)), StringChecks(len, b, pos))
  {
    hide ReadHead, Shortest, Argument;
    HeadsAreReadByByte(b, pos);
    var heads, checks := HeadChecks(b, pos), StringChecks(len, b, pos);
    if ReadHead(b, pos).Err? {
      var k: nat :| FailsFirst(heads, k) && heads[k].error == ReadHead(b, pos).error;
      assert FailsFirst(checks, k) && checks[k] == heads[k];
    } else {
      var head := ReadHead(b, pos).value;
      assert HeadAt(b, pos, head.major, head.value, head.next);
      if ReadSized(b, pos, len).Err? {
        var k := if !checks[4].passes then 4 else if !checks[5].passes then 5 else 6;
        assert FailsFirst(checks, k) && checks[k].error == ReadSized(b, pos, len).error;
      }
    }
  }

  // An array of an expected number of items.
  ghost function ArrayChecks(expected: nat, b: Bytes, pos: nat): seq<Check<CborError>> {
    var major := FirstByte(b, pos) / 32;
    var n := if pos < HeadEnd(b, pos) <= |b| then Argument(b, pos) else 0;
    HeadChecks(b, pos)
    + [Check(major == 4, WrongType(4, major)), Check(n == expected, CborError.WrongLength(expected, n))]
  }

  lemma {:induction false} ArraysRefuseTheFirst(expected: nat, b: Bytes, pos: nat)
    ensures IsFirstFailure(Failure(ReadArray(b, pos, expected)), ArrayChecks(expected, b, pos))
  {
    hide ReadHead, Shortest, Argument;
    HeadsAreReadByByte(b, pos);
    var heads, checks := HeadChecks(b, pos), ArrayChecks(expected, b, pos);
    if ReadHead(b, pos).Err? {
      var k: nat :| FailsFirst(heads, k) && heads[k].error == ReadHead(b, pos).error;
      assert FailsFirst(checks, k) && checks[k] == heads[k];
    } else {
      var head := ReadHead(b, pos).value;
      assert HeadAt(b, pos, head.major, head.value, head.next);
      if ReadArray(b, pos, expected).Err? {
        var k := if !checks[4].passes then 4 else 5;
        assert FailsFirst(checks, k) && checks[k].error == ReadArray(b, pos, expected).error;
      }
    }
  }

  // The three strings, each behind the two bytes of its type and length.
  ghost function Framed(e: Envelope): Bytes {
    [0x83] + [0x58, 48] + e.payload + [0x58, 32] + e.pubkey + [0x58, 64] + e.signature
  }

  // An envelope is exactly its bytes so framed.
  lemma {:induction false} EnvelopeByByte(b: Bytes, e: Envelope)
    requires e.Sized()
    ensures ReadEnvelope(b) == Ok(e) <==> b == Framed(e)
  {
    hide EnvelopeBytes, ReadEnvelope;
    EnvelopeInFull(e);
    ReadEnvelopeOfBytes(e);
    if ReadEnvelope(b) == Ok(e) {
      ReadEnvelopeIsCanonical(b);
    }
  }

  lemma {:induction false} EnvelopeInFull(e: Envelope)
    requires e.Sized()
    ensures EnvelopeBytes(e) == Framed(e)
  {
    EnvelopeHeads();
    hide HeadBytes;
  }

  lemma {:induction false} EnvelopeHeads()
    ensures HeadBytes(4, 3) == [0x83]
    ensures HeadBytes(2, 48) == [0x58, 48] && HeadBytes(2, 32) == [0x58, 32] && HeadBytes(2, 64) == [0x58, 64]
  {
    BeOfByte(48);
    BeOfByte(32);
    BeOfByte(64);
  }

  // ---------------------------------------------------------------------
  // The reader and the writers
  // ---------------------------------------------------------------------

  class Reader {
    const b: Bytes
    var pos: nat

    constructor (b: Bytes)
      ensures this.b == b && pos == 0
    {
      this.b, pos := b, 0;
    }

    // What a reading that the specification answers with `want` returns, and
    // where it leaves the position.
    ghost predicate Follows<T>(got: Result<T, CborError>, want: Result<(T, nat), CborError>)
      reads this
    {
      match want
      case Ok((v, next)) => got == Ok(v) && pos == next
      case Err(e) => got == Err(e)
    }

    method Take(n: nat) returns (r: Result<Bytes, CborError>)
      requires pos <= |b|
      modifies this
      ensures Follows(r, if old(pos) + n > |b| then Err(Truncated) else Ok((b[old(pos)..old(pos) + n], old(pos) + n)))
      ensures pos <= |b|
    {
      if pos + n > |b| {
        return Err(Truncated);
      }
      r := Ok(b[pos..pos + n]);
      pos := pos + n;
    }

    method ReadHeadNext() returns (r: Result<(nat, U64), CborError>)
      requires pos <= |b|
      modifies this
      ensures match ReadHead(b, old(pos))
              case Ok(head) => r == Ok((head.major, head.value)) && pos == head.next
              case Err(e) => r == Err(e)
      ensures pos <= |b|
    {
      WidthLimits();
      var byte :- Take(1);
      var first := byte[0];
      var major, ai := first / 32, first % 32;
      if ai <= 23 {
        return Ok((major, ai));
      } else if ai == 24 {
        var arg :- Take(1);
        var v := FromBe(arg);
        if v < 24 {
          return Err(NotCanonical);
        }
        return Ok((major, v));
      } else if ai == 25 {
        var arg :- Take(2);
        var v := FromBe(arg);
        if v <= 0xff {
          return Err(NotCanonical);
        }
        return Ok((major, v));
      } else if ai == 26 {
        var arg :- Take(4);
        var v := FromBe(arg);
        if v <= 0xffff {
          return Err(NotCanonical);
        }
        return Ok((major, v));
      } else if ai == 27 {
        var arg :- Take(8);
        var v := FromBe(arg);
        if v <= 0xffff_ffff {
          return Err(NotCanonical);
        }
        return Ok((major, v));
      }
      return Err(BadHead(first));
    }

    method ReadUint() returns (r: Result<U64, CborError>)
      requires pos <= |b|
      modifies this
      ensures Follows(r, ReadField(U64K, b, old(pos)))
      ensures pos <= |b|
    {
      WidthLimits();
      var head :- ReadHeadNext();
      var major, v := head.0, head.1;
      if major != 0 {
        return Err(WrongType(0, major));
      }
      return Ok(v);
    }

    method ReadInt() returns (r: Result<int, CborError>)
      requires pos <= |b|
      modifies this
      ensures Follows(r, ReadField(Kind(8, true), b, old(pos)))
      ensures pos <= |b|
    {
      WidthLimits();
      var head :- ReadHeadNext();
      var major, v := head.0, head.1;
      if major == 0 {
        if v > I64_MAX {
          return Err(IntOutOfRange);
        }
        return Ok(v);
      } else if major == 1 {
        if v > I64_MAX {
          return Err(IntOutOfRange);
        }
        return Ok(-1 - v);
      }
      return Err(WrongType(0, major));
    }

    // to_u8(r.read_uint()?)?, to_i32(r.read_int()?)? and their like.
    method ReadNarrow(kind: Kind) returns (r: Result<int, CborError>)
      requires pos <= |b| && kind.width <= 8
      modifies this
      ensures Follows(r, ReadField(kind, b, old(pos)))
      ensures pos <= |b|
    {
      WidthLimits();
      if kind.signed {
        var v :- ReadInt();
        Pow256Monotone(kind.width, 8);
        if -(Pow256(kind.width) as int) <= 2 * v < Pow256(kind.width) {
          return Ok(v);
        }
        return Err(IntOutOfRange);
      } else {
        var v :- ReadUint();
        if v < Pow256(kind.width) {
          return Ok(v);
        }
        return Err(IntOutOfRange);
      }
    }

    method ReadString(len: nat) returns (r: Result<Bytes, CborError>)
      requires pos <= |b|
      modifies this
      ensures Follows(r, ReadSized(b, old(pos), len))
      ensures pos <= |b|
    {
      var head :- ReadHeadNext();
      var major, n := head.0, head.1;
      if major != 2 {
        return Err(WrongType(2, major));
      }
      var x :- Take(n);
      if |x| != len {
        return Err(CborError.WrongLength(len, 0));
      }
      return Ok(x);
    }

    method ReadArrayHead(expected: nat) returns (r: Result<(), CborError>)
      requires pos <= |b|
      modifies this
      ensures match ReadArray(b, old(pos), expected)
              case Ok(next) => r == Ok(()) && pos == next
              case Err(e) => r == Err(e)
      ensures pos <= |b|
    {
      var head :- ReadHeadNext();
      var major, len := head.0, head.1;
      if major != 4 {
        return Err(WrongType(4, major));
      }
      if len != expected {
        return Err(CborError.WrongLength(expected, len));
      }
      return Ok(());
    }
  }

  class Writer {
    var out: Bytes

    constructor ()
      ensures out == []
    {
      out := [];
    }

    method WriteHead(major: nat, value: U64)
      requires major < 8
      modifies this
      ensures out == old(out) + HeadBytes(major, value)
    {
      var m := major * 32;
      if value < 24 {
        out := out + [m + value];
      } else if value <= 0xff {
        BeOfByte(value);
        out := out + [m + 24] + [value];
      } else if value <= 0xffff {
        out := out + [m + 25] + ToBe(value, 2);
      } else if value <= 0xffff_ffff {
        out := out + [m + 26] + ToBe(value, 4);
      } else {
        out := out + [m + 27] + ToBe(value, 8);
      }
    }

    method WriteUint(v: U64)
      modifies this
      ensures out == old(out) + HeadBytes(0, v)
    {
      WriteHead(0, v);
    }

    method WriteInt(v: int)
      requires -I64_MAX - 1 <= v <= I64_MAX
      modifies this
      ensures out == old(out) + (if v < 0 then HeadBytes(1, -1 - v) else HeadBytes(0, v))
    {
      if v >= 0 {
        WriteHead(0, v);
      } else {
        WriteHead(1, -1 - v);
      }
    }

    method WriteBytes(x: Bytes)
      requires |x| < U64_LIMIT
      modifies this
      ensures out == old(out) + StringBytes(x)
    {
      WriteHead(2, |x|);
      out := out + x;
    }

    method WriteArray(len: U64)
      modifies this
      ensures out == old(out) + HeadBytes(4, len)
    {
      WriteHead(4, len);
    }
  }

  lemma BeOfByte(v: Byte)
    ensures ToBe(v, 1) == [v]
  {
    assert ToBe(v / 256, 0) == [];
  }

  // ---------------------------------------------------------------------
  // encode_sample_v1 and decode_sample_v1
  // ---------------------------------------------------------------------

  lemma {:induction false} FieldsBytesSnoc(kinds: seq<Kind>, vs: seq<int>, k: nat)
    requires Narrow(kinds) && Fit(kinds, vs) && k < |kinds|
    ensures FieldsBytes(kinds[..k + 1], vs[..k + 1])
         == FieldsBytes(kinds[..k], vs[..k]) + FieldBytes(kinds[k], vs[k])
  {
    hide FieldBytes, Pow256;
    if k == 0 {
      assert kinds[..1][1..] == [] && vs[..1][1..] == [];
    } else {
      FieldsBytesSnoc(kinds[1..], vs[1..], k - 1);
      assert kinds[..k][1..] == kinds[1..][..k - 1] && vs[..k][1..] == vs[1..][..k - 1];
      assert kinds[..k + 1][1..] == kinds[1..][..k] && vs[..k + 1][1..] == vs[1..][..k];
    }
  }

  // out holds the array head and the first k fields of s.
  ghost predicate Encoded(out: Bytes, s: Sample, k: nat) {
    && k <= |KINDS| && Fit(KINDS[..k], Fields(s)[..k])
    && out == HeadBytes(4, 13) + FieldsBytes(KINDS[..k], Fields(s)[..k])
  }

  // One line of encode_sample_v1.
  method WriteField(w: Writer, s: Sample, k: nat) returns (next: nat)
    requires k < |KINDS| && Encoded(w.out, s, k)
    modifies w
    ensures next == k + 1 && Encoded(w.out, s, next)
  {
    hide HeadBytes, FieldsBytes, Pow256;
    SampleFieldsFit(s);
    FieldsBytesSnoc(KINDS, Fields(s), k);
    FieldFitsHead(KINDS[k], Fields(s)[k]);
    if KINDS[k].signed {
      w.WriteInt(Fields(s)[k]);
    } else {
      w.WriteUint(Fields(s)[k]);
    }
    next := k + 1;
  }

  method EncodeSampleV1(s: Sample) returns (out: Bytes)
    ensures out == SampleBytes(s) && exists at :: SampleAt(out, s, at)
  {
    var w := new Writer();
    w.WriteArray(13);
    var k := 0;
    k := WriteField(w, s, k);
    k := WriteField(w, s, k);
    k := WriteField(w, s, k);
    k := WriteField(w, s, k);
    k := WriteField(w, s, k);
    k := WriteField(w, s, k);
    k := WriteField(w, s, k);
    k := WriteField(w, s, k);
    k := WriteField(w, s, k);
    k := WriteField(w, s, k);
    k := WriteField(w, s, k);
    k := WriteField(w, s, k);
    k := WriteField(w, s, k);
    assert KINDS[..k] == KINDS && Fields(s)[..k] == Fields(s);
    out := w.out;
    EncodesTheItems(s);
  }

  // Having read vs, what is left of reading all fields from start is to read the
  // others from pos.
  ghost predicate Decoding(kinds: seq<Kind>, b: Bytes, start: nat, vs: seq<int>, pos: nat) {
    && start <= |b| && pos <= |b| && |vs| <= |kinds|
    && ReadFields(kinds, b, start)
       == var rest := ReadFields(kinds[|vs|..], b, pos);
          if rest.Ok? then Ok((vs + rest.value.0, rest.value.1)) else rest
  }

  lemma DecodingStarts(kinds: seq<Kind>, b: Bytes, start: nat)
    requires start <= |b|
    ensures Decoding(kinds, b, start, [], start)
  {
    hide ReadFields;
    assert kinds[0..] == kinds;
    if ReadFields(kinds, b, start).Ok? {
      assert [] + ReadFields(kinds, b, start).value.0 == ReadFields(kinds, b, start).value.0;
    }
  }

  lemma DecodingContinues(kinds: seq<Kind>, b: Bytes, start: nat, vs: seq<int>, pos: nat)
    requires |vs| < |kinds| && Decoding(kinds, b, start, vs, pos)
    ensures var got := ReadField(kinds[|vs|], b, pos);
            if got.Ok? then Decoding(kinds, b, start, vs + [got.value.0], got.value.1)
            else ReadFields(kinds, b, start) == Err(got.error)
  {
    hide ReadField;
    var tail, got := kinds[|vs|..], ReadField(kinds[|vs|], b, pos);
    assert tail[0] == kinds[|vs|] && tail[1..] == kinds[|vs| + 1..];
    if got.Ok? {
      var rest := ReadFields(tail[1..], b, got.value.1);
      if rest.Ok? {
        assert vs + ([got.value.0] + rest.value.0) == (vs + [got.value.0]) + rest.value.0;
      }
    }
  }

  lemma DecodingEnds(kinds: seq<Kind>, b: Bytes, start: nat, vs: seq<int>, pos: nat)
    requires |vs| == |kinds| && Decoding(kinds, b, start, vs, pos)
    ensures ReadFields(kinds, b, start) == Ok((vs, pos))
  {
    assert vs + [] == vs && kinds[|vs|..] == [];
  }

  // One line of decode_sample_v1.
  method DecodeField(r: Reader, ghost start: nat, vs: seq<int>) returns (next: Result<seq<int>, CborError>)
    requires start <= |r.b| && |vs| < |KINDS| && r.pos <= |r.b| && Decoding(KINDS, r.b, start, vs, r.pos)
    modifies r
    ensures match next
            case Ok(vs') => |vs'| == |vs| + 1 && r.pos <= |r.b| && Decoding(KINDS, r.b, start, vs', r.pos)
            case Err(e) => ReadFields(KINDS, r.b, start) == Err(e)
  {
    hide ReadField, ReadFields, Decoding;
    DecodingContinues(KINDS, r.b, start, vs, r.pos);
    var v :- r.ReadNarrow(KINDS[|vs|]);
    next := Ok(vs + [v]);
  }

  method DecodeSampleV1(b: Bytes) returns (result: Result<Sample, CborError>)
    ensures result == ReadSample(b)
    ensures forall s :: result == Ok(s) <==> exists at :: SampleAt(b, s, at)
  {
    hide ReadFields, ReadArray, Decoding, SampleAt;
    forall s {
      DecodesTheItems(b, s);
    }
    var r := new Reader(b);
    var _ :- r.ReadArrayHead(13);
    ghost var start := r.pos;
    DecodingStarts(KINDS, b, start);
    var vs: seq<int> := [];
    vs :- DecodeField(r, start, vs);
    vs :- DecodeField(r, start, vs);
    vs :- DecodeField(r, start, vs);
    vs :- DecodeField(r, start, vs);
    vs :- DecodeField(r, start, vs);
    vs :- DecodeField(r, start, vs);
    vs :- DecodeField(r, start, vs);
    vs :- DecodeField(r, start, vs);
    vs :- DecodeField(r, start, vs);
    vs :- DecodeField(r, start, vs);
    vs :- DecodeField(r, start, vs);
    vs :- DecodeField(r, start, vs);
    vs :- DecodeField(r, start, vs);
    DecodingEnds(KINDS, b, start, vs, r.pos);
    if r.pos != |b| {
      return Err(TrailingBytes(|b| - r.pos));
    }
    return Ok(OfFields(vs));
  }

  // ---------------------------------------------------------------------
  // SignedEnvRecordV1::encode and decode
  // ---------------------------------------------------------------------

  lemma {:induction false} Regrouped(a: Bytes, b: Bytes, c: Bytes, d: Bytes)
    ensures [] + a + b + c + d == a + (b + (c + d))
  {
  }

  method EncodeEnvelope(e: Envelope) returns (out: Bytes)
    requires e.Sized()
    ensures out == EnvelopeBytes(e) == Framed(e)
  {
    hide HeadBytes, StringBytes, Framed;
    Regrouped(HeadBytes(4, 3), StringBytes(e.payload), StringBytes(e.pubkey), StringBytes(e.signature));
    EnvelopeInFull(e);
    var w := new Writer();
    w.WriteArray(3);
    w.WriteBytes(e.payload);
    w.WriteBytes(e.pubkey);
    w.WriteBytes(e.signature);
    out := w.out;
  }

  method DecodeEnvelope(b: Bytes) returns (result: Result<Envelope, CborError>)
    ensures result == ReadEnvelope(b)
  {
    var r := new Reader(b);
    var _ :- r.ReadArrayHead(3);
    var payload :- r.ReadString(WIRE_LEN);
    var pubkey :- r.ReadString(32);
    var signature :- r.ReadString(64);
    if r.pos != |b| {
      return Err(TrailingBytes(|b| - r.pos));
    }
    return Ok(Envelope(payload, pubkey, signature));
  }
}
