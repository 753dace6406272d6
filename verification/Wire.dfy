// rucelium-abi/src/wire.rs: the 48-byte packed little-endian record.
module Wire {
  import opened Common
  import opened Words
  import opened Domain

  const RV_ENV_SCHEMA_V1 := 1
  const WIRE_LEN := 48
  const SENSOR_TYPE_MAX := 9
  const Q15_ONE := 0x8000

  datatype Sample = Sample(
    schemaVersion: U8,
    sensorType: U8,
    flags: U16,
    nodeId: U64,
    timestampNs: U64,
    sequence: U32,
    latitudeE7: I32,
    longitudeE7: I32,
    altitudeMm: I32,
    valueQ16: I32,
    qualityQ15: U16,
    batteryMv: U16,
    calibrationId: U32)

  datatype AbiError =
    | WrongLength(expected: nat, actual: nat)
    | BadSchemaVersion(version: U8)
    | UnknownModality(code: U8)
    | GeoOutOfRange(field: string, value: I32)
    | QualityOutOfRange(quality: U16)
    | ZeroTimestamp

  // ---------------------------------------------------------------------
  // Field layout, shared with the CBOR form
  // ---------------------------------------------------------------------

  // A field: its width in bytes, and whether it is two's complement.
  datatype Kind = Kind(width: nat, signed: bool) {
    ghost predicate Holds(v: int) {
      if signed then -(Pow256(width) as int) <= 2 * v < Pow256(width) else 0 <= v < Pow256(width)
    }
  }

  const U8K := Kind(1, false)
  const U16K := Kind(2, false)
  const U32K := Kind(4, false)
  const U64K := Kind(8, false)
  const I32K := Kind(4, true)

  const KINDS: seq<Kind> :=
    [U8K, U8K, U16K, U64K, U64K, U32K, I32K, I32K, I32K, I32K, U16K, U16K, U32K]

  function Fields(s: Sample): (vs: seq<int>)
    ensures |vs| == |KINDS|
  {
    [s.schemaVersion, s.sensorType, s.flags, s.nodeId, s.timestampNs, s.sequence, s.latitudeE7,
     s.longitudeE7, s.altitudeMm, s.valueQ16, s.qualityQ15, s.batteryMv, s.calibrationId]
  }

  ghost predicate Fit(kinds: seq<Kind>, vs: seq<int>) {
    |vs| == |kinds| && forall k :: 0 <= k < |kinds| ==> kinds[k].Holds(vs[k])
  }

  function Pow256(n: nat): (p: nat)
    ensures p > 0
  {
    if n == 0 then 1 else 256 * Pow256(n - 1)
  }

  lemma WidthLimits()
    ensures Pow256(1) == U8_LIMIT && Pow256(2) == U16_LIMIT && Pow256(4) == U32_LIMIT && Pow256(8) == U64_LIMIT
  {
    assert Pow256(2) == 256 * Pow256(1) && Pow256(1) == 256 * Pow256(0);
    assert Pow256(4) == 256 * Pow256(3) && Pow256(3) == 256 * Pow256(2);
    assert Pow256(8) == 256 * Pow256(7) && Pow256(7) == 256 * Pow256(6);
    assert Pow256(6) == 256 * Pow256(5) && Pow256(5) == 256 * Pow256(4);
  }

  lemma SampleFieldsFit(s: Sample)
    ensures Fit(KINDS, Fields(s))
  {
    WidthLimits();
  }

  // The record with the given field values.
  function OfFields(vs: seq<int>): (s: Sample)
    requires Fit(KINDS, vs)
    ensures Fields(s) == vs
  {
    WidthLimits();
    assert forall k :: 0 <= k < 13 ==> KINDS[k].Holds(vs[k]);
    assert KINDS[0].Holds(vs[0]) && KINDS[1].Holds(vs[1]) && KINDS[2].Holds(vs[2]) && KINDS[3].Holds(vs[3]);
    assert KINDS[4].Holds(vs[4]) && KINDS[5].Holds(vs[5]) && KINDS[6].Holds(vs[6]) && KINDS[7].Holds(vs[7]);
    assert KINDS[8].Holds(vs[8]) && KINDS[9].Holds(vs[9]) && KINDS[10].Holds(vs[10]) && KINDS[11].Holds(vs[11]);
    assert KINDS[12].Holds(vs[12]);
    Sample(vs[0], vs[1], vs[2], vs[3], vs[4], vs[5], vs[6], vs[7], vs[8], vs[9], vs[10], vs[11], vs[12])
  }

  lemma FieldsAreInjective(a: Sample, b: Sample)
    requires Fields(a) == Fields(b)
    ensures a == b
  {
    var va, vb := Fields(a), Fields(b);
    assert va[0] == vb[0] && va[1] == vb[1] && va[2] == vb[2] && va[3] == vb[3] && va[4] == vb[4];
    assert va[5] == vb[5] && va[6] == vb[6] && va[7] == vb[7] && va[8] == vb[8] && va[9] == vb[9];
    assert va[10] == vb[10] && va[11] == vb[11] && va[12] == vb[12];
  }

  // ---------------------------------------------------------------------
  // Little-endian integers
  // ---------------------------------------------------------------------

  function ToLe(v: nat, n: nat): (b: Bytes)
    ensures |b| == n
  {
    if n == 0 then [] else [v % 256] + ToLe(v / 256, n - 1)
  }

  function FromLe(b: Bytes): (v: nat)
    ensures v < Pow256(|b|)
  {
    if b == [] then 0 else b[0] + 256 * FromLe(b[1..])
  }

  lemma {:induction false} LeRoundTrips(v: nat, n: nat)
    requires v < Pow256(n)
    ensures FromLe(ToLe(v, n)) == v
  {
    if n > 0 {
      LeRoundTrips(v / 256, n - 1);
      assert ToLe(v, n)[1..] == ToLe(v / 256, n - 1);
    }
  }

  lemma {:induction false} LeIsCanonical(b: Bytes)
    ensures ToLe(FromLe(b), |b|) == b
  {
    if b != [] {
      LeIsCanonical(b[1..]);
      assert FromLe(b) % 256 == b[0] && FromLe(b) / 256 == FromLe(b[1..]);
    }
  }

  // Two's complement in the width of the field.
  function ToUnsigned(kind: Kind, v: int): (u: nat)
    requires kind.Holds(v)
    ensures u < Pow256(kind.width)
  {
    if v < 0 then v + Pow256(kind.width) else v
  }

  function OfUnsigned(kind: Kind, u: nat): (v: int)
    requires u < Pow256(kind.width)
    ensures kind.Holds(v)
    ensures ToUnsigned(kind, v) == u
  {
    if kind.signed && 2 * u >= Pow256(kind.width) then u - Pow256(kind.width) else u
  }

  // ---------------------------------------------------------------------
  // encode and parse
  // ---------------------------------------------------------------------

  function Pack(kinds: seq<Kind>, vs: seq<int>): Bytes
    requires Fit(kinds, vs)
  {
    if kinds == [] then []
    else ToLe(ToUnsigned(kinds[0], vs[0]), kinds[0].width) + Pack(kinds[1..], vs[1..])
  }

  function Size(kinds: seq<Kind>): nat {
    if kinds == [] then 0 else kinds[0].width + Size(kinds[1..])
  }

  function Rd(kind: Kind, b: Bytes, off: nat): (v: int)
    requires off + kind.width <= |b|
    ensures kind.Holds(v)
  {
    OfUnsigned(kind, FromLe(b[off..off + kind.width]))
  }

  // The fields laid out from offset off on.
  function Unpack(kinds: seq<Kind>, b: Bytes, off: nat): (vs: seq<int>)
    requires off + Size(kinds) <= |b|
    ensures |vs| == |kinds|
  {
    if kinds == [] then []
    else [Rd(kinds[0], b, off)] + Unpack(kinds[1..], b, off + kinds[0].width)
  }

  lemma {:induction false} UnpackOfPack(kinds: seq<Kind>, vs: seq<int>, b: Bytes, off: nat)
    requires Fit(kinds, vs) && off <= |b| && b[off..] == Pack(kinds, vs)
    ensures |b| == off + Size(kinds) && Unpack(kinds, b, off) == vs
  {
    hide ToLe, FromLe, Pow256;
    if kinds != [] {
      var u, w := ToUnsigned(kinds[0], vs[0]), kinds[0].width;
      LeRoundTrips(u, w);
      assert b[off..off + w] == b[off..][..w] == ToLe(u, w);
      assert b[off + w..] == b[off..][w..] == Pack(kinds[1..], vs[1..]);
      UnpackOfPack(kinds[1..], vs[1..], b, off + w);
      assert kinds[0].Holds(vs[0]);
    }
  }

  lemma {:induction false} PackOfUnpack(kinds: seq<Kind>, b: Bytes, off: nat)
    requires |b| == off + Size(kinds)
    ensures Fit(kinds, Unpack(kinds, b, off)) && Pack(kinds, Unpack(kinds, b, off)) == b[off..]
  {
    hide ToLe, FromLe, Pow256, Rd, ToUnsigned, Kind.Holds;
    if kinds != [] {
      var w, vs := kinds[0].width, Unpack(kinds, b, off);
      PackOfUnpack(kinds[1..], b, off + w);
      FieldIsItsBytes(kinds[0], b, off);
      assert vs[1..] == Unpack(kinds[1..], b, off + w) && vs[0] == Rd(kinds[0], b, off);
      assert b[off..] == b[off..off + w] + b[off + w..];
    }
  }

  lemma FieldIsItsBytes(kind: Kind, b: Bytes, off: nat)
    requires off + kind.width <= |b|
    ensures ToLe(ToUnsigned(kind, Rd(kind, b, off)), kind.width) == b[off..off + kind.width]
  {
    LeIsCanonical(b[off..off + kind.width]);
  }

  function Offset(kinds: seq<Kind>, k: nat): nat
    requires k <= |kinds|
  {
    if k == 0 then 0 else kinds[0].width + Offset(kinds[1..], k - 1)
  }

  lemma {:induction false} OffsetsAdd(kinds: seq<Kind>, k: nat)
    requires k < |kinds|
    ensures Offset(kinds, k + 1) == Offset(kinds, k) + kinds[k].width
    ensures Offset(kinds, k) + kinds[k].width <= Size(kinds)
  {
    if k == 0 {
      assert Offset(kinds, 1) == kinds[0].width + Offset(kinds[1..], 0);
    } else {
      OffsetsAdd(kinds[1..], k - 1);
    }
  }

  lemma {:induction false} UnpackAt(kinds: seq<Kind>, b: Bytes, off: nat, k: nat)
    requires off + Size(kinds) <= |b| && k < |kinds|
    ensures Offset(kinds, k) + kinds[k].width <= Size(kinds)
    ensures Unpack(kinds, b, off)[k] == Rd(kinds[k], b, off + Offset(kinds, k))
  {
    hide Rd;
    OffsetsAdd(kinds, k);
    if k > 0 {
      UnpackAt(kinds[1..], b, off + kinds[0].width, k - 1);
    }
  }

  function EncodeWire(s: Sample): Bytes {
    SampleFieldsFit(s);
    Pack(KINDS, Fields(s))
  }

  lemma LayoutOffsets()
    ensures Offset(KINDS, 0) == 0 && Offset(KINDS, 1) == 1 && Offset(KINDS, 2) == 2 && Offset(KINDS, 3) == 4
    ensures Offset(KINDS, 4) == 12 && Offset(KINDS, 5) == 20 && Offset(KINDS, 6) == 24 && Offset(KINDS, 7) == 28
    ensures Offset(KINDS, 8) == 32 && Offset(KINDS, 9) == 36 && Offset(KINDS, 10) == 40 && Offset(KINDS, 11) == 42
    ensures Offset(KINDS, 12) == 44 && Offset(KINDS, 13) == WIRE_LEN == Size(KINDS)
  {
    OffsetsAdd(KINDS, 0);
    OffsetsAdd(KINDS, 1);
    OffsetsAdd(KINDS, 2);
    OffsetsAdd(KINDS, 3);
    OffsetsAdd(KINDS, 4);
    OffsetsAdd(KINDS, 5);
    OffsetsAdd(KINDS, 6);
    OffsetsAdd(KINDS, 7);
    OffsetsAdd(KINDS, 8);
    OffsetsAdd(KINDS, 9);
    OffsetsAdd(KINDS, 10);
    OffsetsAdd(KINDS, 11);
    OffsetsAdd(KINDS, 12);
    OffsetIsSize(KINDS);
  }

  lemma {:induction false} OffsetIsSize(kinds: seq<Kind>)
    ensures Offset(kinds, |kinds|) == Size(kinds)
  {
    if kinds != [] {
      OffsetIsSize(kinds[1..]);
    }
  }

  function ReadAll(b: Bytes): (vs: seq<int>)
    requires |b| == WIRE_LEN
    ensures Fit(KINDS, vs)
  {
    [Rd(U8K, b, 0), Rd(U8K, b, 1), Rd(U16K, b, 2), Rd(U64K, b, 4), Rd(U64K, b, 12), Rd(U32K, b, 20), Rd(I32K, b, 24),
     Rd(I32K, b, 28), Rd(I32K, b, 32), Rd(I32K, b, 36), Rd(U16K, b, 40), Rd(U16K, b, 42), Rd(U32K, b, 44)]
  }

  // RvEnvSampleV1::parse, field by field at its fixed offset.
  function ParseWire(b: Bytes): (r: Result<Sample, AbiError>)
  {
    if |b| != WIRE_LEN then Err(WrongLength(WIRE_LEN, |b|)) else Ok(OfFields(ReadAll(b)))
  }

  lemma ParseIsUnpack(b: Bytes)
    requires |b| == WIRE_LEN
    ensures |b| == Size(KINDS) && ReadAll(b) == Unpack(KINDS, b, 0)
  {
    LayoutOffsets();
    UnpackAtOffsets(b);
    Thirteen(Unpack(KINDS, b, 0), Rd(U8K, b, 0), Rd(U8K, b, 1), Rd(U16K, b, 2), Rd(U64K, b, 4), Rd(U64K, b, 12),
             Rd(U32K, b, 20), Rd(I32K, b, 24), Rd(I32K, b, 28), Rd(I32K, b, 32), Rd(I32K, b, 36), Rd(U16K, b, 40),
             Rd(U16K, b, 42), Rd(U32K, b, 44));
  }

  lemma Thirteen(vs: seq<int>, v0: int, v1: int, v2: int, v3: int, v4: int, v5: int, v6: int, v7: int, v8: int,
                 v9: int, v10: int, v11: int, v12: int)
    requires |vs| == 13 && vs[0] == v0 && vs[1] == v1 && vs[2] == v2 && vs[3] == v3 && vs[4] == v4 && vs[5] == v5
    requires vs[6] == v6 && vs[7] == v7 && vs[8] == v8 && vs[9] == v9 && vs[10] == v10 && vs[11] == v11 && vs[12] == v12
    ensures vs == [v0, v1, v2, v3, v4, v5, v6, v7, v8, v9, v10, v11, v12]
  {
  }

  ghost predicate FieldsAt(b: Bytes, vs: seq<int>)
    requires |b| == WIRE_LEN && |vs| == 13
  {
    && vs[0] == Rd(U8K, b, 0) && vs[1] == Rd(U8K, b, 1) && vs[2] == Rd(U16K, b, 2) && vs[3] == Rd(U64K, b, 4)
    && vs[4] == Rd(U64K, b, 12) && vs[5] == Rd(U32K, b, 20) && vs[6] == Rd(I32K, b, 24) && vs[7] == Rd(I32K, b, 28)
    && vs[8] == Rd(I32K, b, 32) && vs[9] == Rd(I32K, b, 36) && vs[10] == Rd(U16K, b, 40) && vs[11] == Rd(U16K, b, 42)
    && vs[12] == Rd(U32K, b, 44)
  }

  lemma UnpackAtOffsets(b: Bytes)
    requires |b| == WIRE_LEN == Size(KINDS)
    ensures FieldsAt(b, Unpack(KINDS, b, 0))
  {
    hide Rd;
    LayoutOffsets();
    UnpackAt(KINDS, b, 0, 0);
    UnpackAt(KINDS, b, 0, 1);
    UnpackAt(KINDS, b, 0, 2);
    UnpackAt(KINDS, b, 0, 3);
    UnpackAt(KINDS, b, 0, 4);
    UnpackAt(KINDS, b, 0, 5);
    UnpackAt(KINDS, b, 0, 6);
    UnpackAt(KINDS, b, 0, 7);
    UnpackAt(KINDS, b, 0, 8);
    UnpackAt(KINDS, b, 0, 9);
    UnpackAt(KINDS, b, 0, 10);
    UnpackAt(KINDS, b, 0, 11);
    UnpackAt(KINDS, b, 0, 12);
  }

  // Parsing undoes encoding ...
  lemma ParseOfEncode(s: Sample)
    ensures |EncodeWire(s)| == WIRE_LEN && ParseWire(EncodeWire(s)) == Ok(s)
  {
    LayoutOffsets();
    SampleFieldsFit(s);
    assert EncodeWire(s)[0..] == EncodeWire(s);
    UnpackOfPack(KINDS, Fields(s), EncodeWire(s), 0);
    ParseIsUnpack(EncodeWire(s));
    FieldsAreInjective(OfFields(Fields(s)), s);
  }

  // ... and encoding undoes parsing: all 2^384 records are distinct.
  lemma EncodeOfParse(b: Bytes)
    requires ParseWire(b).Ok?
    ensures EncodeWire(ParseWire(b).value) == b
  {
    ParseIsUnpack(b);
    PackOfUnpack(KINDS, b, 0);
  }

  // ---------------------------------------------------------------------
  // The layout, field by named field
  // ---------------------------------------------------------------------

  ghost function Le16(b: Bytes, off: nat): nat
    requires off + 2 <= |b|
  {
    (b[off] as int) + 0x100 * (b[off + 1] as int)
  }

  ghost function Le32(b: Bytes, off: nat): nat
    requires off + 4 <= |b|
  {
    (b[off] as int) + 0x100 * (b[off + 1] as int) + 0x1_0000 * (b[off + 2] as int) + 0x100_0000 * (b[off + 3] as int)
  }

  ghost function Le64(b: Bytes, off: nat): nat
    requires off + 8 <= |b|
  {
    Le32(b, off) + 0x1_0000_0000 * Le32(b, off + 4)
  }

  ghost function TwosComplement32(u: nat): int {
    if u >= 0x8000_0000 then u - 0x1_0000_0000 else u
  }

  ghost predicate LaidOut(b: Bytes, s: Sample) {
    && |b| == 48
    && s.schemaVersion == b[0] && s.sensorType == b[1] && s.flags == Le16(b, 2)
    && s.nodeId == Le64(b, 4) && s.timestampNs == Le64(b, 12) && s.sequence == Le32(b, 20)
    && s.latitudeE7 == TwosComplement32(Le32(b, 24)) && s.longitudeE7 == TwosComplement32(Le32(b, 28))
    && s.altitudeMm == TwosComplement32(Le32(b, 32)) && s.valueQ16 == TwosComplement32(Le32(b, 36))
    && s.qualityQ15 == Le16(b, 40) && s.batteryMv == Le16(b, 42) && s.calibrationId == Le32(b, 44)
  }

  lemma {:induction false} ReadsLittleEndian(b: Bytes, off: nat)
    ensures off + 1 <= |b| ==> FromLe(b[off..off + 1]) == b[off]
    ensures off + 2 <= |b| ==> FromLe(b[off..off + 2]) == Le16(b, off)
    ensures off + 4 <= |b| ==> FromLe(b[off..off + 4]) == Le32(b, off)
  {
    if off + 1 <= |b| {
      LeUnfolds(b, off, 1);
    }
    if off + 2 <= |b| {
      LeUnfolds(b, off, 2);
      LeUnfolds(b, off + 1, 1);
    }
    if off + 4 <= |b| {
      LeUnfolds(b, off, 4);
      LeUnfolds(b, off + 1, 3);
      LeUnfolds(b, off + 2, 2);
      LeUnfolds(b, off + 3, 1);
    }
  }

  lemma {:induction false} LeUnfolds(b: Bytes, off: nat, n: nat)
    requires 0 < n && off + n <= |b|
    ensures FromLe(b[off..off + n]) == b[off] + 256 * (if n == 1 then 0 else FromLe(b[off + 1..off + n]))
  {
    assert b[off..off + n][1..] == b[off + 1..off + n];
  }

  lemma {:induction false} ReadsLittleEndian64(b: Bytes, off: nat)
    requires off + 8 <= |b|
    ensures FromLe(b[off..off + 8]) == Le64(b, off)
  {
    LeUnfolds(b, off, 8);
    LeUnfolds(b, off + 1, 7);
    LeUnfolds(b, off + 2, 6);
    LeUnfolds(b, off + 3, 5);
    ReadsLittleEndian(b, off + 4);
    hide FromLe;
  }

  lemma {:induction false} ReadsInWidth(b: Bytes, off: nat)
    ensures off + 1 <= |b| ==> Rd(U8K, b, off) == b[off]
    ensures off + 2 <= |b| ==> Rd(U16K, b, off) == Le16(b, off)
    ensures off + 4 <= |b| ==> Rd(U32K, b, off) == Le32(b, off)
    ensures off + 4 <= |b| ==> Rd(I32K, b, off) == TwosComplement32(Le32(b, off))
    ensures off + 8 <= |b| ==> Rd(U64K, b, off) == Le64(b, off)
  {
    hide FromLe, Le16, Le32, Le64, Pow256;
    WidthLimits();
    ReadsLittleEndian(b, off);
    if off + 8 <= |b| {
      ReadsLittleEndian64(b, off);
    }
  }

  lemma {:induction false} ReadsFields(b: Bytes)
    requires |b| == WIRE_LEN
    ensures LaidOut(b, OfFields(ReadAll(b)))
  {
    hide Rd, Le16, Le32, Le64, TwosComplement32;
    ReadsInWidth(b, 0);
    ReadsInWidth(b, 1);
    ReadsInWidth(b, 2);
    ReadsInWidth(b, 4);
    ReadsInWidth(b, 12);
    ReadsInWidth(b, 20);
    ReadsInWidth(b, 24);
    ReadsInWidth(b, 28);
    ReadsInWidth(b, 32);
    ReadsInWidth(b, 36);
    ReadsInWidth(b, 40);
    ReadsInWidth(b, 42);
    ReadsInWidth(b, 44);
  }

  // The bytes of a record are its thirteen fields at their offsets, least significant
  // byte first; parsing yields exactly the record so laid out, or the length error.
  lemma {:induction false} ParsesTheLayout(b: Bytes, s: Sample)
    ensures ParseWire(b) == Ok(s) <==> LaidOut(b, s)
    ensures |b| != 48 ==> ParseWire(b) == Err(WrongLength(48, |b|))
  {
    if |b| == 48 {
      ReadsFields(b);
    }
  }

  lemma {:induction false} EncodesTheLayout(b: Bytes, s: Sample)
    ensures EncodeWire(s) == b <==> LaidOut(b, s)
  {
    hide EncodeWire, LaidOut, ParseWire;
    ParseOfEncode(s);
    ParsesTheLayout(b, s);
    if ParseWire(b).Ok? {
      EncodeOfParse(b);
    }
  }

  // encode fills a local 48-byte buffer slice by slice.
  method PutLe(b: array<Byte>, off: nat, v: nat, n: nat)
    requires off + n <= b.Length
    modifies b
    ensures b[..off + n] == old(b[..off]) + ToLe(v, n)
  {
    var rest, i := v, 0;
    while i < n
      invariant 0 <= i <= n && b[..off] == old(b[..off])
      invariant b[off..off + i] + ToLe(rest, n - i) == ToLe(v, n)
    {
      b[off + i] := rest % 256;
      ghost var tail := ToLe(rest, n - i);
      assert tail == [rest % 256] + ToLe(rest / 256, n - i - 1);
      assert b[off..off + i + 1] == b[off..off + i] + [rest % 256];
      rest, i := rest / 256, i + 1;
    }
    assert b[..off + n] == b[..off] + b[off..off + n];
  }

  lemma {:induction false} PackSnoc(kinds: seq<Kind>, vs: seq<int>, k: nat)
    requires Fit(kinds, vs) && k < |kinds|
    ensures Fit(kinds[..k], vs[..k]) && Fit(kinds[..k + 1], vs[..k + 1])
    ensures Pack(kinds[..k + 1], vs[..k + 1])
         == Pack(kinds[..k], vs[..k]) + ToLe(ToUnsigned(kinds[k], vs[k]), kinds[k].width)
  {
    if k == 0 {
      assert kinds[..1][1..] == [] && vs[..1][1..] == [];
    } else {
      PackSnoc(kinds[1..], vs[1..], k - 1);
      assert kinds[..k][1..] == kinds[1..][..k - 1] && vs[..k][1..] == vs[1..][..k - 1];
      assert kinds[..k + 1][1..] == kinds[1..][..k] && vs[..k + 1][1..] == vs[1..][..k];
    }
  }

  // The prefix holds fields 0..k-1 of s.
  ghost predicate Written(prefix: Bytes, s: Sample, k: nat) {
    k <= |KINDS| && Fit(KINDS[..k], Fields(s)[..k]) && prefix == Pack(KINDS[..k], Fields(s)[..k])
  }

  // Append field k at its offset.
  method PutField(b: array<Byte>, k: nat, s: Sample) returns (next: nat)
    requires k < |KINDS| && b.Length == WIRE_LEN && Written(b[..OffsetOf(k)], s, k)
    modifies b
    ensures next == k + 1 && Written(b[..OffsetOf(next)], s, next)
  {
    SampleFieldsFit(s);
    PackSnoc(KINDS, Fields(s), k);
    OffsetsAdd(KINDS, k);
    LayoutOffsets();
    PutLe(b, OffsetOf(k), ToUnsigned(KINDS[k], Fields(s)[k]), KINDS[k].width);
    next := k + 1;
  }

  function OffsetOf(k: nat): (off: nat)
    requires k <= |KINDS|
    ensures off <= WIRE_LEN
  {
    LayoutOffsets();
    if k < |KINDS| then OffsetsAdd(KINDS, k); Offset(KINDS, k) else Offset(KINDS, k)
  }

  method Encode(s: Sample) returns (out: Bytes)
    ensures out == EncodeWire(s) && LaidOut(out, s)
  {
    var b := new Byte[WIRE_LEN](_ => 0);
    var k := 0;
    k := PutField(b, k, s);
    k := PutField(b, k, s);
    k := PutField(b, k, s);
    k := PutField(b, k, s);
    k := PutField(b, k, s);
    k := PutField(b, k, s);
    k := PutField(b, k, s);
    k := PutField(b, k, s);
    k := PutField(b, k, s);
    k := PutField(b, k, s);
    k := PutField(b, k, s);
    k := PutField(b, k, s);
    k := PutField(b, k, s);
    LayoutOffsets();
    assert KINDS[..k] == KINDS && Fields(s)[..k] == Fields(s) && b[..48] == b[..];
    out := b[..];
    EncodesTheLayout(out, s);
  }

  // ---------------------------------------------------------------------
  // Validation
  // ---------------------------------------------------------------------

  // The first failing check, in the source's order.  The source's i32::abs
  // overflows on i32::MIN, which is therefore excluded.
  function Validate(s: Sample): (r: Result<(), AbiError>)
    requires s.latitudeE7 != -0x8000_0000 && s.longitudeE7 != -0x8000_0000
  {
    if s.schemaVersion != RV_ENV_SCHEMA_V1 then Err(BadSchemaVersion(s.schemaVersion))
    else if s.sensorType > SENSOR_TYPE_MAX then Err(UnknownModality(s.sensorType))
    else if Abs(s.latitudeE7) > LAT_E7_MAX then Err(GeoOutOfRange("latitude_e7", s.latitudeE7))
    else if Abs(s.longitudeE7) > LON_E7_MAX then Err(GeoOutOfRange("longitude_e7", s.longitudeE7))
    else if s.qualityQ15 > Q15_ONE then Err(QualityOutOfRange(s.qualityQ15))
    else if s.timestampNs == 0 then Err(ZeroTimestamp)
    else Ok(())
  }

  // The one schema, a known modality, a place on Earth, a quality up to one and a time.
  predicate Sensible(s: Sample) {
    && s.schemaVersion == 1 && s.sensorType <= SENSOR_TYPE_MAX
    && -90 * 10_000_000 <= s.latitudeE7 <= 90 * 10_000_000
    && -180 * 10_000_000 <= s.longitudeE7 <= 180 * 10_000_000
    && (s.qualityQ15 as real) / 32768.0 <= 1.0 && s.timestampNs > 0
  }

  // Validation names the first check that fails, with the offending value.
  ghost function SampleChecks(s: Sample): seq<Check<AbiError>> {
    [Check(s.schemaVersion == 1, BadSchemaVersion(s.schemaVersion)),
     Check(s.sensorType <= 9, UnknownModality(s.sensorType)),
     Check(-90 * 10_000_000 <= s.latitudeE7 <= 90 * 10_000_000, GeoOutOfRange("latitude_e7", s.latitudeE7)),
     Check(-180 * 10_000_000 <= s.longitudeE7 <= 180 * 10_000_000, GeoOutOfRange("longitude_e7", s.longitudeE7)),
     Check(s.qualityQ15 as real / 32768.0 <= 1.0, QualityOutOfRange(s.qualityQ15)),
     Check(s.timestampNs > 0, ZeroTimestamp)]
  }

  lemma {:induction false} ValidateNamesTheFirst(s: Sample)
    requires s.latitudeE7 != -0x8000_0000 && s.longitudeE7 != -0x8000_0000
    ensures IsFirstFailure(Failure(Validate(s)), SampleChecks(s))
  {
    var checks := SampleChecks(s);
    assert (s.qualityQ15 as real) / 32768.0 <= 1.0 <==> s.qualityQ15 as real <= 32768.0;
    if Validate(s).Err? {
      var k := match Validate(s).error
        case BadSchemaVersion(_) => 0
        case UnknownModality(_) => 1
        case GeoOutOfRange(field, _) => if Abs(s.latitudeE7) > LAT_E7_MAX then 2 else 3
        case QualityOutOfRange(_) => 4
        case _ => 5;
      assert FailsFirst(checks, k) && checks[k].error == Validate(s).error;
    }
  }

  lemma ValidMeans(s: Sample)
    requires s.latitudeE7 != -0x8000_0000 && s.longitudeE7 != -0x8000_0000
    ensures Validate(s).Ok? <==> Sensible(s)
  {
    assert (s.qualityQ15 as real) / 32768.0 <= 1.0 <==> s.qualityQ15 as real <= 32768.0;
  }
}
