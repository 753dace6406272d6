// rucelium-ingest/src/lib.rs: decode, verify, replay-check and normalize signed
// envelopes.  The ed25519 check of an envelope is an arbitrary predicate.
module Ingest {
  import opened Common
  import opened Words
  import opened Domain
  import opened Wire
  import opened Cbor
  import opened Replay

  datatype DeviceRecord = DeviceRecord(pubkey: Bytes, firmwareHash: string, revoked: bool)

  type Registry = map<U64, DeviceRecord>

  datatype RejectReason =
    | BadEnvelope(cbor: CborError)
    | BadPayload(abi: AbiError)
    | UnknownDevice(nodeId: U64)
    | RevokedDevice(nodeId: U64)
    | KeyMismatch(nodeId: U64)
    | BadSignature(nodeId: U64)
    | ReplayedSequence(nodeId: U64, sequence: U32)
    | StaleSequence(nodeId: U64, sequence: U32)
    | OutsideDomain

  datatype IngestStats = IngestStats(
    accepted: nat, badEnvelope: nat, badPayload: nat, unknownDevice: nat, revokedDevice: nat, keyMismatch: nat,
    badSignature: nat, replay: nat, tooOld: nat, domain: nat, restored: nat)
  {
    function Total(): nat {
      accepted + badEnvelope + badPayload + unknownDevice + revokedDevice + keyMismatch
      + badSignature + replay + tooOld + domain + restored
    }

    function NoteReject(reason: RejectReason): (s: IngestStats)
      ensures s.Total() == Total() + 1
      ensures s.accepted == accepted && s.restored == restored
    {
      match reason
      case BadEnvelope(_) => this.(badEnvelope := badEnvelope + 1)
      case BadPayload(_) => this.(badPayload := badPayload + 1)
      case UnknownDevice(_) => this.(unknownDevice := unknownDevice + 1)
      case RevokedDevice(_) => this.(revokedDevice := revokedDevice + 1)
      case KeyMismatch(_) => this.(keyMismatch := keyMismatch + 1)
      case BadSignature(_) => this.(badSignature := badSignature + 1)
      case ReplayedSequence(_, _) => this.(replay := replay + 1)
      case StaleSequence(_, _) => this.(tooOld := tooOld + 1)
      case OutsideDomain => this.(domain := domain + 1)
    }
  }

  const NO_STATS := IngestStats(0, 0, 0, 0, 0, 0, 0, 0, 0, 0, 0)

  // Excludes the one coordinate whose absolute value overflows in the source.
  predicate Plain(b: Bytes) {
    ReadEnvelope(b).Ok? && ParseWire(ReadEnvelope(b).value.payload).Ok? ==>
      var s := ParseWire(ReadEnvelope(b).value.payload).value;
      s.latitudeE7 != -0x8000_0000 && s.longitudeE7 != -0x8000_0000
  }

  datatype Verified = Verified(wire: Sample, pubkey: Bytes, firmwareHash: string)

  // Steps (1)-(6), in order: decode, payload validation, registry, revocation,
  // key match, signature.
  function VerifyEnvelope(registry: Registry, signed: Envelope -> bool, b: Bytes): Result<Verified, RejectReason>
    requires Plain(b)
  {
    match ReadEnvelope(b)
    case Err(e) => Err(BadEnvelope(e))
    case Ok(record) =>
      match ParseWire(record.payload)
      case Err(e) => Err(BadPayload(e))
      case Ok(wire) =>
        if Validate(wire).Err? then Err(BadPayload(Validate(wire).error))
        else if wire.nodeId !in registry then Err(UnknownDevice(wire.nodeId))
        else if registry[wire.nodeId].revoked then Err(RevokedDevice(wire.nodeId))
        else if record.pubkey != registry[wire.nodeId].pubkey then Err(KeyMismatch(wire.nodeId))
        else if !signed(record) then Err(BadSignature(wire.nodeId))
        else Ok(Verified(wire, record.pubkey, registry[wire.nodeId].firmwareHash))
  }

  const HALF_STEP: real := 0.5 / 65536.0

  // to_env_sample: the firmware hash and the key come from the registry and the
  // verified envelope, never from the wire fields.
  function Normalize(v: Verified, receivedNs: U64): Option<EnvSample> {
    var value := (v.wire.valueQ16 as real) / 65536.0;
    var sample := EnvSample(v.wire.nodeId, v.wire.sequence, v.wire.timestampNs, receivedNs,
                            value, value - HALF_STEP, value + HALF_STEP,
                            (v.wire.qualityQ15 as real) / 32768.0, v.firmwareHash, v.pubkey);
    if sample.Valid() then Some(sample) else None
  }

  // ---------------------------------------------------------------------
  // The pipeline on values
  // ---------------------------------------------------------------------

  type Windows = map<U64, Window>

  datatype Pipeline = Pipeline(registry: Registry, windows: Windows, stats: IngestStats)

  function WindowAt(windows: Windows, node: U64): Window {
    if node in windows then windows[node] else FRESH
  }

  datatype Ingested = Ingested(pipeline: Pipeline, outcome: Result<EnvSample, RejectReason>)

  function Reject(p: Pipeline, reason: RejectReason): Ingested {
    Ingested(p.(stats := p.stats.NoteReject(reason)), Err(reason))
  }

  function IngestOn(p: Pipeline, signed: Envelope -> bool, b: Bytes, receivedNs: U64): Ingested
    requires Plain(b)
  {
    match VerifyEnvelope(p.registry, signed, b)
    case Err(reason) => Reject(p, reason)
    case Ok(v) =>
      var node, s := v.wire.nodeId, v.wire.sequence;
      var offered := Offer(WindowAt(p.windows, node), s);
      var p' := p.(windows := p.windows[node := offered.window]);
      match offered.verdict
      case Err(Replayed) => Reject(p', ReplayedSequence(node, s))
      case Err(TooOld) => Reject(p', StaleSequence(node, s))
      case Ok(_) =>
        match Normalize(v, receivedNs)
        case None => Reject(p', OutsideDomain)
        case Some(sample) => Ingested(p'.(stats := p.stats.(accepted := p.stats.accepted + 1)), Ok(sample))
  }

  function ReverifyOn(p: Pipeline, signed: Envelope -> bool, b: Bytes, receivedNs: U64): Ingested
    requires Plain(b)
  {
    match VerifyEnvelope(p.registry, signed, b)
    case Err(reason) => Reject(p, reason)
    case Ok(v) =>
      match Normalize(v, receivedNs)
      case None => Reject(p, OutsideDomain)
      case Some(sample) => Ingested(p.(stats := p.stats.(restored := p.stats.restored + 1)), Ok(sample))
  }

  // ---------------------------------------------------------------------
  // What ingest keeps
  // ---------------------------------------------------------------------

  function SeqsOf(keys: set<Key>, node: U64): set<U32> {
    set k | k in keys && k.node == node :: k.seqno
  }

  // The windows show exactly the consumed keys, device by device.
  ghost predicate Tracks(windows: Windows, consumed: set<Key>) {
    forall node: U64 :: Represents(WindowAt(windows, node), SeqsOf(consumed, node))
  }

  // The key an envelope consumes, if any: it must pass every cryptographic check
  // and then the replay rule.
  ghost function Consumes(p: Pipeline, signed: Envelope -> bool, b: Bytes): Option<Key>
    requires Plain(b)
  {
    match VerifyEnvelope(p.registry, signed, b)
    case Err(_) => None
    case Ok(v) =>
      if Offer(WindowAt(p.windows, v.wire.nodeId), v.wire.sequence).verdict.Ok?
      then Some(Key(v.wire.nodeId, v.wire.sequence)) else None
  }

  // Each envelope bumps exactly one counter; the windows advance by exactly the
  // key it consumes, which was never consumed before; only a consumed key
  // reaches the domain model, under the registered device's unrevoked key.
  lemma IngestKeepsTracking(p: Pipeline, signed: Envelope -> bool, b: Bytes, receivedNs: U64, consumed: set<Key>)
    requires Plain(b) && Tracks(p.windows, consumed)
    ensures var r := IngestOn(p, signed, b, receivedNs);
            var key := Consumes(p, signed, b);
            && r.pipeline.stats.Total() == p.stats.Total() + 1
            && r.pipeline.registry == p.registry
            && (key.Some? ==> key.value !in consumed)
            && Tracks(r.pipeline.windows, if key.Some? then consumed + {key.value} else consumed)
            && (r.outcome.Ok? ==>
                 && key == Some(r.outcome.value.DedupKey()) && r.outcome.value.Valid()
                 && r.outcome.value.nodeId in p.registry && !p.registry[r.outcome.value.nodeId].revoked
                 && r.outcome.value.signerKey == p.registry[r.outcome.value.nodeId].pubkey
                 && r.outcome.value.firmwareHash == p.registry[r.outcome.value.nodeId].firmwareHash
                 && r.outcome.value.receivedNs == receivedNs
                 && signed(ReadEnvelope(b).value))
  {
    hide ReadEnvelope, ParseWire, Validate, Offer, EnvSample.Valid;
    if VerifyEnvelope(p.registry, signed, b).Ok? {
      var v := VerifyEnvelope(p.registry, signed, b).value;
      OfferKeepsTracking(p.windows, consumed, Key(v.wire.nodeId, v.wire.sequence));
    }
  }

  // A wire sample that validated normalizes unless it was measured after it was
  // received, or its device has no firmware hash or key on record.  The quantities are
  // Q16.16 and Q0.15, the interval one quantization step around the value.
  lemma ValidatedNormalizesIff(v: Verified, receivedNs: U64)
    requires v.wire.latitudeE7 != -0x8000_0000 && v.wire.longitudeE7 != -0x8000_0000
    requires Validate(v.wire).Ok?
    ensures Normalize(v, receivedNs).Some?
       <==> receivedNs >= v.wire.timestampNs && v.firmwareHash != "" && v.pubkey != []
    ensures Normalize(v, receivedNs).Some? ==>
              var s := Normalize(v, receivedNs).value;
              && s.value * 65536.0 == v.wire.valueQ16 as real && s.quality * 32768.0 == v.wire.qualityQ15 as real
              && (s.upper - s.lower) * 65536.0 == 1.0 && s.upper - s.value == s.value - s.lower
  {
    var quality := v.wire.qualityQ15 as real;
    assert 0.0 <= quality <= 32768.0;
    assert 0.0 <= quality / 32768.0 <= 1.0;
  }

  // An envelope is accepted exactly when it decodes to a sensible sample, comes from a
  // known device not revoked under its registered key with a good signature, was not
  // measured after it was received, and its sequence is acceptable next to the set of
  // consumed ones.
  lemma AcceptedExactlyWhen(p: Pipeline, signed: Envelope -> bool, b: Bytes, receivedNs: U64, consumed: set<Key>)
    requires Plain(b) && Tracks(p.windows, consumed)
    ensures IngestOn(p, signed, b, receivedNs).outcome.Ok?
       <==> && ReadEnvelope(b).Ok? && ParseWire(ReadEnvelope(b).value.payload).Ok?
            && var e := ReadEnvelope(b).value;
               var wire := ParseWire(e.payload).value;
               && Sensible(wire)
               && wire.nodeId in p.registry && !p.registry[wire.nodeId].revoked
               && e.pubkey == p.registry[wire.nodeId].pubkey && signed(e)
               && Acceptable(SeqsOf(consumed, wire.nodeId), wire.sequence)
               && receivedNs >= wire.timestampNs && p.registry[wire.nodeId].firmwareHash != ""
  {
    hide ReadEnvelope, ParseWire, Validate, Offer, Normalize, Sensible;
    if ReadEnvelope(b).Ok? && ParseWire(ReadEnvelope(b).value.payload).Ok? {
      ValidMeans(ParseWire(ReadEnvelope(b).value.payload).value);
    }
    if VerifyEnvelope(p.registry, signed, b).Ok? {
      var v := VerifyEnvelope(p.registry, signed, b).value;
      assert |v.pubkey| == 32;
      ValidatedNormalizesIff(v, receivedNs);
      OfferFollowsTheRule(WindowAt(p.windows, v.wire.nodeId), SeqsOf(consumed, v.wire.nodeId), v.wire.sequence);
    }
  }

  // ---- What each refusal names, and which counter moves ----

  ghost function DeviceAt(registry: Registry, node: U64): DeviceRecord {
    if node in registry then registry[node] else DeviceRecord([], "", false)
  }

  ghost function VerifyChecks(
      registry: Registry, signed: Envelope -> bool, e: Envelope, wire: Sample): seq<Check<RejectReason>>
    requires wire.latitudeE7 != -0x8000_0000 && wire.longitudeE7 != -0x8000_0000
  {
    var node := wire.nodeId;
    [Check(Sensible(wire), BadPayload(if Validate(wire).Err? then Validate(wire).error else ZeroTimestamp)),
     Check(node in registry, UnknownDevice(node)),
     Check(!DeviceAt(registry, node).revoked, RevokedDevice(node)),
     Check(e.pubkey == DeviceAt(registry, node).pubkey, KeyMismatch(node)),
     Check(signed(e), BadSignature(node))]
  }

  ghost function WindowChecks(consumed: set<U32>, wire: Sample): seq<Check<RejectReason>> {
    [Check(forall m: U32 :: IsMax(m, consumed) ==> m - wire.sequence <= 63,
           StaleSequence(wire.nodeId, wire.sequence)),
     Check(wire.sequence !in consumed, ReplayedSequence(wire.nodeId, wire.sequence))]
  }

  ghost function DomainChecks(registry: Registry, wire: Sample, receivedNs: U64): seq<Check<RejectReason>> {
    [Check(receivedNs >= wire.timestampNs && DeviceAt(registry, wire.nodeId).firmwareHash != "", OutsideDomain)]
  }

  // The sample says what the payload says, and who signed it.
  ghost predicate Says(s: EnvSample, wire: Sample, e: Envelope, device: DeviceRecord, receivedNs: U64) {
    && s.nodeId == wire.nodeId && s.sequence == wire.sequence
    && s.measuredNs == wire.timestampNs && s.receivedNs == receivedNs
    && s.value * 65536.0 == wire.valueQ16 as real && s.quality * 32768.0 == wire.qualityQ15 as real
    && (s.value - s.lower) * 131072.0 == 1.0 == (s.upper - s.value) * 131072.0
    && s.firmwareHash == device.firmwareHash && s.signerKey == e.pubkey
  }

  lemma {:induction false} VerifyNamesTheFirst(registry: Registry, signed: Envelope -> bool, b: Bytes)
    requires Plain(b) && ReadEnvelope(b).Ok?
    ensures var e, r := ReadEnvelope(b).value, VerifyEnvelope(registry, signed, b);
            && ParseWire(e.payload).Ok?
            && var wire := ParseWire(e.payload).value;
               && wire.latitudeE7 != -0x8000_0000 && wire.longitudeE7 != -0x8000_0000
               && IsFirstFailure(Failure(r), VerifyChecks(registry, signed, e, wire))
               && (r.Ok? ==> r.value == Verified(wire, e.pubkey, DeviceAt(registry, wire.nodeId).firmwareHash))
  {
    hide ReadEnvelope, Validate, Sensible;
    var e := ReadEnvelope(b).value;
    var wire := ParseWire(e.payload).value;
    ValidMeans(wire);
    var checks, r := VerifyChecks(registry, signed, e, wire), VerifyEnvelope(registry, signed, b);
    if r.Err? {
      var k := match r.error
        case BadPayload(_) => 0
        case UnknownDevice(_) => 1
        case RevokedDevice(_) => 2
        case KeyMismatch(_) => 3
        case _ => 4;
      assert FailsFirst(checks, k) && checks[k].error == r.error;
    }
  }

  lemma {:induction false} NormalizedSays(v: Verified, e: Envelope, device: DeviceRecord, receivedNs: U64)
    requires v.wire.latitudeE7 != -0x8000_0000 && v.wire.longitudeE7 != -0x8000_0000
    requires Validate(v.wire).Ok? && v.pubkey == e.pubkey != [] && v.firmwareHash == device.firmwareHash
    ensures Normalize(v, receivedNs).Some? <==> receivedNs >= v.wire.timestampNs && device.firmwareHash != ""
    ensures Normalize(v, receivedNs).Some? ==> Says(Normalize(v, receivedNs).value, v.wire, e, device, receivedNs)
  {
    ValidatedNormalizesIff(v, receivedNs);
    hide Validate, EnvSample.Valid;
  }

  // After the same checks on the envelope, ingest asks the window, reverification does
  // not; each names the first check that fails, and a sample that passes says what the
  // payload says.
  lemma {:induction false} IngestNamesTheFirst(
      p: Pipeline, signed: Envelope -> bool, b: Bytes, receivedNs: U64, consumed: set<Key>)
    requires Plain(b) && Tracks(p.windows, consumed) && ReadEnvelope(b).Ok?
    ensures var e := ReadEnvelope(b).value;
            && ParseWire(e.payload).Ok?
            && var wire := ParseWire(e.payload).value;
               && wire.latitudeE7 != -0x8000_0000 && wire.longitudeE7 != -0x8000_0000
               && var live, stored := IngestOn(p, signed, b, receivedNs), ReverifyOn(p, signed, b, receivedNs);
                  var checks := VerifyChecks(p.registry, signed, e, wire);
                  var window := WindowChecks(SeqsOf(consumed, wire.nodeId), wire);
                  var domain := DomainChecks(p.registry, wire, receivedNs);
                  && IsFirstFailure(Failure(live.outcome), checks + window + domain)
                  && IsFirstFailure(Failure(stored.outcome), checks + domain)
                  && (live.outcome.Ok? ==>
                        Says(live.outcome.value, wire, e, DeviceAt(p.registry, wire.nodeId), receivedNs))
                  && (stored.outcome.Ok? ==>
                        Says(stored.outcome.value, wire, e, DeviceAt(p.registry, wire.nodeId), receivedNs))
  {
    hide ReadEnvelope, ParseWire, Validate, Sensible, Offer, Normalize, VerifyEnvelope, Says, IngestStats.NoteReject;
    VerifyNamesTheFirst(p.registry, signed, b);
    var e, r := ReadEnvelope(b).value, VerifyEnvelope(p.registry, signed, b);
    var wire := ParseWire(e.payload).value;
    var seqs, checks := SeqsOf(consumed, wire.nodeId), VerifyChecks(p.registry, signed, e, wire);
    var window, domain := WindowChecks(seqs, wire), DomainChecks(p.registry, wire, receivedNs);
    if r.Err? {
      var k: nat :| FailsFirst(checks, k) && checks[k].error == r.error;
      FailsFirstIn(checks, window + domain, k);
      FailsFirstIn(checks, domain, k);
      assert checks + window + domain == checks + (window + domain);
    } else {
      OfferFollowsTheRule(WindowAt(p.windows, wire.nodeId), seqs, wire.sequence);
      ValidMeans(wire);
      NormalizedSays(r.value, e, DeviceAt(p.registry, wire.nodeId), receivedNs);
      assert forall k :: 0 <= k < |checks| ==> checks[k].passes;
      var live, stored := IngestOn(p, signed, b, receivedNs).outcome, ReverifyOn(p, signed, b, receivedNs).outcome;
      var all := checks + window + domain;
      assert window[0].passes && window[1].passes <==> Acceptable(seqs, wire.sequence);
      if live.Err? {
        var k := if live.error.StaleSequence? then 5 else if live.error.ReplayedSequence? then 6 else 7;
        assert FailsFirst(all, k) && all[k].error == live.error;
      }
      if stored.Err? {
        assert FailsFirst(checks + domain, 5) && (checks + domain)[5].error == stored.error;
      }
    }
  }

  // Bytes that are no envelope are refused as such by both.
  lemma {:induction false} IngestNeedsAnEnvelope(p: Pipeline, signed: Envelope -> bool, b: Bytes, receivedNs: U64)
    requires Plain(b) && ReadEnvelope(b).Err?
    ensures IngestOn(p, signed, b, receivedNs).outcome == Err(BadEnvelope(ReadEnvelope(b).error))
    ensures ReverifyOn(p, signed, b, receivedNs).outcome == Err(BadEnvelope(ReadEnvelope(b).error))
  {
    hide ReadEnvelope;
  }

  // The outcome's own counter moves by one, and no other.
  ghost predicate Counted(
      before: IngestStats, after: IngestStats, outcome: Result<EnvSample, RejectReason>, live: bool)
  {
    var failed := Failure(outcome);
    && after.accepted == before.accepted + (if failed.None? && live then 1 else 0)
    && after.restored == before.restored + (if failed.None? && !live then 1 else 0)
    && after.badEnvelope == before.badEnvelope + (if failed.Some? && failed.value.BadEnvelope? then 1 else 0)
    && after.badPayload == before.badPayload + (if failed.Some? && failed.value.BadPayload? then 1 else 0)
    && after.unknownDevice == before.unknownDevice + (if failed.Some? && failed.value.UnknownDevice? then 1 else 0)
    && after.revokedDevice == before.revokedDevice + (if failed.Some? && failed.value.RevokedDevice? then 1 else 0)
    && after.keyMismatch == before.keyMismatch + (if failed.Some? && failed.value.KeyMismatch? then 1 else 0)
    && after.badSignature == before.badSignature + (if failed.Some? && failed.value.BadSignature? then 1 else 0)
    && after.replay == before.replay + (if failed.Some? && failed.value.ReplayedSequence? then 1 else 0)
    && after.tooOld == before.tooOld + (if failed.Some? && failed.value.StaleSequence? then 1 else 0)
    && after.domain == before.domain + (if failed.Some? && failed.value.OutsideDomain? then 1 else 0)
  }

  lemma {:induction false} RejectionIsCounted(stats: IngestStats, reason: RejectReason, live: bool)
    ensures Counted(stats, stats.NoteReject(reason), Err(reason), live)
  {
  }

  lemma {:induction false} PassingIsCounted(stats: IngestStats, s: EnvSample)
    ensures Counted(stats, stats.(accepted := stats.accepted + 1), Ok(s), true)
    ensures Counted(stats, stats.(restored := stats.restored + 1), Ok(s), false)
  {
  }

  lemma {:induction false} OutcomesAreCounted(p: Pipeline, signed: Envelope -> bool, b: Bytes, receivedNs: U64)
    requires Plain(b)
    ensures var live, stored := IngestOn(p, signed, b, receivedNs), ReverifyOn(p, signed, b, receivedNs);
            && Counted(p.stats, live.pipeline.stats, live.outcome, true)
            && Counted(p.stats, stored.pipeline.stats, stored.outcome, false)
  {
    hide VerifyEnvelope, Offer, Normalize, Plain, Counted, IngestStats.NoteReject;
    var live, stored := IngestOn(p, signed, b, receivedNs).outcome, ReverifyOn(p, signed, b, receivedNs).outcome;
    if live.Err? {
      RejectionIsCounted(p.stats, live.error, true);
    } else {
      PassingIsCounted(p.stats, live.value);
    }
    if stored.Err? {
      RejectionIsCounted(p.stats, stored.error, false);
    } else {
      PassingIsCounted(p.stats, stored.value);
    }
  }

  // Reverification is ingest without the window: it passes the same envelopes, but
  // for those whose sequence is no longer acceptable, to the same samples.
  lemma ReverifyIsIngestWithoutWindow(
      p: Pipeline, signed: Envelope -> bool, b: Bytes, receivedNs: U64, consumed: set<Key>)
    requires Plain(b) && Tracks(p.windows, consumed)
    ensures var live, stored := IngestOn(p, signed, b, receivedNs), ReverifyOn(p, signed, b, receivedNs);
            && (live.outcome.Ok? <==>
                  stored.outcome.Ok?
                  && var key := stored.outcome.value.DedupKey();
                     Acceptable(SeqsOf(consumed, key.node), key.seqno))
            && (live.outcome.Ok? ==> stored.outcome == live.outcome)
            && stored.pipeline.windows == p.windows && stored.pipeline.registry == p.registry
            && stored.pipeline.stats.Total() == p.stats.Total() + 1
  {
    hide ReadEnvelope, ParseWire, Validate, Offer, EnvSample.Valid;
    if VerifyEnvelope(p.registry, signed, b).Ok? {
      var wire := VerifyEnvelope(p.registry, signed, b).value.wire;
      OfferFollowsTheRule(WindowAt(p.windows, wire.nodeId), SeqsOf(consumed, wire.nodeId), wire.sequence);
    }
  }

  lemma OfferKeepsTracking(windows: Windows, consumed: set<Key>, key: Key)
    requires Tracks(windows, consumed)
    ensures var offered := Offer(WindowAt(windows, key.node), key.seqno);
            && (offered.verdict.Ok? ==> key !in consumed)
            && Tracks(windows[key.node := offered.window],
                      if offered.verdict.Ok? then consumed + {key} else consumed)
  {
    var before := SeqsOf(consumed, key.node);
    var offered := Offer(WindowAt(windows, key.node), key.seqno);
    OfferFollowsTheRule(WindowAt(windows, key.node), before, key.seqno);
    assert key in consumed ==> key.seqno in before;
    if offered.verdict.Ok? {
      AcceptableIsNew(before, key.seqno);
      forall node: U64
        ensures SeqsOf(consumed + {key}, node)
             == (if node == key.node then SeqsOf(consumed, node) + {key.seqno} else SeqsOf(consumed, node))
      {
        SeqsOfAdd(consumed, key, node);
      }
    }
  }

  lemma SeqsOfAdd(consumed: set<Key>, key: Key, node: U64)
    ensures SeqsOf(consumed + {key}, node)
         == (if node == key.node then SeqsOf(consumed, node) + {key.seqno} else SeqsOf(consumed, node))
  {
    forall s
      ensures s in SeqsOf(consumed + {key}, node)
         <==> s in SeqsOf(consumed, node) || (node == key.node && s == key.seqno)
    {
      assert s in SeqsOf(consumed + {key}, node)
        <==> exists k :: k in consumed + {key} && k.node == node && k.seqno == s;
      if node == key.node && s == key.seqno {
        assert key in consumed + {key};
      }
    }
  }

  // A consumed key is never let through again.
  lemma ConsumedIsRejected(windows: Windows, consumed: set<Key>, key: Key)
    requires Tracks(windows, consumed) && key in consumed
    ensures Offer(WindowAt(windows, key.node), key.seqno).verdict.Err?
  {
    OfferKeepsTracking(windows, consumed, key);
  }

  // ---------------------------------------------------------------------
  // Priming after a restart
  // ---------------------------------------------------------------------

  function SeqsFor(keys: seq<Key>, node: U64): seq<U32> {
    if keys == [] then []
    else SeqsFor(keys[..|keys| - 1], node)
         + (if keys[|keys| - 1].node == node then [keys[|keys| - 1].seqno] else [])
  }

  function Nodes(keys: seq<Key>): set<U64> {
    set k | k in keys :: k.node
  }

  function PrimeOnto(windows: Windows, keys: seq<Key>): Windows {
    map node | node in windows.Keys + Nodes(keys) :: OfferAll(WindowAt(windows, node), Sorted(SeqsFor(keys, node)))
  }

  lemma {:induction false} SeqsForIsSeqsOf(keys: seq<Key>, node: U64)
    ensures Elements(SeqsFor(keys, node)) == SeqsOf(Elements(keys), node)
    ensures node !in Nodes(keys) ==> SeqsFor(keys, node) == []
  {
    if keys != [] {
      var init, last := keys[..|keys| - 1], keys[|keys| - 1];
      SeqsForIsSeqsOf(init, node);
      assert keys == init + [last];
      assert Elements(keys) == Elements(init) + {last};
      SeqsOfAdd(Elements(init), last, node);
      if last.node == node {
        assert Elements(SeqsFor(init, node) + [last.seqno]) == Elements(SeqsFor(init, node)) + {last.seqno};
      } else {
        assert SeqsFor(init, node) + [] == SeqsFor(init, node);
        assert node in Nodes(init) ==> node in Nodes(keys);
      }
    }
  }

  // Primed from any listing of a key set, a fresh pipeline tracks that set.
  lemma PrimedTracks(keys: seq<Key>)
    ensures Tracks(PrimeOnto(map[], keys), Elements(keys))
  {
    forall node: U64
      ensures Represents(WindowAt(PrimeOnto(map[], keys), node), SeqsOf(Elements(keys), node))
    {
      SeqsForIsSeqsOf(keys, node);
      SortedElements(SeqsFor(keys, node));
      AscendingIsRecorded(Sorted(SeqsFor(keys, node)));
    }
  }

  // So it behaves like any live pipeline that consumed exactly those keys.
  lemma RestartIsFaithful(live: Windows, keys: seq<Key>, node: U64)
    requires Tracks(live, Elements(keys))
    ensures WindowAt(PrimeOnto(map[], keys), node) == WindowAt(live, node)
  {
    PrimedTracks(keys);
    WindowIsDetermined(WindowAt(PrimeOnto(map[], keys), node), WindowAt(live, node), SeqsOf(Elements(keys), node));
  }

  // ---------------------------------------------------------------------
  // The pipeline object
  // ---------------------------------------------------------------------

  class IngestPipeline {
    const signed: Envelope -> bool
    var registry: Registry
    var windows: Windows
    var stats: IngestStats

    constructor (signed: Envelope -> bool, registry: Registry)
      ensures this.signed == signed && State() == Pipeline(registry, map[], NO_STATS)
    {
      this.signed, this.registry := signed, registry;
      windows, stats := map[], NO_STATS;
    }

    function State(): Pipeline
      reads this
    {
      Pipeline(registry, windows, stats)
    }

    // Re-registering replaces the record, revocation included.
    method Register(node: U64, pubkey: Bytes, firmwareHash: string)
      modifies this
      ensures State() == old(State()).(registry := old(registry)[node := DeviceRecord(pubkey, firmwareHash, false)])
    {
      registry := registry[node := DeviceRecord(pubkey, firmwareHash, false)];
    }

    method Revoke(node: U64) returns (newly: bool)
      modifies this
      ensures newly <==> node in old(registry) && !old(registry)[node].revoked
      ensures State() == old(State()).(registry := Revoked(old(registry), node))
    {
      newly := node in registry && !registry[node].revoked;
      if newly {
        registry := registry[node := registry[node].(revoked := true)];
      }
    }

    method RejectWith(reason: RejectReason) returns (r: Result<EnvSample, RejectReason>)
      modifies this`stats
      ensures r == Err(reason) && stats == old(stats).NoteReject(reason)
    {
      stats := stats.NoteReject(reason);
      r := Err(reason);
    }

    method Ingest(b: Bytes, receivedNs: U64) returns (outcome: Result<EnvSample, RejectReason>)
      requires Plain(b)
      modifies this
      ensures Ingested(State(), outcome) == IngestOn(old(State()), signed, b, receivedNs)
    {
      hide VerifyEnvelope, Offer, Normalize, IngestStats.NoteReject;
      var verified := VerifyEnvelope(registry, signed, b);
      if verified.Err? {
        outcome := RejectWith(verified.error);
        return;
      }
      var wire := verified.value.wire;
      var window := WindowAt(windows, wire.nodeId);
      var offered := Offer(window, wire.sequence);
      windows := windows[wire.nodeId := offered.window];
      if offered.verdict.Err? {
        var reason := match offered.verdict.error
          case Replayed => ReplayedSequence(wire.nodeId, wire.sequence)
          case TooOld => StaleSequence(wire.nodeId, wire.sequence);
        outcome := RejectWith(reason);
        return;
      }
      var sample := Normalize(verified.value, receivedNs);
      if sample.None? {
        outcome := RejectWith(OutsideDomain);
        return;
      }
      stats := stats.(accepted := stats.accepted + 1);
      outcome := Ok(sample.value);
    }

    method ReverifyStored(b: Bytes, receivedNs: U64) returns (outcome: Result<EnvSample, RejectReason>)
      requires Plain(b)
      modifies this`stats
      ensures Ingested(State(), outcome) == ReverifyOn(old(State()), signed, b, receivedNs)
    {
      hide VerifyEnvelope, Offer, Normalize, IngestStats.NoteReject;
      var verified := VerifyEnvelope(registry, signed, b);
      if verified.Err? {
        outcome := RejectWith(verified.error);
        return;
      }
      var sample := Normalize(verified.value, receivedNs);
      if sample.None? {
        outcome := RejectWith(OutsideDomain);
        return;
      }
      stats := stats.(restored := stats.restored + 1);
      outcome := Ok(sample.value);
    }

    method PrimeFromDedup(keys: seq<Key>)
      modifies this`windows
      ensures windows == PrimeOnto(old(windows), keys)
    {
      hide PrimedSoFar, OfferAll, SeqsFor, Sorted, WindowAt;
      var perNode := GroupByNode(keys);
      ghost var start, done := windows, {};
      PrimedNone(start, keys);
      var todo := perNode.Keys;
      while todo != {}
        invariant todo !! done && todo + done == Nodes(keys)
        invariant windows == PrimedSoFar(start, keys, done)
      {
        var node :| node in todo;
        PrimedOneMore(start, keys, done, node);
        var window := OfferSorted(WindowAt(windows, node), perNode[node]);
        windows := windows[node := window];
        todo, done := todo - {node}, done + {node};
      }
      assert done == Nodes(keys);
      PrimedAll(start, keys);
    }
  }

  // Primed for the nodes in done only.
  ghost function PrimedSoFar(windows: Windows, keys: seq<Key>, done: set<U64>): Windows {
    map node | node in windows.Keys + done ::
      if node in done then OfferAll(WindowAt(windows, node), Sorted(SeqsFor(keys, node))) else windows[node]
  }

  lemma PrimedNone(windows: Windows, keys: seq<Key>)
    ensures PrimedSoFar(windows, keys, {}) == windows
  {
  }

  lemma PrimedOneMore(windows: Windows, keys: seq<Key>, done: set<U64>, node: U64)
    requires node !in done
    ensures var soFar := PrimedSoFar(windows, keys, done);
            WindowAt(soFar, node) == WindowAt(windows, node)
            && PrimedSoFar(windows, keys, done + {node})
               == soFar[node := OfferAll(WindowAt(windows, node), Sorted(SeqsFor(keys, node)))]
  {
    hide OfferAll, SeqsFor, Sorted;
  }

  lemma PrimedAll(windows: Windows, keys: seq<Key>)
    ensures PrimedSoFar(windows, keys, Nodes(keys)) == PrimeOnto(windows, keys)
  {
    forall node | node in windows.Keys + Nodes(keys)
      ensures PrimedSoFar(windows, keys, Nodes(keys))[node] == PrimeOnto(windows, keys)[node]
    {
      SeqsForIsSeqsOf(keys, node);
    }
  }

  method OfferSorted(start: Window, seqs: seq<U32>) returns (window: Window)
    ensures window == OfferAll(start, Sorted(seqs))
  {
    var sorted := Sorted(seqs);
    window := start;
    for i := 0 to |sorted|
      invariant window == OfferAll(start, sorted[..i])
    {
      assert sorted[..i + 1][..i] == sorted[..i];
      window := Offer(window, sorted[i]).window;
    }
    assert sorted[..|sorted|] == sorted;
  }

  function Revoked(registry: Registry, node: U64): Registry {
    if node in registry then registry[node := registry[node].(revoked := true)] else registry
  }

  method GroupByNode(keys: seq<Key>) returns (perNode: map<U64, seq<U32>>)
    ensures perNode.Keys == Nodes(keys)
    ensures forall node :: node in perNode ==> perNode[node] == SeqsFor(keys, node)
  {
    hide SeqsFor, SeqsOf, Nodes;
    NoKeys();
    perNode := map[];
    for i := 0 to |keys|
      invariant perNode.Keys == Nodes(keys[..i])
      invariant forall node :: node in perNode ==> perNode[node] == SeqsFor(keys[..i], node)
    {
      var key := keys[i];
      assert keys[..i + 1] == keys[..i] + [key];
      OneMoreKey(keys[..i], key);
      SeqsForIsSeqsOf(keys[..i], key.node);
      var soFar := if key.node in perNode then perNode[key.node] else [];
      perNode := perNode[key.node := soFar + [key.seqno]];
    }
    assert keys[..|keys|] == keys;
  }

  lemma {:induction false} NoKeys()
    ensures Nodes([]) == {}
  {
  }

  lemma {:induction false} OneMoreKey(keys: seq<Key>, key: Key)
    ensures Nodes(keys + [key]) == Nodes(keys) + {key.node}
    ensures forall node :: SeqsFor(keys + [key], node)
                        == SeqsFor(keys, node) + (if key.node == node then [key.seqno] else [])
  {
    assert (keys + [key])[..|keys|] == keys;
    assert forall k :: k in keys + [key] <==> k in keys || k == key;
  }
}
