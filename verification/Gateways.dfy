// rucelium-gateway/src/pipeline.rs and state.rs: a datagram through ingest,
// calibration, durable store and biome, and the restart that primes the replay
// windows from the store's dedup index.  Calibration is an arbitrary correction.
module Gateways {
  import opened Common
  import opened Words
  import opened Domain
  import opened Cbor
  import opened Ingest
  import opened Store
  import opened Biomes
  import opened Replay

  const OBS_SEGMENT_MAX_RECORDS: nat := 4096

  datatype Correction = Correction(value: real, lower: real, upper: real, quality: real)

  // Fixed by the outside: the signature check, and what calibration makes of a sample.
  datatype Env = Env(signed: Envelope -> bool, correct: (EnvSample, U64) -> Option<Correction>)

  // Committed only if the corrected sample still validates; else the sample stays raw.
  function Calibrated(env: Env, s: EnvSample, nowNs: U64): (r: EnvSample)
    ensures r.DedupKey() == s.DedupKey() && r.nodeId == s.nodeId
    ensures s.Valid() ==> r.Valid()
  {
    if Commits(env, s, nowNs) then Corrected(s, env.correct(s, nowNs).value) else s
  }

  predicate Commits(env: Env, s: EnvSample, nowNs: U64) {
    var c := env.correct(s, nowNs);
    c.Some? && Corrected(s, c.value).Valid()
  }

  function Corrected(s: EnvSample, c: Correction): EnvSample {
    s.(value := c.value, lower := c.lower, upper := c.upper, quality := c.quality)
  }

  // A correction whose interval holds its value and whose quality is a quality.
  ghost predicate Corrects(correction: Option<Correction>) {
    && correction.Some?
    && correction.value.lower <= correction.value.value <= correction.value.upper
    && 0.0 <= correction.value.quality <= 1.0
  }

  // What is handed on of a sample: its identity, its times and its provenance as they
  // came, its quantities as a correction that corrects gives them.
  ghost predicate HandsOn(raw: EnvSample, correction: Option<Correction>, s: EnvSample) {
    && s.nodeId == raw.nodeId && s.sequence == raw.sequence
    && s.measuredNs == raw.measuredNs && s.receivedNs == raw.receivedNs
    && s.firmwareHash == raw.firmwareHash && s.signerKey == raw.signerKey
    && if Corrects(correction)
       then && s.value == correction.value.value && s.quality == correction.value.quality
            && s.lower == correction.value.lower && s.upper == correction.value.upper
       else && s.value == raw.value && s.quality == raw.quality
            && s.lower == raw.lower && s.upper == raw.upper
  }

  lemma {:induction false} CalibratedHandsOn(env: Env, raw: EnvSample, nowNs: U64, s: EnvSample)
    requires raw.Valid()
    ensures s == Calibrated(env, raw, nowNs) <==> HandsOn(raw, env.correct(raw, nowNs), s)
    ensures Commits(env, raw, nowNs) <==> Corrects(env.correct(raw, nowNs))
  {
  }

  datatype Outcome =
    | Refused(reason: RejectReason)
    | NotStored
    | Handled(stored: AppendOutcome, admission: Admission)

  // `store` is the directory with its history; `consumed` the keys the windows took
  // since start; `accepted` the keys of all datagrams accepted over every process life.
  datatype Gateway = Gateway(
    store: Life, pipe: Pipeline, biome: BiomeState, consumed: set<Key>,
    accepted: seq<Key>, acceptedNow: nat, rejectedNow: nat, calibrationErrors: nat)

  const NO_PIPELINE := Pipeline(map[], map[], NO_STATS)

  function Installed(disk: Disk): Gateway {
    Gateway(Life(Down(disk), {}, [], 0), NO_PIPELINE, NEW_BIOME, {}, [], 0, 0, 0)
  }

  datatype Step =
    | Boot
    | CrashBoot(opening: OpenCrash)
    | Datagram(envelope: Bytes, receivedNs: U64)
    | CrashDatagram(envelope: Bytes, receivedNs: U64, crash: AppendCrash)
    | Provision(node: U64, pubkey: Bytes, firmwareHash: string)
    | AdminRevoke(node: U64)
    | PeerRevoke(node: U64)
    | Retention(nowNs: U64, retentionNs: U64)
    | CrashRetention(nowNs: U64, retentionNs: U64, after: nat)
    | PowerOff

  predicate PlainStep(step: Step) {
    (step.Datagram? || step.CrashDatagram?) ==> Plain(step.envelope)
  }

  // Some order of listing a set; priming does not depend on which.
  ghost function Listing(keys: set<Key>): (listed: seq<Key>)
    ensures Elements(listed) == keys
    decreases |keys|
  {
    if keys == {} then []
    else
      var key :| key in keys;
      ElementsOfSum(Listing(keys - {key}), [key]);
      Listing(keys - {key}) + [key]
  }

  // Inner::open around the store: an empty registry, primed windows, a new biome.
  ghost function Booted(g: Gateway): Gateway
    requires g.store.m.Down?
  {
    var store := Next(g.store, Open(OBS_SEGMENT_MAX_RECORDS));
    if store.m.Up?
    then Gateway(store, NO_PIPELINE.(windows := PrimeOnto(map[], Listing(store.m.store.seen))), NEW_BIOME,
                 store.m.store.seen, g.accepted, 0, 0, 0)
    else g.(store := store)
  }

  ghost function ConsumedBy(g: Gateway, env: Env, envelope: Bytes): set<Key>
    requires Plain(envelope)
  {
    var key := Consumes(g.pipe, env.signed, envelope);
    if key.Some? then g.consumed + {key.value} else g.consumed
  }

  datatype Processed = Processed(gateway: Gateway, outcome: Outcome)

  // ingest_v1 and the counters of process_datagram.
  ghost function ProcessOn(g: Gateway, env: Env, envelope: Bytes, receivedNs: U64): Processed
    requires Plain(envelope) && g.store.m.Up? && Indexed(g.store)
  {
    var r := IngestOn(g.pipe, env.signed, envelope, receivedNs);
    var g1 := g.(pipe := r.pipeline, consumed := ConsumedBy(g, env, envelope));
    match r.outcome
    case Err(reason) => Processed(g1.(rejectedNow := g.rejectedNow + 1), Refused(reason))
    case Ok(sample) =>
      var view := Calibrated(env, sample, receivedNs);
      var stored := AppendTo(g.store.m.store, view).1;
      var g2 := g1.(store := Next(g.store, Append(view)),
                    calibrationErrors := g.calibrationErrors + (if Commits(env, sample, receivedNs) then 0 else 1));
      if stored.Invalid? then Processed(g2.(rejectedNow := g.rejectedNow + 1), NotStored)
      else
        var admitted := Admit(g.biome, view);
        Processed(g2.(biome := admitted.0, acceptedNow := g.acceptedNow + 1,
                      accepted := g.accepted + [view.DedupKey()]),
                  Handled(stored, admitted.1))
  }

  // What a step does to the store directory.
  function StoreEvent(g: Gateway, env: Env, step: Step): Option<Event>
    requires PlainStep(step)
  {
    match step
    case Boot => if g.store.m.Down? then Some(Open(OBS_SEGMENT_MAX_RECORDS)) else None
    case CrashBoot(opening) => Some(CrashOpen(opening))
    case Datagram(envelope, receivedNs) =>
      var r := IngestOn(g.pipe, env.signed, envelope, receivedNs).outcome;
      if g.store.m.Up? && r.Ok? then Some(Append(Calibrated(env, r.value, receivedNs))) else None
    case CrashDatagram(envelope, receivedNs, crash) =>
      var r := IngestOn(g.pipe, env.signed, envelope, receivedNs).outcome;
      Some(if r.Ok? then CrashAppend(Calibrated(env, r.value, receivedNs), crash) else Kill)
    case Retention(nowNs, retentionNs) => Some(Expire(nowNs, retentionNs))
    case CrashRetention(nowNs, retentionNs, after) => Some(CrashExpire(nowNs, retentionNs, after))
    case PowerOff => Some(Kill)
    case _ => None
  }

  // A step that does not fit (a datagram while down, a boot while up) does nothing.
  ghost function NextGateway(g: Gateway, env: Env, step: Step): Gateway
    requires PlainStep(step) && Indexed(g.store)
  {
    match step
    case Boot => if g.store.m.Down? then Booted(g) else g
    case Datagram(envelope, receivedNs) =>
      if g.store.m.Up? then ProcessOn(g, env, envelope, receivedNs).gateway else g
    case Provision(node, pubkey, firmwareHash) =>
      g.(pipe := g.pipe.(registry := g.pipe.registry[node := DeviceRecord(pubkey, firmwareHash, false)]))
    case AdminRevoke(node) =>
      g.(pipe := g.pipe.(registry := Revoked(g.pipe.registry, node)), biome := AfterDelivery(g.biome, RevokeNode(node)))
    case PeerRevoke(node) => g.(pipe := g.pipe.(registry := Revoked(g.pipe.registry, node)))
    case _ => g.(store := Next(g.store, StoreEvent(g, env, step).value))
  }

  // ---------------------------------------------------------------------
  // What every gateway state keeps
  // ---------------------------------------------------------------------

  // While up: the windows show exactly the consumed keys, every indexed key among
  // them, every biome key indexed; nothing downstream ever counted a duplicate, and
  // every counter of accepted samples agrees.
  ghost predicate Consistent(g: Gateway) {
    g.store.m.Up? ==>
      && Tracks(g.pipe.windows, g.consumed)
      && g.store.m.store.seen <= g.consumed
      && g.biome.seen <= g.store.m.store.seen
      && GoodBiome(g.biome) && g.biome.seen <= Elements(g.accepted)
      && g.store.m.store.duplicates == 0 && g.biome.duplicates == 0
      && g.store.m.store.appended == g.pipe.stats.accepted == g.acceptedNow
      && g.pipe.stats.Total() == g.acceptedNow + g.rejectedNow
  }

  // Each key is accepted at most once, ever, and is in the durable index.
  ghost predicate GoodGateway(g: Gateway) {
    && Knows(g.store) && Consistent(g)
    && Distinct(g.accepted) && Elements(g.accepted) <= g.store.acked
  }

  lemma {:induction false} StepsTheStore(g: Gateway, env: Env, step: Step)
    requires PlainStep(step) && Indexed(g.store)
    ensures var e := StoreEvent(g, env, step);
            NextGateway(g, env, step).store == if e.Some? then Next(g.store, e.value) else g.store
  {
    hide IngestOn, Next, VerifyEnvelope;
  }

  lemma {:induction false} FreshKeyAppends(store: Life, s: EnvSample)
    requires store.m.Up? && Indexed(store) && s.Valid() && s.DedupKey() !in store.m.store.seen
    ensures var st, r := store.m.store, Next(store, Append(s));
            && AppendTo(st, s).1 == Appended && r.m.Up?
            && r.m.store.seen == st.seen + {s.DedupKey()} && r.acked == store.acked + {s.DedupKey()}
            && r.m.store.duplicates == st.duplicates && r.m.store.appended == st.appended + 1
  {
    hide SetLast, LastSeg, EnvSample.Valid;
  }

  // What reaches the store is new to it and to the biome: both take it, the biome
  // unless it has revoked the device.
  lemma {:induction false} DownstreamNeverSeesADuplicate(g: Gateway, env: Env, envelope: Bytes, receivedNs: U64)
    requires Plain(envelope) && g.store.m.Up? && GoodGateway(g)
    ensures var r := ProcessOn(g, env, envelope, receivedNs);
            match r.outcome
            case Refused(reason) => r.gateway.store == g.store && r.gateway.biome == g.biome
            case NotStored => false
            case Handled(stored, admission) =>
              var key := Consumes(g.pipe, env.signed, envelope);
              && key.Some? && key.value !in g.store.m.store.seen
              && r.gateway.accepted == g.accepted + [key.value]
              && stored == Appended
              && admission == (if key.value.node in g.biome.revoked then RevokedNode else Admitted)
              && r.gateway.biome.seen == g.biome.seen + (if admission.Admitted? then {key.value} else {})
    ensures GoodGateway(ProcessOn(g, env, envelope, receivedNs).gateway)
  {
    hide IngestOn, Consumes, Tracks, Next, AppendTo, EnvSample.Valid, IngestStats.Total, Calibrated, GoodBiome;
    var r := IngestOn(g.pipe, env.signed, envelope, receivedNs);
    IngestKeepsTracking(g.pipe, env.signed, envelope, receivedNs, g.consumed);
    StatsMove(g.pipe, env, envelope, receivedNs);
    if r.outcome.Ok? {
      var view := Calibrated(env, r.outcome.value, receivedNs);
      FreshKeyAppends(g.store, view);
      AckedStaysKnown(g.store, Append(view));
      NewAccepted(g.accepted, view.DedupKey());
      AdmitKeepsGood(g.biome, view);
    }
  }

  lemma {:induction false} IngestedIsValid(p: Pipeline, signed: Envelope -> bool, envelope: Bytes, receivedNs: U64)
    requires Plain(envelope)
    ensures var outcome := IngestOn(p, signed, envelope, receivedNs).outcome;
            outcome.Ok? ==> outcome.value.Valid()
  {
    hide VerifyEnvelope, Offer, EnvSample.Valid;
  }

  // The sample is the store's last record, unless it ran into an unterminated one, and
  // the biome's last observation if it was admitted.
  ghost predicate Lands(g: Gateway, g': Gateway, outcome: Outcome, s: EnvSample) {
    outcome.Handled? && g.store.m.Up? ==>
      && g'.store.m.Up?
      && (outcome.stored.Appended? && !Glues(g.store.m.store, s) ==>
            Records(g'.store.m.store.disk.segs) == Records(g.store.m.store.disk.segs) + [s])
      && g'.biome.observations == g.biome.observations + (if outcome.admission.Admitted? then [s] else [])
  }

  // What ingest refuses goes no further; what it passes lands corrected, if there is a
  // correction that corrects, and else as it came.
  lemma {:induction false} HandledLandsCorrected(
      g: Gateway, env: Env, envelope: Bytes, receivedNs: U64, s: EnvSample)
    requires Plain(envelope) && g.store.m.Up? && Indexed(g.store)
    ensures var r := ProcessOn(g, env, envelope, receivedNs);
            match IngestOn(g.pipe, env.signed, envelope, receivedNs).outcome
            case Err(reason) => r.outcome == Refused(reason) && r.gateway.calibrationErrors == g.calibrationErrors
            case Ok(raw) =>
              && !r.outcome.Refused?
              && r.gateway.calibrationErrors
                 == g.calibrationErrors + (if Corrects(env.correct(raw, receivedNs)) then 0 else 1)
              && (HandsOn(raw, env.correct(raw, receivedNs), s) ==> Lands(g, r.gateway, r.outcome, s))
  {
    IngestedIsValid(g.pipe, env.signed, envelope, receivedNs);
    ProcessHandsOver(g, env, envelope, receivedNs);
    hide IngestOn, EnvSample.Valid, HandsOn, Indexed, Calibrated, Commits, Corrects, ProcessOn, Lands;
    var ingested := IngestOn(g.pipe, env.signed, envelope, receivedNs).outcome;
    if ingested.Ok? {
      CalibratedHandsOn(env, ingested.value, receivedNs, s);
    }
  }

  lemma {:induction false} ProcessHandsOver(g: Gateway, env: Env, envelope: Bytes, receivedNs: U64)
    requires Plain(envelope) && g.store.m.Up? && Indexed(g.store)
    ensures var r := ProcessOn(g, env, envelope, receivedNs);
            match IngestOn(g.pipe, env.signed, envelope, receivedNs).outcome
            case Err(reason) => r.outcome == Refused(reason) && r.gateway.calibrationErrors == g.calibrationErrors
            case Ok(raw) =>
              && !r.outcome.Refused?
              && r.gateway.calibrationErrors
                 == g.calibrationErrors + (if Commits(env, raw, receivedNs) then 0 else 1)
              && Lands(g, r.gateway, r.outcome, Calibrated(env, raw, receivedNs))
  {
    hide IngestOn, AppendTo, EnvSample.Valid, Records, Glues, Indexed, Calibrated, Commits, Next, Consumes;
    var ingested := IngestOn(g.pipe, env.signed, envelope, receivedNs).outcome;
    if ingested.Ok? {
      NextAppends(g.store, Calibrated(env, ingested.value, receivedNs));
      assert g.biome.observations + [] == g.biome.observations;
    }
  }

  lemma {:induction false} NextAppends(store: Life, s: EnvSample)
    requires Indexed(store) && store.m.Up?
    ensures var st, m := store.m.store, Next(store, Append(s)).m;
            && m.Up?
            && (AppendTo(st, s).1.Appended? && !Glues(st, s) ==>
                  Records(m.store.disk.segs) == Records(st.disk.segs) + [s])
  {
    hide AppendTo, Glues, Records, EnvSample.Valid;
    AppendAnswers(store.m.store, s);
  }

  // A crash in an accepted datagram is one in appending the sample as it would have
  // landed; retention reaches the store with its own two times.
  lemma {:induction false} StoreTakesTheStep(g: Gateway, env: Env, step: Step, s: EnvSample)
    requires PlainStep(step) && g.store.m.Up? && Indexed(g.store)
    ensures var store, m := g.store.m.store, NextGateway(g, env, step).store.m;
            match step
            case CrashDatagram(envelope, receivedNs, crash) =>
              (match IngestOn(g.pipe, env.signed, envelope, receivedNs).outcome
               case Err(_) => m == Down(store.disk)
               case Ok(raw) => HandsOn(raw, env.correct(raw, receivedNs), s) ==> m == Down(CrashIn(store, s, crash)))
            case Retention(nowNs, retentionNs) => m == Up(RetainIn(store, nowNs, retentionNs))
            case CrashRetention(nowNs, retentionNs, after) =>
              var kept := Retain(store.disk.segs, store.infos, nowNs, retentionNs, after);
              m == Down(store.disk.(segs := kept.segs))
            case PowerOff => m == Down(store.disk)
            case _ => true
  {
    hide IngestOn, EnvSample.Valid, HandsOn, Calibrated, CrashIn, Retain, AppendTo, OpenDisk;
    if step.CrashDatagram? {
      IngestedIsValid(g.pipe, env.signed, step.envelope, step.receivedNs);
      var ingested := IngestOn(g.pipe, env.signed, step.envelope, step.receivedNs).outcome;
      if ingested.Ok? {
        CalibratedHandsOn(env, ingested.value, step.receivedNs, s);
      }
    }
  }

  lemma {:induction false} NewAccepted(accepted: seq<Key>, key: Key)
    requires Distinct(accepted) && key !in Elements(accepted)
    ensures Distinct(accepted + [key]) && Elements(accepted + [key]) == Elements(accepted) + {key}
  {
    ElementsOfSum(accepted, [key]);
  }

  lemma {:induction false} StatsMove(p: Pipeline, env: Env, envelope: Bytes, receivedNs: U64)
    requires Plain(envelope)
    ensures var r := IngestOn(p, env.signed, envelope, receivedNs);
            && r.pipeline.stats.accepted == p.stats.accepted + (if r.outcome.Ok? then 1 else 0)
            && r.pipeline.stats.restored == p.stats.restored
  {
    hide VerifyEnvelope, Offer, Normalize;
  }

  lemma {:induction false} BootIsGood(g: Gateway)
    requires GoodGateway(g) && g.store.m.Down?
    ensures GoodGateway(Booted(g))
  {
    hide Tracks, PrimeOnto, Next, IngestStats.Total, GoodBiome;
    assert GoodBiome(NEW_BIOME) by { ObservationsAreFirstDeliveries([]); }
    var store := Next(g.store, Open(OBS_SEGMENT_MAX_RECORDS));
    AckedStaysKnown(g.store, Open(OBS_SEGMENT_MAX_RECORDS));
    OpenedCounters(g.store, OBS_SEGMENT_MAX_RECORDS);
    if store.m.Up? {
      PrimedTracks(Listing(store.m.store.seen));
    }
    assert NO_STATS.Total() == 0 by { NoStatsTotal(); }
  }

  lemma {:induction false} NoStatsTotal()
    ensures NO_STATS.Total() == 0
  {
  }

  lemma {:induction false} OpenedCounters(store: Life, maxRecords: nat)
    requires store.m.Down?
    ensures var r := Next(store, Open(maxRecords));
            r.acked == store.acked && (r.m.Up? ==> r.m.store.duplicates == 0 && r.m.store.appended == 0)
  {
    hide ReadSegments, Records, Missing;
  }

  lemma {:induction false} NextGatewayIsGood(g: Gateway, env: Env, step: Step)
    requires PlainStep(step) && GoodGateway(g)
    ensures GoodGateway(NextGateway(g, env, step))
  {
    hide Tracks, IngestOn, Consumes, IngestStats.Total, Retain, ReadSegments, Records, Missing, Calibrated;
    match step
    case Boot => if g.store.m.Down? { BootIsGood(g); }
    case Datagram(envelope, receivedNs) =>
      if g.store.m.Up? { DownstreamNeverSeesADuplicate(g, env, envelope, receivedNs); }
    case Provision(_, _, _) =>
    case AdminRevoke(_) =>
    case PeerRevoke(_) =>
    case _ => AckedStaysKnown(g.store, StoreEvent(g, env, step).value);
  }

  ghost function GatewayAfter(disk: Disk, env: Env, steps: seq<Step>): (g: Gateway)
    requires forall step :: step in steps ==> PlainStep(step)
    ensures GoodGateway(g)
  {
    if steps == [] then Installed(disk)
    else
      assert steps[|steps| - 1] in steps && forall x :: x in steps[..|steps| - 1] ==> x in steps;
      var before := GatewayAfter(disk, env, steps[..|steps| - 1]);
      NextGatewayIsGood(before, env, steps[|steps| - 1]);
      NextGateway(before, env, steps[|steps| - 1])
  }

  // Over every run from any directory, crashes and restarts included: no key is
  // accepted twice, and while up every key on record or ever accepted is indexed, and
  // every indexed key is refused by its window.
  lemma {:induction false} StoredKeysAreRejected(disk: Disk, env: Env, steps: seq<Step>, key: Key)
    requires forall step :: step in steps ==> PlainStep(step)
    ensures var g := GatewayAfter(disk, env, steps);
            && Distinct(g.accepted)
            && (g.store.m.Up? && (key in g.accepted || key in KeysOf(Records(g.store.m.store.disk.segs))) ==>
                  key in g.store.m.store.seen)
            && (g.store.m.Up? && key in g.store.m.store.seen ==>
                  Offer(WindowAt(g.pipe.windows, key.node), key.seqno).verdict.Err?)
  {
    hide Tracks, Offer, KeysOf, Records;
    var g := GatewayAfter(disk, env, steps);
    if g.store.m.Up? && key in g.store.m.store.seen {
      ConsumedIsRejected(g.pipe.windows, g.consumed, key);
    }
    assert key in g.accepted <==> key in Elements(g.accepted);
    assert g.store.m.Up? ==>
             (key in KeysOf(Records(g.store.m.store.disk.segs))
              <==> key in Elements(KeysOf(Records(g.store.m.store.disk.segs))));
  }

  // No record of the device lets it in.
  ghost predicate ShutOut(g: Gateway, node: U64) {
    node in g.pipe.registry ==> g.pipe.registry[node].revoked
  }

  lemma {:induction false} NextStaysShutOut(g: Gateway, env: Env, step: Step, node: U64)
    requires PlainStep(step) && GoodGateway(g) && ShutOut(g, node)
    requires !(step.Provision? && step.node == node)
    ensures ShutOut(NextGateway(g, env, step), node)
  {
    hide IngestOn, Consumes, Tracks, Next, AppendTo, Calibrated, EnvSample.Valid, IngestStats.Total, PrimeOnto;
    if step.Datagram? && g.store.m.Up? {
      IngestKeepsTracking(g.pipe, env.signed, step.envelope, step.receivedNs, g.consumed);
    }
  }

  // Provisioning, and nothing less, lets a shut-out device in, under the new key.
  lemma {:induction false} ProvisioningLetsIn(g: Gateway, env: Env, step: Step, node: U64)
    requires PlainStep(step) && GoodGateway(g) && ShutOut(g, node)
    ensures var g' := NextGateway(g, env, step);
            if step.Provision? && step.node == node
            then && !ShutOut(g', node) && g'.pipe.registry[node].pubkey == step.pubkey
                 && g'.pipe.registry[node].firmwareHash == step.firmwareHash
            else ShutOut(g', node)
  {
    hide NextGateway, Consistent;
    if step.Provision? && step.node == node {
      ProvisionedIsIn(g, env, step);
    } else {
      NextStaysShutOut(g, env, step, node);
    }
  }

  lemma {:induction false} ProvisionedIsIn(g: Gateway, env: Env, step: Step)
    requires step.Provision? && Indexed(g.store)
    ensures NextGateway(g, env, step).pipe.registry
         == g.pipe.registry[step.node := DeviceRecord(step.pubkey, step.firmwareHash, false)]
  {
  }

  predicate ReadmitsNobody(steps: seq<Step>, node: U64) {
    forall step :: step in steps ==> PlainStep(step) && !(step.Provision? && step.node == node)
  }

  lemma {:induction false} StaysShutOut(disk: Disk, env: Env, steps: seq<Step>, more: seq<Step>, node: U64)
    requires forall step :: step in steps ==> PlainStep(step)
    requires ReadmitsNobody(more, node) && ShutOut(GatewayAfter(disk, env, steps), node)
    ensures forall step :: step in steps + more ==> PlainStep(step)
    ensures ShutOut(GatewayAfter(disk, env, steps + more), node)
  {
    hide NextGateway, GoodGateway, PlainStep, ShutOut;
    if more == [] {
      assert steps + more == steps;
    } else {
      var n := |more| - 1;
      assert more[n] in more && forall x :: x in more[..n] ==> x in more;
      StaysShutOut(disk, env, steps, more[..n], node);
      assert (steps + more)[..|steps| + n] == steps + more[..n];
      NextStaysShutOut(GatewayAfter(disk, env, steps + more[..n]), env, more[n], node);
    }
  }

  // Once revoked, by its owner or a peer, a device's envelopes are refused in every
  // later state, restarts included, until somebody provisions it again.
  lemma {:induction false} RevocationTakesHold(
      disk: Disk, env: Env, steps: seq<Step>, revoke: Step, more: seq<Step>, envelope: Bytes, receivedNs: U64)
    requires forall step :: step in steps ==> PlainStep(step)
    requires (revoke.AdminRevoke? || revoke.PeerRevoke?) && ReadmitsNobody(more, revoke.node) && Plain(envelope)
    ensures forall step :: step in steps + [revoke] + more ==> PlainStep(step)
    ensures var g := GatewayAfter(disk, env, steps + [revoke] + more);
            g.store.m.Up? && ProcessOn(g, env, envelope, receivedNs).outcome.Handled? ==>
              var key := Consumes(g.pipe, env.signed, envelope);
              key.Some? && key.value.node != revoke.node
  {
    hide IngestOn, Consumes, Tracks, Next, AppendTo, Calibrated, EnvSample.Valid, IngestStats.Total;
    var revoked := steps + [revoke];
    assert revoked[..|steps|] == steps;
    assert ShutOut(GatewayAfter(disk, env, revoked), revoke.node);
    StaysShutOut(disk, env, revoked, more, revoke.node);
    var g := GatewayAfter(disk, env, revoked + more);
    if g.store.m.Up? {
      IngestKeepsTracking(g.pipe, env.signed, envelope, receivedNs, g.consumed);
    }
  }

  // Priming is determined by the key set, whatever order lists it.
  lemma {:induction false} PrimingIgnoresOrder(keys: seq<Key>, keys': seq<Key>)
    requires Elements(keys) == Elements(keys')
    ensures PrimeOnto(map[], keys) == PrimeOnto(map[], keys')
  {
    hide OfferAll, SeqsFor, Sorted;
    forall k
      ensures k in keys <==> k in keys'
    {
      assert k in Elements(keys) <==> k in Elements(keys');
    }
    PrimedTracks(keys);
    forall node: U64
      ensures WindowAt(PrimeOnto(map[], keys), node) == WindowAt(PrimeOnto(map[], keys'), node)
    {
      RestartIsFaithful(PrimeOnto(map[], keys), keys', node);
    }
    assert Nodes(keys) == Nodes(keys');
    forall node | node in Nodes(keys)
      ensures PrimeOnto(map[], keys)[node] == PrimeOnto(map[], keys')[node]
    {
      assert WindowAt(PrimeOnto(map[], keys), node) == PrimeOnto(map[], keys)[node];
      assert WindowAt(PrimeOnto(map[], keys'), node) == PrimeOnto(map[], keys')[node];
    }
  }

  // The step makes the store append onto a record whose newline a crash took.
  ghost predicate HarmsStore(g: Gateway, env: Env, step: Step)
    requires PlainStep(step)
  {
    var e := StoreEvent(g, env, step);
    e.Some? && Harms(g.store, e.value)
  }

  ghost predicate NeverHarmsStore(env: Env, steps: seq<Step>)
    requires forall step :: step in steps ==> PlainStep(step)
  {
    steps != [] ==>
      var init, last := steps[..|steps| - 1], steps[|steps| - 1];
      assert last in steps && forall x :: x in init ==> x in steps;
      NeverHarmsStore(env, init) && !HarmsStore(GatewayAfter(EMPTY_DISK, env, init), env, last)
  }

  // In every state of the run the directory keeps every promise of the store.
  ghost predicate AlwaysSound(env: Env, steps: seq<Step>)
    requires forall step :: step in steps ==> PlainStep(step)
  {
    && GoodLife(GatewayAfter(EMPTY_DISK, env, steps).store)
    && (steps != [] ==>
          assert forall x :: x in steps[..|steps| - 1] ==> x in steps;
          AlwaysSound(env, steps[..|steps| - 1]))
  }

  lemma {:induction false} StepIsSoundIff(g: Gateway, env: Env, step: Step)
    requires PlainStep(step) && Indexed(g.store) && GoodLife(g.store)
    ensures GoodLife(NextGateway(g, env, step).store) <==> !HarmsStore(g, env, step)
  {
    hide Next, GoodLife, Harms, NextGateway, IngestOn, Plain;
    StepsTheStore(g, env, step);
    if StoreEvent(g, env, step).Some? {
      NextIsGoodIff(g.store, StoreEvent(g, env, step).value);
    }
  }

  // A run of the gateway keeps its store sound exactly when no datagram is appended
  // onto a record whose newline a crash took; the gateway then always boots again.
  lemma {:induction false} AlwaysSoundIff(env: Env, steps: seq<Step>)
    requires forall step :: step in steps ==> PlainStep(step)
    ensures AlwaysSound(env, steps) <==> NeverHarmsStore(env, steps)
    ensures AlwaysSound(env, steps) ==>
              var g := GatewayAfter(EMPTY_DISK, env, steps);
              g.store.m.Down? ==> Booted(g).store.m.Up?
  {
    hide Next, GoodLife, HarmsStore, NextGateway, IngestOn, Consistent, PlainStep;
    if steps == [] {
      NewLifeIsGood();
    } else {
      var init, last := steps[..|steps| - 1], steps[|steps| - 1];
      assert last in steps && forall x :: x in init ==> x in steps;
      AlwaysSoundIff(env, init);
      if GoodLife(GatewayAfter(EMPTY_DISK, env, init).store) {
        StepIsSoundIff(GatewayAfter(EMPTY_DISK, env, init), env, last);
      }
    }
    var g := GatewayAfter(EMPTY_DISK, env, steps);
    if GoodLife(g.store) && g.store.m.Down? {
      NextIsGood(g.store, Open(OBS_SEGMENT_MAX_RECORDS));
    }
  }

  predicate SplitsALine(step: Step) {
    step.CrashDatagram? && step.crash.NoNewline?
  }

  // Only a crash between a record's line and its newline can lead there.
  lemma {:induction false} WithoutSplitsAlwaysSound(env: Env, steps: seq<Step>)
    requires forall step :: step in steps ==> PlainStep(step) && !SplitsALine(step)
    ensures AlwaysSound(env, steps)
    ensures !LastSeg(GatewayAfter(EMPTY_DISK, env, steps).store.m.Disk().segs).tail.Unterminated?
  {
    hide Next, GoodLife, NextGateway, IngestOn, Consistent, Plain;
    if steps == [] {
      NewLifeIsGood();
    } else {
      var init, last := steps[..|steps| - 1], steps[|steps| - 1];
      assert last in steps && forall x :: x in init ==> x in steps;
      WithoutSplitsAlwaysSound(env, init);
      var g := GatewayAfter(EMPTY_DISK, env, init);
      StepsTheStore(g, env, last);
      if StoreEvent(g, env, last).Some? {
        NextKeepsTail(g.store, StoreEvent(g, env, last).value);
        NextIsGood(g.store, StoreEvent(g, env, last).value);
      }
    }
  }

  // ---------------------------------------------------------------------
  // The running daemon
  // ---------------------------------------------------------------------

  class Daemon {
    const env: Env
    const ingest: IngestPipeline
    const obs: ObservationStore
    const biome: Biome
    var calibrationErrors: nat
    var accepted: nat
    var rejected: nat

    ghost predicate Valid()
      reads this, obs
    {
      |obs.infos| == |obs.disk.segs| && ingest.signed == env.signed
    }

    constructor (env: Env, ingest: IngestPipeline, obs: ObservationStore, biome: Biome)
      requires |obs.infos| == |obs.disk.segs| && ingest.signed == env.signed
      ensures this.env == env && this.ingest == ingest && this.obs == obs && this.biome == biome
      ensures Valid() && accepted == rejected == calibrationErrors == 0
    {
      this.env, this.ingest, this.obs, this.biome := env, ingest, obs, biome;
      calibrationErrors, accepted, rejected := 0, 0, 0;
    }

    // The daemon holds the gateway state g.
    ghost predicate Holds(g: Gateway)
      reads this, ingest, obs, biome
    {
      && g.store.m == Up(obs.State()) && g.pipe == ingest.State() && g.biome == biome.State()
      && g.acceptedNow == accepted && g.rejectedNow == rejected && g.calibrationErrors == calibrationErrors
    }

    // Inner::open: the dedup index of the opened store primes fresh replay windows.
    static method Open(env: Env, disk: Disk, ghost g: Gateway) returns (r: Result<Daemon, StoreError>)
      requires g.store.m == Down(disk)
      ensures r.Ok? ==>
        && fresh(r.value) && fresh(r.value.ingest) && fresh(r.value.obs) && fresh(r.value.biome)
        && r.value.env == env && r.value.Valid() && r.value.Holds(Booted(g)) && r.value.obs.maxRecords == 4096
      ensures r.Err? ==> Booted(g).store.m.Down?
    {
      hide OpenDisk, PrimeOnto, Indexed;
      var loaded := ObservationStore.Open(disk, OBS_SEGMENT_MAX_RECORDS);
      if loaded.Err? {
        return Err(loaded.error);
      }
      var obs := loaded.value;
      OpenedSizes(disk, OBS_SEGMENT_MAX_RECORDS);
      var ingest := new IngestPipeline(env.signed, map[]);
      var biome := new Biome();
      var keys := DedupKeys(obs);
      ingest.PrimeFromDedup(keys);
      PrimingIgnoresOrder(keys, Listing(obs.seen));
      var daemon := new Daemon(env, ingest, obs, biome);
      r := Ok(daemon);
    }

    static method DedupKeys(obs: ObservationStore) returns (keys: seq<Key>)
      ensures Elements(keys) == obs.seen
    {
      var todo := obs.seen;
      keys := [];
      while todo != {}
        invariant Elements(keys) + todo == obs.seen
      {
        var key :| key in todo;
        ElementsOfSum(keys, [key]);
        keys, todo := keys + [key], todo - {key};
      }
    }

    // One datagram, counted exactly once.
    method Process(envelope: Bytes, receivedNs: U64, ghost g: Gateway) returns (outcome: Outcome)
      requires Plain(envelope) && Valid() && Indexed(g.store) && Holds(g)
      modifies this, ingest, obs, biome
      ensures Valid()
      ensures var r := ProcessOn(g, env, envelope, receivedNs);
              r.outcome == outcome && Holds(r.gateway)
      ensures accepted == old(accepted) + (if outcome.Handled? then 1 else 0)
      ensures rejected == old(rejected) + (if outcome.Handled? then 0 else 1)
    {
      hide IngestOn, EnvSample.Valid, AppendTo, Indexed, Consumes;
      var verified := ingest.Ingest(envelope, receivedNs);
      if verified.Err? {
        rejected := rejected + 1;
        return Refused(verified.error);
      }
      var view := verified.value;
      var correction := env.correct(view, receivedNs);
      if correction.None? || !Corrected(view, correction.value).Valid() {
        calibrationErrors := calibrationErrors + 1;
      } else {
        view := Corrected(view, correction.value);
      }
      AppendSizes(obs.State(), view);
      var stored := obs.Append(view);
      if stored.Invalid? {
        rejected := rejected + 1;
        return NotStored;
      }
      var admission := biome.Accept(view);
      accepted := accepted + 1;
      outcome := Handled(stored, admission);
    }
  }

  lemma {:induction false} OpenedSizes(disk: Disk, maxRecords: nat)
    requires OpenDisk(disk, maxRecords).Ok?
    ensures var st := OpenDisk(disk, maxRecords).value;
            |st.infos| == |st.disk.segs| && st.maxRecords == (if maxRecords == 0 then 1 else maxRecords)
  {
    hide ReadSegments, Records, Missing;
  }

  lemma {:induction false} AppendSizes(st: StoreState, s: EnvSample)
    requires |st.infos| == |st.disk.segs|
    ensures var st' := AppendTo(st, s).0; |st'.infos| == |st'.disk.segs|
  {
  }
}
