// rucelium-federation/src/buffer.rs: store-and-forward of signed envelopes while
// the uplink is down, its JSON form, and replay into the biome.  A BTreeMap is its
// entries in key order; the JSON text is its structure.
module Outage {
  import opened Common
  import opened Words
  import opened Domain
  import opened Wire
  import opened Cbor
  import opened Ingest
  import opened Biomes

  datatype Slot = Slot(key: Key, envelope: Bytes, receivedNs: U64)

  datatype BufferState = BufferState(entries: seq<Slot>, seen: set<Key>)

  const EMPTY_BUFFER := BufferState([], {})

  datatype BufferError = BadEnvelopeBytes | BadHex

  // None is hex that does not decode.
  datatype PersistedEntry = PersistedEntry(node: U64, seqno: U32, envelope: Option<Bytes>, receivedNs: U64)

  datatype Persisted = Persisted(entries: seq<PersistedEntry>, seen: seq<Key>)

  // dedup_key_of: decoded, never verified.
  function KeyIn(envelope: Bytes): Result<Key, BufferError> {
    if ReadEnvelope(envelope).Err? || ParseWire(ReadEnvelope(envelope).value.payload).Err? then Err(BadEnvelopeBytes)
    else
      var wire := ParseWire(ReadEnvelope(envelope).value.payload).value;
      Ok(Key(wire.nodeId, wire.sequence))
  }

  predicate Before(a: Key, b: Key) {
    a.node < b.node || (a.node == b.node && a.seqno < b.seqno)
  }

  // BTreeMap::insert: in place for a known key, else at its position.
  function Insert(slots: seq<Slot>, slot: Slot): seq<Slot> {
    if slots == [] || Before(slot.key, slots[0].key) then [slot] + slots
    else if slots[0].key == slot.key then [slot] + slots[1..]
    else [slots[0]] + Insert(slots[1..], slot)
  }

  function PushTo(b: BufferState, envelope: Bytes, receivedNs: U64): (BufferState, Result<bool, BufferError>) {
    var key := KeyIn(envelope);
    if key.Err? then (b, Err(key.error))
    else if key.value in b.seen then (b, Ok(false))
    else (BufferState(Insert(b.entries, Slot(key.value, envelope, receivedNs)), b.seen + {key.value}), Ok(true))
  }

  function ToEntry(slot: Slot): PersistedEntry {
    PersistedEntry(slot.key.node, slot.key.seqno, Some(slot.envelope), slot.receivedNs)
  }

  function EntriesToJson(slots: seq<Slot>): (entries: seq<PersistedEntry>)
    ensures |entries| == |slots|
    ensures forall i :: 0 <= i < |slots| ==> entries[i] == ToEntry(slots[i])
  {
    if slots == [] then [] else EntriesToJson(slots[..|slots| - 1]) + [ToEntry(slots[|slots| - 1])]
  }

  // The JSON form, whatever order the known keys are listed in.
  ghost predicate IsJsonOf(p: Persisted, b: BufferState) {
    p.entries == EntriesToJson(b.entries) && Elements(p.seen) == b.seen
  }

  function LoadEntry(b: BufferState, entry: PersistedEntry): Result<BufferState, BufferError> {
    if entry.envelope.None? then Err(BadHex)
    else
      var key :- KeyIn(entry.envelope.value);
      Ok(BufferState(Insert(b.entries, Slot(key, entry.envelope.value, entry.receivedNs)), b.seen + {key}))
  }

  function LoadEntries(seen: set<Key>, entries: seq<PersistedEntry>): Result<BufferState, BufferError> {
    if entries == [] then Ok(BufferState([], seen))
    else
      var before :- LoadEntries(seen, entries[..|entries| - 1]);
      LoadEntry(before, entries[|entries| - 1])
  }

  function FromJson(p: Persisted): Result<BufferState, BufferError> {
    LoadEntries(Elements(p.seen), p.entries)
  }

  // ---------------------------------------------------------------------
  // What the buffer keeps
  // ---------------------------------------------------------------------

  ghost predicate Ascending(slots: seq<Slot>) {
    forall i, j :: 0 <= i < j < |slots| ==> Before(slots[i].key, slots[j].key)
  }

  // Entries in key order, each under the key its own bytes say, every key known.
  ghost predicate GoodBuffer(b: BufferState) {
    && Ascending(b.entries)
    && forall slot :: slot in b.entries ==> KeyIn(slot.envelope) == Ok(slot.key) && slot.key in b.seen
  }

  lemma {:induction false} InsertKeepsOrder(slots: seq<Slot>, slot: Slot)
    requires Ascending(slots)
    ensures Ascending(Insert(slots, slot))
    ensures forall x :: x in Insert(slots, slot) <==> x == slot || (x in slots && x.key != slot.key)
  {
    if slots == [] || Before(slot.key, slots[0].key) {
      assert forall x :: x in [slot] + slots <==> x == slot || x in slots;
    } else if slots[0].key == slot.key {
      assert slots == [slots[0]] + slots[1..];
      assert forall x :: x in [slot] + slots[1..] <==> x == slot || x in slots[1..];
    } else {
      var rest := Insert(slots[1..], slot);
      InsertKeepsOrder(slots[1..], slot);
      assert slots == [slots[0]] + slots[1..];
      assert forall x :: x in [slots[0]] + rest <==> x == slots[0] || x in rest;
      forall j | 0 <= j < |rest|
        ensures Before(slots[0].key, rest[j].key)
      {
        assert rest[j] in rest;
      }
    }
  }

  lemma {:induction false} InsertLast(slots: seq<Slot>, slot: Slot)
    requires forall x :: x in slots ==> Before(x.key, slot.key)
    ensures Insert(slots, slot) == slots + [slot]
  {
    if slots != [] {
      assert slots[0] in slots;
      InsertLast(slots[1..], slot);
      assert slots == [slots[0]] + slots[1..];
    }
  }

  // A push takes exactly the keys never seen, drained ones included.
  lemma {:induction false} PushTakesNewKeys(b: BufferState, envelope: Bytes, receivedNs: U64)
    requires GoodBuffer(b)
    ensures var r := PushTo(b, envelope, receivedNs);
            && GoodBuffer(r.0) && b.seen <= r.0.seen
            && (r.1 == Ok(true) <==> KeyIn(envelope).Ok? && KeyIn(envelope).value !in b.seen)
            && (r.1 == Ok(true) ==>
                 forall x :: x in r.0.entries
                   <==> x in b.entries || x == Slot(KeyIn(envelope).value, envelope, receivedNs))
            && (r.1 != Ok(true) ==> r.0 == b)
  {
    hide KeyIn;
    if KeyIn(envelope).Ok? {
      InsertKeepsOrder(b.entries, Slot(KeyIn(envelope).value, envelope, receivedNs));
    }
  }

  ghost predicate HoldsKey(slots: seq<Slot>, key: Key) {
    exists slot :: slot in slots && slot.key == key
  }

  lemma {:induction false} InsertAddsKey(slots: seq<Slot>, slot: Slot)
    requires Ascending(slots)
    ensures forall key :: HoldsKey(Insert(slots, slot), key) <==> HoldsKey(slots, key) || key == slot.key
  {
    InsertKeepsOrder(slots, slot);
    hide Insert;
    forall key
      ensures HoldsKey(Insert(slots, slot), key) <==> HoldsKey(slots, key) || key == slot.key
    {
      assert slot in Insert(slots, slot);
      if HoldsKey(slots, key) && key != slot.key {
        var x :| x in slots && x.key == key;
        assert x in Insert(slots, slot);
      }
    }
  }

  // Any document that loads, hand-edited or not, yields a good buffer, which knows the
  // declared keys and those of its entries and no others.
  lemma {:induction false} LoadedIsGood(seen: set<Key>, entries: seq<PersistedEntry>)
    ensures var r := LoadEntries(seen, entries);
            && (r.Ok? ==>
                 && GoodBuffer(r.value)
                 && forall key :: key in r.value.seen <==> key in seen || HoldsKey(r.value.entries, key))
            && (r.Ok? <==> forall e :: e in entries ==> e.envelope.Some? && KeyIn(e.envelope.value).Ok?)
  {
    hide KeyIn, HoldsKey;
    if entries == [] {
      NoKeysHeld();
    } else {
      var init, last := entries[..|entries| - 1], entries[|entries| - 1];
      LoadedIsGood(seen, init);
      assert entries == init + [last];
      if LoadEntries(seen, init).Ok? && LoadEntry(LoadEntries(seen, init).value, last).Ok? {
        var slot := Slot(KeyIn(last.envelope.value).value, last.envelope.value, last.receivedNs);
        InsertKeepsOrder(LoadEntries(seen, init).value.entries, slot);
        InsertAddsKey(LoadEntries(seen, init).value.entries, slot);
      }
    }
  }

  lemma {:induction false} NoKeysHeld()
    ensures forall key :: !HoldsKey([], key)
  {
  }

  lemma {:induction false} LoadOfLast(init: seq<Slot>, last: Slot, seen: set<Key>)
    requires GoodBuffer(BufferState(init + [last], seen))
    ensures GoodBuffer(BufferState(init, seen))
    ensures LoadEntry(BufferState(init, seen), ToEntry(last)) == Ok(BufferState(init + [last], seen))
  {
    hide KeyIn, Insert, Before;
    var slots := init + [last];
    assert last in slots && forall x :: x in init ==> x in slots;
    forall x | x in init
      ensures Before(x.key, last.key)
    {
      var i :| 0 <= i < |init| && init[i] == x;
      assert slots[i] == x && slots[|init|] == last;
    }
    forall i, j | 0 <= i < j < |init|
      ensures Before(init[i].key, init[j].key)
    {
      assert slots[i] == init[i] && slots[j] == init[j];
    }
    InsertLast(init, last);
    assert seen + {last.key} == seen;
  }

  lemma {:induction false} LoadOfEntries(slots: seq<Slot>, seen: set<Key>)
    requires GoodBuffer(BufferState(slots, seen))
    ensures LoadEntries(seen, EntriesToJson(slots)) == Ok(BufferState(slots, seen))
  {
    hide LoadEntry, GoodBuffer;
    if slots != [] {
      var n := |slots| - 1;
      assert slots == slots[..n] + [slots[n]];
      LoadOfLast(slots[..n], slots[n], seen);
      LoadOfEntries(slots[..n], seen);
      assert EntriesToJson(slots)[..n] == EntriesToJson(slots[..n]);
    }
  }

  // from_json(to_json(b)) == b for every buffer.
  lemma {:induction false} JsonRoundTrips(b: BufferState, p: Persisted)
    requires GoodBuffer(b) && IsJsonOf(p, b)
    ensures FromJson(p) == Ok(b)
  {
    LoadOfEntries(b.entries, b.seen);
  }

  // ---------------------------------------------------------------------
  // The buffer object
  // ---------------------------------------------------------------------

  class OutageBuffer {
    var entries: seq<Slot>
    var seen: set<Key>

    constructor ()
      ensures State() == EMPTY_BUFFER
    {
      entries, seen := [], {};
    }

    ghost function State(): BufferState
      reads this
    {
      BufferState(entries, seen)
    }

    method Push(envelope: Bytes, receivedNs: U64) returns (r: Result<bool, BufferError>)
      modifies this
      ensures (State(), r) == PushTo(old(State()), envelope, receivedNs)
    {
      var key :- KeyIn(envelope);
      if key in seen {
        return Ok(false);
      }
      seen := seen + {key};
      entries := Insert(entries, Slot(key, envelope, receivedNs));
      r := Ok(true);
    }

    // The entries leave in key order; their keys stay known.
    method Drain() returns (drained: seq<Slot>)
      modifies this
      ensures drained == old(entries) && State() == BufferState([], old(seen))
      ensures old(GoodBuffer(State())) ==> GoodBuffer(State())
      ensures old(GoodBuffer(State())) ==>
                forall i, j :: 0 <= i < j < |drained| ==>
                  var a, b := drained[i].key, drained[j].key;
                  a.node < b.node || (a.node == b.node && a.seqno < b.seqno)
    {
      drained := entries;
      entries := [];
    }

    method ToJson() returns (p: Persisted)
      ensures IsJsonOf(p, State())
      ensures |p.entries| == |entries| && forall i :: 0 <= i < |entries| ==>
                var e, slot := p.entries[i], entries[i];
                && e.node == slot.key.node && e.seqno == slot.key.seqno
                && e.envelope == Some(slot.envelope) && e.receivedNs == slot.receivedNs
    {
      var listed, todo := [], seen;
      while todo != {}
        invariant Elements(listed) + todo == seen
      {
        var key :| key in todo;
        ElementsOfSum(listed, [key]);
        listed, todo := listed + [key], todo - {key};
      }
      p := Persisted(EntriesToJson(entries), listed);
    }

    // Keys are derived again from the envelope bytes, never taken from the document.
    static method OfJson(p: Persisted) returns (r: Result<OutageBuffer, BufferError>)
      ensures r.Ok? ==> fresh(r.value) && FromJson(p) == Ok(r.value.State())
      ensures r.Err? ==> FromJson(p) == Err(r.error)
    {
      hide KeyIn, Insert;
      var buffer := new OutageBuffer();
      buffer.seen := Elements(p.seen);
      for i := 0 to |p.entries|
        invariant fresh(buffer)
        invariant LoadEntries(Elements(p.seen), p.entries[..i]) == Ok(buffer.State())
      {
        var entry := p.entries[i];
        assert p.entries[..i + 1][..i] == p.entries[..i];
        if entry.envelope.None? || KeyIn(entry.envelope.value).Err? {
          LoadErrorStays(Elements(p.seen), p.entries, i, |p.entries|);
          assert p.entries[..|p.entries|] == p.entries;
          return Err(if entry.envelope.None? then BadHex else KeyIn(entry.envelope.value).error);
        }
        var key := KeyIn(entry.envelope.value).value;
        buffer.seen := buffer.seen + {key};
        buffer.entries := Insert(buffer.entries, Slot(key, entry.envelope.value, entry.receivedNs));
      }
      assert p.entries[..|p.entries|] == p.entries;
      r := Ok(buffer);
    }
  }

  lemma {:induction false} LoadErrorStays(seen: set<Key>, entries: seq<PersistedEntry>, i: nat, n: nat)
    requires i < n <= |entries| && LoadEntries(seen, entries[..i]).Ok?
    requires LoadEntry(LoadEntries(seen, entries[..i]).value, entries[i]).Err?
    ensures LoadEntries(seen, entries[..n]) == Err(LoadEntry(LoadEntries(seen, entries[..i]).value, entries[i]).error)
  {
    hide KeyIn;
    assert entries[..n][..n - 1] == entries[..n - 1];
    if i + 1 < n {
      LoadErrorStays(seen, entries, i, n - 1);
    }
  }

  // ---------------------------------------------------------------------
  // Outage and replay: the buffer, the pipeline and the biome together
  // ---------------------------------------------------------------------

  datatype Replayed = Replayed(pipe: Pipeline, deliveries: seq<Delivery>)

  predicate PlainSlots(slots: seq<Slot>) {
    forall slot :: slot in slots ==> Plain(slot.envelope)
  }

  // The restore contract: every drained envelope goes through reverify_stored, in
  // order, and what passes is handed to the biome.
  function ReplayOn(p: Pipeline, signed: Envelope -> bool, slots: seq<Slot>): Replayed
    requires PlainSlots(slots)
  {
    if slots == [] then Replayed(p, [])
    else
      var last := slots[|slots| - 1];
      var before := ReplayOn(p, signed, slots[..|slots| - 1]);
      var r := ReverifyOn(before.pipe, signed, last.envelope, last.receivedNs);
      Replayed(r.pipeline, before.deliveries + (if r.outcome.Ok? then [Deliver(r.outcome.value)] else []))
  }

  // Reverification depends on the registry alone and never on the windows.
  lemma {:induction false} ReverifyIsStable(p: Pipeline, p': Pipeline, signed: Envelope -> bool, slot: Slot)
    requires Plain(slot.envelope) && p'.registry == p.registry
    ensures var r := ReverifyOn(p, signed, slot.envelope, slot.receivedNs);
            && ReverifyOn(p', signed, slot.envelope, slot.receivedNs).outcome == r.outcome
            && r.pipeline.registry == p.registry && r.pipeline.windows == p.windows
            && (r.outcome.Ok? ==> KeyIn(slot.envelope) == Ok(r.outcome.value.DedupKey()))
  {
    hide ReadEnvelope, ParseWire, Validate, EnvSample.Valid;
  }

  predicate Passes(p: Pipeline, signed: Envelope -> bool, slot: Slot)
    requires Plain(slot.envelope)
  {
    ReverifyOn(p, signed, slot.envelope, slot.receivedNs).outcome.Ok?
  }

  ghost predicate Delivers(ds: seq<Delivery>, key: Key) {
    exists d :: d in ds && d.Deliver? && d.sample.DedupKey() == key
  }

  ghost predicate HoldsPassing(p: Pipeline, signed: Envelope -> bool, slots: seq<Slot>, key: Key)
    requires PlainSlots(slots)
  {
    exists slot :: slot in slots && slot.key == key && Passes(p, signed, slot)
  }

  ghost predicate InKeyOrder(ds: seq<Delivery>) {
    && (forall d :: d in ds ==> d.Deliver?)
    && forall i, j :: 0 <= i < j < |ds| ==> Before(ds[i].sample.DedupKey(), ds[j].sample.DedupKey())
  }

  // Each passing envelope is delivered once, in key order, and nothing else is.
  lemma {:induction false} ReplayDeliversWhatPasses(p: Pipeline, signed: Envelope -> bool, slots: seq<Slot>)
    requires PlainSlots(slots) && Ascending(slots)
    requires forall slot :: slot in slots ==> KeyIn(slot.envelope) == Ok(slot.key)
    ensures var r := ReplayOn(p, signed, slots);
            && r.pipe.registry == p.registry && r.pipe.windows == p.windows
            && InKeyOrder(r.deliveries)
            && (forall key :: Delivers(r.deliveries, key) <==> HoldsPassing(p, signed, slots, key))
  {
    hide ReverifyOn, ReplayOn, KeyIn, EnvSample.DedupKey, Plain, Passes, InKeyOrder, HoldsPassing, Delivers, Before;
    if slots == [] {
      NothingDelivers(p, signed);
    } else {
      var init, last := slots[..|slots| - 1], slots[|slots| - 1];
      assert slots == init + [last] && last in slots;
      ReplayDeliversWhatPasses(p, signed, init);
      ReplayOfLast(p, signed, init, last);
      var before := ReplayOn(p, signed, init);
      PassingSplits(p, signed, init, last);
      if Passes(p, signed, last) {
        var sample := ReverifyOn(p, signed, last.envelope, last.receivedNs).outcome.value;
        forall key | Delivers(before.deliveries, key)
          ensures Before(key, last.key)
        {
          HeldComesBefore(p, signed, init, last, key);
        }
        DeliveredLast(before.deliveries, sample);
      }
    }
  }

  lemma {:induction false} ReplayOfLast(p: Pipeline, signed: Envelope -> bool, init: seq<Slot>, last: Slot)
    requires PlainSlots(init) && Plain(last.envelope) && KeyIn(last.envelope) == Ok(last.key)
    requires var before := ReplayOn(p, signed, init).pipe;
             before.registry == p.registry && before.windows == p.windows
    ensures var one := ReverifyOn(p, signed, last.envelope, last.receivedNs).outcome;
            var before, r := ReplayOn(p, signed, init), ReplayOn(p, signed, init + [last]);
            && r.pipe.registry == p.registry && r.pipe.windows == p.windows
            && (Passes(p, signed, last) ==> one.Ok? && one.value.DedupKey() == last.key)
            && r.deliveries == (if Passes(p, signed, last) then before.deliveries + [Deliver(one.value)]
                                else before.deliveries)
  {
    hide ReverifyOn, KeyIn, EnvSample.DedupKey, Plain;
    var before := ReplayOn(p, signed, init);
    assert (init + [last])[..|init + [last]| - 1] == init;
    ReverifyIsStable(before.pipe, p, signed, last);
    ReverifyIsStable(p, before.pipe, signed, last);
    assert before.deliveries + [] == before.deliveries;
  }

  // The sample that reverification makes of a drained envelope.
  ghost predicate ReverifiesTo(p: Pipeline, signed: Envelope -> bool, slots: seq<Slot>, s: EnvSample)
    requires PlainSlots(slots)
  {
    exists slot :: slot in slots && ReverifyOn(p, signed, slot.envelope, slot.receivedNs).outcome == Ok(s)
  }

  // What is delivered is what reverification makes of a drained envelope, unaltered.
  lemma {:induction false} DeliveredIsReverified(
      p: Pipeline, signed: Envelope -> bool, slots: seq<Slot>, s: EnvSample)
    requires PlainSlots(slots) && Ascending(slots)
    requires forall slot :: slot in slots ==> KeyIn(slot.envelope) == Ok(slot.key)
    ensures Deliver(s) in ReplayOn(p, signed, slots).deliveries <==> ReverifiesTo(p, signed, slots, s)
  {
    hide ReverifyOn, ReplayOn, KeyIn, EnvSample.DedupKey, Plain, Before;
    if slots == [] {
      NothingDelivers(p, signed);
    } else {
      var init, last := slots[..|slots| - 1], slots[|slots| - 1];
      assert slots == init + [last] && last in slots && forall x :: x in slots <==> x in init || x == last;
      DeliveredIsReverified(p, signed, init, s);
      ReplayDeliversWhatPasses(p, signed, init);
      ReplayOfLast(p, signed, init, last);
    }
  }

  lemma {:induction false} NothingDelivers(p: Pipeline, signed: Envelope -> bool)
    ensures InKeyOrder([]) && ReplayOn(p, signed, []) == Replayed(p, [])
    ensures forall key :: !Delivers([], key) && !HoldsPassing(p, signed, [], key)
  {
  }

  lemma {:induction false} PassingSplits(p: Pipeline, signed: Envelope -> bool, init: seq<Slot>, last: Slot)
    requires PlainSlots(init) && Plain(last.envelope)
    ensures PlainSlots(init + [last])
    ensures forall key :: HoldsPassing(p, signed, init + [last], key)
                     <==> HoldsPassing(p, signed, init, key) || (last.key == key && Passes(p, signed, last))
    ensures Passes(p, signed, last) <==> ReverifyOn(p, signed, last.envelope, last.receivedNs).outcome.Ok?
  {
    hide Plain, ReverifyOn;
    forall key
      ensures HoldsPassing(p, signed, init + [last], key)
         <==> HoldsPassing(p, signed, init, key) || (last.key == key && Passes(p, signed, last))
    {
      assert last in init + [last];
      assert forall slot :: slot in init + [last] <==> slot in init || slot == last;
      hide Passes;
    }
  }

  lemma {:induction false} HeldComesBefore(
      p: Pipeline, signed: Envelope -> bool, init: seq<Slot>, last: Slot, key: Key)
    requires PlainSlots(init) && Ascending(init + [last]) && HoldsPassing(p, signed, init, key)
    ensures Before(key, last.key)
  {
    hide Passes, Plain;
    var slot :| slot in init && slot.key == key && Passes(p, signed, slot);
    var i :| 0 <= i < |init| && init[i] == slot;
    assert (init + [last])[i] == slot && (init + [last])[|init|] == last;
  }

  lemma {:induction false} DeliveredLast(ds: seq<Delivery>, sample: EnvSample)
    requires InKeyOrder(ds)
    requires forall key :: Delivers(ds, key) ==> Before(key, sample.DedupKey())
    ensures InKeyOrder(ds + [Deliver(sample)])
    ensures forall key :: Delivers(ds + [Deliver(sample)], key) <==> Delivers(ds, key) || key == sample.DedupKey()
  {
    hide EnvSample.DedupKey, Before;
    var ds' := ds + [Deliver(sample)];
    assert forall d :: d in ds' <==> d in ds || d == Deliver(sample);
    forall i | 0 <= i < |ds|
      ensures Before(ds[i].sample.DedupKey(), sample.DedupKey())
    {
      assert ds[i] in ds && Delivers(ds, ds[i].sample.DedupKey());
    }
  }

  datatype Step =
    | Live(envelope: Bytes, receivedNs: U64)
    | Push(envelope: Bytes, receivedNs: U64)
    | Drain
    | Load(doc: Persisted)
    | Revoke(node: U64)
    | Register(node: U64, pubkey: Bytes, firmwareHash: string)
    // the gateway process starts again: an empty registry, windows primed from the
    // listed keys, an empty buffer until a document is loaded.  The biome is the far
    // side of the uplink and lives on.
    | Restart(keys: seq<Key>)

  predicate PlainStep(step: Step) {
    match step
    case Live(envelope, _) => Plain(envelope)
    case Push(envelope, _) => Plain(envelope)
    case Load(doc) => forall e :: e in doc.entries && e.envelope.Some? ==> Plain(e.envelope.value)
    case _ => true
  }

  // The log is everything handed to the biome so far.
  datatype System = System(pipe: Pipeline, biome: BiomeState, buffer: BufferState, log: seq<Delivery>)

  function Handed(sys: System, ds: seq<Delivery>): System {
    sys.(biome := AfterAll(sys.biome, ds), log := sys.log + ds)
  }

  // Loading any saved document, old or edited, replaces the buffer if it decodes.
  function NextSystem(sys: System, signed: Envelope -> bool, step: Step): System
    requires PlainSlots(sys.buffer.entries) && PlainStep(step)
  {
    match step
    case Live(envelope, receivedNs) =>
      var r := IngestOn(sys.pipe, signed, envelope, receivedNs);
      Handed(sys.(pipe := r.pipeline), if r.outcome.Ok? then [Deliver(r.outcome.value)] else [])
    case Push(envelope, receivedNs) => sys.(buffer := PushTo(sys.buffer, envelope, receivedNs).0)
    case Drain =>
      var r := ReplayOn(sys.pipe, signed, sys.buffer.entries);
      Handed(sys.(pipe := r.pipe, buffer := sys.buffer.(entries := [])), r.deliveries)
    case Load(doc) => sys.(buffer := if FromJson(doc).Ok? then FromJson(doc).value else sys.buffer)
    case Revoke(node) =>
      Handed(sys.(pipe := sys.pipe.(registry := Revoked(sys.pipe.registry, node))), [RevokeNode(node)])
    case Register(node, pubkey, firmwareHash) =>
      sys.(pipe := sys.pipe.(registry := sys.pipe.registry[node := DeviceRecord(pubkey, firmwareHash, false)]))
    case Restart(keys) => sys.(pipe := Pipeline(map[], PrimeOnto(map[], keys), NO_STATS), buffer := EMPTY_BUFFER)
  }

  ghost predicate GoodSystem(sys: System) {
    && PlainSlots(sys.buffer.entries) && GoodBuffer(sys.buffer)
    && sys.biome == AfterAll(NEW_BIOME, sys.log)
  }

  lemma {:induction false} LoadedIsPlain(seen: set<Key>, entries: seq<PersistedEntry>)
    requires forall e :: e in entries && e.envelope.Some? ==> Plain(e.envelope.value)
    ensures LoadEntries(seen, entries).Ok? ==> PlainSlots(LoadEntries(seen, entries).value.entries)
  {
    hide KeyIn, Plain;
    if entries != [] && LoadEntries(seen, entries).Ok? {
      var init, last := entries[..|entries| - 1], entries[|entries| - 1];
      assert entries == init + [last];
      LoadedIsPlain(seen, init);
      LoadedIsGood(seen, init);
      InsertKeepsOrder(LoadEntries(seen, init).value.entries,
                       Slot(KeyIn(last.envelope.value).value, last.envelope.value, last.receivedNs));
    }
  }

  lemma {:induction false} NextSystemIsGood(sys: System, signed: Envelope -> bool, step: Step)
    requires GoodSystem(sys) && PlainStep(step)
    ensures GoodSystem(NextSystem(sys, signed, step))
  {
    hide KeyIn, Plain, AfterAll, IngestOn, ReplayOn, LoadEntries, Ascending, PrimeOnto;
    match step
    case Push(envelope, receivedNs) => PushTakesNewKeys(sys.buffer, envelope, receivedNs);
    case Load(doc) =>
      LoadedIsGood(Elements(doc.seen), doc.entries);
      LoadedIsPlain(Elements(doc.seen), doc.entries);
    case Live(envelope, receivedNs) =>
      var r := IngestOn(sys.pipe, signed, envelope, receivedNs);
      AfterAllOfSum(NEW_BIOME, sys.log, if r.outcome.Ok? then [Deliver(r.outcome.value)] else []);
    case Drain =>
      AfterAllOfSum(NEW_BIOME, sys.log, ReplayOn(sys.pipe, signed, sys.buffer.entries).deliveries);
      assert Ascending([]) by { NothingAscends(); }
    case Revoke(node) => AfterAllOfSum(NEW_BIOME, sys.log, [RevokeNode(node)]);
    case Register(_, _, _) =>
    case Restart(_) => NothingAscends();
  }

  lemma {:induction false} NothingAscends()
    ensures Ascending([])
  {
  }

  ghost function SystemAfter(start: Pipeline, signed: Envelope -> bool, steps: seq<Step>): (sys: System)
    requires forall step :: step in steps ==> PlainStep(step)
    ensures GoodSystem(sys)
  {
    if steps == [] then
      EmptySystemIsGood(start);
      System(start, NEW_BIOME, EMPTY_BUFFER, [])
    else
      assert steps[|steps| - 1] in steps && forall x :: x in steps[..|steps| - 1] ==> x in steps;
      var before := SystemAfter(start, signed, steps[..|steps| - 1]);
      NextSystemIsGood(before, signed, steps[|steps| - 1]);
      NextSystem(before, signed, steps[|steps| - 1])
  }

  lemma {:induction false} EmptySystemIsGood(start: Pipeline)
    ensures GoodSystem(System(start, NEW_BIOME, EMPTY_BUFFER, []))
  {
  }

  // However live accepts, pushes, drains, restarts, restores, registrations and revocations
  // interleave: each observation key once, and exactly those handed over while
  // their device was not revoked.
  lemma {:induction false} ReplayIsExactlyOnce(start: Pipeline, signed: Envelope -> bool, steps: seq<Step>)
    requires forall step :: step in steps ==> PlainStep(step)
    ensures var sys := SystemAfter(start, signed, steps);
            && GoodBiome(sys.biome)
            && sys.biome.observations == Counting(sys.log)
            && forall key :: key in sys.biome.seen <==> KeyDelivered(sys.log, key)
  {
    hide GoodBiome, KeyDelivered, Counting;
    ObservationsAreFirstDeliveries(SystemAfter(start, signed, steps).log);
  }

  // A drain empties the buffer but forgets no key, and counts each envelope once; a
  // registration lets its device in, a revocation shuts it out on both sides; a restart
  // knows no device and buffers nothing.
  lemma {:induction false} StepsLeave(sys: System, signed: Envelope -> bool, step: Step)
    requires GoodSystem(sys) && PlainStep(step)
    ensures var sys' := NextSystem(sys, signed, step);
            match step
            case Drain =>
              && sys'.buffer.entries == [] && sys'.buffer.seen == sys.buffer.seen
              && sys'.pipe.stats.Total() == sys.pipe.stats.Total() + |sys.buffer.entries|
              && sys'.pipe.registry == sys.pipe.registry && sys'.pipe.windows == sys.pipe.windows
            case Register(node, pubkey, firmwareHash) =>
              && sys' == sys.(pipe := sys'.pipe) && sys'.pipe.registry.Keys == sys.pipe.registry.Keys + {node}
              && sys'.pipe.registry[node].pubkey == pubkey && !sys'.pipe.registry[node].revoked
            case Revoke(node) =>
              && (node in sys'.pipe.registry ==> sys'.pipe.registry[node].revoked)
              && sys'.biome.revoked == sys.biome.revoked + {node} && sys'.biome.seen == sys.biome.seen
            case Restart(_) =>
              sys'.pipe.registry == map[] && sys'.buffer == BufferState([], {}) && sys'.biome == sys.biome
            case Load(doc) => sys' == sys.(buffer := sys'.buffer)
            case Push(_, _) => sys' == sys.(buffer := sys'.buffer)
            case Live(_, _) => sys'.buffer == sys.buffer
  {
    hide KeyIn, Plain, IngestOn, ReplayOn, PrimeOnto, FromJson, PushTo, IngestStats.Total;
    match step
    case Drain =>
      ReplayDeliversWhatPasses(sys.pipe, signed, sys.buffer.entries);
      ReplayIsCounted(sys.pipe, signed, sys.buffer.entries);
    case Revoke(node) => AfterOne(sys.biome, RevokeNode(node));
    case _ =>
  }

  lemma {:induction false} AfterOne(b: BiomeState, d: Delivery)
    ensures AfterAll(b, [d]) == AfterDelivery(b, d)
  {
    assert [d][..0] == [];
  }

  lemma {:induction false} ReplayIsCounted(p: Pipeline, signed: Envelope -> bool, slots: seq<Slot>)
    requires PlainSlots(slots)
    ensures ReplayOn(p, signed, slots).pipe.stats.Total() == p.stats.Total() + |slots|
  {
    hide ReverifyOn, Plain, IngestStats.Total;
    if slots != [] {
      var init, last := slots[..|slots| - 1], slots[|slots| - 1];
      assert last in slots && forall x :: x in init ==> x in slots;
      ReplayIsCounted(p, signed, init);
      ReverifyIsCounted(ReplayOn(p, signed, init).pipe, signed, last.envelope, last.receivedNs);
    }
  }

  lemma {:induction false} ReverifyIsCounted(p: Pipeline, signed: Envelope -> bool, envelope: Bytes, receivedNs: U64)
    requires Plain(envelope)
    ensures ReverifyOn(p, signed, envelope, receivedNs).pipeline.stats.Total() == p.stats.Total() + 1
  {
    hide VerifyEnvelope, Normalize;
  }

  // A drain observes a buffered key exactly if it was observed before, or its envelope
  // verifies and its device is not revoked.
  lemma {:induction false} DrainDelivers(sys: System, signed: Envelope -> bool, slot: Slot)
    requires GoodSystem(sys) && slot in sys.buffer.entries
    ensures slot.key in NextSystem(sys, signed, Drain).biome.seen
       <==> || slot.key in sys.biome.seen
            || (Passes(sys.pipe, signed, slot) && slot.key.node !in sys.biome.revoked)
  {
    hide AfterAll, ReplayOn, KeyIn, Plain, Passes;
    var slots, key := sys.buffer.entries, slot.key;
    ReplayDeliversWhatPasses(sys.pipe, signed, slots);
    var ds := ReplayOn(sys.pipe, signed, slots).deliveries;
    DeliveredIsKnown(sys.biome, ds);
    KnownWasDelivered(sys.biome, ds, key);
    assert HoldsPassing(sys.pipe, signed, slots, key) ==> Passes(sys.pipe, signed, slot) by {
      OneSlotPerKey(slots, slot);
    }
    assert Passes(sys.pipe, signed, slot) ==> HoldsPassing(sys.pipe, signed, slots, key);
    if Delivers(ds, key) {
      var d :| d in ds && d.Deliver? && d.sample.DedupKey() == key;
    }
  }

  lemma {:induction false} OneSlotPerKey(slots: seq<Slot>, slot: Slot)
    requires Ascending(slots) && slot in slots
    ensures forall x :: x in slots && x.key == slot.key ==> x == slot
  {
  }

  predicate KeepsBuffered(step: Step) {
    !step.Drain? && !step.Load? && !step.Restart?
  }

  lemma {:induction false} StepKeepsSlot(sys: System, signed: Envelope -> bool, step: Step, slot: Slot)
    requires GoodSystem(sys) && PlainStep(step) && KeepsBuffered(step) && slot in sys.buffer.entries
    ensures slot in NextSystem(sys, signed, step).buffer.entries
  {
    hide KeyIn, Plain, AfterAll, IngestOn, Revoked;
    if step.Push? {
      PushTakesNewKeys(sys.buffer, step.envelope, step.receivedNs);
    }
  }

  lemma {:induction false} StaysBuffered(
      start: Pipeline, signed: Envelope -> bool, steps: seq<Step>, more: seq<Step>, slot: Slot)
    requires forall step :: step in steps + more ==> PlainStep(step)
    requires forall step :: step in more ==> KeepsBuffered(step)
    requires forall step :: step in steps ==> PlainStep(step)
    requires slot in SystemAfter(start, signed, steps).buffer.entries
    ensures slot in SystemAfter(start, signed, steps + more).buffer.entries
  {
    hide NextSystem, GoodSystem, PlainStep;
    if more == [] {
      assert steps + more == steps;
    } else {
      var n := |more| - 1;
      assert (steps + more)[..|steps| + n] == steps + more[..n];
      assert more[n] in more && more[n] in steps + more && forall x :: x in more[..n] ==> x in more;
      assert forall x :: x in steps + more[..n] ==> x in steps + more;
      StaysBuffered(start, signed, steps, more[..n], slot);
      StepKeepsSlot(SystemAfter(start, signed, steps + more[..n]), signed, more[n], slot);
    }
  }

  lemma {:induction false} StepKeepsSeen(sys: System, signed: Envelope -> bool, step: Step, key: Key)
    requires GoodSystem(sys) && PlainStep(step) && key in sys.biome.seen
    ensures key in NextSystem(sys, signed, step).biome.seen
  {
    hide KeyIn, Plain, AfterAll, IngestOn, ReplayOn, FromJson, PushTo, PrimeOnto;
    var ds := NextSystem(sys, signed, step).log[|sys.log|..];
    KnownWasDelivered(sys.biome, ds, key);
  }

  lemma {:induction false} StaysSeen(
      start: Pipeline, signed: Envelope -> bool, steps: seq<Step>, more: seq<Step>, key: Key)
    requires forall step :: step in steps + more ==> PlainStep(step)
    requires forall step :: step in steps ==> PlainStep(step)
    requires key in SystemAfter(start, signed, steps).biome.seen
    ensures key in SystemAfter(start, signed, steps + more).biome.seen
  {
    hide NextSystem, GoodSystem, PlainStep;
    if more == [] {
      assert steps + more == steps;
    } else {
      var n := |more| - 1;
      assert (steps + more)[..|steps| + n] == steps + more[..n];
      assert more[n] in steps + more && forall x :: x in steps + more[..n] ==> x in steps + more;
      StaysSeen(start, signed, steps, more[..n], key);
      StepKeepsSeen(SystemAfter(start, signed, steps + more[..n]), signed, more[n], key);
    }
  }

  ghost predicate Observed(sys: System, key: Key) {
    key in KeysOf(sys.biome.observations)
  }

  lemma {:induction false} ObservedIsSeen(sys: System, key: Key)
    requires GoodSystem(sys)
    ensures Observed(sys, key) <==> key in sys.biome.seen
  {
    hide KeysOf, AfterAll, Counting, KeyDelivered, GoodBuffer, PlainSlots;
    ObservationsAreFirstDeliveries(sys.log);
    assert key in Elements(KeysOf(sys.biome.observations)) <==> key in KeysOf(sys.biome.observations);
  }

  // A pushed new key reaches the biome with the next drain unless a load or restart
  // drops it first, exactly if it was observed by then or its envelope verifies and its
  // device is not revoked; and it stays observed.
  lemma {:induction false} PushedIsObserved(
      start: Pipeline, signed: Envelope -> bool, steps: seq<Step>, push: Step, more: seq<Step>, after: seq<Step>)
    requires forall step :: step in steps + [push] + more + [Drain] + after ==> PlainStep(step)
    requires push.Push? && KeyIn(push.envelope).Ok? && forall step :: step in more ==> KeepsBuffered(step)
    ensures forall step :: step in steps ==> PlainStep(step)
    ensures forall step :: step in steps + [push] + more ==> PlainStep(step)
    ensures Plain(push.envelope)
    ensures var key := KeyIn(push.envelope).value;
            var sys := SystemAfter(start, signed, steps + [push] + more);
            var last := SystemAfter(start, signed, steps + [push] + more + [Drain] + after);
            PushTo(SystemAfter(start, signed, steps).buffer, push.envelope, push.receivedNs).1 == Ok(true) ==>
              var observed := || Observed(sys, key)
                              || (Passes(sys.pipe, signed, Slot(key, push.envelope, push.receivedNs))
                                  && key.node !in sys.biome.revoked);
              && (observed ==> Observed(last, key))
              && (after == [] ==> (Observed(last, key) <==> observed))
  {
    hide KeyIn, Plain, NextSystem, PushTo, Passes, GoodSystem, Observed;
    var pushed := steps + [push];
    var full, drained := pushed + more, pushed + more + [Drain];
    assert push in pushed && forall x :: x in full ==> x in full + [Drain] + after;
    assert forall x :: x in pushed ==> x in full + [Drain] + after;
    assert forall x :: x in steps ==> x in pushed;
    assert PlainStep(push);
    assert forall x :: x in drained ==> x in drained + after;
    var before, key := SystemAfter(start, signed, steps), KeyIn(push.envelope).value;
    if PushTo(before.buffer, push.envelope, push.receivedNs).1 == Ok(true) {
      var slot := Slot(key, push.envelope, push.receivedNs);
      assert pushed[..|steps|] == steps && drained[..|full|] == full;
      PushBuffers(before, signed, push.envelope, push.receivedNs);
      StaysBuffered(start, signed, pushed, more, slot);
      var sys, done := SystemAfter(start, signed, full), SystemAfter(start, signed, drained);
      DrainDelivers(sys, signed, slot);
      ObservedIsSeen(sys, key);
      ObservedIsSeen(done, key);
      if key in done.biome.seen {
        StaysSeen(start, signed, drained, after, key);
      }
      ObservedIsSeen(SystemAfter(start, signed, drained + after), key);
      assert after == [] ==> drained + after == drained;
    }
  }

  lemma {:induction false} PushBuffers(sys: System, signed: Envelope -> bool, envelope: Bytes, receivedNs: U64)
    requires GoodSystem(sys) && Plain(envelope) && PushTo(sys.buffer, envelope, receivedNs).1 == Ok(true)
    ensures KeyIn(envelope).Ok?
    ensures Slot(KeyIn(envelope).value, envelope, receivedNs)
              in NextSystem(sys, signed, Push(envelope, receivedNs)).buffer.entries
  {
    hide KeyIn, Plain;
    PushTakesNewKeys(sys.buffer, envelope, receivedNs);
  }

  // Restoring one document and draining it twice observes what once does.
  lemma {:induction false} RestoringTwiceIsRestoringOnce(sys: System, signed: Envelope -> bool, doc: Persisted)
    requires GoodSystem(sys) && PlainStep(Load(doc)) && FromJson(doc).Ok?
    ensures GoodSystem(NextSystem(sys, signed, Load(doc)))
    ensures var once := NextSystem(NextSystem(sys, signed, Load(doc)), signed, Drain);
            && GoodSystem(once) && GoodSystem(NextSystem(once, signed, Load(doc)))
            && var twice := NextSystem(NextSystem(once, signed, Load(doc)), signed, Drain);
               twice.biome.observations == once.biome.observations && twice.biome.seen == once.biome.seen
  {
    hide AfterAll, ReplayOn, KeyIn, Plain, LoadEntries, GoodBuffer;
    NextSystemIsGood(sys, signed, Load(doc));
    var loaded := NextSystem(sys, signed, Load(doc));
    NextSystemIsGood(loaded, signed, Drain);
    var once := NextSystem(loaded, signed, Drain);
    NextSystemIsGood(once, signed, Load(doc));
    var slots := FromJson(doc).value.entries;
    GoodSlots(FromJson(doc).value);
    ReplayDeliversWhatPasses(sys.pipe, signed, slots);
    SameReplay(sys.pipe, once.pipe, signed, slots);
    DeliveringTwiceIsDeliveringOnce(sys.biome, ReplayOn(sys.pipe, signed, slots).deliveries);
  }

  lemma {:induction false} GoodSlots(b: BufferState)
    requires GoodBuffer(b)
    ensures Ascending(b.entries) && forall slot :: slot in b.entries ==> KeyIn(slot.envelope) == Ok(slot.key)
  {
  }

  lemma {:induction false} SameReplay(p: Pipeline, p': Pipeline, signed: Envelope -> bool, slots: seq<Slot>)
    requires PlainSlots(slots) && p'.registry == p.registry
    ensures ReplayOn(p', signed, slots).deliveries == ReplayOn(p, signed, slots).deliveries
    ensures ReplayOn(p, signed, slots).pipe.registry == p.registry
    ensures ReplayOn(p', signed, slots).pipe.registry == p.registry
  {
    hide ReverifyOn, Plain;
    if slots != [] {
      var init, last := slots[..|slots| - 1], slots[|slots| - 1];
      SameReplay(p, p', signed, init);
      assert last in slots;
      ReverifyIsStable(ReplayOn(p, signed, init).pipe, ReplayOn(p', signed, init).pipe, signed, last);
      ReverifyIsStable(ReplayOn(p', signed, init).pipe, p, signed, last);
    }
  }
}
