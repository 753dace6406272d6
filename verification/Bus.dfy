// rucelium-federation/src/summary.rs: the federation exchange.  Biome identities are
// bound once on first use, rebound only by signed successions, and publish under
// the key bound to them.
module Bus {
  import opened Common
  import opened Words

  datatype SignaturePair = SignaturePair(key: string, signature: string)

  datatype Succession = Succession(
    biomeId: string, fromEpoch: U32, toEpoch: U32, newKey: string, effectiveNs: U64,
    newCustodians: Option<seq<string>>, newThreshold: U32, signatures: seq<SignaturePair>)
  {
    // What is signed: everything but the signatures.
    function Bare(): Succession {
      this.(signatures := [])
    }
  }

  datatype Summary = Summary(
    biomeId: string, windowStartNs: U64, windowEndNs: U64, stats: string,
    signature: Option<string>, signer: Option<string>)
  {
    function Bare(): Summary {
      this.(signature := None, signer := None)
    }

    function Slot(): Window {
      Window(biomeId, windowStartNs, windowEndNs)
    }
  }

  datatype Event = Event(
    biomeId: string, eventId: string, body: string, signature: Option<string>, signer: Option<string>)
  {
    function Bare(): Event {
      this.(signature := None, signer := None)
    }
  }

  datatype Window = Window(biomeId: string, startNs: U64, endNs: U64)

  // Detached signature checks of (key, signature, canonical form).
  datatype Verifier = Verifier(
    succession: (string, string, Succession) -> bool,
    summary: (string, string, Summary) -> bool,
    event: (string, string, Event) -> bool)

  datatype BiomeKey = BiomeKey(key: string, epoch: U32, custodians: set<string>, threshold: U32)

  datatype BusState = BusState(
    biomes: map<string, BiomeKey>, summaries: seq<Summary>, events: seq<Event>,
    seenWindows: set<Window>, seenEvents: set<string>)

  const NEW_BUS := BusState(map[], [], [], {}, {})

  datatype FederationError =
    | Unsigned
    | BadSignature
    | UnknownBiome(biomeId: string)
    | IdentityMismatch(biomeId: string)
    | StaleKeyEpoch(biomeId: string, epoch: U32)
    | SuccessionRequired(biomeId: string)
    | SuccessionUnauthorised(biomeId: string, custodianSignatures: U32, threshold: U32)
    | UnreachableThreshold(biomeId: string, threshold: U32, custodians: nat)
    | DuplicateSummary
    | DuplicateEvent

  // ---------------------------------------------------------------------
  // Operations on values
  // ---------------------------------------------------------------------

  datatype BusResult = BusResult(bus: BusState, result: Result<(), FederationError>)

  function RegisterOn(
      bus: BusState, biomeId: string, key: string, epoch: U32, custodians: seq<string>, threshold: U32): BusResult
  {
    if threshold > |custodians|
    then BusResult(bus, Err(UnreachableThreshold(biomeId, threshold, |custodians|)))
    else if biomeId in bus.biomes then
      if key == bus.biomes[biomeId].key && epoch <= bus.biomes[biomeId].epoch then BusResult(bus, Ok(()))
      else BusResult(bus, Err(SuccessionRequired(biomeId)))
    else
      BusResult(bus.(biomes := bus.biomes[biomeId := BiomeKey(key, epoch, Elements(custodians), threshold)]), Ok(()))
  }

  predicate SignedBy(v: Verifier, s: Succession, pair: SignaturePair) {
    v.succession(pair.key, pair.signature, s.Bare())
  }

  predicate Continuity(v: Verifier, current: BiomeKey, s: Succession) {
    exists pair :: pair in s.signatures && pair.key == current.key && SignedBy(v, s, pair)
  }

  // The distinct custodians whose signature is valid.
  function Quorum(v: Verifier, current: BiomeKey, s: Succession): set<string> {
    if current.threshold == 0 then {}
    else set pair | pair in s.signatures && pair.key in current.custodians && SignedBy(v, s, pair) :: pair.key
  }

  // The source compares the count after a cast to u32.
  predicate Recovered(v: Verifier, current: BiomeKey, s: Succession) {
    current.threshold > 0 && |Quorum(v, current, s)| % U32_LIMIT >= current.threshold
  }

  function Rebound(current: BiomeKey, s: Succession): BiomeKey {
    match s.newCustodians
    case Some(list) => BiomeKey(s.newKey, s.toEpoch, Elements(list), s.newThreshold)
    case None => BiomeKey(s.newKey, s.toEpoch, current.custodians, current.threshold)
  }

  function RotateOn(bus: BusState, v: Verifier, s: Succession): BusResult {
    if s.biomeId !in bus.biomes then BusResult(bus, Err(UnknownBiome(s.biomeId)))
    else
      var current := bus.biomes[s.biomeId];
      if s.toEpoch <= s.fromEpoch || s.fromEpoch != current.epoch
      then BusResult(bus, Err(StaleKeyEpoch(s.biomeId, s.toEpoch)))
      else if s.newKey == "" || s.signatures == [] then BusResult(bus, Err(Unsigned))
      else if !Continuity(v, current, s) && !Recovered(v, current, s)
      then BusResult(bus, Err(SuccessionUnauthorised(
        s.biomeId, |Quorum(v, current, s)| % U32_LIMIT, current.threshold)))
      else if s.newCustodians.Some? && s.newThreshold > |s.newCustodians.value|
      then BusResult(bus, Err(UnreachableThreshold(s.biomeId, s.newThreshold, |s.newCustodians.value|)))
      else BusResult(bus.(biomes := bus.biomes[s.biomeId := Rebound(current, s)]), Ok(()))
  }

  function CheckIdentity(bus: BusState, biomeId: string, signer: string): Result<(), FederationError> {
    if biomeId !in bus.biomes then Err(UnknownBiome(biomeId))
    else if bus.biomes[biomeId].key != signer then Err(IdentityMismatch(biomeId))
    else Ok(())
  }

  function PublishOn(bus: BusState, v: Verifier, m: Summary): BusResult {
    if m.signature.None? || m.signer.None? then BusResult(bus, Err(Unsigned))
    else if CheckIdentity(bus, m.biomeId, m.signer.value).Err?
    then BusResult(bus, CheckIdentity(bus, m.biomeId, m.signer.value))
    else if !v.summary(m.signer.value, m.signature.value, m.Bare()) then BusResult(bus, Err(BadSignature))
    else if m.Slot() in bus.seenWindows then BusResult(bus, Err(DuplicateSummary))
    else BusResult(bus.(summaries := bus.summaries + [m], seenWindows := bus.seenWindows + {m.Slot()}), Ok(()))
  }

  function PublishEventOn(bus: BusState, v: Verifier, e: Event): BusResult {
    if e.signature.None? || e.signer.None? then BusResult(bus, Err(Unsigned))
    else if CheckIdentity(bus, e.biomeId, e.signer.value).Err?
    then BusResult(bus, CheckIdentity(bus, e.biomeId, e.signer.value))
    else if !v.event(e.signer.value, e.signature.value, e.Bare()) then BusResult(bus, Err(BadSignature))
    else if e.eventId in bus.seenEvents then BusResult(bus, Err(DuplicateEvent))
    else BusResult(bus.(events := bus.events + [e], seenEvents := bus.seenEvents + {e.eventId}), Ok(()))
  }

  // ---------------------------------------------------------------------
  // Whole lives of a bus
  // ---------------------------------------------------------------------

  datatype Call =
    | Register(biomeId: string, key: string, epoch: U32, custodians: seq<string>, threshold: U32)
    | Rotate(succession: Succession)
    | Publish(summary: Summary)
    | PublishEvent(event: Event)

  // With the bus: its first bindings and every accepted succession, in order.
  datatype Life = Life(bus: BusState, genesis: map<string, BiomeKey>, accepted: seq<Succession>)

  const NEW_LIFE := Life(NEW_BUS, map[], [])

  function NextLife(life: Life, v: Verifier, call: Call): Life {
    var bus := life.bus;
    match call
    case Register(biomeId, key, epoch, custodians, threshold) =>
      var r := RegisterOn(bus, biomeId, key, epoch, custodians, threshold);
      life.(bus := r.bus,
            genesis := if biomeId in r.bus.biomes && biomeId !in bus.biomes
                       then life.genesis[biomeId := r.bus.biomes[biomeId]] else life.genesis)
    case Rotate(s) =>
      var r := RotateOn(bus, v, s);
      life.(bus := r.bus, accepted := if r.result.Ok? then life.accepted + [s] else life.accepted)
    case Publish(m) => life.(bus := PublishOn(bus, v, m).bus)
    case PublishEvent(e) => life.(bus := PublishEventOn(bus, v, e).bus)
  }

  ghost function LifeAfter(v: Verifier, calls: seq<Call>): Life {
    if calls == [] then NEW_LIFE else NextLife(LifeAfter(v, calls[..|calls| - 1]), v, calls[|calls| - 1])
  }

  ghost predicate AllSigned(v: Verifier, s: Succession, signers: set<string>) {
    forall k :: k in signers ==> exists pair :: pair in s.signatures && pair.key == k && SignedBy(v, s, pair)
  }

  // A rebinding is authorised by the key it replaces, or by at least threshold
  // distinct declared custodians.
  ghost predicate Authorised(v: Verifier, current: BiomeKey, s: Succession) {
    || Continuity(v, current, s)
    || (current.threshold > 0
        && exists signers: set<string> ::
             signers <= current.custodians && |signers| >= current.threshold && AllSigned(v, s, signers))
  }

  // The binding that the accepted successions of one biome lead to from `first`.
  ghost function BindingAfter(first: BiomeKey, accepted: seq<Succession>, biomeId: string): BiomeKey {
    if accepted == [] then first
    else
      var before, last := BindingAfter(first, accepted[..|accepted| - 1], biomeId), accepted[|accepted| - 1];
      if last.biomeId == biomeId then Rebound(before, last) else before
  }

  // Each of them was authorised under the binding it replaced and raised its epoch.
  ghost predicate Custody(v: Verifier, first: BiomeKey, accepted: seq<Succession>, biomeId: string) {
    accepted != [] ==>
      var init, last := accepted[..|accepted| - 1], accepted[|accepted| - 1];
      && Custody(v, first, init, biomeId)
      && (last.biomeId == biomeId ==>
            var before := BindingAfter(first, init, biomeId);
            Authorised(v, before, last) && before.epoch == last.fromEpoch < last.toEpoch && last.newKey != "")
  }

  // No two accepted successions replace the same epoch of the same biome.
  ghost predicate OncePerEpoch(accepted: seq<Succession>) {
    forall i, j :: 0 <= i < j < |accepted| && accepted[i].biomeId == accepted[j].biomeId ==>
      accepted[i].fromEpoch < accepted[j].fromEpoch
  }

  ghost function Windows(summaries: seq<Summary>): (ws: seq<Window>)
    ensures |ws| == |summaries|
    ensures forall i :: 0 <= i < |summaries| ==> ws[i] == summaries[i].Slot()
  {
    if summaries == [] then [] else Windows(summaries[..|summaries| - 1]) + [summaries[|summaries| - 1].Slot()]
  }

  ghost function EventIds(events: seq<Event>): (ids: seq<string>)
    ensures |ids| == |events|
    ensures forall i :: 0 <= i < |events| ==> ids[i] == events[i].eventId
  {
    if events == [] then [] else EventIds(events[..|events| - 1]) + [events[|events| - 1].eventId]
  }

  // Signed by a key the biome was bound to at some point of its custody.
  ghost predicate SignedUnderCustody(life: Life, biomeId: string, signer: Option<string>) {
    && signer.Some? && biomeId in life.genesis
    && exists n :: 0 <= n <= |life.accepted|
         && signer.value == BindingAfter(life.genesis[biomeId], life.accepted[..n], biomeId).key
  }

  ghost predicate GoodCustody(life: Life, v: Verifier) {
    && life.genesis.Keys == life.bus.biomes.Keys
    && OncePerEpoch(life.accepted)
    && (forall s :: s in life.accepted ==>
          s.biomeId in life.bus.biomes && s.fromEpoch < life.bus.biomes[s.biomeId].epoch)
    && (forall id :: id in life.genesis ==>
          Custody(v, life.genesis[id], life.accepted, id)
          && life.bus.biomes[id] == BindingAfter(life.genesis[id], life.accepted, id))
  }

  ghost predicate GoodPublications(life: Life, v: Verifier) {
    && Distinct(Windows(life.bus.summaries)) && Elements(Windows(life.bus.summaries)) == life.bus.seenWindows
    && Distinct(EventIds(life.bus.events)) && Elements(EventIds(life.bus.events)) == life.bus.seenEvents
    && (forall m :: m in life.bus.summaries ==>
          SignedUnderCustody(life, m.biomeId, m.signer) && m.signature.Some?
          && v.summary(m.signer.value, m.signature.value, m.Bare()))
    && (forall e :: e in life.bus.events ==>
          SignedUnderCustody(life, e.biomeId, e.signer) && e.signature.Some?
          && v.event(e.signer.value, e.signature.value, e.Bare()))
  }

  lemma {:induction false} AcceptedIsAuthorised(bus: BusState, v: Verifier, s: Succession)
    ensures var r := RotateOn(bus, v, s);
            r.result.Ok? ==>
              && s.biomeId in bus.biomes
              && Authorised(v, bus.biomes[s.biomeId], s)
              && bus.biomes[s.biomeId].epoch == s.fromEpoch < s.toEpoch && s.newKey != ""
              && r.bus == bus.(biomes := bus.biomes[s.biomeId := Rebound(bus.biomes[s.biomeId], s)])
    ensures RotateOn(bus, v, s).result.Err? ==> RotateOn(bus, v, s).bus == bus
  {
    if s.biomeId in bus.biomes {
      var current := bus.biomes[s.biomeId];
      var signers := Quorum(v, current, s);
      assert |signers| >= |signers| % U32_LIMIT;
      forall k | k in signers
        ensures k in current.custodians
        ensures exists pair :: pair in s.signatures && pair.key == k && SignedBy(v, s, pair)
      {
      }
    }
  }

  // And an authorised one is accepted: exactly the successions of a known biome from its
  // current epoch to a higher one, to a key, authorised, handing over no more custodians
  // than it lists.
  lemma {:induction false} RotationAcceptedIff(bus: BusState, v: Verifier, s: Succession)
    requires |s.signatures| < U32_LIMIT
    ensures RotateOn(bus, v, s).result.Ok?
       <==> && s.biomeId in bus.biomes
            && bus.biomes[s.biomeId].epoch == s.fromEpoch < s.toEpoch && s.newKey != ""
            && Authorised(v, bus.biomes[s.biomeId], s)
            && (s.newCustodians.Some? ==> s.newThreshold <= |s.newCustodians.value|)
  {
    hide Continuity, Recovered, Authorised;
    if s.biomeId in bus.biomes {
      AuthorisedIff(v, bus.biomes[s.biomeId], s);
      if s.signatures == [] {
        UnsignedIsUnauthorised(v, bus.biomes[s.biomeId], s);
      }
    }
  }

  lemma {:induction false} AuthorisedIff(v: Verifier, current: BiomeKey, s: Succession)
    requires |s.signatures| < U32_LIMIT
    ensures Authorised(v, current, s) <==> Continuity(v, current, s) || Recovered(v, current, s)
  {
    QuorumIsSmall(v, current, s);
    var quorum := Quorum(v, current, s);
    if Authorised(v, current, s) && !Continuity(v, current, s) {
      var signers: set<string> :|
        signers <= current.custodians && |signers| >= current.threshold && AllSigned(v, s, signers);
      assert signers <= quorum;
      SubsetSize(signers, quorum);
    }
    if Recovered(v, current, s) {
      assert quorum <= current.custodians && AllSigned(v, s, quorum);
    }
  }

  lemma {:induction false} QuorumIsSmall(v: Verifier, current: BiomeKey, s: Succession)
    ensures |Quorum(v, current, s)| <= |s.signatures|
  {
    KeysSigned(s.signatures);
    SubsetSize(Quorum(v, current, s), set pair | pair in s.signatures :: pair.key);
  }

  lemma {:induction false} KeysSigned(pairs: seq<SignaturePair>)
    ensures |set pair | pair in pairs :: pair.key| <= |pairs|
  {
    var keys := set pair | pair in pairs :: pair.key;
    if pairs == [] {
      assert keys == {};
    } else {
      var init, last := pairs[..|pairs| - 1], pairs[|pairs| - 1];
      KeysSigned(init);
      assert pairs == init + [last];
      assert keys == (set pair | pair in init :: pair.key) + {last.key};
    }
  }

  lemma {:induction false} UnsignedIsUnauthorised(v: Verifier, current: BiomeKey, s: Succession)
    requires s.signatures == []
    ensures !Continuity(v, current, s) && !Recovered(v, current, s)
  {
    assert Quorum(v, current, s) == {};
  }

  // A summary is published exactly when signed by the key bound to its biome, over a
  // window not published before; an event likewise, under a new id.
  lemma {:induction false} PublishedIff(life: Life, v: Verifier, m: Summary, e: Event)
    requires GoodPublications(life, v)
    ensures PublishOn(life.bus, v, m).result.Ok?
       <==> && m.signature.Some? && m.biomeId in life.bus.biomes && m.signer == Some(life.bus.biomes[m.biomeId].key)
            && v.summary(m.signer.value, m.signature.value, m.Bare())
            && m.Slot() !in Windows(life.bus.summaries)
    ensures PublishEventOn(life.bus, v, e).result.Ok?
       <==> && e.signature.Some? && e.biomeId in life.bus.biomes && e.signer == Some(life.bus.biomes[e.biomeId].key)
            && v.event(e.signer.value, e.signature.value, e.Bare())
            && e.eventId !in EventIds(life.bus.events)
  {
    hide Distinct, SignedUnderCustody;
    assert m.Slot() in Windows(life.bus.summaries) <==> m.Slot() in Elements(Windows(life.bus.summaries));
    assert e.eventId in EventIds(life.bus.events) <==> e.eventId in Elements(EventIds(life.bus.events));
  }

  lemma {:induction false} NoSuccessions(v: Verifier, first: BiomeKey, accepted: seq<Succession>, biomeId: string)
    requires forall s :: s in accepted ==> s.biomeId != biomeId
    ensures Custody(v, first, accepted, biomeId) && BindingAfter(first, accepted, biomeId) == first
  {
    if accepted != [] {
      assert accepted[|accepted| - 1] in accepted;
      NoSuccessions(v, first, accepted[..|accepted| - 1], biomeId);
    }
  }

  lemma {:induction false} CustodyThen(
      v: Verifier, first: BiomeKey, accepted: seq<Succession>, s: Succession, biomeId: string)
    requires Custody(v, first, accepted, biomeId)
    requires s.biomeId == biomeId ==>
               var before := BindingAfter(first, accepted, biomeId);
               Authorised(v, before, s) && before.epoch == s.fromEpoch < s.toEpoch && s.newKey != ""
    ensures Custody(v, first, accepted + [s], biomeId)
    ensures BindingAfter(first, accepted + [s], biomeId)
         == (var before := BindingAfter(first, accepted, biomeId);
             if s.biomeId == biomeId then Rebound(before, s) else before)
  {
    hide Authorised, Rebound;
    assert (accepted + [s])[..|accepted|] == accepted;
  }

  lemma {:induction false} RotateKeepsCustody(life: Life, v: Verifier, s: Succession)
    requires GoodCustody(life, v)
    ensures GoodCustody(NextLife(life, v, Rotate(s)), v)
  {
    hide Authorised, RotateOn, Custody, BindingAfter;
    AcceptedIsAuthorised(life.bus, v, s);
    if RotateOn(life.bus, v, s).result.Ok? {
      forall id | id in life.genesis
        ensures Custody(v, life.genesis[id], life.accepted + [s], id)
        ensures BindingAfter(life.genesis[id], life.accepted + [s], id)
             == (if s.biomeId == id then Rebound(life.bus.biomes[id], s) else life.bus.biomes[id])
      {
        CustodyThen(v, life.genesis[id], life.accepted, s, id);
      }
      OneMoreEpoch(life.accepted, s);
    }
  }

  lemma {:induction false} OneMoreEpoch(accepted: seq<Succession>, s: Succession)
    requires OncePerEpoch(accepted)
    requires forall x :: x in accepted && x.biomeId == s.biomeId ==> x.fromEpoch < s.fromEpoch
    ensures OncePerEpoch(accepted + [s])
    ensures forall x :: x in accepted + [s] <==> x in accepted || x == s
  {
    assert forall i :: 0 <= i < |accepted| ==> (accepted + [s])[i] in accepted;
  }

  lemma {:induction false} NextKeepsCustody(life: Life, v: Verifier, call: Call)
    requires GoodCustody(life, v)
    ensures GoodCustody(NextLife(life, v, call), v)
  {
    hide Authorised, RotateOn, Custody, BindingAfter;
    if call.Rotate? {
      RotateKeepsCustody(life, v, call.succession);
    } else if call.Register? && call.biomeId !in life.bus.biomes && call.threshold <= |call.custodians| {
      var first := BiomeKey(call.key, call.epoch, Elements(call.custodians), call.threshold);
      NoSuccessions(v, first, life.accepted, call.biomeId);
    }
  }

  lemma {:induction false} CustodyIsStable(life: Life, v: Verifier, call: Call, biomeId: string, signer: Option<string>)
    requires SignedUnderCustody(life, biomeId, signer) && GoodCustody(life, v)
    ensures SignedUnderCustody(NextLife(life, v, call), biomeId, signer)
  {
    hide RotateOn, BindingAfter, Custody, OncePerEpoch;
    var life' := NextLife(life, v, call);
    var n :| 0 <= n <= |life.accepted|
             && signer.value == BindingAfter(life.genesis[biomeId], life.accepted[..n], biomeId).key;
    assert life'.accepted[..n] == life.accepted[..n];
    assert life'.genesis[biomeId] == life.genesis[biomeId];
  }

  lemma {:induction false} BoundSignsUnderCustody(life: Life, v: Verifier, biomeId: string, signer: string)
    requires GoodCustody(life, v) && CheckIdentity(life.bus, biomeId, signer).Ok?
    ensures SignedUnderCustody(life, biomeId, Some(signer))
  {
    hide BindingAfter, Custody;
    assert life.accepted[..|life.accepted|] == life.accepted;
  }

  lemma {:induction false} NewWindow(summaries: seq<Summary>, m: Summary)
    requires Distinct(Windows(summaries)) && m.Slot() !in Elements(Windows(summaries))
    ensures Distinct(Windows(summaries + [m]))
    ensures Elements(Windows(summaries + [m])) == Elements(Windows(summaries)) + {m.Slot()}
  {
    assert (summaries + [m])[..|summaries|] == summaries;
    ElementsOfSum(Windows(summaries), [m.Slot()]);
    assert forall i :: 0 <= i < |summaries| ==> Windows(summaries)[i] in Elements(Windows(summaries));
  }

  lemma {:induction false} NewEventId(events: seq<Event>, e: Event)
    requires Distinct(EventIds(events)) && e.eventId !in Elements(EventIds(events))
    ensures Distinct(EventIds(events + [e]))
    ensures Elements(EventIds(events + [e])) == Elements(EventIds(events)) + {e.eventId}
  {
    assert (events + [e])[..|events|] == events;
    ElementsOfSum(EventIds(events), [e.eventId]);
    assert forall i :: 0 <= i < |events| ==> EventIds(events)[i] in Elements(EventIds(events));
  }

  lemma {:induction false} NextKeepsPublications(life: Life, v: Verifier, call: Call)
    requires GoodCustody(life, v) && GoodPublications(life, v)
    ensures GoodPublications(NextLife(life, v, call), v)
  {
    hide RotateOn, SignedUnderCustody, Distinct, Windows, EventIds, OncePerEpoch, Custody, BindingAfter;
    var life' := NextLife(life, v, call);
    forall m | m in life.bus.summaries
      ensures SignedUnderCustody(life', m.biomeId, m.signer)
    {
      CustodyIsStable(life, v, call, m.biomeId, m.signer);
    }
    forall e | e in life.bus.events
      ensures SignedUnderCustody(life', e.biomeId, e.signer)
    {
      CustodyIsStable(life, v, call, e.biomeId, e.signer);
    }
    if call.Rotate? {
      AcceptedIsAuthorised(life.bus, v, call.succession);
    }
    if call.Publish? && PublishOn(life.bus, v, call.summary).result.Ok? {
      BoundSignsUnderCustody(life, v, call.summary.biomeId, call.summary.signer.value);
      CustodyIsStable(life, v, call, call.summary.biomeId, call.summary.signer);
      NewWindow(life.bus.summaries, call.summary);
    }
    if call.PublishEvent? && PublishEventOn(life.bus, v, call.event).result.Ok? {
      BoundSignsUnderCustody(life, v, call.event.biomeId, call.event.signer.value);
      CustodyIsStable(life, v, call, call.event.biomeId, call.event.signer);
      NewEventId(life.bus.events, call.event);
    }
  }

  // ---- What is signed, and what each refusal names ----

  // Signed forms are the same exactly if every field but the signatures is.
  lemma {:induction false} SignedFormsTellApart(
      s: Succession, s': Succession, m: Summary, m': Summary, e: Event, e': Event)
    ensures s.Bare() == s'.Bare()
       <==> && s.biomeId == s'.biomeId && s.fromEpoch == s'.fromEpoch && s.toEpoch == s'.toEpoch
            && s.newKey == s'.newKey && s.effectiveNs == s'.effectiveNs
            && s.newCustodians == s'.newCustodians && s.newThreshold == s'.newThreshold
    ensures m.Bare() == m'.Bare()
       <==> && m.biomeId == m'.biomeId && m.windowStartNs == m'.windowStartNs && m.windowEndNs == m'.windowEndNs
            && m.stats == m'.stats
    ensures e.Bare() == e'.Bare() <==> e.biomeId == e'.biomeId && e.eventId == e'.eventId && e.body == e'.body
    ensures m.Slot() == m'.Slot()
       <==> m.biomeId == m'.biomeId && m.windowStartNs == m'.windowStartNs && m.windowEndNs == m'.windowEndNs
  {
  }

  ghost function BindingAt(bus: BusState, biomeId: string): BiomeKey {
    if biomeId in bus.biomes then bus.biomes[biomeId] else BiomeKey("", 0, {}, 0)
  }

  // Distinct custodians who signed validly, counted only where a threshold is declared.
  ghost function CustodiansSigned(v: Verifier, current: BiomeKey, s: Succession): nat {
    |set pair | pair in s.signatures && current.threshold > 0 && pair.key in current.custodians
                && v.succession(pair.key, pair.signature, s.Bare()) :: pair.key|
  }

  ghost function RotationChecks(bus: BusState, v: Verifier, s: Succession): seq<Check<FederationError>> {
    var id, current := s.biomeId, BindingAt(bus, s.biomeId);
    [Check(id in bus.biomes, UnknownBiome(id)),
     Check(current.epoch == s.fromEpoch < s.toEpoch, StaleKeyEpoch(id, s.toEpoch)),
     Check(s.newKey != "" && s.signatures != [], Unsigned),
     Check(Authorised(v, current, s),
           SuccessionUnauthorised(id, CustodiansSigned(v, current, s) % U32_LIMIT, current.threshold)),
     Check(s.newCustodians.Some? ==> s.newThreshold <= |s.newCustodians.value|,
           UnreachableThreshold(id, s.newThreshold, if s.newCustodians.Some? then |s.newCustodians.value| else 0))]
  }

  lemma {:induction false} RotationNamesTheFirst(bus: BusState, v: Verifier, s: Succession)
    requires |s.signatures| < U32_LIMIT
    ensures IsFirstFailure(Failure(RotateOn(bus, v, s).result), RotationChecks(bus, v, s))
  {
    hide Authorised, Continuity, Recovered, Quorum;
    var checks, r := RotationChecks(bus, v, s), RotateOn(bus, v, s).result;
    QuorumCounts(v, BindingAt(bus, s.biomeId), s);
    AuthorisedIff(v, BindingAt(bus, s.biomeId), s);
    if r.Err? {
      var k := match r.error
        case UnknownBiome(_) => 0
        case StaleKeyEpoch(_, _) => 1
        case Unsigned => 2
        case SuccessionUnauthorised(_, _, _) => 3
        case _ => 4;
      assert FailsFirst(checks, k) && checks[k].error == r.error;
    }
  }

  lemma {:induction false} QuorumCounts(v: Verifier, current: BiomeKey, s: Succession)
    ensures |Quorum(v, current, s)| == CustodiansSigned(v, current, s)
  {
    assert Quorum(v, current, s)
        == set pair | pair in s.signatures && current.threshold > 0 && pair.key in current.custodians
                      && v.succession(pair.key, pair.signature, s.Bare()) :: pair.key;
  }

  ghost function PublishChecks(bus: BusState, v: Verifier, m: Summary): seq<Check<FederationError>> {
    [Check(m.signature.Some? && m.signer.Some?, Unsigned),
     Check(m.biomeId in bus.biomes, UnknownBiome(m.biomeId)),
     Check(m.signer == Some(BindingAt(bus, m.biomeId).key), IdentityMismatch(m.biomeId)),
     Check(m.signature.Some? && v.summary(BindingAt(bus, m.biomeId).key, m.signature.value, m.Bare()), BadSignature),
     Check(Window(m.biomeId, m.windowStartNs, m.windowEndNs) !in bus.seenWindows, DuplicateSummary)]
  }

  ghost function EventChecks(bus: BusState, v: Verifier, e: Event): seq<Check<FederationError>> {
    [Check(e.signature.Some? && e.signer.Some?, Unsigned),
     Check(e.biomeId in bus.biomes, UnknownBiome(e.biomeId)),
     Check(e.signer == Some(BindingAt(bus, e.biomeId).key), IdentityMismatch(e.biomeId)),
     Check(e.signature.Some? && v.event(BindingAt(bus, e.biomeId).key, e.signature.value, e.Bare()), BadSignature),
     Check(e.eventId !in bus.seenEvents, DuplicateEvent)]
  }

  lemma {:induction false} PublishingNamesTheFirst(bus: BusState, v: Verifier, m: Summary, e: Event)
    ensures IsFirstFailure(Failure(PublishOn(bus, v, m).result), PublishChecks(bus, v, m))
    ensures IsFirstFailure(Failure(PublishEventOn(bus, v, e).result), EventChecks(bus, v, e))
  {
    var checks, r := PublishChecks(bus, v, m), PublishOn(bus, v, m).result;
    if r.Err? {
      var k := PublishCheck(r.error);
      assert FailsFirst(checks, k) && checks[k].error == r.error;
    }
    var checks', r' := EventChecks(bus, v, e), PublishEventOn(bus, v, e).result;
    if r'.Err? {
      var k := PublishCheck(r'.error);
      assert FailsFirst(checks', k) && checks'[k].error == r'.error;
    }
  }

  ghost function PublishCheck(e: FederationError): nat {
    match e
    case Unsigned => 0
    case UnknownBiome(_) => 1
    case IdentityMismatch(_) => 2
    case BadSignature => 3
    case _ => 4
  }

  // First registration binds what it declares; after it only a repeat of the bound key at
  // no higher epoch is let through, and changes nothing.
  ghost function Declared(key: string, epoch: U32, custodians: seq<string>, threshold: U32): BiomeKey {
    BiomeKey(key, epoch, (set c | c in custodians), threshold)
  }

  lemma {:induction false} RegistrationBindsOnce(
      bus: BusState, biomeId: string, key: string, epoch: U32, custodians: seq<string>, threshold: U32)
    ensures var r := RegisterOn(bus, biomeId, key, epoch, custodians, threshold);
            && (r.result.Ok? <==>
                 threshold <= |custodians|
                 && (biomeId in bus.biomes ==> bus.biomes[biomeId].key == key && epoch <= bus.biomes[biomeId].epoch))
            && (biomeId !in bus.biomes && r.result.Ok? ==>
                  r.bus == bus.(biomes := bus.biomes[biomeId := Declared(key, epoch, custodians, threshold)]))
            && (biomeId in bus.biomes || r.result.Err? ==> r.bus == bus)
            && (r.result.Err? ==>
                  r.result.error == if threshold > |custodians|
                                    then UnreachableThreshold(biomeId, threshold, |custodians|)
                                    else SuccessionRequired(biomeId))
  {
  }

  // ---- Main results over every run of calls ----

  // Every binding descends from its genesis through successions each authorised by
  // the binding it replaced; no epoch is replaced twice; every publication is signed
  // under its biome's custody; no window and no event id is published twice.
  lemma {:induction false} CustodyHolds(v: Verifier, calls: seq<Call>)
    ensures GoodCustody(LifeAfter(v, calls), v) && GoodPublications(LifeAfter(v, calls), v)
  {
    hide NextLife, GoodCustody, GoodPublications;
    if calls == [] {
      NewLifeIsGood(v);
    } else {
      var init, last := calls[..|calls| - 1], calls[|calls| - 1];
      CustodyHolds(v, init);
      NextKeepsCustody(LifeAfter(v, init), v, last);
      NextKeepsPublications(LifeAfter(v, init), v, last);
    }
  }

  lemma {:induction false} NewLifeIsGood(v: Verifier)
    ensures GoodCustody(NEW_LIFE, v) && GoodPublications(NEW_LIFE, v)
  {
    assert Windows([]) == [] && EventIds([]) == [];
  }

  // The same succession is never accepted twice, whatever comes between.
  lemma {:induction false} SuccessionsAreAcceptedOnce(v: Verifier, calls: seq<Call>, i: nat, j: nat)
    requires i < j < |LifeAfter(v, calls).accepted|
    ensures LifeAfter(v, calls).accepted[i] != LifeAfter(v, calls).accepted[j]
  {
    CustodyHolds(v, calls);
  }

  // What the first registration of a biome that was let through declared.
  ghost function FirstDeclared(calls: seq<Call>, biomeId: string): Option<BiomeKey> {
    if calls == [] then None
    else
      var before, last := FirstDeclared(calls[..|calls| - 1], biomeId), calls[|calls| - 1];
      if before.Some? then before
      else if last.Register? && last.biomeId == biomeId && last.threshold <= |last.custodians|
      then Some(Declared(last.key, last.epoch, last.custodians, last.threshold))
      else None
  }

  // Over every run a biome is bound from its first registration let through on, and its
  // genesis is the key, epoch, custodians and threshold declared there.
  lemma {:induction false} GenesisIsDeclared(v: Verifier, calls: seq<Call>, biomeId: string)
    ensures var life, first := LifeAfter(v, calls), FirstDeclared(calls, biomeId);
            && (biomeId in life.bus.biomes <==> first.Some?)
            && (biomeId in life.genesis <==> first.Some?)
            && (first.Some? ==> life.genesis[biomeId] == first.value)
  {
    hide RotateOn, PublishOn, PublishEventOn, RegisterOn;
    if calls != [] {
      var init, last := calls[..|calls| - 1], calls[|calls| - 1];
      GenesisIsDeclared(v, init, biomeId);
      var bus := LifeAfter(v, init).bus;
      match last {
        case Register(id, key, epoch, custodians, threshold) =>
          RegistrationBindsOnce(bus, id, key, epoch, custodians, threshold);
        case Rotate(s) => AcceptedIsAuthorised(bus, v, s);
        case Publish(m) => PublishingKeepsBindings(bus, v, m, Event("", "", "", None, None));
        case PublishEvent(e) => PublishingKeepsBindings(bus, v, Summary("", 0, 0, "", None, None), e);
      }
    }
  }

  lemma {:induction false} PublishingKeepsBindings(bus: BusState, v: Verifier, m: Summary, e: Event)
    ensures PublishOn(bus, v, m).bus.biomes == bus.biomes && PublishEventOn(bus, v, e).bus.biomes == bus.biomes
  {
  }

  // Right after its first registration a biome hands over by the registered key, from
  // the registered epoch, and publishes under it.
  lemma {:induction false} RegisteredKeyRules(
      bus: BusState, v: Verifier, key: string, epoch: U32, custodians: seq<string>, threshold: U32,
      s: Succession, pair: SignaturePair, m: Summary)
    requires s.biomeId !in bus.biomes && threshold <= |custodians|
    requires pair in s.signatures && pair.key == key && v.succession(key, pair.signature, s.Bare())
    requires epoch == s.fromEpoch < s.toEpoch && s.newKey != "" && s.newCustodians.None?
    requires m.biomeId == s.biomeId && m.signer == Some(key) && m.signature.Some?
    requires v.summary(key, m.signature.value, m.Bare()) && m.Slot() !in bus.seenWindows
    ensures var registered := RegisterOn(bus, s.biomeId, key, epoch, custodians, threshold).bus;
            && PublishOn(registered, v, m).result.Ok?
            && RotateOn(registered, v, s).result.Ok?
            && BindingAt(RotateOn(registered, v, s).bus, s.biomeId)
               == BiomeKey(s.newKey, s.toEpoch, (set c | c in custodians), threshold)
  {
    var registered := RegisterOn(bus, s.biomeId, key, epoch, custodians, threshold).bus;
    assert SignedBy(v, s, pair);
    assert Continuity(v, registered.biomes[s.biomeId], s);
  }

  // Epochs never fall, and an unchanged epoch means an unchanged binding.
  lemma {:induction false} EpochsNeverFall(v: Verifier, calls: seq<Call>, more: seq<Call>, biomeId: string)
    requires biomeId in LifeAfter(v, calls).bus.biomes
    ensures biomeId in LifeAfter(v, calls + more).bus.biomes
    ensures var before := LifeAfter(v, calls).bus.biomes[biomeId];
            var after := LifeAfter(v, calls + more).bus.biomes[biomeId];
            before.epoch <= after.epoch && (before.epoch == after.epoch ==> before == after)
  {
    hide RotateOn, NextLife, Authorised;
    if more == [] {
      assert calls + more == calls;
    } else {
      var n := |more| - 1;
      EpochsNeverFall(v, calls, more[..n], biomeId);
      assert (calls + more)[..|calls| + n] == calls + more[..n];
      OnlySuccessionsRebind(LifeAfter(v, calls + more[..n]), v, more[n], biomeId);
    }
  }

  // A binding changes only by an authorised succession to a strictly higher epoch.
  lemma {:induction false} OnlySuccessionsRebind(life: Life, v: Verifier, call: Call, biomeId: string)
    requires biomeId in life.bus.biomes
    ensures var life' := NextLife(life, v, call);
            && biomeId in life'.bus.biomes
            && (life'.bus.biomes[biomeId] != life.bus.biomes[biomeId] ==>
                 && call.Rotate? && call.succession.biomeId == biomeId
                 && Authorised(v, life.bus.biomes[biomeId], call.succession)
                 && var before, after := life.bus.biomes[biomeId], life'.bus.biomes[biomeId];
                    && after.key == call.succession.newKey && before.epoch < after.epoch == call.succession.toEpoch
                    && (call.succession.newCustodians.None? ==>
                          after.custodians == before.custodians && after.threshold == before.threshold)
                    && (call.succession.newCustodians.Some? ==>
                          after.custodians == Elements(call.succession.newCustodians.value)
                          && after.threshold == call.succession.newThreshold))
  {
    hide RotateOn, Authorised;
    if call.Rotate? {
      AcceptedIsAuthorised(life.bus, v, call.succession);
    }
  }

  // ---- Custodian thresholds ----

  ghost predicate Reachable(current: BiomeKey) {
    exists signers: set<string> :: signers <= current.custodians && |signers| >= current.threshold
  }

  lemma {:induction false} SubsetSize<T>(a: set<T>, b: set<T>)
    requires a <= b
    ensures |a| <= |b|
  {
    if a != {} {
      var x :| x in a;
      SubsetSize(a - {x}, b - {x});
    }
  }

  lemma {:induction false} ReachableIff(current: BiomeKey)
    ensures Reachable(current) <==> current.threshold <= |current.custodians|
  {
    if Reachable(current) {
      var signers: set<string> :| signers <= current.custodians && |signers| >= current.threshold;
      SubsetSize(signers, current.custodians);
    } else {
      assert current.custodians <= current.custodians;
    }
  }

  lemma {:induction false} ElementsSize<T>(xs: seq<T>)
    ensures |Elements(xs)| <= |xs|
    ensures |Elements(xs)| == |xs| <==> Distinct(xs)
  {
    if xs == [] {
      assert Elements(xs) == {};
    } else {
      var init, last := xs[..|xs| - 1], xs[|xs| - 1];
      ElementsSize(init);
      assert xs == init + [last];
      ElementsOfSum(init, [last]);
      assert Elements([last]) == {last};
      if last in Elements(init) {
        assert Elements(xs) == Elements(init);
        var i :| 0 <= i < |init| && init[i] == last;
        assert xs[i] == xs[|xs| - 1];
      } else {
        assert forall i :: 0 <= i < |init| ==> init[i] in Elements(init);
      }
    }
  }

  // The declaration check compares a threshold with the length of the list, the quorum
  // counts distinct keys.  So an accepted first registration can be recovered exactly
  // if its threshold is within the distinct custodians.
  lemma {:induction false} RegisteredIsReachableIff(
      bus: BusState, biomeId: string, key: string, epoch: U32, custodians: seq<string>, threshold: U32)
    requires biomeId !in bus.biomes && threshold <= |custodians|
    ensures var r := RegisterOn(bus, biomeId, key, epoch, custodians, threshold);
            && r.result.Ok? && biomeId in r.bus.biomes
            && (Reachable(r.bus.biomes[biomeId]) <==> threshold <= |Elements(custodians)|)
  {
    ReachableIff(BiomeKey(key, epoch, Elements(custodians), threshold));
  }

  // Likewise the hand-over of an accepted succession; without one the quorum stays.
  lemma {:induction false} RotatedIsReachableIff(bus: BusState, v: Verifier, s: Succession)
    requires RotateOn(bus, v, s).result.Ok?
    ensures s.biomeId in bus.biomes && s.biomeId in RotateOn(bus, v, s).bus.biomes
    ensures Reachable(RotateOn(bus, v, s).bus.biomes[s.biomeId])
       <==> match s.newCustodians
            case Some(list) => s.newThreshold <= |Elements(list)|
            case None => Reachable(bus.biomes[s.biomeId])
  {
    hide Reachable, RotateOn;
    AcceptedIsAuthorised(bus, v, s);
    ReachableIff(bus.biomes[s.biomeId]);
    ReachableIff(Rebound(bus.biomes[s.biomeId], s));
  }

  // Every threshold the check lets through for a list is reachable exactly when the
  // list has no repeats.
  lemma {:induction false} AcceptedThresholdsAreReachableIffNoRepeats(
      bus: BusState, biomeId: string, key: string, epoch: U32, custodians: seq<string>)
    requires biomeId !in bus.biomes && |custodians| < U32_LIMIT
    ensures (forall threshold: U32 ::
               RegisterOn(bus, biomeId, key, epoch, custodians, threshold).result.Ok? ==>
                 Reachable(BiomeKey(key, epoch, Elements(custodians), threshold)))
       <==> Distinct(custodians)
  {
    hide Reachable;
    ElementsSize(custodians);
    var full: U32 := |custodians|;
    ReachableIff(BiomeKey(key, epoch, Elements(custodians), full));
    assert RegisterOn(bus, biomeId, key, epoch, custodians, full).result.Ok?;
    if Distinct(custodians) {
      forall threshold: U32 | RegisterOn(bus, biomeId, key, epoch, custodians, threshold).result.Ok?
        ensures Reachable(BiomeKey(key, epoch, Elements(custodians), threshold))
      {
        ReachableIff(BiomeKey(key, epoch, Elements(custodians), threshold));
      }
    }
  }

  // What a caller can check of its declaration.
  ghost predicate Recoverable(call: Call) {
    match call
    case Register(_, _, _, custodians, threshold) => threshold <= |Elements(custodians)|
    case Rotate(s) => s.newCustodians.Some? ==> s.newThreshold <= |Elements(s.newCustodians.value)|
    case _ => true
  }

  // The guards of rotate_biome, as they stand before the call.
  ghost predicate MayRotate(bus: BusState, v: Verifier, s: Succession) {
    && s.biomeId in bus.biomes
    && var current := bus.biomes[s.biomeId];
       && current.epoch == s.fromEpoch < s.toEpoch && s.newKey != "" && s.signatures != []
       && (Continuity(v, current, s) || Recovered(v, current, s))
       && (s.newCustodians.Some? ==> s.newThreshold <= |s.newCustodians.value|)
  }

  lemma {:induction false} RotatesIffItMay(bus: BusState, v: Verifier, s: Succession)
    ensures RotateOn(bus, v, s).result.Ok? <==> MayRotate(bus, v, s)
  {
  }

  // The call puts a declaration of custodians in force: a first registration that names
  // no more than its list, or a succession let through that hands the quorum over.
  ghost predicate Declares(bus: BusState, v: Verifier, call: Call) {
    match call
    case Register(biomeId, _, _, custodians, threshold) => biomeId !in bus.biomes && threshold <= |custodians|
    case Rotate(s) => s.newCustodians.Some? && MayRotate(bus, v, s)
    case _ => false
  }

  ghost predicate AllReachable(bus: BusState) {
    forall id :: id in bus.biomes ==> Reachable(bus.biomes[id])
  }

  lemma {:induction false} NextStaysReachableIff(life: Life, v: Verifier, call: Call)
    requires AllReachable(life.bus)
    ensures AllReachable(NextLife(life, v, call).bus) <==> (Declares(life.bus, v, call) ==> Recoverable(call))
  {
    hide Reachable, RotateOn, MayRotate;
    match call
    case Register(biomeId, key, epoch, custodians, threshold) =>
      if biomeId !in life.bus.biomes && threshold <= |custodians| {
        RegisteredIsReachableIff(life.bus, biomeId, key, epoch, custodians, threshold);
      }
    case Rotate(s) =>
      AcceptedIsAuthorised(life.bus, v, s);
      RotatesIffItMay(life.bus, v, s);
      if RotateOn(life.bus, v, s).result.Ok? {
        RotatedIsReachableIff(life.bus, v, s);
      }
    case _ =>
  }

  // Every binding was reachable after every call.
  ghost predicate AlwaysReachable(v: Verifier, calls: seq<Call>) {
    AllReachable(LifeAfter(v, calls).bus) && (calls != [] ==> AlwaysReachable(v, calls[..|calls| - 1]))
  }

  ghost predicate DeclaresWithinReach(v: Verifier, calls: seq<Call>) {
    calls != [] ==>
      var init, call := calls[..|calls| - 1], calls[|calls| - 1];
      DeclaresWithinReach(v, init) && (Declares(LifeAfter(v, init).bus, v, call) ==> Recoverable(call))
  }

  // Over every run: every binding stays within its custodians' reach exactly if every
  // declaration put in force counts no more than distinct custodians.
  lemma {:induction false} AlwaysReachableIff(v: Verifier, calls: seq<Call>)
    ensures AlwaysReachable(v, calls) <==> DeclaresWithinReach(v, calls)
  {
    hide NextLife, AllReachable, Declares, Recoverable;
    if calls == [] {
      assert AllReachable(NEW_BUS) by { NothingBound(); }
    } else {
      var init, call := calls[..|calls| - 1], calls[|calls| - 1];
      AlwaysReachableIff(v, init);
      assert AlwaysReachable(v, init) ==> AllReachable(LifeAfter(v, init).bus);
      if AllReachable(LifeAfter(v, init).bus) {
        NextStaysReachableIff(LifeAfter(v, init), v, call);
      }
    }
  }

  lemma {:induction false} NothingBound()
    ensures AllReachable(NEW_BUS)
  {
  }

  // So it is enough that callers count distinct custodians.
  lemma {:induction false} RecoverableCallsStayReachable(v: Verifier, calls: seq<Call>)
    requires forall call :: call in calls ==> Recoverable(call)
    ensures AlwaysReachable(v, calls) && AllReachable(LifeAfter(v, calls).bus)
  {
    hide NextLife, AllReachable, Declares, Recoverable;
    AlwaysReachableIff(v, calls);
    RecoverableCallsDeclare(v, calls);
  }

  lemma {:induction false} RecoverableCallsDeclare(v: Verifier, calls: seq<Call>)
    requires forall call :: call in calls ==> Recoverable(call)
    ensures DeclaresWithinReach(v, calls)
  {
    hide NextLife, Declares, Recoverable;
    if calls != [] {
      assert calls[|calls| - 1] in calls && forall x :: x in calls[..|calls| - 1] ==> x in calls;
      RecoverableCallsDeclare(v, calls[..|calls| - 1]);
    }
  }

  // With an unreachable threshold no succession is ever accepted without the old key.
  lemma {:induction false} UnreachableNeverRecovers(v: Verifier, current: BiomeKey, s: Succession)
    requires !Reachable(current)
    ensures !Recovered(v, current, s)
  {
    var signers := Quorum(v, current, s);
    assert signers <= current.custodians;
    assert |signers| < current.threshold;
  }

  // One custodian listed twice with threshold two is accepted, and is beyond reach.
  lemma {:induction false} RepeatedCustodianIsAccepted(
      bus: BusState, biomeId: string, key: string, epoch: U32, custodian: string)
    requires biomeId !in bus.biomes
    ensures var r := RegisterOn(bus, biomeId, key, epoch, [custodian, custodian], 2);
            r.result.Ok? && biomeId in r.bus.biomes && !Reachable(r.bus.biomes[biomeId])
  {
    var list := [custodian, custodian];
    assert Elements(list) == {custodian};
    RegisteredIsReachableIff(bus, biomeId, key, epoch, list, 2);
  }

  // And so it is when the bound key itself hands the quorum over to such a list.
  lemma {:induction false} RepeatedCustodianIsHandedOver(bus: BusState, v: Verifier, s: Succession, custodian: string)
    requires s.biomeId in bus.biomes && Continuity(v, bus.biomes[s.biomeId], s)
    requires bus.biomes[s.biomeId].epoch == s.fromEpoch < s.toEpoch && s.newKey != ""
    requires s.newCustodians == Some([custodian, custodian]) && s.newThreshold == 2
    ensures var r := RotateOn(bus, v, s);
            r.result.Ok? && s.biomeId in r.bus.biomes && !Reachable(r.bus.biomes[s.biomeId])
  {
    var list := [custodian, custodian];
    assert Elements(list) == {custodian};
    assert RotateOn(bus, v, s).result.Ok?;
    RotatedIsReachableIff(bus, v, s);
  }

  // ---------------------------------------------------------------------
  // The bus object
  // ---------------------------------------------------------------------

  class FederationBus {
    const v: Verifier
    var biomes: map<string, BiomeKey>
    var summaries: seq<Summary>
    var events: seq<Event>
    var seenWindows: set<Window>
    var seenEvents: set<string>

    constructor (v: Verifier)
      ensures this.v == v && State() == NEW_BUS
    {
      this.v, biomes := v, map[];
      summaries, events, seenWindows, seenEvents := [], [], {}, {};
    }

    function State(): BusState
      reads this
    {
      BusState(biomes, summaries, events, seenWindows, seenEvents)
    }

    method RegisterBiomeWithCustodians(
        biomeId: string, key: string, epoch: U32, custodians: seq<string>, threshold: U32)
      returns (r: Result<(), FederationError>)
      modifies this`biomes
      ensures BusResult(State(), r) == RegisterOn(old(State()), biomeId, key, epoch, custodians, threshold)
      ensures r.Ok? <==>
                threshold <= |custodians|
                && (biomeId in old(biomes) ==> biomes[biomeId].key == key && epoch <= biomes[biomeId].epoch)
      ensures biomes == if biomeId !in old(biomes) && r.Ok?
                        then old(biomes)[biomeId := Declared(key, epoch, custodians, threshold)] else old(biomes)
    {
      RegistrationBindsOnce(State(), biomeId, key, epoch, custodians, threshold);
      if threshold > |custodians| {
        return Err(UnreachableThreshold(biomeId, threshold, |custodians|));
      }
      if biomeId in biomes {
        if key == biomes[biomeId].key && epoch <= biomes[biomeId].epoch {
          return Ok(());
        }
        return Err(SuccessionRequired(biomeId));
      }
      biomes := biomes[biomeId := BiomeKey(key, epoch, Elements(custodians), threshold)];
      r := Ok(());
    }

    // Continuity is any valid signature by the current key; the quorum collects the
    // distinct custodians that signed.
    method RotateBiome(s: Succession) returns (r: Result<(), FederationError>)
      modifies this`biomes
      ensures BusResult(State(), r) == RotateOn(old(State()), v, s)
    {
      if s.biomeId !in biomes {
        return Err(UnknownBiome(s.biomeId));
      }
      var current := biomes[s.biomeId];
      if s.toEpoch <= s.fromEpoch || s.fromEpoch != current.epoch {
        return Err(StaleKeyEpoch(s.biomeId, s.toEpoch));
      }
      if s.newKey == "" || s.signatures == [] {
        return Err(Unsigned);
      }
      var continuity, quorum: set<string>, i := false, {}, 0;
      while i < |s.signatures|
        invariant 0 <= i <= |s.signatures|
        invariant continuity <==>
                    exists j :: 0 <= j < i && s.signatures[j].key == current.key && SignedBy(v, s, s.signatures[j])
        invariant forall k :: k in quorum <==>
                    current.threshold > 0 && k in current.custodians
                    && exists j :: 0 <= j < i && s.signatures[j].key == k && SignedBy(v, s, s.signatures[j])
      {
        var pair := s.signatures[i];
        if v.succession(pair.key, pair.signature, s.Bare()) {
          if pair.key == current.key {
            continuity := true;
          }
          if current.threshold > 0 && pair.key in current.custodians {
            quorum := quorum + {pair.key};
          }
        }
        i := i + 1;
      }
      assert quorum == Quorum(v, current, s);
      assert continuity == Continuity(v, current, s);
      var recovered := current.threshold > 0 && |quorum| % U32_LIMIT >= current.threshold;
      if !continuity && !recovered {
        return Err(SuccessionUnauthorised(s.biomeId, |quorum| % U32_LIMIT, current.threshold));
      }
      var custodians, threshold := current.custodians, current.threshold;
      if s.newCustodians.Some? {
        var list := s.newCustodians.value;
        if s.newThreshold > |list| {
          return Err(UnreachableThreshold(s.biomeId, s.newThreshold, |list|));
        }
        custodians, threshold := Elements(list), s.newThreshold;
      }
      biomes := biomes[s.biomeId := BiomeKey(s.newKey, s.toEpoch, custodians, threshold)];
      r := Ok(());
    }

    method Publish(m: Summary) returns (r: Result<(), FederationError>)
      modifies this`summaries, this`seenWindows
      ensures BusResult(State(), r) == PublishOn(old(State()), v, m)
      ensures r.Ok? ==> summaries == old(summaries) + [m] &&
                        seenWindows == old(seenWindows) + {Window(m.biomeId, m.windowStartNs, m.windowEndNs)}
      ensures r.Err? ==> State() == old(State())
    {
      if m.signature.None? || m.signer.None? {
        return Err(Unsigned);
      }
      var _ :- CheckIdentity(State(), m.biomeId, m.signer.value);
      if !v.summary(m.signer.value, m.signature.value, m.Bare()) {
        return Err(BadSignature);
      }
      if m.Slot() in seenWindows {
        return Err(DuplicateSummary);
      }
      seenWindows := seenWindows + {m.Slot()};
      summaries := summaries + [m];
      r := Ok(());
    }

    method PublishEvent(e: Event) returns (r: Result<(), FederationError>)
      modifies this`events, this`seenEvents
      ensures BusResult(State(), r) == PublishEventOn(old(State()), v, e)
      ensures r.Ok? ==> events == old(events) + [e] && seenEvents == old(seenEvents) + {e.eventId}
      ensures r.Err? ==> State() == old(State())
    {
      if e.signature.None? || e.signer.None? {
        return Err(Unsigned);
      }
      var _ :- CheckIdentity(State(), e.biomeId, e.signer.value);
      if !v.event(e.signer.value, e.signature.value, e.Bare()) {
        return Err(BadSignature);
      }
      if e.eventId in seenEvents {
        return Err(DuplicateEvent);
      }
      seenEvents := seenEvents + {e.eventId};
      events := events + [e];
      r := Ok(());
    }
  }
}
