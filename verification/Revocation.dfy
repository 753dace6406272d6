// rucelium-gateway/src/federation.rs: the one gate for artifacts of peers, pushed or
// backfilled, and what delivery of revocations adds up to.
module Revocation {
  import opened Common
  import opened Words
  import opened Ingest

  datatype PeerEvent = PeerEvent(
    biomeId: string, eventId: string, deviceRevoked: bool, evidence: seq<U64>, body: string,
    signature: Option<string>, signer: Option<string>)

  datatype PeerSummary = PeerSummary(
    biomeId: string, stats: string, signature: Option<string>, signer: Option<string>)

  datatype Artifact = OfSummary(summary: PeerSummary) | OfEvent(event: PeerEvent) {
    function BiomeId(): string {
      match this
      case OfSummary(s) => s.biomeId
      case OfEvent(e) => e.biomeId
    }

    function Signer(): Option<string> {
      match this
      case OfSummary(s) => s.signer
      case OfEvent(e) => e.signer
    }
  }

  // verify_event and verify_summary, signature presence included.
  datatype Verifier = Verifier(event: PeerEvent -> bool, summary: PeerSummary -> bool)

  datatype Relay = Relay(
    registry: Registry, peers: map<string, string>, summaries: seq<PeerSummary>,
    appliedIds: set<string>, appliedCount: nat)

  datatype Rejection =
    | Unsigned
    | UnknownBiome(biomeId: string)
    | IdentityMismatch(biomeId: string)
    | BadSignature
    | NoEffect

  datatype Effect = SummaryStored | RevocationApplied

  datatype Accepted = Accepted(relay: Relay, result: Result<Effect, Rejection>)

  function Without(summaries: seq<PeerSummary>, biomeId: string): seq<PeerSummary> {
    if summaries == [] then []
    else
      var last := summaries[|summaries| - 1];
      Without(summaries[..|summaries| - 1], biomeId) + (if last.biomeId != biomeId then [last] else [])
  }

  // apply_peer_revocation: the five checks in order, then the three updates.
  predicate Applies(r: Relay, v: Verifier, e: PeerEvent, peerKey: string) {
    && e.deviceRevoked && e.signer == Some(peerKey) && v.event(e) && e.evidence != []
    && e.eventId !in r.appliedIds && e.evidence[0] in r.registry
  }

  function Applied(r: Relay, e: PeerEvent): Relay
    requires e.evidence != []
  {
    r.(registry := Revoked(r.registry, e.evidence[0]), appliedIds := r.appliedIds + {e.eventId},
       appliedCount := r.appliedCount + 1)
  }

  function AcceptOn(r: Relay, v: Verifier, a: Artifact): Accepted {
    if a.Signer().None? then Accepted(r, Err(Unsigned))
    else if a.BiomeId() !in r.peers then Accepted(r, Err(UnknownBiome(a.BiomeId())))
    else if r.peers[a.BiomeId()] != a.Signer().value then Accepted(r, Err(IdentityMismatch(a.BiomeId())))
    else match a
      case OfSummary(s) =>
        if !v.summary(s) then Accepted(r, Err(Rejection.BadSignature))
        else Accepted(r.(summaries := Without(r.summaries, s.biomeId) + [s]), Ok(SummaryStored))
      case OfEvent(e) =>
        if !v.event(e) then Accepted(r, Err(Rejection.BadSignature))
        else if Applies(r, v, e, r.peers[e.biomeId]) then Accepted(Applied(r, e), Ok(RevocationApplied))
        else Accepted(r, Err(NoEffect))
  }

  function Delivered(r: Relay, v: Verifier, arts: seq<Artifact>): Relay {
    if arts == [] then r else AcceptOn(Delivered(r, v, arts[..|arts| - 1]), v, arts[|arts| - 1]).relay
  }

  // ---------------------------------------------------------------------
  // What a set of deliveries adds up to
  // ---------------------------------------------------------------------

  // A genuine revocation by a known peer of a device provisioned here.
  predicate Effective(peers: map<string, string>, known: set<U64>, v: Verifier, a: Artifact): (yes: bool)
    ensures yes ==> a.OfEvent? && a.event.evidence != [] && a.event.evidence[0] in known
  {
    && a.OfEvent? && a.event.biomeId in peers && a.event.signer == Some(peers[a.event.biomeId])
    && a.event.deviceRevoked && v.event(a.event) && a.event.evidence != [] && a.event.evidence[0] in known
  }

  // The ids applied, and the devices revoked, by a set of artifacts.
  ghost function IdsOf(peers: map<string, string>, known: set<U64>, v: Verifier, arts: set<Artifact>): set<string> {
    set a | a in arts && Effective(peers, known, v, a) :: a.event.eventId
  }

  ghost function NodesOf(
      peers: map<string, string>, known: set<U64>, v: Verifier, arts: set<Artifact>, done: set<string>): set<U64>
  {
    set a | a in arts && Effective(peers, known, v, a) && a.event.eventId !in done :: a.event.evidence[0]
  }

  function RevokedAll(registry: Registry, nodes: set<U64>): Registry {
    map node | node in registry ::
      if node in nodes then registry[node].(revoked := true) else registry[node]
  }

  // One id never names two devices.
  ghost predicate IdsNameOneNode(peers: map<string, string>, known: set<U64>, v: Verifier, arts: set<Artifact>) {
    forall a, b ::
      (a in arts && b in arts && Effective(peers, known, v, a) && Effective(peers, known, v, b)
       && a.event.eventId == b.event.eventId)
      ==> a.event.evidence[0] == b.event.evidence[0]
  }

  // The gate applies an event exactly when it is effective and its id is new.
  lemma {:induction false} AppliesExactlyTheEffective(r: Relay, v: Verifier, a: Artifact)
    ensures var r' := AcceptOn(r, v, a).relay;
            var applies := Effective(r.peers, r.registry.Keys, v, a) && a.event.eventId !in r.appliedIds;
            && (AcceptOn(r, v, a).result == Ok(RevocationApplied) <==> applies)
            && r'.peers == r.peers && r'.registry.Keys == r.registry.Keys
            && r'.registry == (if applies then RevokedAll(r.registry, {a.event.evidence[0]}) else r.registry)
            && r'.appliedIds == (if applies then r.appliedIds + {a.event.eventId} else r.appliedIds)
            && r'.appliedCount == r.appliedCount + (if applies then 1 else 0)
  {
    if Effective(r.peers, r.registry.Keys, v, a) {
      assert Revoked(r.registry, a.event.evidence[0]) == RevokedAll(r.registry, {a.event.evidence[0]});
    }
  }

  // The gate's checks in order; a summary's effect is to be stored, an event's to be applied.
  ghost function GateChecks(r: Relay, v: Verifier, a: Artifact): seq<Check<Rejection>> {
    var biomeId := if a.OfSummary? then a.summary.biomeId else a.event.biomeId;
    var signer := if a.OfSummary? then a.summary.signer else a.event.signer;
    [Check(signer.Some?, Unsigned),
     Check(biomeId in r.peers, UnknownBiome(biomeId)),
     Check(biomeId in r.peers && signer == Some(r.peers[biomeId]), IdentityMismatch(biomeId)),
     Check(if a.OfSummary? then v.summary(a.summary) else v.event(a.event), Rejection.BadSignature),
     Check(a.OfSummary? || (&& a.event.deviceRevoked && a.event.evidence != []
                            && a.event.eventId !in r.appliedIds && a.event.evidence[0] in r.registry), NoEffect)]
  }

  lemma {:induction false} GateNamesTheFirst(r: Relay, v: Verifier, a: Artifact)
    ensures IsFirstFailure(Failure(AcceptOn(r, v, a).result), GateChecks(r, v, a))
    ensures AcceptOn(r, v, a).result.Err? ==> AcceptOn(r, v, a).relay == r
    ensures AcceptOn(r, v, a).result.Ok? ==>
              AcceptOn(r, v, a).result.value == (if a.OfSummary? then SummaryStored else RevocationApplied)
  {
    var checks, result := GateChecks(r, v, a), AcceptOn(r, v, a).result;
    if result.Err? {
      var k := match result.error
        case Unsigned => 0
        case UnknownBiome(_) => 1
        case IdentityMismatch(_) => 2
        case BadSignature => 3
        case NoEffect => 4;
      assert FailsFirst(checks, k) && checks[k].error == result.error;
    }
  }

  lemma {:induction false} IdsThen(
      peers: map<string, string>, known: set<U64>, v: Verifier, arts: set<Artifact>, a: Artifact)
    ensures IdsOf(peers, known, v, arts + {a})
         == IdsOf(peers, known, v, arts) + (if Effective(peers, known, v, a) then {a.event.eventId} else {})
  {
    hide Effective;
    if Effective(peers, known, v, a) {
      assert a in arts + {a};
    }
  }

  lemma {:induction false} NodesThen(
      peers: map<string, string>, known: set<U64>, v: Verifier, arts: set<Artifact>, done: set<string>, a: Artifact)
    ensures NodesOf(peers, known, v, arts + {a}, done)
         == NodesOf(peers, known, v, arts, done)
            + (if Effective(peers, known, v, a) && a.event.eventId !in done then {a.event.evidence[0]} else {})
  {
    if Effective(peers, known, v, a) && a.event.eventId !in done {
      assert a in arts + {a};
    }
  }

  // Whatever the order and however often repeated, deliveries add up to their set.
  lemma {:induction false} DeliveryAddsUp(r: Relay, v: Verifier, arts: seq<Artifact>)
    requires IdsNameOneNode(r.peers, r.registry.Keys, v, Elements(arts))
    ensures var r' := Delivered(r, v, arts);
            && r'.peers == r.peers && r'.registry.Keys == r.registry.Keys
            && r'.appliedIds == r.appliedIds + IdsOf(r.peers, r.registry.Keys, v, Elements(arts))
            && r'.registry == RevokedAll(r.registry, NodesOf(r.peers, r.registry.Keys, v, Elements(arts), r.appliedIds))
  {
    hide Effective, RevokedAll, NodesOf, IdsOf, IdsNameOneNode, AcceptOn;
    var known := r.registry.Keys;
    if arts == [] {
      NothingAddsUp(r, v);
    } else {
      var init, last := arts[..|arts| - 1], arts[|arts| - 1];
      assert arts == init + [last];
      ElementsOfSum(init, [last]);
      assert Elements([last]) == {last};
      FewerNameOneNode(r, v, Elements(init), last);
      DeliveryAddsUp(r, v, init);
      var before := Delivered(r, v, init);
      AppliesExactlyTheEffective(before, v, last);
      IdsThen(r.peers, known, v, Elements(init), last);
      NodesThen(r.peers, known, v, Elements(init), r.appliedIds, last);
      var nodes := NodesOf(r.peers, known, v, Elements(init), r.appliedIds);
      if Effective(r.peers, known, v, last) && last.event.eventId !in r.appliedIds {
        var node := last.event.evidence[0];
        RevokedTwice(r.registry, nodes, node);
        if last.event.eventId in before.appliedIds {
          SameIdSameNode(r, v, Elements(init), last);
          assert nodes + {node} == nodes;
        }
      } else {
        assert nodes + {} == nodes;
        assert Effective(r.peers, known, v, last) ==> before.appliedIds + {last.event.eventId} == before.appliedIds;
      }
    }
  }

  lemma {:induction false} NothingAddsUp(r: Relay, v: Verifier)
    ensures RevokedAll(r.registry, {}) == r.registry && Elements<Artifact>([]) == {}
    ensures NodesOf(r.peers, r.registry.Keys, v, {}, r.appliedIds) == {}
    ensures IdsOf(r.peers, r.registry.Keys, v, {}) == {}
  {
  }

  lemma {:induction false} FewerNameOneNode(r: Relay, v: Verifier, arts: set<Artifact>, a: Artifact)
    requires IdsNameOneNode(r.peers, r.registry.Keys, v, arts + {a})
    ensures IdsNameOneNode(r.peers, r.registry.Keys, v, arts)
  {
    hide Effective;
    assert forall x :: x in arts ==> x in arts + {a};
  }

  lemma {:induction false} RevokedTwice(registry: Registry, nodes: set<U64>, node: U64)
    ensures RevokedAll(RevokedAll(registry, nodes), {node}) == RevokedAll(registry, nodes + {node})
    ensures RevokedAll(registry, nodes).Keys == registry.Keys
  {
  }

  lemma {:induction false} SameIdSameNode(r: Relay, v: Verifier, arts: set<Artifact>, a: Artifact)
    requires IdsNameOneNode(r.peers, r.registry.Keys, v, arts + {a})
    requires Effective(r.peers, r.registry.Keys, v, a) && a.event.eventId !in r.appliedIds
    requires a.event.eventId in IdsOf(r.peers, r.registry.Keys, v, arts)
    ensures a.event.evidence[0] in NodesOf(r.peers, r.registry.Keys, v, arts, r.appliedIds)
  {
    var b :| b in arts && Effective(r.peers, r.registry.Keys, v, b) && b.event.eventId == a.event.eventId;
    assert a in arts + {a} && b in arts + {a};
  }

  // Two delivery sequences of the same artifacts end with the same devices revoked
  // and the same ids applied.
  lemma {:induction false} DeliveryConverges(r: Relay, v: Verifier, arts: seq<Artifact>, arts': seq<Artifact>)
    requires Elements(arts) == Elements(arts')
    requires IdsNameOneNode(r.peers, r.registry.Keys, v, Elements(arts))
    ensures Delivered(r, v, arts).registry == Delivered(r, v, arts').registry
    ensures Delivered(r, v, arts).appliedIds == Delivered(r, v, arts').appliedIds
  {
    DeliveryAddsUp(r, v, arts);
    DeliveryAddsUp(r, v, arts');
  }

  // For two new effective revocations under one id, of devices not yet revoked, the
  // order matters exactly when they name different devices.
  lemma {:induction false} OrderMattersIffIdNamesTwoNodes(r: Relay, v: Verifier, a: Artifact, b: Artifact)
    requires Effective(r.peers, r.registry.Keys, v, a) && Effective(r.peers, r.registry.Keys, v, b)
    requires a.event.eventId == b.event.eventId && a.event.eventId !in r.appliedIds
    requires !r.registry[a.event.evidence[0]].revoked && !r.registry[b.event.evidence[0]].revoked
    ensures Delivered(r, v, [a, b]).registry == Delivered(r, v, [b, a]).registry
       <==> a.event.evidence[0] == b.event.evidence[0]
  {
    hide Effective, AcceptOn;
    var x, y := a.event.evidence[0], b.event.evidence[0];
    assert x in r.registry && y in r.registry by { EffectiveIsKnown(r, v, a); EffectiveIsKnown(r, v, b); }
    DeliverTwo(r, v, a, b);
    DeliverTwo(r, v, b, a);
    assert Delivered(r, v, [a, b]).registry[x].revoked;
    assert x != y ==> !Delivered(r, v, [b, a]).registry[x].revoked;
  }

  lemma {:induction false} EffectiveIsKnown(r: Relay, v: Verifier, a: Artifact)
    requires Effective(r.peers, r.registry.Keys, v, a)
    ensures a.event.evidence[0] in r.registry
  {
  }

  lemma {:induction false} DeliverTwo(r: Relay, v: Verifier, a: Artifact, b: Artifact)
    requires Effective(r.peers, r.registry.Keys, v, a) && Effective(r.peers, r.registry.Keys, v, b)
    requires a.event.eventId == b.event.eventId && a.event.eventId !in r.appliedIds
    ensures Delivered(r, v, [a, b]).registry == RevokedAll(r.registry, {a.event.evidence[0]})
  {
    hide Effective, AcceptOn, RevokedAll;
    var one, two := [a], [a, b];
    assert two[..1] == one && one[..0] == [];
    assert Delivered(r, v, one) == AcceptOn(Delivered(r, v, one[..0]), v, a).relay;
    assert Delivered(r, v, two) == AcceptOn(Delivered(r, v, two[..1]), v, b).relay;
    AppliesExactlyTheEffective(r, v, a);
    AppliesExactlyTheEffective(Delivered(r, v, one), v, b);
  }

  // ---------------------------------------------------------------------
  // Whole lives of the gate
  // ---------------------------------------------------------------------

  datatype Step =
    | Deliver(artifact: Artifact)
    | LearnPeer(biomeId: string, key: string)
    | Provision(node: U64, pubkey: Bytes, firmwareHash: string)

  function NextRelay(r: Relay, v: Verifier, step: Step): Relay {
    match step
    case Deliver(a) => AcceptOn(r, v, a).relay
    case LearnPeer(biomeId, key) => r.(peers := r.peers[biomeId := key])
    case Provision(node, pubkey, firmwareHash) =>
      r.(registry := r.registry[node := DeviceRecord(pubkey, firmwareHash, false)])
  }

  const NEW_RELAY := Relay(map[], map[], [], {}, 0)

  ghost function RelayAfter(v: Verifier, steps: seq<Step>): Relay {
    if steps == [] then NEW_RELAY else NextRelay(RelayAfter(v, steps[..|steps| - 1]), v, steps[|steps| - 1])
  }

  ghost predicate OnePerBiome(summaries: seq<PeerSummary>) {
    forall i, j :: 0 <= i < j < |summaries| ==> summaries[i].biomeId != summaries[j].biomeId
  }

  lemma {:induction false} WithoutKeeps(summaries: seq<PeerSummary>, biomeId: string)
    requires OnePerBiome(summaries)
    ensures OnePerBiome(Without(summaries, biomeId))
    ensures forall s :: s in Without(summaries, biomeId) <==> s in summaries && s.biomeId != biomeId
  {
    if summaries != [] {
      var init, last := summaries[..|summaries| - 1], summaries[|summaries| - 1];
      WithoutKeeps(init, biomeId);
      assert summaries == init + [last];
      var kept := Without(init, biomeId);
      assert forall i :: 0 <= i < |kept| ==> kept[i] in kept;
      assert forall s :: s in kept + [last] <==> s in kept || s == last;
      assert kept + [] == kept;
    }
  }

  // The counter always equals the number of applied ids, and each biome has at most
  // one summary stored.
  lemma {:induction false} CountIsExact(v: Verifier, steps: seq<Step>)
    ensures var r := RelayAfter(v, steps);
            r.appliedCount == |r.appliedIds| && OnePerBiome(r.summaries)
  {
    hide OnePerBiome;
    if steps == [] {
      assert OnePerBiome([]) by { NoSummaries(); }
    } else {
      var init, last := steps[..|steps| - 1], steps[|steps| - 1];
      CountIsExact(v, init);
      if last.Deliver? {
        var r := RelayAfter(v, init);
        AppliesExactlyTheEffective(r, v, last.artifact);
        if last.artifact.OfSummary? {
          StoredLast(r.summaries, last.artifact.summary);
        }
      }
    }
  }

  // A summary is stored exactly when a known peer signed it under the key learned for
  // it, in place of that biome's previous one and no other.
  lemma {:induction false} SummaryReplacesItsOwn(r: Relay, v: Verifier, s: PeerSummary)
    requires OnePerBiome(r.summaries)
    ensures var a := AcceptOn(r, v, OfSummary(s));
            && (a.result.Ok? <==> s.biomeId in r.peers && s.signer == Some(r.peers[s.biomeId]) && v.summary(s))
            && (a.result.Ok? ==>
                 forall other :: other in a.relay.summaries
                   <==> other == s || (other in r.summaries && other.biomeId != s.biomeId))
            && (a.result.Err? ==> a.relay == r)
  {
    WithoutKeeps(r.summaries, s.biomeId);
  }

  lemma {:induction false} NoSummaries()
    ensures OnePerBiome([])
  {
  }

  lemma {:induction false} StoredLast(summaries: seq<PeerSummary>, s: PeerSummary)
    requires OnePerBiome(summaries)
    ensures OnePerBiome(Without(summaries, s.biomeId) + [s])
  {
    WithoutKeeps(summaries, s.biomeId);
    var kept := Without(summaries, s.biomeId);
    assert forall i :: 0 <= i < |kept| ==> kept[i] in kept;
  }

  // A revocation that came too early for its device takes hold when it is delivered
  // again after provisioning, which un-revokes.
  lemma {:induction false} LateProvisioningCatchesUp(
      r: Relay, v: Verifier, a: Artifact, node: U64, pubkey: Bytes, firmwareHash: string)
    requires Effective(r.peers, {node}, v, a) && node !in r.registry && a.event.eventId !in r.appliedIds
    ensures var early := NextRelay(r, v, Deliver(a));
            && early == r
            && var provisioned := NextRelay(early, v, Provision(node, pubkey, firmwareHash));
               var late := NextRelay(provisioned, v, Deliver(a));
               && node in provisioned.registry && !provisioned.registry[node].revoked
               && provisioned.registry[node].pubkey == pubkey
               && node in late.registry && late.registry[node].revoked && a.event.eventId in late.appliedIds
  {
    AppliesExactlyTheEffective(r, v, a);
    var provisioned := NextRelay(r, v, Provision(node, pubkey, firmwareHash));
    AppliesExactlyTheEffective(provisioned, v, a);
  }

  // ---------------------------------------------------------------------
  // The gate as the daemon holds it
  // ---------------------------------------------------------------------

  class PeerGate {
    const v: Verifier
    var registry: Registry
    var peers: map<string, string>
    var summaries: seq<PeerSummary>
    var appliedIds: set<string>
    var appliedCount: nat

    constructor (v: Verifier)
      ensures this.v == v && State() == NEW_RELAY
    {
      this.v, registry, peers := v, map[], map[];
      summaries, appliedIds, appliedCount := [], {}, 0;
    }

    function State(): Relay
      reads this
    {
      Relay(registry, peers, summaries, appliedIds, appliedCount)
    }

    method RegisterPeerIdentity(biomeId: string, key: string)
      modifies this`peers
      ensures State() == NextRelay(old(State()), v, LearnPeer(biomeId, key)) && peers == old(peers)[biomeId := key]
    {
      peers := peers[biomeId := key];
    }

    method ApplyPeerRevocation(e: PeerEvent, peerKey: string) returns (applied: bool)
      modifies this`registry, this`appliedIds, this`appliedCount
      ensures applied == Applies(old(State()), v, e, peerKey)
      ensures State() == if applied then Applied(old(State()), e) else old(State())
    {
      if !e.deviceRevoked || e.signer != Some(peerKey) || !v.event(e) || e.evidence == [] {
        return false;
      }
      var node := e.evidence[0];
      if e.eventId in appliedIds || node !in registry {
        return false;
      }
      registry := registry[node := registry[node].(revoked := true)];
      appliedIds := appliedIds + {e.eventId};
      appliedCount := appliedCount + 1;
      applied := true;
    }

    method AcceptArtifact(a: Artifact) returns (r: Result<Effect, Rejection>)
      modifies this
      ensures Accepted(State(), r) == AcceptOn(old(State()), v, a)
      ensures old(OnePerBiome(summaries)) && a.OfSummary? ==>
                var s := a.summary;
                && (r.Ok? <==> s.biomeId in peers && s.signer == Some(peers[s.biomeId]) && v.summary(s))
                && (r.Err? ==> State() == old(State()))
                && (r.Ok? ==>
                     forall other :: other in summaries
                       <==> other == s || (other in old(summaries) && other.biomeId != s.biomeId))
    {
      if OnePerBiome(summaries) && a.OfSummary? {
        SummaryReplacesItsOwn(State(), v, a.summary);
      }
      if a.Signer().None? {
        return Err(Unsigned);
      }
      var biomeId := a.BiomeId();
      if biomeId !in peers {
        return Err(UnknownBiome(biomeId));
      }
      var peerKey := peers[biomeId];
      if peerKey != a.Signer().value {
        return Err(IdentityMismatch(biomeId));
      }
      match a
      case OfSummary(s) =>
        if !v.summary(s) {
          return Err(Rejection.BadSignature);
        }
        var kept, i := [], 0;
        while i < |summaries|
          invariant 0 <= i <= |summaries| && kept == Without(summaries[..i], s.biomeId)
        {
          assert summaries[..i + 1][..i] == summaries[..i];
          if summaries[i].biomeId != s.biomeId {
            kept := kept + [summaries[i]];
          } else {
            assert kept + [] == kept;
          }
          i := i + 1;
        }
        assert summaries[..i] == summaries;
        summaries := kept + [s];
        r := Ok(SummaryStored);
      case OfEvent(e) =>
        if !v.event(e) {
          return Err(Rejection.BadSignature);
        }
        var applied := ApplyPeerRevocation(e, peerKey);
        r := if applied then Ok(RevocationApplied) else Err(NoEffect);
    }
  }
}
