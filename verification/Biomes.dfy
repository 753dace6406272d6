// rucelium-federation/src/biome.rs: admission of verified samples with a global
// dedup index and device revocation.
module Biomes {
  import opened Common
  import opened Words
  import opened Domain

  datatype BiomeState = BiomeState(
    observations: seq<EnvSample>, seen: set<Key>, revoked: set<U64>, duplicates: nat)

  const NEW_BIOME := BiomeState([], {}, {}, 0)

  datatype Admission = Admitted | DuplicateSample | RevokedNode

  function Admit(b: BiomeState, s: EnvSample): (BiomeState, Admission) {
    if s.nodeId in b.revoked then (b, RevokedNode)
    else if s.DedupKey() in b.seen then (b.(duplicates := b.duplicates + 1), DuplicateSample)
    else (b.(observations := b.observations + [s], seen := b.seen + {s.DedupKey()}), Admitted)
  }

  // What reaches a biome over its life, live or replayed.
  datatype Delivery = Deliver(sample: EnvSample) | RevokeNode(node: U64)

  function AfterDelivery(b: BiomeState, d: Delivery): BiomeState {
    match d
    case Deliver(s) => Admit(b, s).0
    case RevokeNode(node) => b.(revoked := b.revoked + {node})
  }

  function AfterAll(b: BiomeState, ds: seq<Delivery>): BiomeState {
    if ds == [] then b else AfterDelivery(AfterAll(b, ds[..|ds| - 1]), ds[|ds| - 1])
  }

  // Delivery i is a sample whose device no earlier delivery revoked.
  ghost predicate Admissible(ds: seq<Delivery>, i: nat)
    requires i < |ds|
  {
    ds[i].Deliver? && RevokeNode(ds[i].sample.nodeId) !in ds[..i]
  }

  // ... and the first such delivery of its key.
  ghost predicate Counts(ds: seq<Delivery>, i: nat)
    requires i < |ds|
  {
    && Admissible(ds, i)
    && forall j :: 0 <= j < i && Admissible(ds, j) ==> ds[j].sample.DedupKey() != ds[i].sample.DedupKey()
  }

  // The samples that count, in delivery order.
  ghost function Counting(ds: seq<Delivery>): seq<EnvSample> {
    if ds == [] then []
    else Counting(ds[..|ds| - 1]) + (if Counts(ds, |ds| - 1) then [ds[|ds| - 1].sample] else [])
  }

  ghost predicate KeyDelivered(ds: seq<Delivery>, key: Key) {
    exists i :: 0 <= i < |ds| && Admissible(ds, i) && ds[i].sample.DedupKey() == key
  }

  // Admissible deliveries of a key delivered before.
  ghost function Repeats(ds: seq<Delivery>): nat {
    if ds == [] then 0
    else
      var n := |ds| - 1;
      Repeats(ds[..n]) + (if Admissible(ds, n) && !Counts(ds, n) then 1 else 0)
  }

  ghost predicate GoodBiome(b: BiomeState) {
    Distinct(KeysOf(b.observations)) && Elements(KeysOf(b.observations)) == b.seen
  }

  lemma {:induction false} AdmitKeepsGood(b: BiomeState, s: EnvSample)
    requires GoodBiome(b)
    ensures GoodBiome(Admit(b, s).0)
  {
    hide KeysOf, Distinct;
    if Admit(b, s).1.Admitted? {
      NewKeyStaysDistinct(b.observations, s, b.seen);
    }
  }

  lemma {:induction false} PrefixAdmissible(ds: seq<Delivery>, i: nat)
    requires i < |ds| - 1
    ensures Admissible(ds[..|ds| - 1], i) == Admissible(ds, i)
  {
    assert ds[..|ds| - 1][..i] == ds[..i];
  }

  // The observations are the first unrevoked delivery of every key, in order of
  // arrival: each key once, and exactly the keys delivered while unrevoked.
  lemma {:induction false} ObservationsAreFirstDeliveries(ds: seq<Delivery>)
    ensures var b := AfterAll(NEW_BIOME, ds);
            && GoodBiome(b)
            && b.observations == Counting(ds) && b.duplicates == Repeats(ds)
            && (forall key :: key in b.seen <==> KeyDelivered(ds, key))
            && (forall node :: node in b.revoked <==> RevokeNode(node) in ds)
  {
    hide KeysOf, Distinct, Counting, Repeats;
    if ds == [] {
      assert KeysOf([]) == [] && Distinct<Key>([]) && Counting(ds) == [] && Repeats(ds) == 0 by { EmptyBiome(); }
    } else {
      var n := |ds| - 1;
      var init, last := ds[..n], ds[n];
      ObservationsAreFirstDeliveries(init);
      assert ds == init + [last];
      var b := AfterAll(NEW_BIOME, init);
      if last.Deliver? {
        AdmitKeepsGood(b, last.sample);
      }
      assert Admissible(ds, n) <==> last.Deliver? && last.sample.nodeId !in b.revoked;
      forall i: nat | i < n
        ensures Admissible(ds, i) == Admissible(init, i) && ds[i] == init[i]
      {
        PrefixAdmissible(ds, i);
      }
      forall key
        ensures KeyDelivered(ds, key)
           <==> KeyDelivered(init, key) || (Admissible(ds, n) && last.sample.DedupKey() == key)
      {
      }
      assert Counts(ds, n) <==> Admissible(ds, n) && !KeyDelivered(init, last.sample.DedupKey());
      CountingThen(ds);
      assert Counting(init) + [] == Counting(init);
    }
  }

  lemma {:induction false} EmptyBiome()
    ensures KeysOf([]) == [] && Distinct<Key>([]) && Counting([]) == [] && Repeats([]) == 0
  {
  }

  lemma {:induction false} CountingThen(ds: seq<Delivery>)
    requires ds != []
    ensures Counting(ds)
         == Counting(ds[..|ds| - 1]) + (if Counts(ds, |ds| - 1) then [ds[|ds| - 1].sample] else [])
    ensures Repeats(ds)
         == Repeats(ds[..|ds| - 1]) + (if Admissible(ds, |ds| - 1) && !Counts(ds, |ds| - 1) then 1 else 0)
  {
  }

  // What the next sample is answered depends on the history alone: revoked if its device
  // was, else a duplicate if its key was delivered while its device was not, else admitted.
  lemma {:induction false} AnswersFollowHistory(ds: seq<Delivery>, s: EnvSample)
    ensures match Admit(AfterAll(NEW_BIOME, ds), s).1
            case RevokedNode => RevokeNode(s.nodeId) in ds
            case DuplicateSample => RevokeNode(s.nodeId) !in ds && KeyDelivered(ds, Key(s.nodeId, s.sequence))
            case Admitted => RevokeNode(s.nodeId) !in ds && !KeyDelivered(ds, Key(s.nodeId, s.sequence))
  {
    hide GoodBiome, KeyDelivered, Counting;
    ObservationsAreFirstDeliveries(ds);
  }

  // Delivering again what was already delivered, however often, changes no
  // observation.
  lemma {:induction false} RedeliveryIsIdempotent(b: BiomeState, ds: seq<Delivery>)
    requires forall d :: d in ds ==> d.Deliver? && (d.sample.DedupKey() in b.seen || d.sample.nodeId in b.revoked)
    ensures AfterAll(b, ds) == b.(duplicates := AfterAll(b, ds).duplicates)
  {
    if ds != [] {
      RedeliveryIsIdempotent(b, ds[..|ds| - 1]);
    }
  }

  lemma {:induction false} DeliveredIsKnown(b: BiomeState, ds: seq<Delivery>)
    requires forall d :: d in ds ==> d.Deliver?
    ensures forall d :: d in ds ==>
              d.sample.DedupKey() in AfterAll(b, ds).seen || d.sample.nodeId in AfterAll(b, ds).revoked
    ensures AfterAll(b, ds).revoked == b.revoked && b.seen <= AfterAll(b, ds).seen
  {
    if ds != [] {
      var init := ds[..|ds| - 1];
      DeliveredIsKnown(b, init);
      assert ds == init + [ds[|ds| - 1]];
    }
  }

  // Whatever comes, keys stay known, and a key not known before was delivered by a
  // device that was not revoked.
  lemma {:induction false} KnownWasDelivered(b: BiomeState, ds: seq<Delivery>, key: Key)
    ensures b.seen <= AfterAll(b, ds).seen && b.revoked <= AfterAll(b, ds).revoked
    ensures key in AfterAll(b, ds).seen && key !in b.seen ==>
              key.node !in b.revoked && exists d :: d in ds && d.Deliver? && d.sample.DedupKey() == key
  {
    if ds != [] {
      KnownWasDelivered(b, ds[..|ds| - 1], key);
      assert ds[|ds| - 1] in ds && forall d :: d in ds[..|ds| - 1] ==> d in ds;
    }
  }

  lemma {:induction false} DeliveringTwiceIsDeliveringOnce(b: BiomeState, ds: seq<Delivery>)
    requires forall d :: d in ds ==> d.Deliver?
    ensures var once := AfterAll(b, ds);
            var twice := AfterAll(once, ds);
            twice.observations == once.observations && twice.seen == once.seen
  {
    DeliveredIsKnown(b, ds);
    RedeliveryIsIdempotent(AfterAll(b, ds), ds);
  }

  lemma {:induction false} AfterAllOfSum(b: BiomeState, ds: seq<Delivery>, more: seq<Delivery>)
    ensures AfterAll(b, ds + more) == AfterAll(AfterAll(b, ds), more)
  {
    if more == [] {
      assert ds + more == ds;
    } else {
      AfterAllOfSum(b, ds, more[..|more| - 1]);
      assert (ds + more)[..|ds + more| - 1] == ds + more[..|more| - 1];
    }
  }

  datatype RevocationEvent = RevocationEvent(node: U64, sequence: U32, startNs: U64, endNs: U64)

  function Earlier(a: U64, b: U64): U64 {
    if a < b then a else b
  }

  ghost predicate IsLatest(observations: seq<EnvSample>, node: U64, i: nat) {
    && i < |observations| && observations[i].nodeId == node
    && forall j :: i < j < |observations| ==> observations[j].nodeId != node
  }

  class Biome {
    var observations: seq<EnvSample>
    var seen: set<Key>
    var revoked: set<U64>
    var duplicates: nat

    constructor ()
      ensures State() == NEW_BIOME
    {
      observations, seen, revoked, duplicates := [], {}, {}, 0;
    }

    ghost function State(): BiomeState
      reads this
    {
      BiomeState(observations, seen, revoked, duplicates)
    }

    method Accept(s: EnvSample) returns (outcome: Admission)
      modifies this
      ensures (State(), outcome) == Admit(old(State()), s)
    {
      if s.nodeId in revoked {
        return RevokedNode;
      }
      var key := s.DedupKey();
      if key in seen {
        duplicates := duplicates + 1;
        return DuplicateSample;
      }
      seen := seen + {key};
      observations := observations + [s];
      outcome := Admitted;
    }

    // The revocation event ends now, cites the device's most recent observation and starts
    // with it; without one it cites sequence 0 and starts now.
    method RevokeDevice(node: U64, nowNs: U64) returns (event: RevocationEvent)
      modifies this`revoked
      ensures State() == AfterDelivery(old(State()), RevokeNode(node))
      ensures event.node == node && event.endNs == nowNs
      ensures if exists i :: 0 <= i < |observations| && observations[i].nodeId == node
              then exists i: nat :: IsLatest(observations, node, i) && event.sequence == observations[i].sequence
                               && event.startNs == if observations[i].measuredNs < nowNs
                                                   then observations[i].measuredNs else nowNs
              else event.sequence == 0 && event.startNs == nowNs
    {
      event := RevocationEvent(node, 0, nowNs, nowNs);
      var i := |observations|;
      while i > 0
        invariant 0 <= i <= |observations|
        invariant forall j :: i <= j < |observations| ==> observations[j].nodeId != node
        invariant event == RevocationEvent(node, 0, nowNs, nowNs)
      {
        i := i - 1;
        if observations[i].nodeId == node {
          event := RevocationEvent(node, observations[i].sequence, Earlier(observations[i].measuredNs, nowNs), nowNs);
          assert IsLatest(observations, node, i);
          break;
        }
      }
      revoked := revoked + {node};
    }
  }
}
