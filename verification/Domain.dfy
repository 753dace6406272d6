// rucelium-core/src/sample.rs: the part of an EnvSample that ingest, store and
// biome look at.  Measurements are reals.
module Domain {
  import opened Common
  import opened Words

  // Coordinates are in ten-millionths of a degree.
  const LAT_E7_MAX := 900_000_000
  const LON_E7_MAX := 1_800_000_000

  // The stable dedup key of a sample.
  datatype Key = Key(node: U64, seqno: U32)

  datatype EnvSample = EnvSample(
    nodeId: U64,
    sequence: U32,
    measuredNs: U64,
    receivedNs: U64,
    value: real,
    lower: real,
    upper: real,
    quality: real,
    firmwareHash: string,
    signerKey: Bytes)
  {
    function DedupKey(): Key {
      Key(nodeId, sequence)
    }

    // EnvSample::validate.
    predicate Valid() {
      && 0.0 <= quality <= 1.0
      && lower <= value <= upper
      && receivedNs >= measuredNs
      && measuredNs != 0
      && firmwareHash != ""
      && signerKey != []
    }
  }

  function KeysOf(samples: seq<EnvSample>): (keys: seq<Key>)
    ensures |keys| == |samples|
    ensures forall i :: 0 <= i < |samples| ==> keys[i] == samples[i].DedupKey()
  {
    if samples == [] then [] else KeysOf(samples[..|samples| - 1]) + [samples[|samples| - 1].DedupKey()]
  }

  lemma {:induction false} NewKeyStaysDistinct(samples: seq<EnvSample>, s: EnvSample, seen: set<Key>)
    requires Distinct(KeysOf(samples)) && Elements(KeysOf(samples)) <= seen && s.DedupKey() !in seen
    ensures Distinct(KeysOf(samples + [s]))
    ensures Elements(KeysOf(samples + [s])) == Elements(KeysOf(samples)) + {s.DedupKey()}
  {
    assert (samples + [s])[..|samples|] == samples;
    assert KeysOf(samples + [s]) == KeysOf(samples) + [s.DedupKey()];
    forall i | 0 <= i < |samples|
      ensures KeysOf(samples)[i] != s.DedupKey()
    {
      assert KeysOf(samples)[i] in Elements(KeysOf(samples));
    }
  }
}
