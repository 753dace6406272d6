// rucelium-notary/src/bundle.rs and root.rs: the batching notary, evidence
// bundles and re-notarization.  An observation or event is its canonical JSON
// bytes; a root's signed message is the root with its signature fields cleared
// (JSON is injective); keys and signatures are strings.
module NotaryLog {
  import opened Common
  import opened Words
  import opened Hashing
  import opened Merkle

  type PublicKey = string
  type Signature = string

  datatype Algorithm = Ed25519 | MlDsa44 | HybridEd25519MlDsa44

  // A hex field: 32 decodable bytes, or text that does not decode to them.
  datatype HexDigest = Hex(digest: Digest) | BadHex

  datatype NotaryRoot = NotaryRoot(
    specVersion: string,
    biomeId: string,
    batchId: nat,
    rootHex: HexDigest,
    leafCount: nat,
    windowStartNs: U64,
    windowEndNs: U64,
    notarizedNs: U64,
    prevRootHex: Option<HexDigest>,
    algorithm: Algorithm,
    signature: Option<Signature>,
    signerKey: Option<PublicKey>)

  const SPEC_VERSION := "rucelium.fabric.v0.1"

  function Canonical(root: NotaryRoot): NotaryRoot {
    root.(signature := None, signerKey := None)
  }

  datatype RootSigner = RootSigner(algorithm: Algorithm, key: PublicKey, sign: NotaryRoot -> Signature)

  datatype RootVerifier = RootVerifier(algorithm: Algorithm, verify: (NotaryRoot, Signature, PublicKey) -> bool) {
    // Honest signatures of `signer` check out.
    ghost predicate Understands(signer: RootSigner) {
      algorithm == signer.algorithm && forall m :: verify(m, signer.sign(m), signer.key)
    }
  }

  // The signer is authoritative for the algorithm tag.
  function SignRoot(root: NotaryRoot, signer: RootSigner): NotaryRoot {
    var tagged := Canonical(root).(algorithm := signer.algorithm);
    tagged.(signature := Some(signer.sign(tagged)), signerKey := Some(signer.key))
  }

  predicate VerifyRoot(root: NotaryRoot, verifier: RootVerifier) {
    && root.algorithm == verifier.algorithm
    && root.signature.Some? && root.signerKey.Some?
    && verifier.verify(Canonical(root), root.signature.value, root.signerKey.value)
  }

  // A signed root verifies under its own algorithm tag and under no other, whatever
  // the signature says.
  lemma VerifiesIffTagIsTheSigners(root: NotaryRoot, signer: RootSigner, verifier: RootVerifier, tag: Algorithm)
    requires verifier.Understands(signer)
    ensures VerifyRoot(SignRoot(root, signer).(algorithm := tag), verifier) <==> tag == signer.algorithm
  {
    var signed := SignRoot(root, signer);
    assert Canonical(signed) == Canonical(root).(algorithm := signer.algorithm);
    assert signed.(algorithm := signer.algorithm) == signed;
  }

  // The message a root's signature is over, field by field.
  ghost function Unsigned(root: NotaryRoot): NotaryRoot {
    NotaryRoot(root.specVersion, root.biomeId, root.batchId, root.rootHex, root.leafCount, root.windowStartNs,
               root.windowEndNs, root.notarizedNs, root.prevRootHex, root.algorithm, None, None)
  }

  ghost predicate SignedBy(root: NotaryRoot, signer: RootSigner) {
    && root.algorithm == signer.algorithm && root.signerKey == Some(signer.key)
    && root.signature == Some(signer.sign(Unsigned(root)))
  }

  datatype SealedBatch = SealedBatch(root: NotaryRoot, tree: MerkleTree)

  // ---------------------------------------------------------------------
  // The accumulator
  // ---------------------------------------------------------------------

  datatype NotaryState = NotaryState(
    biomeId: string, pending: seq<Digest>, nextBatchId: nat, prevRootHex: Option<HexDigest>)

  datatype Window = Window(startNs: U64, endNs: U64, notarizedNs: U64)

  function SealedRoot(h: Hash, st: NotaryState, signer: RootSigner, w: Window): NotaryRoot {
    SignRoot(NotaryRoot(SPEC_VERSION, st.biomeId, st.nextBatchId, Hex(Root(h, st.pending)), |st.pending|,
                        w.startNs, w.endNs, w.notarizedNs, st.prevRootHex, signer.algorithm, None, None),
             signer)
  }

  // ---------------------------------------------------------------------
  // Runs: any interleaving of accepts and seals
  // ---------------------------------------------------------------------

  datatype Op = Accept(data: Bytes) | Seal(signer: RootSigner, w: Window)

  // What a run leaves behind.  `contents` and `open` remember the accepted
  // bytes behind each sealed batch and behind the pending leaves.
  datatype Run = Run(
    state: NotaryState,
    sealed: seq<SealedBatch>,
    signers: seq<RootSigner>,
    contents: seq<seq<Bytes>>,
    open: seq<Bytes>)

  function TreeOf(h: Hash, leaves: seq<Digest>): MerkleTree {
    MerkleTree(if leaves == [] then [] else Levels(h, leaves))
  }

  function NextRun(h: Hash, run: Run, op: Op): Run {
    match op
    case Accept(data) =>
      run.(state := run.state.(pending := run.state.pending + [h.leaf(data)]), open := run.open + [data])
    case Seal(signer, w) =>
      var root := SealedRoot(h, run.state, signer, w);
      Run(NotaryState(run.state.biomeId, [], run.state.nextBatchId + 1, Some(root.rootHex)),
          run.sealed + [SealedBatch(root, TreeOf(h, run.state.pending))],
          run.signers + [signer],
          run.contents + [run.open],
          [])
  }

  function RunOps(h: Hash, biomeId: string, ops: seq<Op>): Run {
    if ops == [] then Run(NotaryState(biomeId, [], 0, None), [], [], [], [])
    else NextRun(h, RunOps(h, biomeId, ops[..|ops| - 1]), ops[|ops| - 1])
  }

  ghost function History(ops: seq<Op>): seq<Bytes> {
    if ops == [] then []
    else History(ops[..|ops| - 1]) + (match ops[|ops| - 1] case Accept(data) => [data] case Seal(_, _) => [])
  }

  ghost function Concat(batches: seq<seq<Bytes>>): seq<Bytes> {
    if batches == [] then [] else Concat(batches[..|batches| - 1]) + batches[|batches| - 1]
  }

  // Batch k of a run commits to exactly the bytes accepted for it, is numbered
  // k, and chains to batch k - 1.
  ghost predicate GoodBatch(h: Hash, run: Run, k: nat)
    requires k < |run.sealed| && |run.sealed| == |run.contents| == |run.signers|
  {
    var root, leaves := run.sealed[k].root, LeafHashes(h, run.contents[k]);
    && run.sealed[k].tree.Built(h) && run.sealed[k].tree.Leaves() == leaves
    && root.batchId == k
    && root.rootHex == Hex(Root(h, leaves))
    && root.leafCount == |run.contents[k]|
    && root.prevRootHex == (if k == 0 then None else Some(run.sealed[k - 1].root.rootHex))
    && root.biomeId == run.state.biomeId
    && root == SignRoot(Canonical(root), run.signers[k])
  }

  ghost predicate GoodRun(h: Hash, run: Run) {
    && |run.sealed| == |run.contents| == |run.signers| == run.state.nextBatchId
    && run.state.pending == LeafHashes(h, run.open)
    && run.state.prevRootHex == (if run.sealed == [] then None else Some(run.sealed[|run.sealed| - 1].root.rootHex))
    && forall k :: 0 <= k < |run.sealed| ==> GoodBatch(h, run, k)
  }

  // Every run is good, and its batches followed by what is pending are the
  // accept history.
  lemma {:induction false} RunsAreGood(h: Hash, biomeId: string, ops: seq<Op>)
    ensures GoodRun(h, RunOps(h, biomeId, ops))
    ensures Concat(RunOps(h, biomeId, ops).contents) + RunOps(h, biomeId, ops).open == History(ops)
  {
    if ops != [] {
      var before := RunOps(h, biomeId, ops[..|ops| - 1]);
      var op := ops[|ops| - 1];
      RunsAreGood(h, biomeId, ops[..|ops| - 1]);
      StepKeepsGood(h, before, op);
      var after := NextRun(h, before, op);
      match op {
        case Accept(data) =>
          assert Concat(before.contents) + (before.open + [data]) == (Concat(before.contents) + before.open) + [data];
        case Seal(_, _) =>
          assert after.contents[..|before.contents|] == before.contents;
      }
    }
  }

  lemma StepKeepsGood(h: Hash, run: Run, op: Op)
    requires GoodRun(h, run)
    ensures GoodRun(h, NextRun(h, run, op))
  {
    var after := NextRun(h, run, op);
    forall k | 0 <= k < |after.sealed|
      ensures GoodBatch(h, after, k)
    {
      if k < |run.sealed| {
        assert GoodBatch(h, run, k);
      }
    }
  }

  // The calls to seal, in order.
  ghost function Seals(ops: seq<Op>): seq<Op> {
    if ops == [] then []
    else Seals(ops[..|ops| - 1]) + (if ops[|ops| - 1].Seal? then [ops[|ops| - 1]] else [])
  }

  // What was accepted since the last of them, and before each of them since the last.
  ghost function Since(ops: seq<Op>): seq<Bytes> {
    if ops == [] || ops[|ops| - 1].Seal? then [] else Since(ops[..|ops| - 1]) + [ops[|ops| - 1].data]
  }

  ghost function Between(ops: seq<Op>): seq<seq<Bytes>> {
    if ops == [] then []
    else Between(ops[..|ops| - 1]) + (if ops[|ops| - 1].Seal? then [Since(ops[..|ops| - 1])] else [])
  }

  // Root k is of this format version and biome, bears the three times and the signature
  // of its own seal call, and its batch is what was accepted since the call before.
  ghost predicate SealedAsAsked(run: Run, biomeId: string, call: Op, k: nat)
    requires k < |run.sealed| && call.Seal?
  {
    var root := run.sealed[k].root;
    && root.specVersion == "rucelium.fabric.v0.1" && root.biomeId == biomeId
    && root.windowStartNs == call.w.startNs && root.windowEndNs == call.w.endNs
    && root.notarizedNs == call.w.notarizedNs && SignedBy(root, call.signer)
  }

  lemma {:induction false} SealsAreAsAsked(h: Hash, biomeId: string, ops: seq<Op>)
    ensures var run, calls := RunOps(h, biomeId, ops), Seals(ops);
            && run.state.biomeId == biomeId
            && |run.sealed| == |calls| && run.contents == Between(ops) && run.open == Since(ops)
            && (forall k :: 0 <= k < |calls| ==> calls[k].Seal? && SealedAsAsked(run, biomeId, calls[k], k))
  {
    hide SealedAsAsked;
    if ops != [] {
      var init, op := ops[..|ops| - 1], ops[|ops| - 1];
      SealsAreAsAsked(h, biomeId, init);
      var before, run := RunOps(h, biomeId, init), RunOps(h, biomeId, ops);
      forall k | 0 <= k < |Seals(ops)|
        ensures Seals(ops)[k].Seal? && SealedAsAsked(run, biomeId, Seals(ops)[k], k)
      {
        if k < |Seals(init)| {
          assert Seals(ops)[k] == Seals(init)[k];
          SealedStays(before, run, biomeId, Seals(ops)[k], k);
        } else {
          LastSeal(h, before, op);
        }
      }
    }
  }

  lemma {:induction false} SealedStays(before: Run, run: Run, biomeId: string, call: Op, k: nat)
    requires k < |before.sealed| <= |run.sealed| && run.sealed[k] == before.sealed[k] && call.Seal?
    requires SealedAsAsked(before, biomeId, call, k)
    ensures SealedAsAsked(run, biomeId, call, k)
  {
  }

  lemma {:induction false} LastSeal(h: Hash, before: Run, call: Op)
    requires call.Seal?
    ensures var run := NextRun(h, before, call);
            |run.sealed| == |before.sealed| + 1 && SealedAsAsked(run, before.state.biomeId, call, |before.sealed|)
  {
    var root := NextRun(h, before, call).sealed[|before.sealed|].root;
    assert Unsigned(root) == root.(signature := None, signerKey := None);
  }

  // The notary itself.  `run` is the history its methods build up.
  class Notary {
    const h: Hash
    const biomeId: string
    const batchSize: nat
    var pending: seq<Digest>
    var nextBatchId: nat
    var prevRootHex: Option<HexDigest>
    ghost var run: Run

    ghost predicate Valid()
      reads this
    {
      run.state == NotaryState(biomeId, pending, nextBatchId, prevRootHex) && GoodRun(h, run)
    }

    constructor (h: Hash, biomeId: string, batchSize: nat)
      ensures Valid() && run == RunOps(h, biomeId, [])
      ensures this.h == h && this.biomeId == biomeId && this.batchSize == batchSize
    {
      this.h, this.biomeId, this.batchSize := h, biomeId, batchSize;
      pending, nextBatchId, prevRootHex := [], 0, None;
      run := RunOps(h, biomeId, []);
    }

    // accept_observation and accept_event.
    method Accept(data: Bytes) returns (leaf: Digest)
      requires Valid()
      modifies this
      ensures Valid() && run == NextRun(h, old(run), Op.Accept(data))
      ensures leaf == h.leaf(data)
    {
      leaf := h.leaf(data);
      pending := pending + [leaf];
      StepKeepsGood(h, run, Op.Accept(data));
      run := NextRun(h, run, Op.Accept(data));
    }

    method IsFull() returns (full: bool)
      ensures full <==> |pending| >= batchSize
    {
      full := |pending| >= batchSize;
    }

    method Seal(signer: RootSigner, w: Window) returns (batch: SealedBatch)
      requires Valid()
      modifies this
      ensures Valid() && run == NextRun(h, old(run), Op.Seal(signer, w))
      ensures batch == run.sealed[|run.sealed| - 1]
    {
      var tree := Build(h, pending);
      var rootHex := Hex(tree.TreeRoot(h));
      var root := NotaryRoot(SPEC_VERSION, biomeId, nextBatchId, rootHex, |tree.Leaves()|,
                             w.startNs, w.endNs, w.notarizedNs, prevRootHex, signer.algorithm, None, None);
      root := SignRoot(root, signer);
      batch := SealedBatch(root, tree);
      StepKeepsGood(h, run, Op.Seal(signer, w));
      run := NextRun(h, run, Op.Seal(signer, w));
      pending := [];
      prevRootHex := Some(rootHex);
      nextBatchId := nextBatchId + 1;
    }
  }

  // ---------------------------------------------------------------------
  // Evidence bundles
  // ---------------------------------------------------------------------

  datatype EvidenceBundle = EvidenceBundle(
    observation: Bytes, leafHex: HexDigest, proof: InclusionProof, root: NotaryRoot)

  datatype NotaryError =
    | LeafMismatch | ProofInvalid | RootSignatureInvalid | UntrustedSigner
    | AlgorithmMismatch | MissingSignature | Encoding

  function BundleAt(h: Hash, batch: SealedBatch, observation: Bytes, index: nat): EvidenceBundle
    requires index < |batch.tree.Leaves()|
  {
    var leaves := batch.tree.Leaves();
    EvidenceBundle(observation, Hex(h.leaf(observation)),
                   InclusionProof(index, |leaves|, Path(h, leaves, index)), batch.root)
  }

  method BundleFor(h: Hash, batch: SealedBatch, observation: Bytes) returns (bundle: Option<EvidenceBundle>)
    requires batch.tree.Built(h)
    ensures bundle.None? <==> h.leaf(observation) !in batch.tree.Leaves()
    ensures bundle.Some? ==>
              exists i :: 0 <= i < |batch.tree.Leaves()| && batch.tree.Leaves()[i] == h.leaf(observation)
                          && bundle.value == BundleAt(h, batch, observation, i)
    ensures bundle.Some? ==>
              var leaf, proof := h.leaf(observation), bundle.value.proof;
              && bundle.value.observation == observation && bundle.value.leafHex == Hex(leaf)
              && bundle.value.root == batch.root && proof.leafCount == |batch.tree.Leaves()|
              && proof.leafIndex < proof.leafCount && batch.tree.Leaves()[proof.leafIndex] == leaf
              && leaf !in batch.tree.Leaves()[..proof.leafIndex]
  {
    var leaf := h.leaf(observation);
    var index := IndexOf(batch.tree, leaf);
    if index.None? {
      return None;
    }
    var proof := Prove(h, batch.tree, index.value);
    bundle := Some(EvidenceBundle(observation, Hex(leaf), proof.value, batch.root));
    assert bundle.value == BundleAt(h, batch, observation, index.value);
  }

  // The auditor's verdict: the first check that fails, in the source's order.
  function Verdict(
      h: Hash, bundle: EvidenceBundle, verifier: RootVerifier, trusted: PublicKey): Result<(), NotaryError>
  {
    var leaf := h.leaf(bundle.observation);
    if bundle.leafHex.BadHex? then Err(Encoding)
    else if leaf != bundle.leafHex.digest then Err(LeafMismatch)
    else if bundle.root.rootHex.BadHex? then Err(Encoding)
    else if bundle.proof.leafCount != bundle.root.leafCount
         || !Accepts(h, leaf, bundle.proof, bundle.root.rootHex.digest) then Err(ProofInvalid)
    else if bundle.root.algorithm != verifier.algorithm then Err(AlgorithmMismatch)
    else if bundle.root.signature.None? || bundle.root.signerKey.None? then Err(MissingSignature)
    else if bundle.root.signerKey.value != trusted then Err(UntrustedSigner)
    else if !VerifyRoot(bundle.root, verifier) then Err(RootSignatureInvalid)
    else Ok(())
  }

  // The auditor's checks, each with its error: the bundle's leaf is the hash of its
  // observation, the siblings fold to the root on the sides that the signed count
  // dictates, and the trusted key signed the root under the verifier's algorithm.
  ghost function BundleChecks(
      h: Hash, bundle: EvidenceBundle, verifier: RootVerifier, trusted: PublicKey): seq<Check<NotaryError>>
  {
    var leaf, proof, root := h.leaf(bundle.observation), bundle.proof, bundle.root;
    [Check(bundle.leafHex.Hex?, Encoding),
     Check(bundle.leafHex == Hex(leaf), LeafMismatch),
     Check(root.rootHex.Hex?, Encoding),
     Check(&& proof.leafCount == root.leafCount && proof.leafIndex < proof.leafCount
           && Flags(proof.siblings) == Sides(proof.leafIndex, proof.leafCount)
           && root.rootHex == Hex(Fold(h, leaf, proof.siblings)), ProofInvalid),
     Check(root.algorithm == verifier.algorithm, AlgorithmMismatch),
     Check(root.signature.Some? && root.signerKey.Some?, MissingSignature),
     Check(root.signerKey == Some(trusted), UntrustedSigner),
     Check(root.signature.Some? && verifier.verify(Unsigned(root), root.signature.value, trusted),
           RootSignatureInvalid)]
  }

  lemma {:induction false} VerdictNamesTheFirst(
      h: Hash, bundle: EvidenceBundle, verifier: RootVerifier, trusted: PublicKey)
    ensures IsFirstFailure(Failure(Verdict(h, bundle, verifier, trusted)), BundleChecks(h, bundle, verifier, trusted))
  {
    var leaf, proof := h.leaf(bundle.observation), bundle.proof;
    hide Flags, Sides, Fold, Climb;
    if proof.leafIndex < proof.leafCount {
      ClimbIsFold(h, leaf, proof.leafIndex, proof.leafCount, proof.siblings);
    }
    assert Unsigned(bundle.root) == bundle.root.(signature := None, signerKey := None);
    var checks, r := BundleChecks(h, bundle, verifier, trusted), Verdict(h, bundle, verifier, trusted);
    if r.Err? {
      var k := match r.error
        case Encoding => if bundle.leafHex.BadHex? then 0 else 2
        case LeafMismatch => 1
        case ProofInvalid => 3
        case AlgorithmMismatch => 4
        case MissingSignature => 5
        case UntrustedSigner => 6
        case RootSignatureInvalid => 7;
      assert FailsFirst(checks, k) && checks[k].error == r.error;
    }
  }

  method VerifyBundle(h: Hash, bundle: EvidenceBundle, verifier: RootVerifier, trusted: PublicKey)
    returns (r: Result<(), NotaryError>)
    ensures r == Verdict(h, bundle, verifier, trusted)
    ensures IsFirstFailure(Failure(r), BundleChecks(h, bundle, verifier, trusted))
  {
    hide BundleChecks, IsFirstFailure, VerifyRoot;
    VerdictNamesTheFirst(h, bundle, verifier, trusted);
    if bundle.leafHex.BadHex? {
      return Err(Encoding);
    }
    var recomputed := h.leaf(bundle.observation);
    if recomputed != bundle.leafHex.digest {
      return Err(LeafMismatch);
    }
    if bundle.root.rootHex.BadHex? {
      return Err(Encoding);
    }
    var included := VerifyInclusion(h, recomputed, bundle.proof, bundle.root.rootHex.digest);
    if bundle.proof.leafCount != bundle.root.leafCount || !included {
      return Err(ProofInvalid);
    }
    if bundle.root.algorithm != verifier.algorithm {
      return Err(AlgorithmMismatch);
    }
    if bundle.root.signature.None? || bundle.root.signerKey.None? {
      return Err(MissingSignature);
    }
    if bundle.root.signerKey.value != trusted {
      return Err(UntrustedSigner);
    }
    if !VerifyRoot(bundle.root, verifier) {
      return Err(RootSignatureInvalid);
    }
    return Ok(());
  }

  // Every accepted observation of every sealed batch is found in its tree, and
  // its bundle verifies.
  lemma EveryAcceptedObservationVerifies(h: Hash, run: Run, k: nat, observation: Bytes, verifier: RootVerifier)
    requires GoodRun(h, run) && k < |run.sealed| && verifier.Understands(run.signers[k])
    requires observation in run.contents[k]
    ensures h.leaf(observation) in run.sealed[k].tree.Leaves()
    ensures forall i: nat :: i < |run.sealed[k].tree.Leaves()| && run.sealed[k].tree.Leaves()[i] == h.leaf(observation)
              ==> Verdict(h, BundleAt(h, run.sealed[k], observation, i), verifier, run.signers[k].key) == Ok(())
  {
    assert GoodBatch(h, run, k);
    var leaves := LeafHashes(h, run.contents[k]);
    var j :| 0 <= j < |run.contents[k]| && run.contents[k][j] == observation;
    assert leaves[j] == h.leaf(observation);
    var root := run.sealed[k].root;
    assert root.signature == Some(run.signers[k].sign(Canonical(root)));
    forall i: nat | i < |leaves| && leaves[i] == h.leaf(observation)
      ensures Verdict(h, BundleAt(h, run.sealed[k], observation, i), verifier, run.signers[k].key) == Ok(())
    {
      HonestProofVerifies(h, leaves, i);
    }
  }

  // The key signed nothing but the roots this run sealed.
  ghost predicate SignedOnlySeals(run: Run, verifier: RootVerifier, trusted: PublicKey) {
    forall m, sig :: verifier.verify(m, sig, trusted) ==>
      exists k :: 0 <= k < |run.sealed| && m == Canonical(run.sealed[k].root)
  }

  // s holds everything hashed to seal the run and to check the proof.
  ghost predicate Covers(h: Hash, s: set<Input>, run: Run, observation: Bytes, proof: InclusionProof) {
    && LeafInput(observation) in s
    && ProofInputs(h, h.leaf(observation), proof) <= s
    && forall k :: 0 <= k < |run.contents| ==> BatchInputs(h, run.contents[k]) <= s
  }

  // The bundle proves what it says: its bytes were accepted, in the batch and at
  // the position it names.
  ghost predicate Genuine(run: Run, observation: Bytes, proof: InclusionProof, root: NotaryRoot) {
    && root.batchId < |run.contents| == |run.sealed|
    && Canonical(root) == Canonical(run.sealed[root.batchId].root)
    && proof.leafIndex < |run.contents[root.batchId]|
    && run.contents[root.batchId][proof.leafIndex] == observation
  }

  // Conversely, an accepted bundle is genuine.
  lemma AcceptedBundleIsGenuine(
      h: Hash, run: Run, bundle: EvidenceBundle, verifier: RootVerifier, trusted: PublicKey, s: set<Input>)
    requires GoodRun(h, run) && SignedOnlySeals(run, verifier, trusted)
    requires Verdict(h, bundle, verifier, trusted) == Ok(())
    requires h.CollisionFree(s) && Covers(h, s, run, bundle.observation, bundle.proof)
    ensures Genuine(run, bundle.observation, bundle.proof, bundle.root)
  {
    assert verifier.verify(Canonical(bundle.root), bundle.root.signature.value, trusted);
    var k :| 0 <= k < |run.sealed| && Canonical(bundle.root) == Canonical(run.sealed[k].root);
    IncludedMeansAccepted(h, run, bundle.observation, bundle.proof, bundle.root, k, s);
  }

  lemma IncludedMeansAccepted(
      h: Hash, run: Run, observation: Bytes, proof: InclusionProof, root: NotaryRoot, k: nat, s: set<Input>)
    requires GoodRun(h, run) && k < |run.sealed| && Canonical(root) == Canonical(run.sealed[k].root)
    requires root.rootHex.Hex? && proof.leafCount == root.leafCount
    requires Accepts(h, h.leaf(observation), proof, root.rootHex.digest)
    requires h.CollisionFree(s) && Covers(h, s, run, observation, proof)
    ensures Genuine(run, observation, proof, root)
  {
    assert GoodBatch(h, run, k);
    assert root.batchId == k && root.rootHex == run.sealed[k].root.rootHex && root.leafCount == |run.contents[k]|;
    assert BatchInputs(h, run.contents[k]) <= s;
    LeafIsAccepted(h, run.contents[k], observation, proof, s);
  }

  lemma LeafIsAccepted(h: Hash, batch: seq<Bytes>, data: Bytes, proof: InclusionProof, s: set<Input>)
    requires proof.leafCount == |batch| && Accepts(h, h.leaf(data), proof, Root(h, LeafHashes(h, batch)))
    requires h.CollisionFree(s) && LeafInput(data) in s
    requires BatchInputs(h, batch) <= s && ProofInputs(h, h.leaf(data), proof) <= s
    ensures batch[proof.leafIndex] == data
  {
    AcceptedProofIsHonest(h, LeafHashes(h, batch), h.leaf(data), proof);
    assert batch[proof.leafIndex] in batch;
    assert LeafInput(batch[proof.leafIndex]) in LeafInputs(batch);
    h.EqualDigests(s, LeafInput(batch[proof.leafIndex]), LeafInput(data));
  }

  // ---------------------------------------------------------------------
  // Re-notarization
  // ---------------------------------------------------------------------

  // The canonical bytes of each old root, as leaves of the new tree.
  function RootBytes(json: NotaryRoot -> Bytes, roots: seq<NotaryRoot>): (data: seq<Bytes>)
    ensures |data| == |roots|
    ensures forall i :: 0 <= i < |roots| ==> data[i] == json(Canonical(roots[i]))
  {
    if roots == [] then [] else [json(Canonical(roots[0]))] + RootBytes(json, roots[1..])
  }

  // The earliest start and the latest end, or zeros when there is no root.
  method WindowSpan(roots: seq<NotaryRoot>) returns (start: U64, end: U64)
    ensures forall i :: 0 <= i < |roots| ==> start <= roots[i].windowStartNs && roots[i].windowEndNs <= end
    ensures roots != [] ==> exists i :: 0 <= i < |roots| && start == roots[i].windowStartNs
    ensures roots != [] ==> exists i :: 0 <= i < |roots| && end == roots[i].windowEndNs
    ensures roots == [] ==> start == end == 0
  {
    start, end := 0, 0;
    for i := 0 to |roots|
      invariant forall j :: 0 <= j < i ==> start <= roots[j].windowStartNs && roots[j].windowEndNs <= end
      invariant i > 0 ==> exists j :: 0 <= j < i && start == roots[j].windowStartNs
      invariant i > 0 ==> exists j :: 0 <= j < i && end == roots[j].windowEndNs
      invariant i == 0 ==> start == end == 0
    {
      if i == 0 || roots[i].windowStartNs < start {
        start := roots[i].windowStartNs;
      }
      if i == 0 || roots[i].windowEndNs > end {
        end := roots[i].windowEndNs;
      }
    }
  }

  method Renotarize(h: Hash, json: NotaryRoot -> Bytes, oldRoots: seq<NotaryRoot>, biomeId: string,
                    batchId: nat, signer: RootSigner, nowNs: U64)
    returns (batch: SealedBatch)
    ensures batch.tree.Built(h) && batch.tree.Leaves() == LeafHashes(h, RootBytes(json, oldRoots))
    ensures batch.root.rootHex == Hex(Root(h, batch.tree.Leaves())) && batch.root.leafCount == |oldRoots|
    ensures forall i :: 0 <= i < |oldRoots| ==>
              batch.root.windowStartNs <= oldRoots[i].windowStartNs && oldRoots[i].windowEndNs <= batch.root.windowEndNs
    ensures if oldRoots == [] then batch.root.windowStartNs == batch.root.windowEndNs == 0
            else && (exists i :: 0 <= i < |oldRoots| && batch.root.windowStartNs == oldRoots[i].windowStartNs)
                 && (exists i :: 0 <= i < |oldRoots| && batch.root.windowEndNs == oldRoots[i].windowEndNs)
    ensures batch.root.prevRootHex == if oldRoots == [] then None else Some(oldRoots[|oldRoots| - 1].rootHex)
    ensures batch.root.batchId == batchId && batch.root.biomeId == biomeId && batch.root.notarizedNs == nowNs
    ensures batch.root == SignRoot(Canonical(batch.root), signer)
    ensures batch.root.specVersion == "rucelium.fabric.v0.1" && SignedBy(batch.root, signer)
  {
    var tree := Build(h, LeafHashes(h, RootBytes(json, oldRoots)));
    var start, end := WindowSpan(oldRoots);
    var prev := if oldRoots == [] then None else Some(oldRoots[|oldRoots| - 1].rootHex);
    var root := NotaryRoot(SPEC_VERSION, biomeId, batchId, Hex(tree.TreeRoot(h)), |tree.Leaves()|,
                           start, end, nowNs, prev, signer.algorithm, None, None);
    batch := SealedBatch(SignRoot(root, signer), tree);
  }

  ghost predicate Injective(json: NotaryRoot -> Bytes) {
    forall a, b :: json(a) == json(b) ==> a == b
  }

  // A root included in a re-notarized tree is one of the roots it was built
  // from, whatever its own signature says.
  lemma RenotarizedRootIsOld(
      h: Hash, json: NotaryRoot -> Bytes, oldRoots: seq<NotaryRoot>, root: NotaryRoot,
      proof: InclusionProof, s: set<Input>)
    requires Injective(json) && proof.leafCount == |oldRoots|
    requires Accepts(h, h.leaf(json(Canonical(root))), proof, Root(h, LeafHashes(h, RootBytes(json, oldRoots))))
    requires h.CollisionFree(s) && LeafInput(json(Canonical(root))) in s
    requires BatchInputs(h, RootBytes(json, oldRoots)) <= s
    requires ProofInputs(h, h.leaf(json(Canonical(root))), proof) <= s
    ensures Canonical(root) == Canonical(oldRoots[proof.leafIndex])
  {
    LeafIsAccepted(h, RootBytes(json, oldRoots), json(Canonical(root)), proof, s);
  }

  ghost predicate IsSealed(run: Run, root: NotaryRoot) {
    exists k :: 0 <= k < |run.sealed| && run.sealed[k].root == root
  }

  // So an observation stays provable after the old signature scheme falls: an
  // inclusion proof into the old root plus one of the old root into the new tree
  // make it genuine without checking the old signature.
  lemma ObservationSurvivesRenotarization(
      h: Hash, run: Run, json: NotaryRoot -> Bytes, oldRoots: seq<NotaryRoot>,
      observation: Bytes, proof: InclusionProof, root: NotaryRoot, rootProof: InclusionProof, s: set<Input>)
    requires GoodRun(h, run) && Injective(json)
    requires forall i :: 0 <= i < |oldRoots| ==> IsSealed(run, oldRoots[i])
    requires root.rootHex.Hex? && proof.leafCount == root.leafCount
    requires Accepts(h, h.leaf(observation), proof, root.rootHex.digest)
    requires rootProof.leafCount == |oldRoots|
    requires Accepts(h, h.leaf(json(Canonical(root))), rootProof, Root(h, LeafHashes(h, RootBytes(json, oldRoots))))
    requires h.CollisionFree(s) && Covers(h, s, run, observation, proof)
    requires LeafInput(json(Canonical(root))) in s && BatchInputs(h, RootBytes(json, oldRoots)) <= s
    requires ProofInputs(h, h.leaf(json(Canonical(root))), rootProof) <= s
    ensures Genuine(run, observation, proof, root)
  {
    RenotarizedRootIsOld(h, json, oldRoots, root, rootProof, s);
    assert IsSealed(run, oldRoots[rootProof.leafIndex]);
    var k :| 0 <= k < |run.sealed| && run.sealed[k].root == oldRoots[rootProof.leafIndex];
    IncludedMeansAccepted(h, run, observation, proof, root, k, s);
  }
}
