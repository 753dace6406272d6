// rucelium-notary/src/tree.rs: the Merkle tree, its prover and its stateless
// verifier.  Theorems that need collision resistance ask only that there is no
// collision among the finitely many inputs that were actually hashed.
module Merkle {
  import opened Common
  import opened Hashing
  import opened Words

  // ---------------------------------------------------------------------
  // Tree geometry
  // ---------------------------------------------------------------------

  function Half(n: nat): nat {
    (n + 1) / 2
  }

  // The tail of an odd level has no sibling: it moves up unchanged.
  predicate Promoted(idx: nat, size: nat) {
    size > 0 && idx == size - 1 && size % 2 == 1
  }

  function NextLevel(h: Hash, level: seq<Digest>): (next: seq<Digest>)
    ensures |next| == Half(|level|)
  {
    if |level| <= 1 then level
    else [h.node(level[0], level[1])] + NextLevel(h, level[2..])
  }

  function Levels(h: Hash, leaves: seq<Digest>): (levels: seq<seq<Digest>>)
    requires |leaves| > 0
    ensures |levels| > 0 && levels[0] == leaves
    ensures |levels[|levels| - 1]| == 1
    decreases |leaves|
  {
    if |leaves| == 1 then [leaves] else [leaves] + Levels(h, NextLevel(h, leaves))
  }

  function Root(h: Hash, leaves: seq<Digest>): Digest
    decreases |leaves|
  {
    if |leaves| == 0 then h.empty
    else if |leaves| == 1 then leaves[0]
    else Root(h, NextLevel(h, leaves))
  }

  // A path step: the sibling digest, and whether it sits on the right.
  datatype Step = Step(digest: Digest, isRight: bool)

  function Sibling(level: seq<Digest>, idx: nat): Step
    requires idx < |level| && !Promoted(idx, |level|)
  {
    if idx % 2 == 0 then Step(level[idx + 1], true) else Step(level[idx - 1], false)
  }

  function PathHead(level: seq<Digest>, idx: nat): seq<Step>
    requires idx < |level|
  {
    if Promoted(idx, |level|) then [] else [Sibling(level, idx)]
  }

  function Path(h: Hash, level: seq<Digest>, idx: nat): seq<Step>
    requires idx < |level|
    decreases |level|
  {
    if |level| == 1 then []
    else PathHead(level, idx) + Path(h, NextLevel(h, level), idx / 2)
  }

  datatype InclusionProof = InclusionProof(leafIndex: nat, leafCount: nat, siblings: seq<Step>)

  function Join(h: Hash, acc: Digest, step: Step): Digest {
    if step.isRight then h.node(acc, step.digest) else h.node(step.digest, acc)
  }

  // The root that `acc` at position idx of a level of `size` nodes reaches
  // along exactly the steps of `path`; None when the path does not fit.
  function Climb(h: Hash, acc: Digest, idx: nat, size: nat, path: seq<Step>): Option<Digest>
    decreases size
  {
    if size <= 1 then (if path == [] then Some(acc) else None)
    else if Promoted(idx, size) then Climb(h, acc, idx / 2, Half(size), path)
    else if path == [] || path[0].isRight != (idx % 2 == 0) then None
    else Climb(h, Join(h, acc, path[0]), idx / 2, Half(size), path[1..])
  }

  predicate Accepts(h: Hash, leaf: Digest, proof: InclusionProof, root: Digest) {
    && proof.leafIndex < proof.leafCount
    && Climb(h, leaf, proof.leafIndex, proof.leafCount, proof.siblings) == Some(root)
  }

  // ---------------------------------------------------------------------
  // The tree itself
  // ---------------------------------------------------------------------

  datatype MerkleTree = MerkleTree(levels: seq<seq<Digest>>) {
    function Leaves(): seq<Digest> {
      if levels == [] then [] else levels[0]
    }

    function TreeRoot(h: Hash): Digest {
      if levels == [] || levels[|levels| - 1] == [] then h.empty else levels[|levels| - 1][0]
    }

    // What Build produces.
    ghost predicate Built(h: Hash) {
      levels == if Leaves() == [] then [] else Levels(h, Leaves())
    }
  }

  method Build(h: Hash, leaves: seq<Digest>) returns (tree: MerkleTree)
    ensures tree.Built(h) && tree.Leaves() == leaves
    ensures tree.TreeRoot(h) == Root(h, leaves)
  {
    if leaves == [] {
      return MerkleTree([]);
    }
    var levels := [leaves];
    while |levels[|levels| - 1]| > 1
      invariant |levels| > 0 && levels[0] == leaves && |levels[|levels| - 1]| > 0
      invariant Levels(h, leaves) == levels[..|levels| - 1] + Levels(h, levels[|levels| - 1])
      decreases |levels[|levels| - 1]|
    {
      var current := levels[|levels| - 1];
      var next := BuildNextLevel(h, current);
      LevelsGrow(h, levels, next);
      levels := levels + [next];
    }
    assert levels[..|levels| - 1] + [levels[|levels| - 1]] == levels;
    tree := MerkleTree(levels);
    LastLevelIsRoot(h, leaves);
  }

  method BuildNextLevel(h: Hash, current: seq<Digest>) returns (next: seq<Digest>)
    ensures next == NextLevel(h, current)
  {
    next := [];
    var i := 0;
    while i + 1 < |current|
      invariant i <= |current|
      invariant NextLevel(h, current) == next + NextLevel(h, current[i..])
    {
      assert current[i..][2..] == current[i + 2..];
      Associative(next, [h.node(current[i], current[i + 1])], NextLevel(h, current[i + 2..]));
      next := next + [h.node(current[i], current[i + 1])];
      i := i + 2;
    }
    if i < |current| {
      next := next + [current[i]];
    }
  }

  lemma LevelsGrow(h: Hash, levels: seq<seq<Digest>>, next: seq<Digest>)
    requires |levels| > 0 && |levels[|levels| - 1]| > 1 && next == NextLevel(h, levels[|levels| - 1])
    ensures levels[..|levels| - 1] + Levels(h, levels[|levels| - 1])
         == (levels + [next])[..|levels|] + Levels(h, next)
  {
    var current := levels[|levels| - 1];
    hide NextLevel;
    assert Levels(h, current) == [current] + Levels(h, next);
    hide Levels;
    assert (levels + [next])[..|levels|] == levels == levels[..|levels| - 1] + [current];
    Associative(levels[..|levels| - 1], [current], Levels(h, next));
  }

  lemma {:induction false} LastLevelIsRoot(h: Hash, leaves: seq<Digest>)
    requires |leaves| > 0
    ensures Levels(h, leaves)[|Levels(h, leaves)| - 1] == [Root(h, leaves)]
    decreases |leaves|
  {
    if |leaves| > 1 {
      LastLevelIsRoot(h, NextLevel(h, leaves));
    }
  }

  // Position of the first leaf equal to `leaf`.
  method IndexOf(tree: MerkleTree, leaf: Digest) returns (index: Option<nat>)
    ensures index.None? <==> leaf !in tree.Leaves()
    ensures index.Some? ==> index.value < |tree.Leaves()| && tree.Leaves()[index.value] == leaf
                            && leaf !in tree.Leaves()[..index.value]
  {
    var leaves := tree.Leaves();
    for i := 0 to |leaves|
      invariant leaf !in leaves[..i]
    {
      if leaves[i] == leaf {
        return Some(i);
      }
    }
    assert leaves[..|leaves|] == leaves;
    return None;
  }

  method Prove(h: Hash, tree: MerkleTree, index: nat) returns (proof: Option<InclusionProof>)
    requires tree.Built(h)
    ensures proof == if index < |tree.Leaves()|
                     then Some(InclusionProof(index, |tree.Leaves()|, Path(h, tree.Leaves(), index)))
                     else None
  {
    var leaves := tree.Leaves();
    if index >= |leaves| {
      return None;
    }
    var siblings: seq<Step> := [];
    var idx := index;
    var k := 0;
    assert tree.levels[0..] == tree.levels;
    while k < |tree.levels| && |tree.levels[k]| > 1
      invariant k < |tree.levels| && 0 <= idx < |tree.levels[k]|
      invariant Levels(h, tree.levels[k]) == tree.levels[k..]
      invariant Path(h, leaves, index) == siblings + Path(h, tree.levels[k], idx)
    {
      var level := tree.levels[k];
      LevelsTail(h, tree.levels, k);
      Associative(siblings, PathHead(level, idx), Path(h, tree.levels[k + 1], idx / 2));
      siblings := siblings + PathHead(level, idx);
      idx := idx / 2;
      k := k + 1;
    }
    assert siblings + [] == siblings;
    return Some(InclusionProof(index, |leaves|, siblings));
  }

  lemma Associative<T>(a: seq<T>, b: seq<T>, c: seq<T>)
    ensures (a + b) + c == a + (b + c)
  {
  }

  lemma LevelsTail(h: Hash, levels: seq<seq<Digest>>, k: nat)
    requires k < |levels| && |levels[k]| > 1 && Levels(h, levels[k]) == levels[k..]
    ensures k + 1 < |levels| && levels[k + 1] == NextLevel(h, levels[k])
    ensures Levels(h, levels[k + 1]) == levels[k + 1..]
  {
    var tail := Levels(h, NextLevel(h, levels[k]));
    assert levels[k..] == [levels[k]] + tail;
    assert levels[k + 1..] == levels[k..][1..] == tail;
    assert levels[k + 1] == tail[0];
  }

  method VerifyInclusion(h: Hash, leaf: Digest, proof: InclusionProof, root: Digest) returns (ok: bool)
    ensures ok <==> Accepts(h, leaf, proof, root)
  {
    if proof.leafCount == 0 || proof.leafIndex >= proof.leafCount {
      return false;
    }
    var acc, idx, size, consumed := leaf, proof.leafIndex, proof.leafCount, 0;
    while size > 1
      invariant consumed <= |proof.siblings| && idx < size
      invariant Climb(h, leaf, proof.leafIndex, proof.leafCount, proof.siblings)
             == Climb(h, acc, idx, size, proof.siblings[consumed..])
      decreases size
    {
      var promotedTail := idx == size - 1 && size % 2 == 1;
      if !promotedTail {
        if consumed >= |proof.siblings| {
          return false;
        }
        var step := proof.siblings[consumed];
        if step.isRight != (idx % 2 == 0) {
          return false;
        }
        assert proof.siblings[consumed..][1..] == proof.siblings[consumed + 1..];
        acc := if step.isRight then h.node(acc, step.digest) else h.node(step.digest, acc);
        consumed := consumed + 1;
      }
      idx := idx / 2;
      size := (size + 1) / 2;
    }
    return consumed == |proof.siblings| && acc == root;
  }

  // ---------------------------------------------------------------------
  // Completeness, soundness and uniqueness of inclusion proofs
  // ---------------------------------------------------------------------

  // Every honest proof verifies.
  lemma {:induction false} HonestProofVerifies(h: Hash, leaves: seq<Digest>, i: nat)
    requires i < |leaves|
    ensures Accepts(h, leaves[i], InclusionProof(i, |leaves|, Path(h, leaves, i)), Root(h, leaves))
    decreases |leaves|
  {
    if |leaves| > 1 {
      var next := NextLevel(h, leaves);
      HonestProofVerifies(h, next, i / 2);
      HonestStep(h, leaves, i);
      var path := Path(h, leaves, i);
      if Promoted(i, |leaves|) {
        assert path == Path(h, next, i / 2);
      } else {
        assert path[1..] == Path(h, next, i / 2);
      }
    }
  }

  // One level up: a promoted tail keeps its digest, any other node joins its sibling.
  lemma {:induction false} HonestStep(h: Hash, level: seq<Digest>, i: nat)
    requires i < |level| && |level| > 1
    ensures NextLevel(h, level)[i / 2] == if Promoted(i, |level|) then level[i]
                                          else Join(h, level[i], Sibling(level, i))
  {
    if i >= 2 && |level| > 3 {
      HonestStep(h, level[2..], i - 2);
    }
  }

  // The strings hashed to join neighbours on one level.
  ghost function PairInputs(level: seq<Digest>): set<Input> {
    if |level| <= 1 then {} else {NodeInput(level[0], level[1])} + PairInputs(level[2..])
  }

  // The strings hashed while building the levels above `leaves`.
  ghost function BuildInputs(h: Hash, leaves: seq<Digest>): set<Input>
    decreases |leaves|
  {
    if |leaves| <= 1 then {}
    else PairInputs(leaves) + BuildInputs(h, NextLevel(h, leaves))
  }

  function JoinInput(acc: Digest, step: Step): Input {
    if step.isRight then NodeInput(acc, step.digest) else NodeInput(step.digest, acc)
  }

  // The strings hashed by the verifier.
  ghost function ClimbInputs(h: Hash, acc: Digest, idx: nat, size: nat, path: seq<Step>): set<Input>
    decreases size
  {
    if size <= 1 then {}
    else if Promoted(idx, size) then ClimbInputs(h, acc, idx / 2, Half(size), path)
    else if path == [] || path[0].isRight != (idx % 2 == 0) then {}
    else {JoinInput(acc, path[0])} + ClimbInputs(h, Join(h, acc, path[0]), idx / 2, Half(size), path[1..])
  }

  ghost function ProofInputs(h: Hash, leaf: Digest, proof: InclusionProof): set<Input> {
    ClimbInputs(h, leaf, proof.leafIndex, proof.leafCount, proof.siblings)
  }

  // An accepted proof of the true count proves exactly the leaf at its index, by
  // exactly the sibling path the prover would have produced.
  lemma AcceptedProofIsHonest(h: Hash, leaves: seq<Digest>, leaf: Digest, proof: InclusionProof)
    requires proof.leafCount == |leaves|
    requires Accepts(h, leaf, proof, Root(h, leaves))
    requires h.CollisionFree(BuildInputs(h, leaves) + ProofInputs(h, leaf, proof))
    ensures leaf == leaves[proof.leafIndex]
    ensures proof.siblings == Path(h, leaves, proof.leafIndex)
  {
    ClimbIsHonest(h, leaves, leaf, proof.leafIndex, proof.siblings);
  }

  lemma {:induction false} ClimbIsHonest(h: Hash, level: seq<Digest>, acc: Digest, i: nat, path: seq<Step>)
    requires i < |level|
    requires Climb(h, acc, i, |level|, path) == Some(Root(h, level))
    requires h.CollisionFree(BuildInputs(h, level) + ClimbInputs(h, acc, i, |level|, path))
    ensures acc == level[i] && path == Path(h, level, i)
    decreases |level|
  {
    if |level| > 1 {
      var next := NextLevel(h, level);
      if Promoted(i, |level|) {
        HonestStep(h, level, i);
        ClimbIsHonest(h, next, acc, i / 2, path);
      } else {
        var acc' := Join(h, acc, path[0]);
        ClimbIsHonest(h, next, acc', i / 2, path[1..]);
        var s := BuildInputs(h, level) + ClimbInputs(h, acc, i, |level|, path);
        JoinIsHonest(h, s, level, acc, i, path[0]);
        assert path == [path[0]] + path[1..];
      }
    }
  }

  lemma {:induction false} JoinIsHonest(h: Hash, s: set<Input>, level: seq<Digest>, acc: Digest, i: nat, step: Step)
    requires i < |level| && |level| > 1 && !Promoted(i, |level|)
    requires step.isRight == (i % 2 == 0)
    requires Join(h, acc, step) == NextLevel(h, level)[i / 2]
    requires h.CollisionFree(s) && JoinInput(acc, step) in s && PairInputs(level) <= s
    ensures acc == level[i] && step == Sibling(level, i)
  {
    if i < 2 {
      h.EqualDigests(s, JoinInput(acc, step), NodeInput(level[0], level[1]));
    } else {
      JoinIsHonest(h, s, level[2..], acc, i - 2, step);
    }
  }

  // ---------------------------------------------------------------------
  // How far leaf_count is checked by the path alone
  // ---------------------------------------------------------------------

  // The side flags that position idx of a level of `size` nodes demands.
  ghost function Sides(idx: nat, size: nat): seq<bool>
    decreases size
  {
    if size <= 1 then []
    else (if Promoted(idx, size) then [] else [idx % 2 == 0]) + Sides(idx / 2, Half(size))
  }

  ghost function Flags(path: seq<Step>): seq<bool> {
    seq(|path|, i requires 0 <= i < |path| => path[i].isRight)
  }

  ghost function Fold(h: Hash, acc: Digest, path: seq<Step>): Digest
    decreases |path|
  {
    if path == [] then acc else Fold(h, Join(h, acc, path[0]), path[1..])
  }

  // What the verifier decides, without the level walk: the path has the side
  // flags the geometry demands, and folds to the root.
  lemma {:induction false} ClimbIsFold(h: Hash, acc: Digest, idx: nat, size: nat, path: seq<Step>)
    requires idx < size
    ensures Climb(h, acc, idx, size, path)
         == if Flags(path) == Sides(idx, size) then Some(Fold(h, acc, path)) else None
    decreases size
  {
    if size > 1 {
      var sides := Sides(idx / 2, Half(size));
      if Promoted(idx, size) {
        assert [] + sides == sides;
        ClimbIsFold(h, acc, idx / 2, Half(size), path);
      } else if path != [] {
        ClimbIsFold(h, Join(h, acc, path[0]), idx / 2, Half(size), path[1..]);
        assert Flags(path) == [path[0].isRight] + Flags(path[1..]);
        assert ([path[0].isRight] + Flags(path[1..]))[1..] == Flags(path[1..]);
        assert ([idx % 2 == 0] + sides)[1..] == sides;
      }
    } else {
      assert Flags(path) == [] <==> path == [];
    }
  }

  // Re-declaring the count of an accepted proof goes unnoticed exactly when the
  // index demands the same sides in both trees; binding the count to the batch
  // is left to the signed root.
  lemma CountIsBoundOnlyUpToShape(h: Hash, leaf: Digest, proof: InclusionProof, root: Digest, count: nat)
    requires Accepts(h, leaf, proof, root)
    ensures Accepts(h, leaf, proof.(leafCount := count), root)
       <==> proof.leafIndex < count && Sides(proof.leafIndex, count) == Sides(proof.leafIndex, proof.leafCount)
  {
    ClimbIsFold(h, leaf, proof.leafIndex, proof.leafCount, proof.siblings);
    if proof.leafIndex < count {
      ClimbIsFold(h, leaf, proof.leafIndex, count, proof.siblings);
    }
  }

  // The instance the repository's own test records: 7 and 8 leaves at index 3.
  lemma SevenLooksLikeEightAtIndexThree()
    ensures Sides(3, 7) == Sides(3, 8) == [false, false, true]
    ensures Sides(3, 7) != Sides(3, 4) && Sides(3, 8) != Sides(3, 9)
  {
  }

  // ---------------------------------------------------------------------
  // Shape
  // ---------------------------------------------------------------------

  ghost function CeilDiv(n: nat, d: nat): nat
    requires d > 0
  {
    (n + d - 1) / d
  }

  lemma {:induction false} LevelSizes(h: Hash, leaves: seq<Digest>, k: nat)
    requires |leaves| > 0 && k < |Levels(h, leaves)|
    ensures |Levels(h, leaves)[k]| == CeilDiv(|leaves|, Pow2(k))
    decreases k
  {
    if k > 0 {
      var next := NextLevel(h, leaves);
      LevelSizes(h, next, k - 1);
      assert Levels(h, leaves)[k] == Levels(h, next)[k - 1];
      HalvingCeil(|leaves|, Pow2(k - 1));
    }
  }

  lemma HalvingCeil(n: nat, d: nat)
    requires d > 0
    ensures CeilDiv(Half(n), d) == CeilDiv(n, 2 * d)
  {
    var q := CeilDiv(n, 2 * d);
    assert 2 * (d * q) <= n + 2 * d - 1 < 2 * (d * q) + 2 * d;
    DivIs(Half(n) + d - 1, d, q);
  }

  lemma DivIs(x: nat, d: nat, q: nat)
    requires d > 0 && d * q <= x < d * q + d
    ensures x / d == q
  {
    var r := x / d;
    assert d * r <= x < d * r + d;
    if r < q {
      Multiple(d, r, q);
    } else if q < r {
      Multiple(d, q, r);
    }
  }

  lemma {:induction false} Multiple(d: nat, a: nat, b: nat)
    requires a < b
    ensures d * a + d <= d * b
  {
    assert d * b == d * (b - 1) + d;
    if a < b - 1 {
      Multiple(d, a, b - 1);
    }
  }

  // A path never has more than ceil(log2 n) steps, and has exactly log2 n of
  // them when n is a power of two.
  lemma {:induction false} PathLength(h: Hash, leaves: seq<Digest>, i: nat, log: nat)
    requires i < |leaves| <= Pow2(log)
    ensures |Path(h, leaves, i)| <= log
    ensures |leaves| == Pow2(log) ==> |Path(h, leaves, i)| == log
    decreases |leaves|
  {
    if |leaves| > 1 {
      var next := NextLevel(h, leaves);
      assert |next| <= Pow2(log - 1) && (|leaves| == Pow2(log) ==> |next| == Pow2(log - 1));
      PathLength(h, next, i / 2, log - 1);
    }
  }

  // ---------------------------------------------------------------------
  // Agreement with section 2.1 of RFC 6962
  // ---------------------------------------------------------------------

  ghost predicate IsPow2(n: nat) {
    exists e: nat :: n == Pow2(e)
  }

  // The largest power of two below n, by doubling.
  function SplitFrom(k: nat, n: nat): (s: nat)
    requires 0 < k < n
    ensures k <= s < n <= 2 * s
    decreases n - k
  {
    if 2 * k < n then SplitFrom(2 * k, n) else k
  }

  function Split(n: nat): (s: nat)
    requires n > 1
    ensures 0 < s < n <= 2 * s
  {
    SplitFrom(1, n)
  }

  // The recursive tree hash of RFC 6962, with this repository's empty root.
  function TreeHash(h: Hash, leaves: seq<Digest>): Digest
    decreases |leaves|
  {
    if |leaves| == 0 then h.empty
    else if |leaves| == 1 then leaves[0]
    else
      var k := Split(|leaves|);
      h.node(TreeHash(h, leaves[..k]), TreeHash(h, leaves[k..]))
  }

  // The recursive audit path of section 2.1.1, bottom-up.
  function AuditPath(h: Hash, leaves: seq<Digest>, m: nat): seq<Step>
    requires m < |leaves|
    decreases |leaves|
  {
    if |leaves| == 1 then []
    else
      var k := Split(|leaves|);
      if m < k then AuditPath(h, leaves[..k], m) + [Step(TreeHash(h, leaves[k..]), true)]
      else AuditPath(h, leaves[k..], m - k) + [Step(TreeHash(h, leaves[..k]), false)]
  }

  lemma {:induction false} SplitFromIsPow2(k: nat, n: nat)
    requires 0 < k < n && IsPow2(k)
    ensures IsPow2(SplitFrom(k, n))
    decreases n - k
  {
    if 2 * k < n {
      var e: nat :| k == Pow2(e);
      assert 2 * k == Pow2(e + 1);
      SplitFromIsPow2(2 * k, n);
    }
  }

  lemma PowersAreSpread(a: nat, b: nat, n: nat)
    requires IsPow2(a) && IsPow2(b) && a < n <= 2 * a && b < n <= 2 * b
    ensures a == b
  {
    var d: nat :| a == Pow2(d);
    var e: nat :| b == Pow2(e);
    if d < e {
      Pow2Monotone(d + 1, e);
    } else if e < d {
      Pow2Monotone(e + 1, d);
    }
  }

  // Halving the list halves the split point, which is even.
  lemma SplitHalves(n: nat)
    requires n > 2
    ensures Split(n) % 2 == 0 && Split(Half(n)) == Split(n) / 2
  {
    assert 1 == Pow2(0);
    SplitFromIsPow2(1, n);
    SplitFromIsPow2(1, Half(n));
    var e: nat :| Split(n) == Pow2(e);
    assert Split(n) / 2 == Pow2(e - 1);
    PowersAreSpread(Split(Half(n)), Split(n) / 2, Half(n));
  }

  lemma {:induction false} NextLevelSplits(h: Hash, leaves: seq<Digest>, k: nat)
    requires k % 2 == 0 && k <= |leaves|
    ensures NextLevel(h, leaves)[..k / 2] == NextLevel(h, leaves[..k])
    ensures NextLevel(h, leaves)[k / 2..] == NextLevel(h, leaves[k..])
  {
    if k == 0 {
      assert leaves[0..] == leaves && leaves[..0] == [];
    } else {
      var rest := leaves[2..];
      NextLevelSplits(h, rest, k - 2);
      assert leaves[..k][2..] == rest[..k - 2] && leaves[k..] == rest[k - 2..];
      assert NextLevel(h, leaves)[1..] == NextLevel(h, rest);
      assert NextLevel(h, leaves)[k / 2..] == NextLevel(h, rest)[(k - 2) / 2..];
    }
  }

  lemma {:induction false} TreeHashOfNextLevel(h: Hash, leaves: seq<Digest>)
    requires |leaves| > 0
    ensures TreeHash(h, NextLevel(h, leaves)) == TreeHash(h, leaves)
    decreases |leaves|
  {
    if |leaves| == 1 {
      assert NextLevel(h, leaves) == leaves;
    } else if |leaves| == 2 {
      assert leaves[..1] == [leaves[0]] && leaves[1..] == [leaves[1]];
    } else {
      var k := Split(|leaves|);
      SplitHalves(|leaves|);
      NextLevelSplits(h, leaves, k);
      TreeHashOfNextLevel(h, leaves[..k]);
      TreeHashOfNextLevel(h, leaves[k..]);
    }
  }

  // Building level by level with odd-tail promotion gives the RFC's root ...
  lemma {:induction false} RootIsTreeHash(h: Hash, leaves: seq<Digest>)
    ensures Root(h, leaves) == TreeHash(h, leaves)
    decreases |leaves|
  {
    if |leaves| > 1 {
      TreeHashOfNextLevel(h, leaves);
      RootIsTreeHash(h, NextLevel(h, leaves));
    }
  }

  // The level above peels exactly the first step off an audit path.
  ghost predicate PeelsOneStep(h: Hash, leaves: seq<Digest>, m: nat)
    requires m < |leaves|
  {
    AuditPath(h, leaves, m) == PathHead(leaves, m) + AuditPath(h, NextLevel(h, leaves), m / 2)
  }

  lemma {:induction false} AuditPathPeels(h: Hash, leaves: seq<Digest>, m: nat)
    requires m < |leaves|
    ensures PeelsOneStep(h, leaves, m)
    decreases |leaves|
  {
    hide PeelsOneStep, SplitFrom;
    if |leaves| <= 2 {
      PairPeels(h, leaves, m);
    } else {
      var k := Split(|leaves|);
      if m < k {
        AuditPathPeels(h, leaves[..k], m);
        PeelsFromLeft(h, leaves, k, m);
      } else {
        AuditPathPeels(h, leaves[k..], m - k);
        PeelsFromRight(h, leaves, k, m);
      }
    }
  }

  lemma {:induction false} PairPeels(h: Hash, leaves: seq<Digest>, m: nat)
    requires m < |leaves| <= 2
    ensures PeelsOneStep(h, leaves, m)
  {
    if |leaves| == 2 {
      assert leaves[..1] == [leaves[0]] && leaves[1..] == [leaves[1]];
    }
  }

  lemma PeelsFromLeft(h: Hash, leaves: seq<Digest>, k: nat, m: nat)
    requires |leaves| > 2 && k == Split(|leaves|) && m < k && PeelsOneStep(h, leaves[..k], m)
    ensures PeelsOneStep(h, leaves, m)
  {
    hide PathHead, TreeHash, NextLevel, SplitFrom;
    SplitHalves(|leaves|);
    NextLevelSplits(h, leaves, k);
    TreeHashOfNextLevel(h, leaves[k..]);
    PathHeadOfPart(leaves, k, m);
    var top := [Step(TreeHash(h, leaves[k..]), true)];
    Associative(PathHead(leaves, m), AuditPath(h, NextLevel(h, leaves[..k]), m / 2), top);
  }

  lemma PeelsFromRight(h: Hash, leaves: seq<Digest>, k: nat, m: nat)
    requires |leaves| > 2 && k == Split(|leaves|) <= m < |leaves| && PeelsOneStep(h, leaves[k..], m - k)
    ensures PeelsOneStep(h, leaves, m)
  {
    hide PathHead, TreeHash, NextLevel, SplitFrom;
    SplitHalves(|leaves|);
    NextLevelSplits(h, leaves, k);
    TreeHashOfNextLevel(h, leaves[..k]);
    PathHeadOfPart(leaves, k, m);
    EvenShift(m, k);
    var top := [Step(TreeHash(h, leaves[..k]), false)];
    Associative(PathHead(leaves, m), AuditPath(h, NextLevel(h, leaves[k..]), (m - k) / 2), top);
  }

  lemma {:induction false} EvenShift(n: nat, k: nat)
    requires k <= n && k % 2 == 0
    ensures (n - k) % 2 == n % 2 && (n - k) / 2 == n / 2 - k / 2
  {
  }

  lemma {:induction false} PromotedOfPart(m: nat, k: nat, size: nat)
    requires k <= m < size && k % 2 == 0
    ensures Promoted(m - k, size - k) <==> Promoted(m, size)
  {
    EvenShift(size, k);
  }

  lemma {:induction false} SiblingOfPart(level: seq<Digest>, k: nat, m: nat)
    requires k <= m < |level| && k % 2 == 0 && !Promoted(m, |level|) && !Promoted(m - k, |level| - k)
    ensures Sibling(level[k..], m - k) == Sibling(level, m)
  {
    EvenShift(m, k);
  }

  lemma {:induction false} PathHeadOfPart(level: seq<Digest>, k: nat, m: nat)
    requires 0 < k < |level| && k % 2 == 0 && m < |level|
    ensures m < k ==> PathHead(level[..k], m) == PathHead(level, m)
    ensures k <= m ==> PathHead(level[k..], m - k) == PathHead(level, m)
  {
    if k <= m {
      hide Sibling, Promoted;
      PromotedOfPart(m, k, |level|);
      if !Promoted(m, |level|) {
        SiblingOfPart(level, k, m);
      }
    }
  }

  // ... and the prover's path is the RFC's audit path.
  lemma {:induction false} PathIsAuditPath(h: Hash, leaves: seq<Digest>, m: nat)
    requires m < |leaves|
    ensures Path(h, leaves, m) == AuditPath(h, leaves, m)
    decreases |leaves|
  {
    if |leaves| > 1 {
      AuditPathPeels(h, leaves, m);
      PathIsAuditPath(h, NextLevel(h, leaves), m / 2);
    }
  }

  // ---------------------------------------------------------------------
  // The root commits to the whole list
  // ---------------------------------------------------------------------

  function LeafHashes(h: Hash, batch: seq<Bytes>): (leaves: seq<Digest>)
    ensures |leaves| == |batch|
  {
    seq(|batch|, i requires 0 <= i < |batch| => h.leaf(batch[i]))
  }

  ghost function LeafInputs(batch: seq<Bytes>): set<Input> {
    set d | d in batch :: LeafInput(d)
  }

  // Everything hashed to seal a batch.
  ghost function BatchInputs(h: Hash, batch: seq<Bytes>): set<Input> {
    LeafInputs(batch) + BuildInputs(h, LeafHashes(h, batch)) + {EmptyInput}
  }

  ghost function TreeHashInputs(h: Hash, leaves: seq<Digest>): set<Input>
    decreases |leaves|
  {
    if |leaves| <= 1 then {}
    else
      var k := Split(|leaves|);
      {NodeInput(TreeHash(h, leaves[..k]), TreeHash(h, leaves[k..]))}
      + TreeHashInputs(h, leaves[..k]) + TreeHashInputs(h, leaves[k..])
  }

  lemma {:induction false} PairInputsSplit(level: seq<Digest>, k: nat)
    requires k % 2 == 0 && k <= |level|
    ensures PairInputs(level) == PairInputs(level[..k]) + PairInputs(level[k..])
  {
    if k == 0 {
      assert level[0..] == level;
    } else {
      var rest := level[2..];
      PairInputsSplit(rest, k - 2);
      assert level[..k][2..] == rest[..k - 2] && level[k..] == rest[k - 2..];
    }
  }

  lemma {:induction false} TreeHashInputsOfNextLevel(h: Hash, leaves: seq<Digest>)
    requires |leaves| > 0
    ensures TreeHashInputs(h, leaves) <= PairInputs(leaves) + TreeHashInputs(h, NextLevel(h, leaves))
    decreases |leaves|
  {
    if |leaves| == 1 {
    } else if |leaves| == 2 {
      assert leaves[..1] == [leaves[0]] && leaves[1..] == [leaves[1]];
    } else {
      var k := Split(|leaves|);
      SplitHalves(|leaves|);
      NextLevelSplits(h, leaves, k);
      TreeHashOfNextLevel(h, leaves[..k]);
      TreeHashOfNextLevel(h, leaves[k..]);
      TreeHashInputsOfNextLevel(h, leaves[..k]);
      TreeHashInputsOfNextLevel(h, leaves[k..]);
      PairInputsSplit(leaves, k);
    }
  }

  lemma {:induction false} TreeHashInputsAreBuilt(h: Hash, leaves: seq<Digest>)
    ensures TreeHashInputs(h, leaves) <= BuildInputs(h, leaves)
    decreases |leaves|
  {
    if |leaves| > 1 {
      TreeHashInputsOfNextLevel(h, leaves);
      TreeHashInputsAreBuilt(h, NextLevel(h, leaves));
    }
  }

  // Two batches of any lengths, zero included, with the same root are the same
  // batch: same length, same order, same content.
  lemma RootCommitsToBatch(h: Hash, a: seq<Bytes>, b: seq<Bytes>)
    requires Root(h, LeafHashes(h, a)) == Root(h, LeafHashes(h, b))
    requires h.CollisionFree(BatchInputs(h, a) + BatchInputs(h, b))
    ensures a == b
  {
    var la, lb := LeafHashes(h, a), LeafHashes(h, b);
    RootIsTreeHash(h, la);
    RootIsTreeHash(h, lb);
    TreeHashInputsAreBuilt(h, la);
    TreeHashInputsAreBuilt(h, lb);
    var s := BatchInputs(h, a) + BatchInputs(h, b);
    if a != [] {
      TreeHashShape(h, a);
    }
    if b != [] {
      TreeHashShape(h, b);
    }
    if a != [] && b != [] {
      TreeHashCommits(h, s, a, b);
    } else if a != [] {
      h.EqualDigests(s, TopInput(h, a), EmptyInput);
    } else if b != [] {
      h.EqualDigests(s, TopInput(h, b), EmptyInput);
    }
  }

  // The string whose hash is the tree hash of a non-empty batch.
  ghost function TopInput(h: Hash, batch: seq<Bytes>): Input
    requires batch != []
  {
    var leaves := LeafHashes(h, batch);
    if |batch| == 1 then LeafInput(batch[0])
    else NodeInput(TreeHash(h, leaves[..Split(|leaves|)]), TreeHash(h, leaves[Split(|leaves|)..]))
  }

  lemma TreeHashShape(h: Hash, batch: seq<Bytes>)
    requires batch != []
    ensures TreeHash(h, LeafHashes(h, batch)) == h.Of(TopInput(h, batch))
    ensures TopInput(h, batch) in LeafInputs(batch) + TreeHashInputs(h, LeafHashes(h, batch))
    ensures !TopInput(h, batch).EmptyInput?
  {
    assert batch[0] in batch;
  }

  lemma {:induction false} TreeHashCommits(h: Hash, s: set<Input>, a: seq<Bytes>, b: seq<Bytes>)
    requires a != [] && b != []
    requires TreeHash(h, LeafHashes(h, a)) == TreeHash(h, LeafHashes(h, b))
    requires h.CollisionFree(s)
    requires LeafInputs(a) <= s && TreeHashInputs(h, LeafHashes(h, a)) <= s
    requires LeafInputs(b) <= s && TreeHashInputs(h, LeafHashes(h, b)) <= s
    ensures a == b
    decreases |a|
  {
    TreeHashShape(h, a);
    TreeHashShape(h, b);
    h.EqualDigests(s, TopInput(h, a), TopInput(h, b));
    if |a| > 1 {
      var ka, kb := Split(|a|), Split(|b|);
      BatchSplits(h, a, ka);
      BatchSplits(h, b, kb);
      TreeHashCommits(h, s, a[..ka], b[..kb]);
      TreeHashCommits(h, s, a[ka..], b[kb..]);
    }
  }

  lemma BatchSplits(h: Hash, batch: seq<Bytes>, k: nat)
    requires k <= |batch|
    ensures LeafHashes(h, batch[..k]) == LeafHashes(h, batch)[..k]
    ensures LeafHashes(h, batch[k..]) == LeafHashes(h, batch)[k..]
    ensures LeafInputs(batch[..k]) <= LeafInputs(batch) && LeafInputs(batch[k..]) <= LeafInputs(batch)
    ensures batch == batch[..k] + batch[k..]
  {
  }
}
