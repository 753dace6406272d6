// The three hash domains of rucelium-notary/src/tree.rs.  SHA-256 is an arbitrary
// function from byte strings to 32-byte digests.
module Hashing {
  import opened Words

  type Bytes32 = b: Bytes | |b| == 32 witness seq(32, _ => 0)
  datatype Digest = Digest(bytes: Bytes32)

  const LEAF_DOMAIN: Byte := 0x00
  const NODE_DOMAIN: Byte := 0x01
  const EMPTY_DOMAIN: Byte := 0x02
  const EMPTY_TREE_LABEL := "rucelium.notary.empty"

  function Ascii(text: string): (b: Bytes)
    ensures |b| == |text|
  {
    seq(|text|, i requires 0 <= i < |text| => text[i] as int % 256)
  }

  // What is hashed: a leaf's canonical bytes, a pair of digests, or the label
  // of the empty batch.
  datatype Input = LeafInput(data: Bytes) | NodeInput(left: Digest, right: Digest) | EmptyInput

  function Encode(input: Input): Bytes {
    match input
    case LeafInput(data) => [LEAF_DOMAIN] + data
    case NodeInput(left, right) => [NODE_DOMAIN] + left.bytes + right.bytes
    case EmptyInput => [EMPTY_DOMAIN] + Ascii(EMPTY_TREE_LABEL)
  }

  // A digest for each kind of input.  The tree only ever hashes through this.
  datatype Hash = Hash(leaf: Bytes -> Digest, node: (Digest, Digest) -> Digest, empty: Digest) {
    function Of(input: Input): Digest {
      match input
      case LeafInput(data) => leaf(data)
      case NodeInput(left, right) => node(left, right)
      case EmptyInput => empty
    }

    // No two different inputs of s have the same digest.
    ghost predicate CollisionFree(s: set<Input>) {
      forall a, b :: a in s && b in s && Of(a) == Of(b) ==> a == b
    }

    lemma EqualDigests(s: set<Input>, a: Input, b: Input)
      requires CollisionFree(s) && a in s && b in s && Of(a) == Of(b)
      ensures a == b
    {
    }
  }

  // leaf_hash, node_hash and empty_root over one byte-string hash.
  function ShaHash(sha: Bytes -> Digest): Hash {
    Hash(data => sha(Encode(LeafInput(data))),
         (left, right) => sha(Encode(NodeInput(left, right))),
         sha(Encode(EmptyInput)))
  }

  // What is hashed, byte by byte: a leaf after 0, two digests, left first, after 1, and
  // the empty tree's label after 2.
  lemma {:induction false} EncodingsByByte(data: Bytes, left: Digest, right: Digest)
    ensures Encode(LeafInput(data))[0] == 0 && Encode(LeafInput(data))[1..] == data
    ensures var node := Encode(NodeInput(left, right));
            |node| == 65 && node[0] == 1 && node[1..33] == left.bytes && node[33..] == right.bytes
    ensures Encode(EmptyInput)[0] == 2 && Encode(EmptyInput)[1..] == Ascii("rucelium.notary.empty")
  {
  }

  // The three domains never share a byte string, and within a domain the byte
  // string names its parts.
  lemma DomainsAreSeparated(a: Input, b: Input)
    requires Encode(a) == Encode(b)
    ensures a == b
  {
    var x, y := Encode(a), Encode(b);
    match a {
      case LeafInput(data) =>
        assert x[0] == LEAF_DOMAIN == y[0] && x[1..] == data;
        assert b.LeafInput? && y[1..] == b.data;
      case NodeInput(left, right) =>
        assert x[0] == NODE_DOMAIN == y[0] && x[1..33] == left.bytes && x[33..] == right.bytes;
        assert b.NodeInput? && y[1..33] == b.left.bytes && y[33..] == b.right.bytes;
      case EmptyInput =>
        assert x[0] == EMPTY_DOMAIN == y[0];
    }
  }

  // So a byte-string hash without collisions among the encodings of s has none
  // between leaf, node and empty digests either: the depth-confusion defence.
  lemma ShaIsCollisionFree(sha: Bytes -> Digest, s: set<Input>)
    requires forall a, b :: a in s && b in s && sha(Encode(a)) == sha(Encode(b)) ==> Encode(a) == Encode(b)
    ensures ShaHash(sha).CollisionFree(s)
  {
    forall a, b | a in s && b in s && ShaHash(sha).Of(a) == ShaHash(sha).Of(b)
      ensures a == b
    {
      assert ShaHash(sha).Of(a) == sha(Encode(a)) && ShaHash(sha).Of(b) == sha(Encode(b));
      DomainsAreSeparated(a, b);
    }
  }
}
