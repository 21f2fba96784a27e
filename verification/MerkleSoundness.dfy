/**
 * What a finished proof shows, over every run of the device: the stored metadata is a leaf of the built
 * tree, or the run and the tree together contain two different texts with the same digest.
 */
module MerkleSoundness {
  import opened Bytes
  import opened Metadata
  import opened MerkleTree
  import opened ProofState
  import opened Chunks

  /** Each text after the first lists the digest of the one before. */
  predicate Linked(h: Hash, links: seq<bytes>) {
    forall i :: 0 < i < |links| ==> Contains(links[i], h(links[i - 1]))
  }

  /** The texts behind a proof: as many as its level, from the stored metadata to the running hash. */
  predicate Backs(h: Hash, p: Proof, links: seq<bytes>) {
    && |links| == p.level <= DEPTH + 1 && Linked(h, links)
    && (p.level > 0 ==> links[0] == p.metadata && p.hash == h(links[p.level - 1]))
  }

  /** One chunk keeps the backing, drops it, or adds its own text; every failed proof chunk drops it. */
  lemma StepBacks(h: Hash, z: Sizes, s: State, c: Chunk, links: seq<bytes>) returns (next: seq<bytes>)
    requires Backs(h, s.proof, links)
    ensures Backs(h, Step(h, z, s, c).0.proof, next)
    ensures next == links || next == [] || (c.data.Some? && next == links + [c.data.value] && IsProofChunk(c, |links|))
    ensures c.kind in {TX_METADATA, MERKLE_TREE, MERKLE_TREE_LAST} && c.p2 == 0 && c.data.Some? ==>
      Step(h, z, s, c).1.Thrown? ==> next == []
  {
    var after := Step(h, z, s, c).0.proof;
    if after.level == 0 {
      next := [];
    } else if after == s.proof {
      next := links;
    } else {
      next := links + [c.data.value];
    }
  }

  /** The kind of chunk that brings text number `i` of a proof. */
  predicate IsProofChunk(c: Chunk, i: nat) {
    if i == 0 then c.kind == TX_METADATA else c.kind == MERKLE_TREE || c.kind == MERKLE_TREE_LAST
  }

  /** The texts came in this order, at the places `at` of the run, each in a chunk of its kind. */
  predicate SentInOrder(chunks: seq<Chunk>, links: seq<bytes>, at: seq<nat>) {
    && |at| == |links|
    && (forall i :: 0 <= i < |at| ==>
          at[i] < |chunks| && chunks[at[i]].data == Some(links[i]) && IsProofChunk(chunks[at[i]], i))
    && (forall i, j :: 0 <= i < j < |at| ==> at[i] < at[j])
  }

  /** One chunk more changes nothing about the texts sent before, and may bring the next one. */
  lemma SentMore(chunks: seq<Chunk>, links: seq<bytes>, at: seq<nat>)
    requires chunks != [] && SentInOrder(chunks[..|chunks| - 1], links, at)
    ensures SentInOrder(chunks, links, at)
    ensures var c := chunks[|chunks| - 1];
      c.data.Some? && IsProofChunk(c, |links|) ==>
        SentInOrder(chunks, links + [c.data.value], at + [|chunks| - 1])
  {
    hide IsProofChunk;
  }

  /** At every moment of every run, the proof is backed by texts sent in that run, in the order of the proof. */
  lemma {:induction false} RunBacks(h: Hash, z: Sizes, s: State, chunks: seq<Chunk>)
    returns (links: seq<bytes>, at: seq<nat>)
    requires s.proof.level == 0
    ensures Backs(h, Run(h, z, s, chunks).proof, links) && SentInOrder(chunks, links, at)
  {
    hide Chunks.Step, IsProofChunk, SentInOrder, Linked;
    if chunks == [] {
      links, at := [], [];
      NothingSent(h, s.proof);
    } else {
      var before, c := chunks[..|chunks| - 1], chunks[|chunks| - 1];
      var earlier, places := RunBacks(h, z, s, before);
      links := StepBacks(h, z, Run(h, z, s, before), c, earlier);
      at := if links == earlier then places else if links == [] then [] else places + [|before|];
      SentMore(chunks, earlier, places);
      if links == [] && links != earlier { NoneSent(chunks); }
    }
  }

  lemma NothingSent(h: Hash, p: Proof)
    requires p.level == 0
    ensures Backs(h, p, []) && SentInOrder([], [], [])
  {
  }

  lemma NoneSent(chunks: seq<Chunk>)
    ensures SentInOrder(chunks, [], [])
  {
  }

  // ---------------------------------------------------------------- the tree

  /** The text is one of those hashed to make the tree. */
  predicate HashedIn(n: Node, d: nat, text: bytes)
    decreases d
  {
    n.Node? && (text == Payloads(n.children)
                || (d > 0 && exists i :: 0 <= i < |n.children| && HashedIn(n.children[i], d - 1, text)))
  }

  lemma {:induction false} PayloadsAt(ns: seq<Node>, i: nat)
    requires i < |ns| && forall k :: 0 <= k < |ns| ==> ns[k].Node?
    ensures |Payloads(ns)| == HASH_SIZE * |ns| && At(Payloads(ns), HASH_SIZE * i, ns[i].hash)
    decreases |ns|
  {
    var rest := Payloads(ns[1..]);
    if |ns| > 1 { PayloadsAt(ns[1..], if i == 0 then 0 else i - 1); }
    if i > 0 {
      forall j | 0 <= j < HASH_SIZE ensures ns[i].hash[j] == (ns[0].hash + rest)[HASH_SIZE * i + j] {
        AtIndex(rest, HASH_SIZE * (i - 1), ns[i].hash, j);
      }
    }
  }

  /** A digest listed by a node's text is the hash of one of its children. */
  lemma ListedChild(ns: seq<Node>, d: Digest) returns (i: nat)
    requires ns != [] && Contains(Payloads(ns), d) && forall k :: 0 <= k < |ns| ==> ns[k].Node?
    ensures i < |ns| && ns[i].hash == d
  {
    PayloadsAt(ns, 0);
    i :| 0 <= i < |Payloads(ns)| / HASH_SIZE && At(Payloads(ns), HASH_SIZE * i, d);
    PayloadsAt(ns, i);
    forall j | 0 <= j < HASH_SIZE ensures ns[i].hash[j] == d[j] {
      AtIndex(Payloads(ns), HASH_SIZE * i, d, j);
      AtIndex(Payloads(ns), HASH_SIZE * i, ns[i].hash, j);
    }
    assert ns[i].hash == d;
  }

  lemma {:induction false} LeavesOfChild(ns: seq<Node>, d: nat, i: nat, text: bytes)
    requires i < |ns| && text in Leaves(ns[i], d)
    ensures text in LeavesOf(ns, d)
    decreases i
  {
    if i > 0 { LeavesOfChild(ns[1..], d, i - 1, text); }
  }

  /** A chain up to the root starts at a leaf, unless two texts collide. */
  lemma {:induction false} LeafOrCollision(h: Hash, n: Node, d: nat, links: seq<bytes>) returns (x: bytes, y: bytes)
    requires IsTree(h, n, d) && |links| == d + 1 && Linked(h, links) && h(links[d]) == n.hash
    ensures links[0] in Leaves(n, d) || (x in links && HashedIn(n, d, y) && x != y && h(x) == h(y))
    decreases d
  {
    hide LeavesOf;
    x, y := links[d], Payloads(n.children);
    if x == y {
      if d == 0 {
        assert Payloads(n.children) == n.children[0].text + Payloads(n.children[1..]);
        assert n.children[0].text + [] == n.children[0].text;
      } else {
        var i := ListedChild(n.children, h(links[d - 1]));
        x, y := LeafOrCollision(h, n.children[i], d - 1, links[..d]);
        if links[0] in Leaves(n.children[i], d - 1) { LeavesOfChild(n.children, d - 1, i, links[0]); }
      }
    }
  }

  /**
   * Over every run from a device without a proof: when the metadata is accepted against the root of the
   * tree built from `known`, the run contains the five texts of a proof in order, the first of them is the
   * metadata, and it is one of the known texts - or the run and the tree exhibit a collision.
   */
  lemma AcceptedIsKnown(h: Hash, z: Sizes, s: State, chunks: seq<Chunk>, known: seq<bytes>, root: Node,
                        scriptHash: Digest)
    returns (links: seq<bytes>, at: seq<nat>, x: bytes, y: bytes)
    requires s.proof.level == 0 && |known| <= LEAVES && [root] == Levels(h, LeafNodes(h, Padded(known)), DEPTH)
    requires root.Node? && Accepted(Run(h, z, s, chunks).proof, root.hash, scriptHash).Got?
    ensures |links| == DEPTH + 1 && SentInOrder(chunks, links, at) && links[0] == Run(h, z, s, chunks).proof.metadata
    ensures links[0] in known || (x != y && h(x) == h(y) && x in links && HashedIn(root, DEPTH, y))
  {
    BuiltTree(h, known, root);
    links, at := RunBacks(h, z, s, chunks);
    x, y := LeafOrCollision(h, root, DEPTH, links);
    if links[0] in Leaves(root, DEPTH) {
      assert links[0] in Padded(known) && links[0] != [];
    }
  }
}
