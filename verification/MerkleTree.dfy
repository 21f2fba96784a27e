/**
 * The tree of known metadata that the build script makes (transaction_metadata/tree/index.js). The hash is
 * any function from texts to digests: collisions exist, and the results below name them where they matter.
 */
module MerkleTree {
  import opened Bytes
  import opened Metadata

  type Hash = bytes -> Digest

  const FAN := 7
  const DEPTH := 4
  const LEAVES := 2401

  /** What a node's `children` array holds: the text of a leaf, or nodes. */
  datatype Node = Text(text: bytes) | Node(hash: Digest, children: seq<Node>)

  function Payload(n: Node): bytes { if n.Text? then n.text else n.hash }

  function Payloads(ns: seq<Node>): bytes { if ns == [] then [] else Payload(ns[0]) + Payloads(ns[1..]) }

  lemma {:induction false} PayloadsSnoc(ns: seq<Node>, n: Node)
    ensures Payloads(ns + [n]) == Payloads(ns) + Payload(n)
    decreases |ns|
  {
    if ns == [] {
      assert [n][1..] == [] && Payload(n) + [] == Payload(n);
      assert ns + [n] == [n];
    } else {
      assert (ns + [n])[1..] == ns[1..] + [n];
      PayloadsSnoc(ns[1..], n);
    }
  }

  function Hashed(h: Hash, children: seq<Node>): Node { Node(h(Payloads(children)), children) }

  /** One node over its children, hashing what they stand for in order. */
  method ProcessMerkleTreeLevel(h: Hash, children: seq<Node>) returns (n: Node)
    ensures n == Hashed(h, children)
  {
    var hasher: bytes := [];
    for i := 0 to |children|
      invariant hasher == Payloads(children[..i])
    {
      PayloadsSnoc(children[..i], children[i]);
      assert children[..i + 1] == children[..i] + [children[i]];
      hasher := hasher + Payload(children[i]);
    }
    assert children[..|children|] == children;
    n := Node(h(hasher), children);
  }

  function Min(a: nat, b: nat): nat { if a < b then a else b }

  /** Consecutive groups of seven; the last may be shorter. */
  function Groups(ns: seq<Node>): (r: seq<seq<Node>>)
    ensures |ns| % FAN == 0 ==> |r| == |ns| / FAN
  {
    if ns == [] then [] else [ns[..Min(FAN, |ns|)]] + Groups(ns[Min(FAN, |ns|)..])
  }

  lemma {:induction false} GroupAt(ns: seq<Node>, i: nat)
    requires i < |Groups(ns)|
    ensures FAN * i < |ns| && Groups(ns)[i] == ns[FAN * i..Min(FAN * i + FAN, |ns|)]
    decreases i
  {
    if i > 0 {
      var rest := ns[Min(FAN, |ns|)..];
      GroupAt(rest, i - 1);
      var end := Min(FAN * i + FAN, |ns|);
      assert Min(FAN * (i - 1) + FAN, |rest|) == end - FAN;
      assert rest[FAN * (i - 1)..end - FAN] == ns[FAN * i..end];
    }
  }

  lemma {:induction false} GroupsSnoc(ns: seq<Node>, k: nat)
    requires FAN * k < |ns|
    ensures Groups(ns[..Min(FAN * k + FAN, |ns|)]) == Groups(ns[..FAN * k]) + [ns[FAN * k..Min(FAN * k + FAN, |ns|)]]
    decreases k
  {
    var end := Min(FAN * k + FAN, |ns|);
    if k == 0 {
      assert ns[..end][Min(FAN, end)..] == [] && ns[..FAN * k] == [];
      assert ns[..end][..Min(FAN, end)] == ns[FAN * k..end];
    } else {
      GroupsSnoc(ns[FAN..], k - 1);
      var rest := ns[FAN..];
      assert rest[..Min(FAN * (k - 1) + FAN, |rest|)] == ns[..end][FAN..];
      assert rest[..FAN * (k - 1)] == ns[..FAN * k][FAN..];
      assert rest[FAN * (k - 1)..Min(FAN * (k - 1) + FAN, |rest|)] == ns[FAN * k..end];
      assert ns[..end][..FAN] == ns[..FAN * k][..FAN];
    }
  }

  /** Pushes a slice at every seventh position. */
  method SplitTo7Tuples(ns: seq<Node>) returns (r: seq<seq<Node>>)
    ensures r == Groups(ns)
  {
    r := [];
    ghost var k := 0;
    for i := 0 to |ns|
      invariant k >= 0 && i <= FAN * k < i + FAN
      invariant r == Groups(ns[..Min(FAN * k, |ns|)])
    {
      if i % FAN == 0 {
        assert i == FAN * k;
        GroupsSnoc(ns, k);
        r := r + [ns[i..Min(i + FAN, |ns|)]];
        k := k + 1;
      }
    }
    assert ns[..|ns|] == ns;
  }

  function HashedAll(h: Hash, groups: seq<seq<Node>>): (r: seq<Node>)
    ensures |r| == |groups|
  {
    seq(|groups|, i requires 0 <= i < |groups| => Hashed(h, groups[i]))
  }

  function LeafNodes(h: Hash, texts: seq<bytes>): (r: seq<Node>)
    ensures |r| == |texts|
  {
    seq(|texts|, i requires 0 <= i < |texts| => Hashed(h, [Text(texts[i])]))
  }

  function Levels(h: Hash, ns: seq<Node>, d: nat): seq<Node> {
    if d == 0 then ns else HashedAll(h, Groups(Levels(h, ns, d - 1)))
  }

  function Padded(metadata: seq<bytes>): (r: seq<bytes>)
    requires |metadata| <= LEAVES
    ensures |r| == LEAVES
  {
    metadata + seq(LEAVES - |metadata|, _ => [])
  }

  /** The tree over the metadata, filled up with empty texts. */
  method Build(h: Hash, metadata: seq<bytes>) returns (root: Node)
    requires |metadata| <= LEAVES
    ensures [root] == Levels(h, LeafNodes(h, Padded(metadata)), DEPTH)
  {
    var nodes := LeafNodes(h, Padded(metadata));
    for i := 0 to DEPTH
      invariant nodes == Levels(h, LeafNodes(h, Padded(metadata)), i)
    {
      var groups := SplitTo7Tuples(nodes);
      var next: seq<Node> := [];
      for j := 0 to |groups|
        invariant next == HashedAll(h, groups)[..j]
      {
        var n := ProcessMerkleTreeLevel(h, groups[j]);
        next := next + [n];
      }
      nodes := next;
    }
    LevelsLength(h, LeafNodes(h, Padded(metadata)));
    root := nodes[0];
  }

  lemma LevelsLength(h: Hash, ns: seq<Node>)
    requires |ns| == LEAVES
    ensures |Levels(h, ns, 1)| == 343 && |Levels(h, ns, 2)| == 49 && |Levels(h, ns, 3)| == 7 && |Levels(h, ns, 4)| == 1
  {
    assert Levels(h, ns, 0) == ns;
    assert |Levels(h, ns, 1)| == 343;
    assert |Levels(h, ns, 2)| == 49;
    assert |Levels(h, ns, 3)| == 7;
  }

  // ---------------------------------------------------------------- complete trees

  /** A tree of depth `d` whose hashes are right. */
  predicate IsTree(h: Hash, n: Node, d: nat) {
    && n.Node? && n.hash == h(Payloads(n.children))
    && if d == 0 then |n.children| == 1 && n.children[0].Text?
       else |n.children| == FAN && forall i :: 0 <= i < FAN ==> IsTree(h, n.children[i], d - 1)
  }

  /** The texts at its leaves, left to right. */
  function Leaves(n: Node, d: nat): seq<bytes>
    decreases d, 0
  {
    if n.Text? then []
    else if d == 0 then (if |n.children| == 1 && n.children[0].Text? then [n.children[0].text] else [])
    else LeavesOf(n.children, d - 1)
  }

  function LeavesOf(ns: seq<Node>, d: nat): seq<bytes>
    decreases d, 1, |ns|
  {
    if ns == [] then [] else Leaves(ns[0], d) + LeavesOf(ns[1..], d)
  }

  lemma {:induction false} LeavesOfConcat(a: seq<Node>, b: seq<Node>, d: nat)
    ensures LeavesOf(a + b, d) == LeavesOf(a, d) + LeavesOf(b, d)
    decreases |a|
  {
    if a == [] {
      assert a + b == b;
    } else {
      assert (a + b)[1..] == a[1..] + b;
      LeavesOfConcat(a[1..], b, d);
    }
  }

  lemma {:induction false} GroupedLeaves(h: Hash, ns: seq<Node>, d: nat)
    ensures LeavesOf(HashedAll(h, Groups(ns)), d + 1) == LeavesOf(ns, d)
    decreases |ns|
  {
    if ns != [] {
      var k := Min(FAN, |ns|);
      var up := HashedAll(h, Groups(ns));
      assert up[1..] == HashedAll(h, Groups(ns[k..]));
      assert up[0] == Hashed(h, ns[..k]);
      GroupedLeaves(h, ns[k..], d);
      assert ns == ns[..k] + ns[k..];
      LeavesOfConcat(ns[..k], ns[k..], d);
    }
  }

  lemma GroupedTrees(h: Hash, ns: seq<Node>, d: nat)
    requires |ns| % FAN == 0 && forall i :: 0 <= i < |ns| ==> IsTree(h, ns[i], d)
    ensures forall i :: 0 <= i < |Groups(ns)| ==> IsTree(h, HashedAll(h, Groups(ns))[i], d + 1)
  {
    forall i | 0 <= i < |Groups(ns)| ensures IsTree(h, HashedAll(h, Groups(ns))[i], d + 1) {
      GroupAt(ns, i);
      var children := Groups(ns)[i];
      forall j | 0 <= j < FAN ensures IsTree(h, children[j], d) { assert children[j] == ns[FAN * i + j]; }
    }
  }

  lemma {:induction false} LevelsAreTrees(h: Hash, ns: seq<Node>, d: nat)
    requires d <= DEPTH && |ns| == LEAVES
    requires forall i :: 0 <= i < |ns| ==> IsTree(h, ns[i], 0)
    ensures forall i :: 0 <= i < |Levels(h, ns, d)| ==> IsTree(h, Levels(h, ns, d)[i], d)
    ensures LeavesOf(Levels(h, ns, d), d) == LeavesOf(ns, 0)
    decreases d
  {
    hide IsTree, Leaves, Groups;
    if d > 0 {
      var below := Levels(h, ns, d - 1);
      LevelsAreTrees(h, ns, d - 1);
      LevelsLength(h, ns);
      GroupedLeaves(h, below, d - 1);
      GroupedTrees(h, below, d - 1);
    }
  }

  lemma {:induction false} LeafNodesLeaves(h: Hash, texts: seq<bytes>)
    ensures LeavesOf(LeafNodes(h, texts), 0) == texts
    decreases |texts|
  {
    if texts != [] {
      assert LeafNodes(h, texts)[1..] == LeafNodes(h, texts[1..]);
      LeafNodesLeaves(h, texts[1..]);
    }
  }

  /** The built tree is complete, its hashes are right, and its leaves are the metadata in order. */
  lemma BuiltTree(h: Hash, metadata: seq<bytes>, root: Node)
    requires |metadata| <= LEAVES && [root] == Levels(h, LeafNodes(h, Padded(metadata)), DEPTH)
    ensures IsTree(h, root, DEPTH) && Leaves(root, DEPTH) == Padded(metadata)
  {
    var ns := LeafNodes(h, Padded(metadata));
    LevelsAreTrees(h, ns, DEPTH);
    LeafNodesLeaves(h, Padded(metadata));
    assert LeavesOf([root], DEPTH) == Leaves(root, DEPTH) + LeavesOf([root][1..], DEPTH);
  }
}
