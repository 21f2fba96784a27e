/**
 * The host's side: the index of script hashes and the cutting of empty branches from the build script
 * (transaction_metadata/tree/index.js), and the chunks sent for a signature (js/src/signTransaction.js).
 */
module Host {
  import opened Bytes
  import opened Metadata
  import opened MerkleTree
  import opened Chunks

  const CHUNK_SIZE := 250
  const INDEX_HASH_LEN := 8

  /** The text "Empty branch". */
  const EMPTY_BRANCH: bytes := [69, 109, 112, 116, 121, 32, 98, 114, 97, 110, 99, 104]

  datatype Spot = Spot(a: nat, b: nat, c: nat, d: nat)

  type Index = map<bytes, Spot>

  datatype Extra = SignMessage | Arbitrary | ScriptHash(hash: bytes)

  /** A slice whose bounds are cut to the text, as in JavaScript. */
  function Slice(s: bytes, from: nat, to: nat): bytes {
    if from < to && from < |s| then s[from..Min(to, |s|)] else []
  }

  // ---------------------------------------------------------------- the index

  /** How many hashes a leaf lists; none for the empty texts that fill the tree up. */
  function HashCount(text: bytes): nat { if text == [] then 0 else text[0] }

  function Entry(text: bytes, k: nat): bytes {
    Slice(text, 1 + HASH_SIZE * k, 1 + HASH_SIZE * k + INDEX_HASH_LEN)
  }

  predicate HasEntry(text: bytes, prefix: bytes) { exists k :: 0 <= k < HashCount(text) && Entry(text, k) == prefix }

  function SpotOf(p: nat): Spot { Spot(p / 7 / 7 / 7, p / 7 / 7 % 7, p / 7 % 7, p % 7) }

  function WithEntries(index: Index, text: bytes, spot: Spot, n: nat): Index {
    if n == 0 then index else WithEntries(index, text, spot, n - 1)[Entry(text, n - 1) := spot]
  }

  /** The entries of the first `n` leaves, later ones replacing earlier ones. */
  function IndexOf(texts: seq<bytes>, n: nat): Index
    requires n <= |texts|
  {
    if n == 0 then map[]
    else WithEntries(IndexOf(texts, n - 1), texts[n - 1], SpotOf(n - 1), HashCount(texts[n - 1]))
  }

  lemma {:induction false} WithEntriesIs(index: Index, text: bytes, spot: Spot, n: nat, prefix: bytes)
    ensures var after := WithEntries(index, text, spot, n);
      if exists k :: 0 <= k < n && Entry(text, k) == prefix then prefix in after && after[prefix] == spot
      else (prefix in after <==> prefix in index) && (prefix in index ==> after[prefix] == index[prefix])
  {
    if n > 0 {
      WithEntriesIs(index, text, spot, n - 1, prefix);
      if k :| 0 <= k < n && Entry(text, k) == prefix {
        if k < n - 1 { assert exists j :: 0 <= j < n - 1 && Entry(text, j) == prefix; }
      }
    }
  }

  /** The leaf that the index names for a prefix: the last one with such an entry. */
  predicate LastWith(texts: seq<bytes>, n: nat, prefix: bytes, p: nat)
    requires n <= |texts|
  {
    p < n && HasEntry(texts[p], prefix) && forall q :: p < q < n ==> !HasEntry(texts[q], prefix)
  }

  /** The index knows exactly the prefixes that some leaf lists, and names the last leaf that does. */
  lemma {:induction false} IndexNamesLast(texts: seq<bytes>, n: nat, prefix: bytes)
    requires n <= |texts|
    ensures prefix in IndexOf(texts, n) <==> exists p :: 0 <= p < n && HasEntry(texts[p], prefix)
    ensures prefix in IndexOf(texts, n) ==>
      exists p :: LastWith(texts, n, prefix, p) && IndexOf(texts, n)[prefix] == SpotOf(p)
  {
    hide SpotOf;
    if n > 0 {
      IndexNamesLast(texts, n - 1, prefix);
      var text := texts[n - 1];
      WithEntriesIs(IndexOf(texts, n - 1), text, SpotOf(n - 1), HashCount(text), prefix);
      if HasEntry(text, prefix) {
        assert LastWith(texts, n, prefix, n - 1);
      } else if prefix in IndexOf(texts, n - 1) {
        var p :| LastWith(texts, n - 1, prefix, p) && IndexOf(texts, n - 1)[prefix] == SpotOf(p);
        assert LastWith(texts, n, prefix, p);
      }
    }
  }

  // ---------------------------------------------------------------- where the leaves stand

  /** The number of leaves below `i` trees of depth `d`. */
  function Scale(i: nat, d: nat): nat { if d == 0 then i else FAN * Scale(i, d - 1) }

  lemma {:induction false} ScaleSum(a: nat, b: nat, d: nat)
    ensures Scale(a + b, d) == Scale(a, d) + Scale(b, d)
  {
    if d > 0 { ScaleSum(a, b, d - 1); }
  }

  lemma {:induction false} ScaleFan(i: nat, d: nat)
    ensures Scale(FAN * i, d) == Scale(i, d + 1)
  {
    if d > 0 { ScaleFan(i, d - 1); }
  }

  lemma {:induction false} LeavesLength(h: Hash, n: Node, d: nat)
    requires IsTree(h, n, d)
    ensures |Leaves(n, d)| == Scale(1, d)
    decreases d, 0
  {
    if d > 0 {
      LeavesOfAt(h, n.children, d - 1, FAN);
      ScaleFan(1, d - 1);
    }
  }

  /** The leaves of the tree at index `i` stand together, behind those of the trees before it. */
  lemma {:induction false} LeavesOfAt(h: Hash, ns: seq<Node>, d: nat, i: nat)
    requires i <= |ns| && forall k :: 0 <= k < |ns| ==> IsTree(h, ns[k], d)
    ensures |LeavesOf(ns, d)| == Scale(|ns|, d)
    ensures i < |ns| ==> At(LeavesOf(ns, d), Scale(i, d), Leaves(ns[i], d))
    decreases d, 1, |ns|
  {
    ScaleSum(0, 0, d);
    if ns != [] {
      var first, rest := Leaves(ns[0], d), LeavesOf(ns[1..], d);
      assert |first| == Scale(1, d) by { LeavesLength(h, ns[0], d); }
      LeavesOfAt(h, ns[1..], d, if i == 0 then 0 else i - 1);
      assert LeavesOf(ns, d) == first + rest;
      ScaleSum(1, |ns| - 1, d);
      AtSplit(first + rest, 0, first, rest);
      if 0 < i < |ns| {
        ScaleSum(1, i - 1, d);
        AtInside(first + rest, Scale(1, d), rest, Scale(i - 1, d), Leaves(ns[i], d));
      }
    }
  }

  lemma AtInside<T>(s: seq<T>, at: nat, t: seq<T>, off: nat, u: seq<T>)
    requires At(s, at, t) && At(t, off, u)
    ensures At(s, at + off, u)
  {
    forall j | 0 <= j < |u| ensures u[j] == s[at + off + j] { assert u[j] == t[off + j]; }
  }

  lemma Below(h: Hash, n: Node, d: nat, i: nat)
    requires 0 < d <= DEPTH && IsTree(h, n, d) && i < FAN
    ensures IsTree(h, n.children[i], d - 1)
    ensures At(Leaves(n, d), Width(d) * i, Leaves(n.children[i], d - 1))
    ensures |Leaves(n, d)| == 7 * Width(d)
  {
    LeavesLength(h, n, d);
    LeavesOfAt(h, n.children, d - 1, i);
    ScaleIs(i, d - 1);
    ScaleIs(FAN, d - 1);
  }

  lemma ScaleIs(i: nat, d: nat)
    requires d < DEPTH
    ensures Scale(i, d) == Width(d + 1) * i
  {
    assert d == 2 || d == 3 ==> Scale(i, d - 1) == FAN * Scale(i, d - 2);
    assert d == 3 ==> Scale(i, d - 2) == FAN * Scale(i, d - 3);
  }

  /** The number of leaves below a child of a node of depth `d`. */
  function Width(d: nat): nat
    requires 0 < d <= DEPTH
  {
    if d == 1 then 1 else if d == 2 then 7 else if d == 3 then 49 else 343
  }

  function PositionOf(s: Spot): nat { 343 * s.a + 49 * s.b + 7 * s.c + s.d }

  lemma ModSeven(q: nat, r: nat)
    requires r < 7
    ensures (7 * q + r) / 7 == q && (7 * q + r) % 7 == r
  {
  }

  lemma SpotOfPosition(s: Spot)
    requires s.b < FAN && s.c < FAN && s.d < FAN
    ensures SpotOf(PositionOf(s)) == s
  {
    var p, q := 49 * s.a + 7 * s.b + s.c, 7 * s.a + s.b;
    assert PositionOf(s) == 7 * p + s.d && p == 7 * q + s.c;
    ModSeven(p, s.d);
    ModSeven(q, s.c);
    ModSeven(s.a, s.b);
  }

  /** Marks the proofs that look inside `Stands`. */
  predicate Looking(d: nat) { true }

  /** A tree whose leaves stand in `all` from `at` on. */
  predicate Stands(h: Hash, all: seq<bytes>, at: nat, n: Node, d: nat) {
    forall e: nat {:trigger Looking(e)} :: Looking(e) && e == d ==> IsTree(h, n, e) && At(all, at, Leaves(n, e))
  }

  lemma ChildStands(h: Hash, all: seq<bytes>, at: nat, n: Node, d: nat, i: nat, next: nat)
    requires 0 < d <= DEPTH && Stands(h, all, at, n, d) && i < FAN && next == at + Width(d) * i
    ensures n.Node? && |n.children| == FAN && Stands(h, all, next, n.children[i], d - 1)
  {
    assert Looking(d);
    Below(h, n, d, i);
    AtInside(all, at, Leaves(n, d), Width(d) * i, Leaves(n.children[i], d - 1));
  }

  lemma LeafStands(h: Hash, all: seq<bytes>, at: nat, n: Node, d: nat)
    requires d == 0 && Stands(h, all, at, n, d)
    ensures n.Node? && |n.children| == 1 && n.children[0].Text? && at < |all| && n.children[0].text == all[at]
    ensures h(Payloads(n.children)) == n.hash
  {
    assert Looking(d);
    AtIndex(all, at, Leaves(n, d), 0);
  }

  lemma RootStands(h: Hash, root: Node, d: nat)
    requires d == DEPTH && IsTree(h, root, d)
    ensures Stands(h, Leaves(root, d), 0, root, d) && |Leaves(root, d)| == LEAVES
  {
    Below(h, root, d, 0);
  }

  method IndexLeaf(index: Index, text: bytes, spot: Spot, ghost texts: seq<bytes>, ghost p: nat) returns (r: Index)
    requires p < |texts| && text == texts[p] && spot == SpotOf(p) && index == IndexOf(texts, p)
    ensures r == IndexOf(texts, p + 1)
  {
    r := index;
    var n := HashCount(text);
    for hashNo := 0 to n
      invariant r == WithEntries(index, text, spot, hashNo)
    {
      r := r[Slice(text, 1 + HASH_SIZE * hashNo, 1 + HASH_SIZE * hashNo + INDEX_HASH_LEN) := spot];
    }
  }

  /** The innermost loop: the leaves below one node, whose spots start with those of `spot`. */
  method IndexGroup(h: Hash, index: Index, n1: Node, spot: Spot, ghost texts: seq<bytes>, ghost p: nat)
    returns (r: Index)
    requires spot.b < 7 && spot.c < 7 && spot.d == 0 && p == PositionOf(spot) && p + 7 <= |texts|
    requires Stands(h, texts, p, n1, 1) && index == IndexOf(texts, p)
    ensures r == IndexOf(texts, p + 7)
  {
    r := index;
    for d := 0 to 7
      invariant r == IndexOf(texts, p + d)
    {
      ChildStands(h, texts, p, n1, 1, d, p + d);
      var n0 := n1.children[d];
      LeafStands(h, texts, p + d, n0, 0);
      SpotOfPosition(spot.(d := d));
      r := IndexLeaf(r, n0.children[0].text, spot.(d := d), texts, p + d);
    }
  }

  /** The loop around it: the leaves two levels below the node at `a`, `b`. */
  method IndexBranch(h: Hash, index: Index, n2: Node, a: nat, b: nat, ghost texts: seq<bytes>, ghost p: nat)
    returns (r: Index)
    requires b < 7 && p == 343 * a + 49 * b && p + 49 <= |texts| && Stands(h, texts, p, n2, 2)
      && index == IndexOf(texts, p)
    ensures r == IndexOf(texts, p + 49)
  {
    r := index;
    for c := 0 to 7
      invariant r == IndexOf(texts, p + 7 * c)
    {
      ChildStands(h, texts, p, n2, 2, c, p + 7 * c);
      r := IndexGroup(h, r, n2.children[c], Spot(a, b, c, 0), texts, p + 7 * c);
    }
  }

  /** Prefixes of the script hashes to the place of the leaf that lists them. */
  method BuildIndex(h: Hash, root: Node, ghost texts: seq<bytes>) returns (index: Index)
    requires Stands(h, texts, 0, root, DEPTH) && |texts| == LEAVES
    ensures index == IndexOf(texts, LEAVES)
  {
    index := map[];
    for a := 0 to 7
      invariant index == IndexOf(texts, 343 * a)
    {
      ChildStands(h, texts, 0, root, DEPTH, a, 343 * a);
      var n3 := root.children[a];
      for b := 0 to 7
        invariant index == IndexOf(texts, 343 * a + 49 * b)
      {
        ChildStands(h, texts, 343 * a, n3, DEPTH - 1, b, 343 * a + 49 * b);
        index := IndexBranch(h, index, n3.children[b], a, b, texts, 343 * a + 49 * b);
      }
    }
  }

  // ---------------------------------------------------------------- cutting empty branches

  function CutBranch(n: Node, emptyHash: Digest): Node {
    if n.Node? && n.hash == emptyHash then Node(n.hash, seq(|n.children|, _ => Text(EMPTY_BRANCH))) else n
  }

  function Cut(root: Node, emptyHash: Digest): Node
    requires root.Node?
  {
    Node(root.hash, seq(|root.children|, i requires 0 <= i < |root.children| => CutBranch(root.children[i], emptyHash)))
  }

  lemma EmptyBranchText()
    ensures EMPTY_BRANCH == Ascii("Empty branch")
  {
  }

  /** Replaces what is below the branches known to be empty. */
  method CutEmptyBranches(root: Node, emptyHash: Digest) returns (r: Node)
    requires root.Node? && forall i :: 0 <= i < |root.children| ==> root.children[i].Node?
    ensures r == Cut(root, emptyHash)
  {
    var branches := root.children;
    for branch := 0 to |root.children|
      invariant |branches| == |root.children|
      invariant forall i :: 0 <= i < |branches| ==>
        branches[i] == if i < branch then CutBranch(root.children[i], emptyHash) else root.children[i]
    {
      if branches[branch].hash == emptyHash {
        var subs := branches[branch].children;
        for sub := 0 to |subs|
          invariant |subs| == |root.children[branch].children|
          invariant forall j :: 0 <= j < sub ==> subs[j] == Text(EMPTY_BRANCH)
        {
          subs := subs[sub := Text(EMPTY_BRANCH)];
        }
        assert subs == seq(|subs|, _ => Text(EMPTY_BRANCH));
        branches := branches[branch := Node(branches[branch].hash, subs)];
      }
    }
    r := Node(root.hash, branches);
  }

  // ---------------------------------------------------------------- the chunks

  function Plain(kind: byte, data: bytes): Chunk { Chunk(kind, 0, Some(data), true) }

  function PieceCount(message: bytes): nat { (|message| + CHUNK_SIZE - 1) / CHUNK_SIZE }

  /** The message in pieces of the chunk size, the last one possibly shorter. */
  function Pieces(message: bytes): (r: seq<bytes>)
    ensures |r| == PieceCount(message)
  {
    seq(PieceCount(message),
        k requires 0 <= k < PieceCount(message) => Slice(message, CHUNK_SIZE * k, CHUNK_SIZE * k + CHUNK_SIZE))
  }

  function Adds(pieces: seq<bytes>): (r: seq<Chunk>)
    ensures |r| == |pieces|
  {
    seq(|pieces|, k requires 0 <= k < |pieces| => Plain(ADD, pieces[k]))
  }

  function Basic(path: bytes, message: bytes): (r: seq<Chunk>)
    ensures |r| > 0
  {
    [Plain(INIT, path)] + Adds(Pieces(message))
  }

  method PrepareBasicChunks(path: bytes, message: bytes) returns (chunks: seq<Chunk>)
    ensures chunks == Basic(path, message)
  {
    chunks := [Plain(INIT, path)];
    var i := 0;
    ghost var k := 0;
    while i < |message|
      invariant 0 <= k <= PieceCount(message) && i == CHUNK_SIZE * k
      invariant chunks == [Plain(INIT, path)] + Adds(Pieces(message)[..k])
      decreases |message| - i
    {
      var end := i + CHUNK_SIZE;
      if i > |message| { end := |message|; }
      assert Adds(Pieces(message)[..k + 1]) == Adds(Pieces(message)[..k]) + [Plain(ADD, Pieces(message)[k])];
      chunks := chunks + [Plain(ADD, Slice(message, i, end))];
      i := i + CHUNK_SIZE;
      k := k + 1;
    }
    assert Pieces(message)[..k] == Pieces(message);
  }

  /** The chunks with the last one given another kind. */
  function EndingIn(chunks: seq<Chunk>, kind: byte): seq<Chunk>
    requires chunks != []
  {
    chunks[..|chunks| - 1] + [Chunk(kind, 0, chunks[|chunks| - 1].data, chunks[|chunks| - 1].shaOk)]
  }

  function HashList(ns: seq<Node>): bytes {
    if ns == [] then [] else (if ns[0].Node? then ns[0].hash else []) + HashList(ns[1..])
  }

  /** The metadata and the four lists of hashes above it; None when a branch on the way is not there. */
  function ProofTexts(tree: Node, s: Spot): Option<seq<bytes>> {
    if tree.Text? || s.a >= |tree.children| then None
    else
      var n3 := tree.children[s.a];
      if n3.Text? || s.b >= |n3.children| then None
      else
        var n2 := n3.children[s.b];
        if n2.Text? || s.c >= |n2.children| then None
        else
          var n1 := n2.children[s.c];
          if n1.Text? || s.d >= |n1.children| then None
          else
            var n0 := n1.children[s.d];
            if n0.Text? || n0.children == [] || n0.children[0].Node? then None
            else Some([n0.children[0].text, HashList(n1.children), HashList(n2.children), HashList(n3.children),
                       HashList(tree.children)])
  }

  function ProofChunks(texts: seq<bytes>): seq<Chunk>
    requires |texts| == DEPTH + 1
  {
    [Plain(TX_METADATA, texts[0]), Plain(MERKLE_TREE, texts[1]), Plain(MERKLE_TREE, texts[2]),
     Plain(MERKLE_TREE, texts[3]), Plain(MERKLE_TREE_LAST, texts[4])]
  }

  /** What the host sends: nothing for an unknown script, None for an exception. */
  function ChunksFor(tree: Node, index: Index, path: bytes, message: bytes, extra: Extra): Option<seq<Chunk>> {
    match extra
    case SignMessage => Some(EndingIn(Basic(path, message), MESSAGE_LAST))
    case Arbitrary => Some(EndingIn(Basic(path, message), LAST))
    case ScriptHash(hash) =>
      var prefix := Slice(hash, 0, INDEX_HASH_LEN);
      if prefix !in index then Some([])
      else
        var texts := ProofTexts(tree, index[prefix]);
        if texts.None? then None else Some(Basic(path, message) + ProofChunks(texts.value))
  }

  method SignGetChunks(tree: Node, index: Index, path: bytes, message: bytes, extra: Extra)
    returns (r: Option<seq<Chunk>>)
    ensures r == ChunksFor(tree, index, path, message, extra)
  {
    var chunks := PrepareBasicChunks(path, message);
    var last := chunks[|chunks| - 1];
    match extra
    case SignMessage =>
      var ending := chunks[|chunks| - 1 := Chunk(MESSAGE_LAST, 0, last.data, last.shaOk)];
      assert ending == EndingIn(chunks, MESSAGE_LAST);
      r := Some(ending);
    case Arbitrary =>
      var ending := chunks[|chunks| - 1 := Chunk(LAST, 0, last.data, last.shaOk)];
      assert ending == EndingIn(chunks, LAST);
      r := Some(ending);
    case ScriptHash(hash) =>
      var prefix := Slice(hash, 0, INDEX_HASH_LEN);
      if prefix !in index { return Some([]); }
      var texts := ProofTexts(tree, index[prefix]);
      r := if texts.None? then None else Some(chunks + ProofChunks(texts.value));
  }
}
