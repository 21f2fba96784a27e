/**
 * The host and the device together: the chunks of the host never make the device throw, leave it with the
 * message and a finished proof, and make it accept the script - with the exact conditions for that.
 */
module MerkleCompleteness {
  import opened Bytes
  import opened Metadata
  import opened MerkleTree
  import opened Buffering
  import opened ProofState
  import opened Chunks
  import opened MerkleSoundness
  import opened Host

  /** What the device answers to each chunk. */
  function Replies(h: Hash, z: Sizes, s: State, chunks: seq<Chunk>): (r: seq<Response>)
    ensures |r| == |chunks|
  {
    if chunks == [] then []
    else
      var before := chunks[..|chunks| - 1];
      Replies(h, z, s, before) + [Step(h, z, Chunks.Run(h, z, s, before), chunks[|chunks| - 1]).1]
  }

  /** Every reply asks for more except the last, which is `done`. */
  predicate GoWell(replies: seq<Response>, done: Response) {
    replies != [] && replies[|replies| - 1] == done && forall i :: 0 <= i < |replies| - 1 ==> replies[i] == NotFinished
  }

  predicate GoOn(replies: seq<Response>) { forall i :: 0 <= i < |replies| ==> replies[i] == NotFinished }

  lemma {:induction false} RunConcat(h: Hash, z: Sizes, s: State, a: seq<Chunk>, b: seq<Chunk>)
    ensures Chunks.Run(h, z, s, a + b) == Chunks.Run(h, z, Chunks.Run(h, z, s, a), b)
    ensures Replies(h, z, s, a + b) == Replies(h, z, s, a) + Replies(h, z, Chunks.Run(h, z, s, a), b)
    decreases |b|
  {
    if b == [] {
      assert a + b == a;
    } else {
      assert (a + b)[..|a + b| - 1] == a + b[..|b| - 1];
      RunConcat(h, z, s, a, b[..|b| - 1]);
    }
  }

  lemma RunOne(h: Hash, z: Sizes, s: State, c: Chunk)
    ensures Chunks.Run(h, z, s, [c]) == Step(h, z, s, c).0 && Replies(h, z, s, [c]) == [Step(h, z, s, c).1]
  {
    assert [c][..0] == [];
    assert Chunks.Run(h, z, s, []) == s;
  }

  // ---------------------------------------------------------------- the message

  function Flat(pieces: seq<bytes>): bytes {
    if pieces == [] then [] else Flat(pieces[..|pieces| - 1]) + pieces[|pieces| - 1]
  }

  lemma {:induction false} FlatPieces(message: bytes, k: nat)
    requires k <= PieceCount(message)
    ensures Flat(Pieces(message)[..k]) == message[..Min(CHUNK_SIZE * k, |message|)]
    decreases k
  {
    var pieces := Pieces(message);
    if k > 0 {
      FlatPieces(message, k - 1);
      assert pieces[..k][..k - 1] == pieces[..k - 1];
    }
  }

  /** The pieces are full but for the last, never empty, and together they are the message. */
  lemma PiecesAreMessage(message: bytes)
    ensures Flat(Pieces(message)) == message
    ensures forall k :: 0 <= k < |Pieces(message)| ==> 0 < |Pieces(message)[k]| <= 250
    ensures forall k :: 0 <= k < |Pieces(message)| - 1 ==> |Pieces(message)[k]| == 250
  {
    FlatPieces(message, PieceCount(message));
    assert Pieces(message)[..PieceCount(message)] == Pieces(message);
  }

  /** Sending pieces adds them to the buffer, all of them exactly when they fit in flash together. */
  lemma {:induction false} AddsRun(h: Hash, z: Sizes, s: State, pieces: seq<bytes>)
    requires z.ram <= z.flash && |s.buf.contents| <= z.flash
    ensures var t, total := Chunks.Run(h, z, s, Adds(pieces)), s.buf.contents + Flat(pieces);
      && t == s.(buf := t.buf) && |t.buf.contents| <= z.flash
      && (if |total| <= z.flash then GoOn(Replies(h, z, s, Adds(pieces))) && t.buf.contents == total
          else !GoOn(Replies(h, z, s, Adds(pieces))))
    decreases |pieces|
  {
    hide Replies, GoOn, Step, Adds;
    AddsNothing(h, z, s);
    if pieces != [] {
      var before, last := pieces[..|pieces| - 1], pieces[|pieces| - 1];
      AddsRun(h, z, s, before);
      AddsSnoc(h, z, s, pieces);
      AddOne(h, z, Chunks.Run(h, z, s, Adds(before)), last);
      assert s.buf.contents + (Flat(before) + last) == s.buf.contents + Flat(before) + last;
    } else {
      assert s.buf.contents + Flat(pieces) == s.buf.contents;
    }
  }

  lemma AddsNothing(h: Hash, z: Sizes, s: State)
    ensures Chunks.Run(h, z, s, Adds([])) == s && GoOn(Replies(h, z, s, Adds([])))
  {
  }

  lemma AddOne(h: Hash, z: Sizes, s: State, piece: bytes)
    requires z.ram <= z.flash && |s.buf.contents| <= z.flash
    ensures var (t, reply) := Step(h, z, s, Plain(ADD, piece));
      && t == s.(buf := t.buf) && (reply == NotFinished <==> |s.buf.contents + piece| <= z.flash)
      && t.buf.contents == if reply == NotFinished then s.buf.contents + piece else s.buf.contents
  {
  }

  lemma AddsSnoc(h: Hash, z: Sizes, s: State, pieces: seq<bytes>)
    requires pieces != []
    ensures var before, last := Adds(pieces[..|pieces| - 1]), Plain(ADD, pieces[|pieces| - 1]);
      var step := Step(h, z, Chunks.Run(h, z, s, before), last);
      && Chunks.Run(h, z, s, Adds(pieces)) == step.0
      && (GoOn(Replies(h, z, s, Adds(pieces))) <==> GoOn(Replies(h, z, s, before)) && step.1 == NotFinished)
  {
    hide Step, Chunks.Run;
    var before, last := Adds(pieces[..|pieces| - 1]), Plain(ADD, pieces[|pieces| - 1]);
    assert Adds(pieces) == before + [last];
    RunConcat(h, z, s, before, [last]);
    RunOne(h, z, Chunks.Run(h, z, s, before), last);
    GoOnSnoc(Replies(h, z, s, before), Step(h, z, Chunks.Run(h, z, s, before), last).1);
  }

  lemma GoOnSnoc(replies: seq<Response>, r: Response)
    ensures GoOn(replies + [r]) <==> GoOn(replies) && r == NotFinished
  {
    if GoOn(replies + [r]) {
      forall i | 0 <= i < |replies| ensures replies[i] == NotFinished { assert (replies + [r])[i] == replies[i]; }
      assert (replies + [r])[|replies|] == r;
    }
  }

  /** From any state: the path and the message, accepted exactly when the message fits. */
  lemma BasicRun(h: Hash, z: Sizes, s: State, path: bytes, message: bytes)
    requires z.ram <= z.flash && Fitting(path) && KnownPath(path)
    ensures var t := Chunks.Run(h, z, s, Basic(path, message));
      && t == State(t.buf, NOTHING, path[..PATH_SIZE], path[PATH_SIZE..PATH_SIZE + OPTIONS_SIZE])
      && (GoOn(Replies(h, z, s, Basic(path, message))) <==> |message| <= z.flash)
      && (|message| <= z.flash ==> t.buf.contents == message)
  {
    var first := Plain(INIT, path);
    var begun := Step(h, z, s, first).0;
    RunOne(h, z, s, first);
    RunConcat(h, z, s, [first], Adds(Pieces(message)));
    AddsRun(h, z, begun, Pieces(message));
    PiecesAreMessage(message);
    assert [] + message == message;
    assert Replies(h, z, s, [first]) == [NotFinished];
    var rest := Replies(h, z, begun, Adds(Pieces(message)));
    if !GoOn(rest) {
      var i :| 0 <= i < |rest| && rest[i] != NotFinished;
      assert ([NotFinished] + rest)[i + 1] != NotFinished;
    }
  }

  // ---------------------------------------------------------------- the proof

  /** A linked chain of texts finishes a proof from nothing, exactly when the metadata fits its buffer. */
  lemma ProofRun(h: Hash, z: Sizes, s: State, texts: seq<bytes>)
    requires s.proof == NOTHING && |texts| == DEPTH + 1 && Linked(h, texts)
    ensures var t, replies := Chunks.Run(h, z, s, ProofChunks(texts)), Replies(h, z, s, ProofChunks(texts));
      && (GoWell(replies, FinishedWithMetadata) <==> |texts[0]| <= MAX_LENGTH)
      && (|texts[0]| <= MAX_LENGTH ==> t == s.(proof := Proof(texts[0], DEPTH + 1, h(texts[DEPTH]))))
  {
    var c := ProofChunks(texts);
    assert c[..5] == c && c[..5][..4] == c[..4] && c[..4][..3] == c[..3] && c[..3][..2] == c[..2]
        && c[..2][..1] == c[..1] && c[..1] == [c[0]];
    RunOne(h, z, s, c[0]);
    assert Replies(h, z, s, c)[0] == Step(h, z, s, c[0]).1 by { FirstReply(h, z, s, c); }
    if |texts[0]| <= MAX_LENGTH {
      var s1 := s.(proof := Proof(texts[0], 1, h(texts[0])));
      var s2 := s.(proof := Proof(texts[0], 2, h(texts[1])));
      var s3 := s.(proof := Proof(texts[0], 3, h(texts[2])));
      var s4 := s.(proof := Proof(texts[0], 4, h(texts[3])));
      assert Chunks.Run(h, z, s, c[..1]) == s1 && Replies(h, z, s, c[..1]) == [NotFinished];
      assert Chunks.Run(h, z, s, c[..2]) == s2 && Replies(h, z, s, c[..2]) == [NotFinished, NotFinished];
      assert Chunks.Run(h, z, s, c[..3]) == s3 && Replies(h, z, s, c[..3]) == [NotFinished, NotFinished, NotFinished];
      assert Chunks.Run(h, z, s, c[..4]) == s4
          && Replies(h, z, s, c[..4]) == [NotFinished, NotFinished, NotFinished, NotFinished];
    }
  }

  lemma FirstReply(h: Hash, z: Sizes, s: State, chunks: seq<Chunk>)
    requires chunks != []
    ensures Replies(h, z, s, chunks)[0] == Step(h, z, s, chunks[0]).1
  {
    RunOne(h, z, s, chunks[0]);
    RunConcat(h, z, s, [chunks[0]], chunks[1..]);
    assert chunks == [chunks[0]] + chunks[1..];
  }

  lemma {:induction false} HashListIsPayloads(ns: seq<Node>)
    requires forall i :: 0 <= i < |ns| ==> ns[i].Node?
    ensures HashList(ns) == Payloads(ns)
    decreases |ns|
  {
    if ns != [] { HashListIsPayloads(ns[1..]); }
  }

  /** The list that the host sends for a node hashes to its hash and lists those of its children. */
  lemma HashListLists(h: Hash, n: Node, d: nat, i: nat)
    requires 0 < d && IsTree(h, n, d) && i < FAN
    ensures n.children[i].Node? && h(HashList(n.children)) == n.hash
    ensures Contains(HashList(n.children), n.children[i].hash)
  {
    assert forall k :: 0 <= k < FAN ==> IsTree(h, n.children[k], d - 1);
    HashListIsPayloads(n.children);
    PayloadsAt(n.children, i);
  }

  lemma ThroughNode(h: Hash, all: seq<bytes>, at: nat, n: Node, d: nat, i: nat, next: nat)
    requires 0 < d <= DEPTH && Stands(h, all, at, n, d) && i < FAN && next == at + Width(d) * i
    ensures n.Node? && |n.children| == FAN && Stands(h, all, next, n.children[i], d - 1)
    ensures n.children[i].Node?
    ensures h(HashList(n.children)) == n.hash && Contains(HashList(n.children), n.children[i].hash)
  {
    ChildStands(h, all, at, n, d, i, next);
    assert Looking(d);
    HashListLists(h, n, d, i);
  }

  lemma AtLeaf(h: Hash, all: seq<bytes>, at: nat, n: Node, d: nat)
    requires d == 0 && Stands(h, all, at, n, d)
    ensures n.Node? && |n.children| == 1 && n.children[0].Text? && at < |all| && n.children[0].text == all[at]
    ensures h(all[at]) == n.hash
  {
    LeafStands(h, all, at, n, d);
    var ns := n.children;
    assert Payloads(ns) == ns[0].text + Payloads(ns[1..]) && ns[0].text + [] == ns[0].text;
  }

  /** The lower two lists of a proof, and the leaf. */
  lemma LowerTexts(h: Hash, all: seq<bytes>, at: nat, n2: Node, c: nat, e: nat)
    requires Stands(h, all, at, n2, 2) && c < FAN && e < FAN
    ensures n2.Node? && |n2.children| == FAN && h(HashList(n2.children)) == n2.hash
    ensures var n1 := n2.children[c];
      && n1.Node? && |n1.children| == FAN && h(HashList(n1.children)) == n1.hash
      && Contains(HashList(n2.children), n1.hash)
      && var n0 := n1.children[e];
      && n0.Node? && |n0.children| == 1 && n0.children[0].Text? && at + 7 * c + e < |all|
      && n0.children[0].text == all[at + 7 * c + e] && Contains(HashList(n1.children), h(all[at + 7 * c + e]))
  {
    ThroughNode(h, all, at, n2, 2, c, at + 7 * c);
    ThroughNode(h, all, at + 7 * c, n2.children[c], 1, e, at + 7 * c + e);
    AtLeaf(h, all, at + 7 * c + e, n2.children[c].children[e], 0);
  }

  /** The upper two lists of a proof. */
  lemma UpperTexts(h: Hash, all: seq<bytes>, root: Node, a: nat, b: nat)
    requires Stands(h, all, 0, root, DEPTH) && a < FAN && b < FAN
    ensures root.Node? && |root.children| == FAN && h(HashList(root.children)) == root.hash
    ensures var n3 := root.children[a];
      && n3.Node? && |n3.children| == FAN && h(HashList(n3.children)) == n3.hash
      && Contains(HashList(root.children), n3.hash)
      && var n2 := n3.children[b];
      && n2.Node? && Contains(HashList(n3.children), n2.hash) && Stands(h, all, 343 * a + 49 * b, n2, 2)
  {
    ThroughNode(h, all, 0, root, DEPTH, a, 343 * a);
    ThroughNode(h, all, 343 * a, root.children[a], 3, b, 343 * a + 49 * b);
  }

  lemma LinkedFive(h: Hash, texts: seq<bytes>)
    requires |texts| == 5 && Contains(texts[1], h(texts[0])) && Contains(texts[2], h(texts[1]))
    requires Contains(texts[3], h(texts[2])) && Contains(texts[4], h(texts[3]))
    ensures Linked(h, texts)
  {
  }

  /** The texts of a proof in the uncut tree: the leaf at the spot, linked up to the root. */
  lemma ProofTextsLinked(h: Hash, all: seq<bytes>, root: Node, s: Spot)
    requires Stands(h, all, 0, root, DEPTH) && s.a < FAN && s.b < FAN && s.c < FAN && s.d < FAN
    ensures ProofTexts(root, s).Some?
    ensures var texts := ProofTexts(root, s).value;
      && |texts| == DEPTH + 1 && Linked(h, texts) && h(texts[DEPTH]) == root.hash
      && PositionOf(s) < |all| && texts[0] == all[PositionOf(s)]
  {
    UpperTexts(h, all, root, s.a, s.b);
    LowerTexts(h, all, 343 * s.a + 49 * s.b, root.children[s.a].children[s.b], s.c, s.d);
    LinkedFive(h, ProofTexts(root, s).value);
  }

  /** Cutting leaves the other branches and all hashes as they are, and makes the cut ones unusable. */
  lemma CutProofTexts(root: Node, emptyHash: Digest, s: Spot)
    requires root.Node? && s.a < |root.children| && root.children[s.a].Node?
    requires ProofTexts(root, s).Some?
    ensures ProofTexts(Cut(root, emptyHash), s)
         == if root.children[s.a].hash == emptyHash then None else ProofTexts(root, s)
  {
    CutHashList(root.children, Cut(root, emptyHash).children, emptyHash);
  }

  lemma {:induction false} CutHashList(ns: seq<Node>, cut: seq<Node>, emptyHash: Digest)
    requires |ns| == |cut| && forall i :: 0 <= i < |ns| ==> cut[i] == CutBranch(ns[i], emptyHash)
    ensures HashList(ns) == HashList(cut)
    decreases |ns|
  {
    if ns != [] { CutHashList(ns[1..], cut[1..], emptyHash); }
  }

  // ---------------------------------------------------------------- the whole exchange

  /** The position the index names for a prefix lies in the tree, and its spot is where it stands. */
  lemma SpotInTree(p: nat)
    requires p < LEAVES
    ensures var s := SpotOf(p); s.a < FAN && s.b < FAN && s.c < FAN && s.d < FAN && PositionOf(s) == p
  {
    var q, r := p / 7, p / 7 / 7;
    assert p == 7 * q + p % 7 && q == 7 * r + q % 7 && r == 7 * (r / 7) + r % 7;
  }

  /** The set-up of the build: the texts known, padded, their tree and index. */
  predicate Published(h: Hash, known: seq<bytes>, root: Node) {
    |known| <= LEAVES && [root] == Levels(h, LeafNodes(h, Padded(known)), DEPTH)
  }

  lemma PublishedStands(h: Hash, known: seq<bytes>, root: Node)
    requires Published(h, known, root)
    ensures Stands(h, Padded(known), 0, root, DEPTH)
  {
    BuiltTree(h, known, root);
    RootStands(h, root, DEPTH);
  }

  /**
   * The chunks for a script: the message, then the proof of the last leaf listing its prefix, unless that is cut
   * away.
   */
  lemma ChunksAre(h: Hash, known: seq<bytes>, root: Node, emptyHash: Digest, path: bytes, message: bytes, hash: bytes)
    returns (p: nat, texts: seq<bytes>)
    requires Published(h, known, root) && Slice(hash, 0, INDEX_HASH_LEN) in IndexOf(Padded(known), LEAVES)
    ensures LastWith(Padded(known), LEAVES, Slice(hash, 0, INDEX_HASH_LEN), p)
    ensures |texts| == DEPTH + 1 && Linked(h, texts) && texts[0] == Padded(known)[p]
    ensures root.Node? && h(texts[DEPTH]) == root.hash && p / 343 < |root.children| && root.children[p / 343].Node?
    ensures ChunksFor(Cut(root, emptyHash), IndexOf(Padded(known), LEAVES), path, message, ScriptHash(hash))
         == if root.children[p / 343].hash == emptyHash then None else Some(Basic(path, message) + ProofChunks(texts))
  {
    var prefix := Slice(hash, 0, INDEX_HASH_LEN);
    IndexNamesLast(Padded(known), LEAVES, prefix);
    p :| LastWith(Padded(known), LEAVES, prefix, p) && IndexOf(Padded(known), LEAVES)[prefix] == SpotOf(p);
    PublishedStands(h, known, root);
    texts := ChunksAt(h, Padded(known), root, emptyHash, IndexOf(Padded(known), LEAVES), path, message, hash, p);
  }

  lemma ChunksAt(h: Hash, all: seq<bytes>, root: Node, emptyHash: Digest, index: Index, path: bytes, message: bytes,
                 hash: bytes, p: nat)
    returns (texts: seq<bytes>)
    requires Stands(h, all, 0, root, DEPTH) && p < LEAVES == |all|
    requires Slice(hash, 0, INDEX_HASH_LEN) in index && index[Slice(hash, 0, INDEX_HASH_LEN)] == SpotOf(p)
    ensures |texts| == DEPTH + 1 && Linked(h, texts) && texts[0] == all[p]
    ensures root.Node? && h(texts[DEPTH]) == root.hash && p / 343 < |root.children| && root.children[p / 343].Node?
    ensures ChunksFor(Cut(root, emptyHash), index, path, message, ScriptHash(hash))
         == if root.children[p / 343].hash == emptyHash then None else Some(Basic(path, message) + ProofChunks(texts))
  {
    var spot := SpotOf(p);
    SpotInTree(p);
    UpperTexts(h, all, root, spot.a, spot.b);
    ProofTextsLinked(h, all, root, spot);
    CutProofTexts(root, emptyHash, spot);
    texts := ProofTexts(root, spot).value;
    assert p / 343 == p / 7 / 7 / 7;
  }

  /**
   * From any state of the device, the host's chunks for a message and a linked proof go well exactly when
   * the message fits in flash and the metadata in its buffer; then the device holds both.
   */
  lemma ExchangeGoesWell(h: Hash, z: Sizes, s: State, path: bytes, message: bytes, texts: seq<bytes>)
    requires z.ram <= z.flash && Fitting(path) && KnownPath(path) && |texts| == DEPTH + 1 && Linked(h, texts)
    ensures var chunks := Basic(path, message) + ProofChunks(texts);
      var t := Chunks.Run(h, z, s, chunks);
      && (GoWell(Replies(h, z, s, chunks), FinishedWithMetadata) <==> |message| <= z.flash && |texts[0]| <= MAX_LENGTH)
      && (|message| <= z.flash && |texts[0]| <= MAX_LENGTH ==>
            && t.buf.contents == message && t.proof == Proof(texts[0], DEPTH + 1, h(texts[DEPTH]))
            && t.path == path[..PATH_SIZE])
  {
    BasicRun(h, z, s, path, message);
    var t := Chunks.Run(h, z, s, Basic(path, message));
    ProofRun(h, z, t, texts);
    RunConcat(h, z, s, Basic(path, message), ProofChunks(texts));
    RepliesJoin(Replies(h, z, s, Basic(path, message)), Replies(h, z, t, ProofChunks(texts)), FinishedWithMetadata);
  }

  lemma RepliesJoin(a: seq<Response>, b: seq<Response>, done: Response)
    requires b != []
    ensures GoWell(a + b, done) <==> GoOn(a) && GoWell(b, done)
  {
    if GoWell(a + b, done) {
      assert forall i :: 0 <= i < |a| ==> (a + b)[i] == a[i];
      assert forall i :: 0 <= i < |b| ==> (a + b)[|a| + i] == b[i];
    }
  }

  // ---------------------------------------------------------------- nothing useful is cut away

  /** Trees with the same hash have the same leaves, or two texts hashed in them collide. */
  lemma {:induction false} SameHashSameLeaves(h: Hash, a: Node, b: Node, d: nat) returns (x: bytes, y: bytes)
    requires IsTree(h, a, d) && IsTree(h, b, d) && a.hash == b.hash
    ensures Leaves(a, d) == Leaves(b, d) || (x != y && h(x) == h(y) && HashedIn(a, d, x) && HashedIn(b, d, y))
    decreases d, 1
  {
    x, y := Payloads(a.children), Payloads(b.children);
    if x == y {
      if d == 0 {
        assert x == a.children[0].text + Payloads(a.children[1..]) && a.children[0].text + [] == a.children[0].text;
        assert y == b.children[0].text + Payloads(b.children[1..]) && b.children[0].text + [] == b.children[0].text;
      } else {
        x, y := SameChildrenSameLeaves(h, a, b, d, FAN);
        assert a.children[FAN - FAN..] == a.children && b.children[FAN - FAN..] == b.children;
      }
    }
  }

  lemma {:induction false} SameChildrenSameLeaves(h: Hash, a: Node, b: Node, d: nat, n: nat)
    returns (x: bytes, y: bytes)
    requires d > 0 && n <= FAN && IsTree(h, a, d) && IsTree(h, b, d) && Payloads(a.children) == Payloads(b.children)
    ensures LeavesOf(a.children[FAN - n..], d - 1) == LeavesOf(b.children[FAN - n..], d - 1)
      || (x != y && h(x) == h(y) && HashedIn(a, d, x) && HashedIn(b, d, y))
    decreases d, 0, n
  {
    x, y := [], [];
    if n > 0 {
      var i := FAN - n;
      SameChildHash(a.children, b.children, i);
      x, y := SameHashSameLeaves(h, a.children[i], b.children[i], d - 1);
      if Leaves(a.children[i], d - 1) == Leaves(b.children[i], d - 1) {
        x, y := SameChildrenSameLeaves(h, a, b, d, n - 1);
        assert a.children[i..][1..] == a.children[i + 1..] && b.children[i..][1..] == b.children[i + 1..];
      }
    }
  }

  lemma SameChildHash(a: seq<Node>, b: seq<Node>, i: nat)
    requires |a| == |b| && i < |a| && Payloads(a) == Payloads(b)
    requires forall k :: 0 <= k < |a| ==> a[k].Node? && b[k].Node?
    ensures a[i].hash == b[i].hash
  {
    PayloadsAt(a, i);
    PayloadsAt(b, i);
    forall j | 0 <= j < HASH_SIZE ensures a[i].hash[j] == b[i].hash[j] {
      AtIndex(Payloads(a), HASH_SIZE * i, a[i].hash, j);
      AtIndex(Payloads(b), HASH_SIZE * i, b[i].hash, j);
    }
  }

  /** No two leaves list hashes that start with the same eight bytes. */
  ghost predicate DistinctPrefixes(texts: seq<bytes>) {
    forall p, q, prefix ::
      0 <= p < |texts| && 0 <= q < |texts| && HasEntry(texts[p], prefix) && HasEntry(texts[q], prefix) ==> p == q
  }

  /** A listed script hash makes an entry under its first eight bytes. */
  lemma ListedHasEntry(text: bytes, m: Meta, hashes: seq<Digest>, hash: Digest)
    requires RenderedWith(text, m, hashes, hash)
    ensures text != [] && HasEntry(text, Slice(hash, 0, INDEX_HASH_LEN))
  {
    RenderAt(text, m, hashes);
    var k :| 0 <= k < |hashes| && hashes[k] == hash;
    assert Lists(text, k, hash) by { ConcatAt(text, 1, hashes); }
    EntryIs(text, k, hash);
  }

  lemma EntryIs(text: bytes, k: nat, hash: Digest)
    requires Lists(text, k, hash)
    ensures Entry(text, k) == Slice(hash, 0, INDEX_HASH_LEN)
  {
    forall j | 0 <= j < INDEX_HASH_LEN ensures text[1 + HASH_SIZE * k + j] == hash[j] {
      AtIndex(text, 1 + k * HASH_SIZE, hash, j);
    }
  }

  /** A tree whose leaves are all empty, as the constant of the build script names it. */
  predicate EmptyTree(h: Hash, empty: Node, d: nat) {
    IsTree(h, empty, d) && forall i :: 0 <= i < |Leaves(empty, d)| ==> Leaves(empty, d)[i] == []
  }

  /** The branch above a leaf that is not empty is not cut away, unless it collides with the empty tree. */
  lemma BranchIsKept(h: Hash, all: seq<bytes>, root: Node, empty: Node, d: nat, p: nat) returns (x: bytes, y: bytes)
    requires Stands(h, all, 0, root, DEPTH) && p < |all| == LEAVES && all[p] != [] && d == DEPTH - 1
      && EmptyTree(h, empty, d)
    ensures root.Node? && p / 343 < |root.children| && root.children[p / 343].Node?
    ensures root.children[p / 343].hash != empty.hash
      || (x != y && h(x) == h(y) && HashedIn(root.children[p / 343], d, x) && HashedIn(empty, d, y))
  {
    var a := p / 343;
    ChildStands(h, all, 0, root, d + 1, a, 343 * a);
    var branch := root.children[a];
    assert Looking(d);
    Below(h, branch, d, 0);
    x, y := [], [];
    if branch.hash == empty.hash {
      x, y := SameHashSameLeaves(h, branch, empty, d);
      if Leaves(branch, d) == Leaves(empty, d) {
        AtIndex(all, 343 * a, Leaves(branch, d), p - 343 * a);
        assert false;
      }
    }
  }

  /** What the host sends for a script with a message. */
  function Sending(
    known: seq<bytes>, root: Node, emptyHash: Digest, path: bytes, message: bytes, hash: Digest): Option<seq<Chunk>>
    requires |known| <= LEAVES && root.Node?
  {
    ChunksFor(Cut(root, emptyHash), IndexOf(Padded(known), LEAVES), path, message, ScriptHash(hash))
  }

  /**
   * Over a device in any state, the chunks are all taken and the device ends up accepting the script with metadata
   * `m`.
   */
  predicate Served(
    h: Hash, z: Sizes, s: State, chunks: seq<Chunk>, root: Digest, message: bytes, hash: Digest, m: Meta) {
    var t := Chunks.Run(h, z, s, chunks);
    && GoWell(Replies(h, z, s, chunks), FinishedWithMetadata)
    && t.buf.contents == message && t.proof.level == DEPTH + 1 && t.proof.hash == root
    && ProofState.Accepted(t.proof, root, hash) == Got(m, |t.proof.metadata|)
  }

  /**
   * Every script of the published metadata is served, for every message that fits and every state of the
   * device - or the published tree and the empty one contain a collision.
   */
  lemma EveryListedScriptIsServed(h: Hash, z: Sizes, s: State, known: seq<bytes>, root: Node, empty: Node, d: nat,
                                  path: bytes, message: bytes, q: nat, m: Meta, hashes: seq<Digest>, hash: Digest)
    returns (x: bytes, y: bytes)
    requires Published(h, known, root) && root.Node? && DistinctPrefixes(Padded(known)) && d == DEPTH - 1
      && EmptyTree(h, empty, d)
    requires z.ram <= z.flash && Fitting(path) && KnownPath(path) && |message| <= z.flash
    requires q < |known| && |known[q]| <= MAX_LENGTH && RenderedWith(known[q], m, hashes, hash)
    ensures
      || (var chunks := Sending(known, root, empty.hash, path, message, hash);
          chunks.Some? && Served(h, z, s, chunks.value, root.hash, message, hash, m))
      || (x != y && h(x) == h(y) && HashedIn(root, d + 1, x) && HashedIn(empty, d, y))
  {
    var all, prefix := Padded(known), Slice(hash, 0, INDEX_HASH_LEN);
    assert all[q] == known[q];
    ListedHasEntry(all[q], m, hashes, hash);
    IndexNamesLast(all, LEAVES, prefix);
    var p, texts := ChunksAre(h, known, root, empty.hash, path, message, hash);
    assert p == q;
    PublishedStands(h, known, root);
    x, y := BranchIsKept(h, all, root, empty, d, p);
    if root.children[p / 343].hash != empty.hash {
      ExchangeGoesWell(h, z, s, path, message, texts);
      ParseComplete(hash, all[q], m, hashes);
    } else {
      assert HashedIn(root, d + 1, x);
    }
  }

  // ---------------------------------------------------------------- unknown scripts

  /** No known text lists a script hash that begins with these bytes. */
  predicate Unlisted(known: seq<bytes>, prefix: bytes) { forall q :: 0 <= q < |known| ==> !HasEntry(known[q], prefix) }

  lemma IndexedIff(known: seq<bytes>, prefix: bytes)
    requires |known| <= LEAVES
    ensures prefix !in IndexOf(Padded(known), LEAVES) <==> Unlisted(known, prefix)
  {
    hide IndexOf, Entry;
    var all := Padded(known);
    IndexNamesLast(all, LEAVES, prefix);
    forall q | 0 <= q < |known| ensures HasEntry(all[q], prefix) <==> HasEntry(known[q], prefix) {
      assert all[q] == known[q];
    }
    if p :| 0 <= p < LEAVES && HasEntry(all[p], prefix) {
      assert all[p] != [];
      assert p < |known|;
    }
  }

  /**
   * A script whose prefix no known text lists is not sent in any other way: the host sends nothing, exactly then,
   * and the device stays as it was, whatever it was doing.
   */
  lemma UnknownScriptSendsNothing(h: Hash, z: Sizes, s: State, known: seq<bytes>, root: Node, emptyHash: Digest,
                                  path: bytes, message: bytes, hash: Digest)
    requires |known| <= LEAVES && root.Node?
    ensures var chunks := Sending(known, root, emptyHash, path, message, hash);
      && (chunks == Some([]) <==> Unlisted(known, Slice(hash, 0, 8)))
      && (chunks == Some([]) ==> Replies(h, z, s, chunks.value) == [] && Chunks.Run(h, z, s, chunks.value) == s)
  {
    hide IndexOf, ProofTexts, Cut, Basic, Unlisted;
    IndexedIff(known, Slice(hash, 0, 8));
  }

  // ---------------------------------------------------------------- without metadata

  /** The two ways of signing without metadata. */
  predicate Plainly(extra: Extra, kind: byte, done: Response) {
    (extra == SignMessage && kind == MESSAGE_LAST && done == FinishedMessage)
    || (extra == Arbitrary && kind == LAST && done == FinishedNoMetadata)
  }

  /** Giving the last piece another kind changes only the last reply. */
  lemma EndingRun(h: Hash, z: Sizes, s: State, chunks: seq<Chunk>, kind: byte, done: Response, data: bytes)
    requires chunks != [] && chunks[|chunks| - 1] == Plain(ADD, data)
    requires (kind == MESSAGE_LAST && done == FinishedMessage) || (kind == LAST && done == FinishedNoMetadata)
    ensures Chunks.Run(h, z, s, EndingIn(chunks, kind)) == Chunks.Run(h, z, s, chunks)
    ensures GoWell(Replies(h, z, s, EndingIn(chunks, kind)), done) <==> GoOn(Replies(h, z, s, chunks))
  {
    var before := chunks[..|chunks| - 1];
    var ending := EndingIn(chunks, kind);
    assert ending[..|ending| - 1] == before;
    var t := Chunks.Run(h, z, s, before);
    assert Replies(h, z, s, chunks) == Replies(h, z, s, before) + [Step(h, z, t, Plain(ADD, data)).1];
    assert Replies(h, z, s, ending) == Replies(h, z, s, before) + [Step(h, z, t, Plain(kind, data)).1];
    RepliesJoin(Replies(h, z, s, before), [Step(h, z, t, Plain(kind, data)).1], done);
    GoOnJoin(Replies(h, z, s, before), Step(h, z, t, Plain(ADD, data)).1);
  }

  lemma GoOnJoin(a: seq<Response>, last: Response)
    ensures GoOn(a + [last]) <==> GoOn(a) && last == NotFinished
  {
    if GoOn(a + [last]) {
      assert forall i :: 0 <= i < |a| ==> (a + [last])[i] == a[i];
      assert (a + [last])[|a|] == last;
    }
  }

  /**
   * Signing without metadata, from any state of the device: a message that is not empty is taken whole when
   * it fits. The empty message never arrives: the host then sends its path as if it were the message.
   */
  lemma PlainExchange(h: Hash, z: Sizes, s: State, tree: Node, index: Index, path: bytes, message: bytes,
                      extra: Extra, kind: byte, done: Response)
    requires z.ram <= z.flash && Fitting(path) && KnownPath(path) && |path| <= z.flash && |message| <= z.flash
      && Plainly(extra, kind, done)
    ensures ChunksFor(tree, index, path, message, extra).Some?
    ensures var chunks := ChunksFor(tree, index, path, message, extra).value;
      GoWell(Replies(h, z, s, chunks), done) && Chunks.Run(h, z, s, chunks).buf.contents == message <==> message != []
  {
    if message == [] {
      EmptyExchange(h, z, s, path, kind);
    } else {
      NonemptyExchange(h, z, s, path, message, kind, done);
    }
  }

  /** The path goes into the buffer, or does not fit; either way the buffer is not empty. */
  lemma EmptyExchange(h: Hash, z: Sizes, s: State, path: bytes, kind: byte)
    requires z.ram <= z.flash && Fitting(path) && |path| <= z.flash && (kind == MESSAGE_LAST || kind == LAST)
    ensures Chunks.Run(h, z, s, EndingIn(Basic(path, []), kind)).buf.contents != []
  {
    assert Basic(path, []) == [Plain(INIT, path)];
    assert EndingIn(Basic(path, []), kind) == [Plain(kind, path)];
    RunOne(h, z, s, Plain(kind, path));
  }

  lemma NonemptyExchange(h: Hash, z: Sizes, s: State, path: bytes, message: bytes, kind: byte, done: Response)
    requires z.ram <= z.flash && Fitting(path) && KnownPath(path) && 0 < |message| <= z.flash
    requires (kind == MESSAGE_LAST && done == FinishedMessage) || (kind == LAST && done == FinishedNoMetadata)
    ensures var chunks := EndingIn(Basic(path, message), kind);
      GoWell(Replies(h, z, s, chunks), done) && Chunks.Run(h, z, s, chunks).buf.contents == message
  {
    hide Chunks.Run, Replies, GoOn, GoWell, Fitting, KnownPath, EndingIn;
    BasicRun(h, z, s, path, message);
    LastPiece(path, message);
    EndingRun(h, z, s, Basic(path, message), kind, done, Pieces(message)[|Pieces(message)| - 1]);
  }

  lemma LastPiece(path: bytes, message: bytes)
    requires message != []
    ensures Pieces(message) != []
    ensures Basic(path, message)[|Basic(path, message)| - 1] == Plain(ADD, Pieces(message)[|Pieces(message)| - 1])
  {
  }
}
