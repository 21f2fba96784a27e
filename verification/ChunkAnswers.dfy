/**
 * The chunk protocol read from its answers (`process_chunk` of src/common/app_helper.c): for each answer the chunks
 * that get it, for each part of the state the chunks that change it, with the numbers of the protocol.
 */
module ChunkAnswers {
  import opened Bytes
  import opened Metadata
  import opened MerkleTree
  import opened Buffering
  import opened ProofState
  import opened Chunks

  // ---------------------------------------------------------------- the path

  /** A word of four bytes, the lowest first. */
  function Word(a: nat, b: nat, c: nat, d: nat): nat { a + 256 * (b + 256 * (c + 256 * d)) }

  function WordAt(data: bytes, i: nat): nat
    requires i + 4 <= |data|
  {
    Word(data[i], data[i + 1], data[i + 2], data[i + 3])
  }

  /** A hardened step of a key path of BIP-32. */
  function Hardened(n: nat): nat { 0x8000_0000 + n }

  lemma AtFour(data: bytes, i: nat, a: byte, b: byte, c: byte, d: byte)
    requires i + 4 <= |data|
    ensures At(data, i, [a, b, c, d]) <==> WordAt(data, i) == Word(a, b, c, d)
  {
    hide Word;
    var s := [a, b, c, d];
    SameWord(data[i], data[i + 1], data[i + 2], data[i + 3], a, b, c, d);
    if At(data, i, s) {
      AtIndex(data, i, s, 0);
      AtIndex(data, i, s, 1);
      AtIndex(data, i, s, 2);
      AtIndex(data, i, s, 3);
    }
  }

  lemma SameWord(a: byte, b: byte, c: byte, d: byte, p: byte, q: byte, r: byte, s: byte)
    ensures Word(a, b, c, d) == Word(p, q, r, s) <==> a == p && b == q && c == r && d == s
  {
    SameLowest(a, b + 256 * (c + 256 * d), p, q + 256 * (r + 256 * s));
    SameLowest(b, c + 256 * d, q, r + 256 * s);
    SameLowest(c, d, r, s);
  }

  lemma SameLowest(a: byte, x: nat, p: byte, y: nat)
    ensures a + 256 * x == p + 256 * y <==> a == p && x == y
  {
  }

  /** The device signs for the paths below 44'/539' and 44'/1'. */
  lemma KnownPathIff(data: bytes)
    requires |data| >= 8
    ensures KnownPath(data) <==>
      WordAt(data, 0) == Hardened(44) && (WordAt(data, 4) == Hardened(539) || WordAt(data, 4) == Hardened(1))
  {
    AtFour(data, 0, 0x2c, 0, 0, 0x80);
    AtFour(data, 4, 0x1b, 0x02, 0, 0x80);
    AtFour(data, 4, 0x01, 0, 0, 0x80);
    TwoWords(data, [0x2c, 0, 0, 0x80], [0x1b, 0x02, 0, 0x80], MAINNET);
    TwoWords(data, [0x2c, 0, 0, 0x80], [0x01, 0, 0, 0x80], TESTNET);
  }

  lemma TwoWords(data: bytes, a: bytes, b: bytes, both: bytes)
    requires |a| == 4 && both == a + b
    ensures At(data, 0, both) <==> At(data, 0, a) && At(data, 4, b)
  {
    AtSplit(data, 0, a, b);
  }

  // ---------------------------------------------------------------- the answers

  /** A second parameter is allowed on the last chunk of a transaction only. */
  predicate ParametersFit(c: Chunk) { c.p2 == 0 || c.kind == 2 }

  /** The first chunk holds a path of five words and the two bytes of options, and fits into a command. */
  predicate IsPathLength(n: nat) { 22 <= n <= 254 }

  predicate RoomFor(z: Sizes, s: State, data: bytes) { |s.buf.contents| + |data| <= z.flash }

  /** Metadata starts a proof, when there is none. */
  predicate StartsProof(s: State, c: Chunk, data: bytes) {
    c.kind == 3 && s.proof.level == 0 && |data| <= 255 && c.shaOk
  }

  /** A list of digests continues a proof up to the fourth list, when the running hash is one of the digests. */
  predicate ContinuesProof(s: State, c: Chunk, data: bytes) {
    && (c.kind == 4 || c.kind == 5) && 1 <= s.proof.level <= 4 && c.shaOk
    && |data| % 32 == 0 && exists i :: 0 <= i < |data| / 32 && At(data, 32 * i, s.proof.hash)
  }

  /** The chunk can be looked at: its parameters fit and it has data. */
  predicate IsWhole(c: Chunk) { ParametersFit(c) && c.data.Some? }

  predicate Begins(c: Chunk, data: bytes) { c.kind == 0 && IsPathLength(|data|) && KnownPath(data) }

  /** The data is refused: a path that is not known, or a step of a proof that fails. */
  predicate IsBadData(s: State, c: Chunk, data: bytes) {
    || (c.kind == 0 && IsPathLength(|data|) && !KnownPath(data))
    || (c.kind == 3 && !StartsProof(s, c, data))
    || ((c.kind == 4 || c.kind == 5) && !ContinuesProof(s, c, data))
  }

  /** Which chunks get which answer from a device whose data fits its memory. */
  lemma AnswersIff(h: Hash, z: Sizes, s: State, c: Chunk)
    requires z.ram <= z.flash && |s.buf.contents| <= if s.buf.inRam then z.ram else z.flash
    ensures var r := Step(h, z, s, c).1;
      && (r == Thrown(InvalidP1P2) <==> !ParametersFit(c) || (IsWhole(c) && c.kind !in {0, 1, 2, 3, 4, 5, 16}))
      && (c.data.None? ==> (r == Thrown(WrongLength) <==> ParametersFit(c)))
    ensures var r := Step(h, z, s, c).1;
      c.data.Some? ==>
        var data := c.data.value;
        && (r == Thrown(WrongLength) <==> IsWhole(c) && c.kind == 0 && !IsPathLength(|data|))
        && (r == Thrown(DataInvalid) <==> IsWhole(c) && IsBadData(s, c, data))
        && (r == Thrown(BufferTooSmall) <==> IsWhole(c) && c.kind in {1, 2, 16} && !RoomFor(z, s, data))
        && (r == FinishedNoMetadata <==> IsWhole(c) && c.kind == 2 && RoomFor(z, s, data))
        && (r == FinishedWithMetadata <==> IsWhole(c) && c.kind == 5 && ContinuesProof(s, c, data))
        && (r == FinishedMessage <==> IsWhole(c) && c.kind == 16 && RoomFor(z, s, data))
    ensures var r := Step(h, z, s, c).1;
      r == NotFinished ==>
        && IsWhole(c)
        && var data := c.data.value;
        (c.kind == 1 && RoomFor(z, s, data)) || Begins(c, data) || StartsProof(s, c, data)
        || (c.kind == 4 && ContinuesProof(s, c, data))
  {
    hide KnownPath;
  }

  // ---------------------------------------------------------------- the state

  /** What a chunk leaves of each part of the state. */
  lemma EffectsAre(h: Hash, z: Sizes, s: State, c: Chunk)
    requires z.ram <= z.flash && |s.buf.contents| <= if s.buf.inRam then z.ram else z.flash
    ensures var (t, r) := Step(h, z, s, c);
      if !ParametersFit(c) || c.data.None? then t == s
      else
        var data := c.data.value;
        && t.path == (if c.kind == 0 && IsPathLength(|data|) then data[..20] else s.path)
        && t.options == (if c.kind == 0 && r == NotFinished then data[20..22] else s.options)
        && t.buf.contents == (if c.kind == 0 then []
                              else if c.kind in {1, 2, 16} && RoomFor(z, s, data) then s.buf.contents + data
                              else s.buf.contents)
    ensures var (t, r) := Step(h, z, s, c);
      ParametersFit(c) && c.data.Some? ==>
        var data := c.data.value;
        && t.proof.level == (if c.kind == 0 && r == NotFinished then 0
                             else if StartsProof(s, c, data) then 1
                             else if ContinuesProof(s, c, data) then s.proof.level + 1
                             else if c.kind in {3, 4, 5} then 0
                             else s.proof.level)
        && t.proof.hash == (if StartsProof(s, c, data) || ContinuesProof(s, c, data) then h(data)
                            else if t.proof.level == 0 && c.kind in {0, 3, 4, 5} && r != Thrown(WrongLength)
                              && (c.kind == 0 ==> r == NotFinished) then ZERO
                            else s.proof.hash)
        && t.proof.metadata == (if StartsProof(s, c, data) then data
                                else if ContinuesProof(s, c, data) || c.kind in {1, 2, 16} then s.proof.metadata
                                else if c.kind in {3, 4, 5} || (c.kind == 0 && r == NotFinished) then []
                                else s.proof.metadata)
  {
    hide KnownPath;
  }
}
