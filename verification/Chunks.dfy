/**
 * The device as a transition system over chunks (src/common/app_helper.c): the transaction buffer, the
 * proof in progress and the key path, with what each chunk does to them and what it answers.
 */
module Chunks {
  import opened Bytes
  import opened Errors
  import opened Metadata
  import opened MerkleTree
  import opened Buffering
  import opened ProofState

  const INIT: byte := 0x00
  const ADD: byte := 0x01
  const LAST: byte := 0x02
  const TX_METADATA: byte := 0x03
  const MERKLE_TREE: byte := 0x04
  const MERKLE_TREE_LAST: byte := 0x05
  const MESSAGE_LAST: byte := 0x10

  const APDU_SIZE := 260
  const APDU_HEADER := 5
  const PATH_SIZE := 20
  const OPTIONS_SIZE := 2

  /** The first two words of the paths the device signs for, least significant byte first. */
  const MAINNET: bytes := [0x2c, 0, 0, 0x80, 0x1b, 0x02, 0, 0x80]
  const TESTNET: bytes := [0x2c, 0, 0, 0x80, 0x01, 0, 0, 0x80]

  /** A chunk as received; there is no data when the command is shorter than its header. */
  datatype Chunk = Chunk(kind: byte, p2: byte, data: Option<bytes>, shaOk: bool)

  datatype Code = WrongLength | DataInvalid | BufferTooSmall | InvalidP1P2

  datatype Response = NotFinished | FinishedNoMetadata | FinishedWithMetadata | FinishedMessage | Thrown(code: Code)

  datatype State = State(buf: Buf, proof: Proof, path: bytes, options: bytes)

  datatype Sizes = Sizes(ram: nat, flash: nat)

  predicate Fitting(data: bytes) {
    APDU_HEADER + |data| < APDU_SIZE && PATH_SIZE + OPTIONS_SIZE <= |data|
  }

  predicate KnownPath(data: bytes) { At(data, 0, MAINNET) || At(data, 0, TESTNET) }

  /**
   * A first chunk empties the buffer always, takes over the path if it is there, and drops the proof only if the
   * path is known.
   */
  function Begun(s: State, data: bytes): (State, Response) {
    var empty := s.(buf := EMPTY);
    if !Fitting(data) then (empty, Thrown(WrongLength))
    else
      var placed := empty.(path := data[..PATH_SIZE]);
      if !KnownPath(data) then (placed, Thrown(DataInvalid))
      else (placed.(options := data[PATH_SIZE..PATH_SIZE + OPTIONS_SIZE], proof := NOTHING), NotFinished)
  }

  function AppendedTo(z: Sizes, s: State, data: bytes, done: Response): (State, Response) {
    var (b, n) := Appended(s.buf, data, z.ram, z.flash);
    (s.(buf := b), if n == |data| then done else Thrown(BufferTooSmall))
  }

  /** A failed proof step leaves no proof behind. */
  function Proved(s: State, next: Option<Proof>, done: Response): (State, Response) {
    if next.Some? then (s.(proof := next.value), done) else (s.(proof := NOTHING), Thrown(DataInvalid))
  }

  function Step(h: Hash, z: Sizes, s: State, c: Chunk): (State, Response) {
    if c.p2 != 0 && c.kind != LAST then (s, Thrown(InvalidP1P2))
    else if c.data.None? then (s, Thrown(WrongLength))
    else
      var data := c.data.value;
      if c.kind == INIT then Begun(s, data)
      else if c.kind == ADD then AppendedTo(z, s, data, NotFinished)
      else if c.kind == LAST then AppendedTo(z, s, data, FinishedNoMetadata)
      else if c.kind == TX_METADATA then Proved(s, Stored(h, s.proof, data, c.shaOk), NotFinished)
      else if c.kind == MERKLE_TREE then Proved(s, Checked(h, s.proof, data, c.shaOk), NotFinished)
      else if c.kind == MERKLE_TREE_LAST then Proved(s, Checked(h, s.proof, data, c.shaOk), FinishedWithMetadata)
      else if c.kind == MESSAGE_LAST then AppendedTo(z, s, data, FinishedMessage)
      else (s, Thrown(InvalidP1P2))
  }

  function Run(h: Hash, z: Sizes, s: State, chunks: seq<Chunk>): State {
    if chunks == [] then s
    else Step(h, z, Run(h, z, s, chunks[..|chunks| - 1]), chunks[|chunks| - 1]).0
  }

  class Device {
    const buffer: Buffer
    const metadata: TxMetadata
    var path: bytes
    var options: bytes

    ghost predicate Valid()
      reads this, buffer, metadata
    {
      && buffer.Valid() && metadata.Valid()
      && metadata.buffer != buffer.ram && metadata.buffer != buffer.flash
    }

    ghost function Value(): State
      requires Valid()
      reads this, buffer, buffer.ram, buffer.flash, metadata, metadata.buffer
    {
      State(buffer.Value(), metadata.Value(), path, options)
    }

    ghost function Memory(): Sizes
      reads this, buffer
    {
      Sizes(buffer.ram.Length, buffer.flash.Length)
    }

    constructor (ram: array<byte>, flash: array<byte>, sha256: Hash, root: Digest)
      requires ram != flash && ram.Length <= flash.Length
      ensures Valid() && Value() == State(EMPTY, NOTHING, [], [])
      ensures metadata.sha256 == sha256 && metadata.root == root && Memory() == Sizes(ram.Length, flash.Length)
    {
      buffer := new Buffer(ram, flash);
      metadata := new TxMetadata(sha256, root);
      path, options := [], [];
    }

    /** The first chunk's path; the options only once the path is known. */
    method ExtractPathAndOptions(data: bytes) returns (r: Option<Code>)
      modifies this
      ensures r == if !Fitting(data) then Some(WrongLength) else if KnownPath(data) then None else Some(DataInvalid)
      ensures path == if Fitting(data) then data[..PATH_SIZE] else old(path)
      ensures options == if r.None? then data[PATH_SIZE..PATH_SIZE + OPTIONS_SIZE] else old(options)
    {
      var rx := APDU_HEADER + |data|;
      if rx >= APDU_SIZE { return Some(WrongLength); }
      if rx - APDU_HEADER < PATH_SIZE + OPTIONS_SIZE { return Some(WrongLength); }
      path := data[..PATH_SIZE];
      AtSlice(data, 0, MAINNET);
      AtSlice(data, 0, TESTNET);
      var mainnet := path[..4] == MAINNET[..4] && path[4..8] == MAINNET[4..];
      var testnet := path[..4] == TESTNET[..4] && path[4..8] == TESTNET[4..];
      SamePrefix(data, path, MAINNET);
      SamePrefix(data, path, TESTNET);
      if !mainnet && !testnet { return Some(DataInvalid); }
      options := data[PATH_SIZE..PATH_SIZE + OPTIONS_SIZE];
      return None;
    }

    method Append(data: bytes, done: Response) returns (r: Response)
      requires Valid()
      modifies buffer, buffer.ram, buffer.flash
      ensures Valid() && Memory() == old(Memory()) && buffer.ram == old(buffer.ram) && buffer.flash == old(buffer.flash)
      ensures (Value(), r) == AppendedTo(Memory(), old(Value()), data, done)
    {
      var added := buffer.Append(data);
      return if added != |data| then Thrown(BufferTooSmall) else done;
    }

    method ValidateLevel(list: bytes, shaOk: bool, done: Response) returns (r: Response)
      requires Valid()
      modifies metadata, metadata.buffer
      ensures Valid()
      ensures (Value(), r) == Proved(old(Value()), Checked(metadata.sha256, old(metadata.Value()), list, shaOk), done)
    {
      var err := metadata.ValidateLevel(list, shaOk);
      if err != ParserError.Ok {
        metadata.Clear();
        return Thrown(DataInvalid);
      }
      return done;
    }

    method StoreMetadata(data: bytes, shaOk: bool) returns (r: Response)
      requires Valid()
      modifies metadata, metadata.buffer
      ensures Valid()
      ensures var next := Stored(metadata.sha256, old(metadata.Value()), data, shaOk);
        (Value(), r) == Proved(old(Value()), next, NotFinished)
    {
      var err := metadata.Store(data, shaOk);
      if err != ParserError.Ok {
        metadata.Clear();
        return Thrown(DataInvalid);
      }
      return NotFinished;
    }

    method Begin(data: bytes) returns (r: Response)
      requires Valid()
      modifies this, buffer, metadata, metadata.buffer
      ensures Valid() && buffer.ram == old(buffer.ram) && buffer.flash == old(buffer.flash)
      ensures (Value(), r) == Begun(old(Value()), data)
    {
      buffer.Reset();
      var failure := ExtractPathAndOptions(data);
      if failure.Some? { return Thrown(failure.value); }
      metadata.Clear();
      return NotFinished;
    }

    /** One chunk. */
    method ProcessChunk(c: Chunk) returns (r: Response)
      requires Valid()
      modifies this, buffer, buffer.ram, buffer.flash, metadata, metadata.buffer
      ensures Valid() && Memory() == old(Memory())
      ensures (Value(), r) == Step(metadata.sha256, Memory(), old(Value()), c)
    {
      if c.p2 != 0 && c.kind != LAST { return Thrown(InvalidP1P2); }
      if c.data.None? { return Thrown(WrongLength); }
      if c.kind == INIT {
        r := Begin(c.data.value);
      } else if c.kind == ADD {
        r := Append(c.data.value, NotFinished);
      } else if c.kind == LAST {
        r := Append(c.data.value, FinishedNoMetadata);
      } else if c.kind == TX_METADATA {
        r := StoreMetadata(c.data.value, c.shaOk);
      } else if c.kind == MERKLE_TREE {
        r := ValidateLevel(c.data.value, c.shaOk, NotFinished);
      } else if c.kind == MERKLE_TREE_LAST {
        r := ValidateLevel(c.data.value, c.shaOk, FinishedWithMetadata);
      } else if c.kind == MESSAGE_LAST {
        r := Append(c.data.value, FinishedMessage);
      } else {
        r := Thrown(InvalidP1P2);
      }
    }
  }

  lemma SamePrefix(data: bytes, path: bytes, known: bytes)
    requires |data| >= PATH_SIZE && path == data[..PATH_SIZE] && |known| == 8
    ensures At(data, 0, known) <==> path[..4] == known[..4] && path[4..8] == known[4..]
  {
    assert path[..4] == data[..4] && path[4..8] == data[4..8];
    if path[..4] == known[..4] && path[4..8] == known[4..] {
      assert data[..8] == data[..4] + data[4..8];
      assert known == known[..4] + known[4..];
    }
    AtSlice(data, 0, known);
    if At(data, 0, known) { assert data[0..8] == known; }
  }
}
