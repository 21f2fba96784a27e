/**
 * The device's side of the Merkle proof (src/tx_metadata.c): the stored metadata, a level counter and a
 * running hash, updated in place, and the metadata parser over the stored buffer.
 */
module ProofState {
  import opened Bytes
  import opened Errors
  import opened Metadata
  import opened MerkleTree

  const ZERO: Digest := [0, 0, 0, 0, 0, 0, 0, 0, 0, 0, 0, 0, 0, 0, 0, 0, 0, 0, 0, 0, 0, 0, 0, 0, 0, 0, 0, 0, 0, 0, 0, 0]

  /** Level 0 means that no metadata is stored; level k >= 1 that k - 1 lists have been checked. */
  datatype Proof = Proof(metadata: bytes, level: nat, hash: Digest)

  const NOTHING := Proof([], 0, ZERO)

  /** The digest stands in the list at a multiple of the digest size. */
  predicate Contains(list: bytes, d: Digest) {
    |list| % HASH_SIZE == 0 && exists i :: 0 <= i < |list| / HASH_SIZE && At(list, HASH_SIZE * i, d)
  }

  /** `shaOk` says whether the hardware hash succeeds. */
  function Stored(h: Hash, p: Proof, data: bytes, shaOk: bool): Option<Proof> {
    if |data| <= MAX_LENGTH && p.level == 0 && shaOk then Some(Proof(data, 1, h(data))) else None
  }

  function Checked(h: Hash, p: Proof, list: bytes, shaOk: bool): Option<Proof> {
    if 1 <= p.level <= DEPTH && Contains(list, p.hash) && shaOk
    then Some(Proof(p.metadata, p.level + 1, h(list)))
    else None
  }

  /** What the transaction parser gets: metadata only behind a complete proof of the known root. */
  function Accepted(p: Proof, root: Digest, scriptHash: Digest): Read<Meta> {
    if p.level != DEPTH + 1 || p.hash != root then Bad(MetadataError) else Metadata.Parse(scriptHash, p.metadata)
  }

  class TxMetadata {
    const sha256: Hash
    const root: Digest
    var metadataLength: nat
    const buffer: array<byte>
    var level: nat
    var hash: Digest

    predicate Valid()
      reads this
    {
      buffer.Length == MAX_LENGTH && metadataLength <= buffer.Length && level <= DEPTH + 1
    }

    function Value(): Proof
      requires Valid()
      reads this, buffer
    {
      Proof(buffer[..metadataLength], level, hash)
    }

    constructor (sha256: Hash, root: Digest)
      ensures Valid() && Value() == NOTHING && this.sha256 == sha256 && this.root == root && fresh(buffer)
    {
      this.sha256, this.root := sha256, root;
      metadataLength, level, hash := 0, 0, ZERO;
      buffer := new byte[MAX_LENGTH](_ => 0);
    }

    method Clear()
      modifies this, buffer
      requires Valid()
      ensures Valid() && Value() == NOTHING
    {
      forall i | 0 <= i < buffer.Length { buffer[i] := 0; }
      metadataLength, level, hash := 0, 0, ZERO;
    }

    /**
     * Stores metadata and its leaf hash, unless a proof is in progress; a failing hash leaves the text without a
     * proof.
     */
    method Store(data: bytes, shaOk: bool) returns (err: ParserError)
      requires Valid()
      modifies this, buffer
      ensures Valid()
      ensures var was, next := old(Value()), Stored(sha256, old(Value()), data, shaOk);
        if next.Some? then err == ParserError.Ok && Value() == next.value
        else if |data| > MAX_LENGTH then err == MetadataError && Value() == was
        else if was.level != 0 then err == UnexpectedError && Value() == was
        else err == UnexpectedError && Value() == was.(metadata := data)
    {
      if |data| > buffer.Length { return MetadataError; }
      if level != 0 { return UnexpectedError; }
      forall i | 0 <= i < |data| { buffer[i] := data[i]; }
      metadataLength := |data|;
      assert buffer[..metadataLength] == data;
      if !shaOk { return UnexpectedError; }
      hash := sha256(buffer[..metadataLength]);
      level := 1;
      return ParserError.Ok;
    }

    /** Checks that the running hash is in the list and goes up one level; otherwise the proof stays as it was. */
    method ValidateLevel(list: bytes, shaOk: bool) returns (err: ParserError)
      requires Valid()
      modifies this
      ensures Valid()
      ensures var was, next := old(Value()), Checked(sha256, old(Value()), list, shaOk);
        if next.Some? then err == ParserError.Ok && Value() == next.value
        else Value() == was
             && err == if 1 <= was.level <= DEPTH && Contains(list, was.hash) then UnexpectedError else MetadataError
    {
      if level < 1 || level > DEPTH { return MetadataError; }
      if |list| % HASH_SIZE != 0 { return MetadataError; }
      var found := false;
      var start := 0;
      ghost var n := 0;
      while start < |list|
        invariant Valid() && Value() == old(Value())
        invariant start == HASH_SIZE * n <= |list|
        invariant found <==> exists i :: 0 <= i < n && At(list, HASH_SIZE * i, hash)
      {
        AtSlice(list, start, hash);
        if list[start..start + HASH_SIZE] == hash { found := true; }
        start := start + HASH_SIZE;
        n := n + 1;
      }
      assert n == |list| / HASH_SIZE;
      assert found <==> Contains(list, hash);
      if !found { return MetadataError; }
      if !shaOk { return UnexpectedError; }
      hash := sha256(list);
      level := level + 1;
      return ParserError.Ok;
    }

    // -------------------------------------------------------------- the parser over the stored buffer

    method ReadChar(parsed: nat) returns (r: Read<byte>)
      requires Valid()
      ensures r == ReadByte(buffer[..metadataLength], parsed)
    {
      if !(parsed < metadataLength) { return Bad(MetadataError); }
      return Got(buffer[parsed], parsed + 1);
    }

    method ReadName(parsed: nat) returns (r: Read<bytes>)
      requires Valid()
      ensures r == ReadString(buffer[..metadataLength], parsed)
    {
      var len, p, text := 0, parsed, [];
      ghost var b := buffer[..metadataLength];
      PrependNothing(ReadText(b, p, 0));
      while len <= MAX_STRING
        invariant p == parsed + len && len <= MAX_STRING + 1
        invariant ReadString(b, parsed) == Prepend(text, ReadText(b, p, len))
        decreases MAX_STRING + 1 - len
      {
        var c := ReadChar(p);
        if c.Bad? { return Bad(c.err); }
        if c.value == 0 {
          assert text + [] == text;
          return Got(text, p + 1);
        }
        PrependOne(text, c.value, ReadText(b, p + 1, len + 1));
        text := text + [c.value];
        p := p + 1;
        len := len + 1;
      }
      return Bad(MetadataError);
    }

    method ReadArgumentAt(parsed: nat) returns (r: Read<Argument>)
      requires Valid()
      ensures r == ReadArgument(buffer[..metadataLength], parsed)
    {
      var kind := ReadChar(parsed);
      if kind.Bad? { return Bad(kind.err); }
      if !(NORMAL <= kind.value <= NODE_ROLE) { return Bad(MetadataError); }
      var p, min: byte, max: byte := kind.next, 0, 0;
      if kind.value == ARRAY {
        var lo := ReadChar(p);
        if lo.Bad? { return Bad(lo.err); }
        var hi := ReadChar(lo.next);
        if hi.Bad? { return Bad(hi.err); }
        min, max, p := lo.value, hi.value, hi.next;
        if min > max || max > MAX_ARRAY_ITEMS { return Bad(MetadataError); }
      }
      var key := ReadName(p);
      if key.Bad? { return Bad(key.err); }
      var index := ReadChar(key.next);
      if index.Bad? { return Bad(index.err); }
      p := index.next;
      var ty, jsonKind := ImpliedType(kind.value), JSMN_STRING;
      if HasOwnType(kind.value) {
        var own := ReadName(p);
        if own.Bad? { return Bad(own.err); }
        var k := ReadChar(own.next);
        if k.Bad? { return Bad(k.err); }
        ty, jsonKind, p := own.value, k.value, k.next;
      }
      return Got(Argument(kind.value, min, max, key.value, index.value, ty, jsonKind), p);
    }

    /** Whether the script hash is one of those listed, with the 8-bit index of the program. */
    method ValidateHash(scriptHash: Digest) returns (err: ParserError)
      requires Valid()
      ensures err == ValidateScriptHash(scriptHash, buffer[..metadataLength])
    {
      if metadataLength < 1 { return MetadataError; }
      var n := buffer[0];
      ghost var b := buffer[..metadataLength];
      var i := 0;
      while i < n
        invariant 0 <= i <= n && (i > 0 ==> n <= MAX_HASHES)
        invariant n <= MAX_HASHES ==> ValidateFrom(scriptHash, b, n, i) == ValidateFrom(scriptHash, b, n, 0)
      {
        var matches, j := true, 0;
        while j < HASH_SIZE && matches
          invariant 0 <= j <= HASH_SIZE && (j > 0 || !matches ==> n <= MAX_HASHES)
          invariant HashMatches(scriptHash, b, i, 0)
                 == if matches then HashMatches(scriptHash, b, i, j) else Some(false)
          decreases HASH_SIZE - j, matches
        {
          var byteIdx := (1 + i * HASH_SIZE + j) % 256;
          if n > MAX_HASHES || byteIdx >= metadataLength { return MetadataError; }
          if buffer[byteIdx] != scriptHash[j] { matches := false; } else { j := j + 1; }
        }
        if matches { return ParserError.Ok; }
        i := i + 1;
      }
      return UnexpectedScript;
    }

    /** Parses the stored metadata for a script. */
    method ParseInternal(scriptHash: Digest) returns (r: Read<Meta>)
      requires Valid()
      ensures r == Metadata.Parse(scriptHash, buffer[..metadataLength])
    {
      hide ReadArguments, ReadString, ValidateScriptHash;
      ghost var b := buffer[..metadataLength];
      var n := ReadChar(0);
      if n.Bad? { return Bad(n.err); }
      if n.value > MAX_HASHES { return Bad(MetadataTooManyHashes); }
      var err := ValidateHash(scriptHash);
      if err != ParserError.Ok { return Bad(err); }
      var name := ReadName(n.next + n.value * HASH_SIZE);
      if name.Bad? { return Bad(name.err); }
      var count := ReadChar(name.next);
      if count.Bad? { return Bad(count.err); }
      if count.value > MAX_ARGS { return Bad(TooManyArguments); }
      var args := ReadAllArguments(count.next, count.value);
      if args.Bad? { return Bad(args.err); }
      if args.next != metadataLength { return Bad(MetadataError); }
      return Got(Meta(name.value, args.value), args.next);
    }

    method ReadAllArguments(parsed: nat, count: nat) returns (r: Read<seq<Argument>>)
      requires Valid()
      ensures r == ReadArguments(buffer[..metadataLength], parsed, count)
    {
      var p, args: seq<Argument> := parsed, [];
      ghost var b := buffer[..metadataLength];
      PrependNothing(ReadArguments(b, p, count));
      for i := 0 to count
        invariant ReadArguments(b, parsed, count) == Prepend(args, ReadArguments(b, p, count - i))
      {
        var a := ReadArgumentAt(p);
        if a.Bad? { return Bad(a.err); }
        PrependOne(args, a.value, ReadArguments(b, a.next, count - i - 1));
        args := args + [a.value];
        p := a.next;
      }
      assert args + [] == args;
      return Got(args, p);
    }

    /** The gate in front of the parser: a finished proof of the known root. */
    method ParseTxMetadata(scriptHash: Digest) returns (r: Read<Meta>)
      requires Valid()
      ensures r == Accepted(Value(), root, scriptHash)
    {
      if level != DEPTH + 1 { return Bad(MetadataError); }
      if hash != root { return Bad(MetadataError); }
      r := ParseInternal(scriptHash);
    }
  }

  /** What has been read so far, in front of what is still read. */
  function Prepend<T>(read: seq<T>, rest: Read<seq<T>>): Read<seq<T>> {
    if rest.Bad? then rest else Got(read + rest.value, rest.next)
  }

  lemma PrependNothing<T>(rest: Read<seq<T>>)
    ensures Prepend([], rest) == rest
  {
    if rest.Got? { assert [] + rest.value == rest.value; }
  }

  lemma PrependOne<T>(read: seq<T>, x: T, rest: Read<seq<T>>)
    ensures rest.Got? ==> Prepend(read, Got([x] + rest.value, rest.next)) == Prepend(read + [x], rest)
  {
    if rest.Got? { assert read + ([x] + rest.value) == read + [x] + rest.value; }
  }
}
