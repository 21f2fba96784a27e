/**
 * The metadata format and the parser's answers with the numbers of the format (src/tx_metadata.c): the bytes of each
 * kind of argument, the comparison of the script hash slot by slot, and which bytes get which error.
 */
module MetadataAnswers {
  import opened Bytes
  import opened Errors
  import opened Metadata

  // ---------------------------------------------------------------- the bytes

  predicate ShortText(s: bytes) { |s| <= 100 && 0 !in s }

  /** The kinds: normal, optional, array, string, hash algorithm, signature algorithm and node role. */
  predicate OfKind(a: Argument) {
    || ((a.kind == 1 || a.kind == 2) && a.min == 0 && a.max == 0 && ShortText(a.ty))
    || (a.kind == 3 && a.min <= a.max <= 20 && ShortText(a.ty))
    || (a.kind == 4 && a.min == 0 && a.max == 0 && a.ty == Ascii("String") && a.jsonKind == 3)
    || (5 <= a.kind <= 7 && a.min == 0 && a.max == 0 && a.ty == Ascii("UInt8") && a.jsonKind == 3)
  }

  lemma ShortTextIs(s: bytes)
    ensures ShortText(s) <==> IsText(s)
  {
    forall i | 0 <= i < |s| ensures s[i] in s { }
  }

  lemma TypeNames()
    ensures STRING_TYPE == Ascii("String") && UINT8_TYPE == Ascii("UInt8")
  {
  }

  /** The arguments and their bytes, kind by kind. */
  lemma ArgumentForms(a: Argument)
    ensures IsArgument(a) <==> ShortText(a.key) && OfKind(a)
    ensures IsArgument(a) && a.kind <= 2 ==>
      RenderArgument(a) == [a.kind] + a.key + [0, a.index] + a.ty + [0, a.jsonKind]
    ensures IsArgument(a) && a.kind == 3 ==>
      RenderArgument(a) == [3, a.min, a.max] + a.key + [0, a.index] + a.ty + [0, a.jsonKind]
    ensures IsArgument(a) && a.kind >= 4 ==> RenderArgument(a) == [a.kind] + a.key + [0, a.index]
  {
    hide IsText, ShortText;
    ShortTextIs(a.key);
    ShortTextIs(a.ty);
    TypeNames();
  }

  /** A text is the number of hashes, the hashes, the name, the number of arguments and the arguments. */
  lemma TextForm(hashes: seq<Digest>, m: Meta)
    requires IsMeta(m) && |hashes| < 256
    ensures |m.args| <= 10
    ensures Render(hashes, m) == [|hashes|] + Concat(hashes) + m.name + [0, |m.args|] + RenderArguments(m.args)
  {
    hide Concat, RenderArguments, IsText, AreArguments;
    Joined([|hashes|], Concat(hashes), m.name, |m.args|, RenderArguments(m.args));
  }

  lemma Joined(a: bytes, b: bytes, c: bytes, n: byte, d: bytes)
    ensures a + (b + (c + [0] + ([n] + d))) == a + b + c + [0, n] + d
  {
  }

  // ---------------------------------------------------------------- comparing hashes

  /** Where byte `j` of hash `i` is looked for, in 8 bits. */
  function Place(i: nat, j: nat): nat { (1 + 32 * i + j) % 256 }

  /** The first `j` bytes of slot `i` are there and are those of the hash. */
  predicate Agrees(hash: Digest, b: bytes, i: nat, j: nat)
    requires j <= 32
  {
    forall k :: 0 <= k < j ==> Place(i, k) < |b| && b[Place(i, k)] == hash[k]
  }

  predicate Differs(hash: Digest, b: bytes, i: nat) {
    exists j :: 0 <= j < 32 && Agrees(hash, b, i, j) && Place(i, j) < |b| && b[Place(i, j)] != hash[j]
  }

  predicate RunsOut(hash: Digest, b: bytes, i: nat) {
    exists j :: 0 <= j < 32 && Agrees(hash, b, i, j) && Place(i, j) >= |b|
  }

  lemma {:induction false} SlotFrom(hash: Digest, b: bytes, i: nat, j: nat)
    requires j <= 32 && Agrees(hash, b, i, j)
    ensures match HashMatches(hash, b, i, j)
      case None => RunsOut(hash, b, i)
      case Some(same) => if same then Agrees(hash, b, i, 32) else Differs(hash, b, i)
    decreases 32 - j
  {
    if j < 32 {
      assert ByteIndex(i, j) == Place(i, j);
      if Place(i, j) < |b| && b[Place(i, j)] == hash[j] { SlotFrom(hash, b, i, j + 1); }
    }
  }

  /** A slot agrees, differs or runs out, and never two of these. */
  lemma SlotIs(hash: Digest, b: bytes, i: nat)
    ensures HashMatches(hash, b, i, 0) == Some(true) <==> Agrees(hash, b, i, 32)
    ensures HashMatches(hash, b, i, 0) == Some(false) <==> Differs(hash, b, i)
    ensures HashMatches(hash, b, i, 0) == None <==> RunsOut(hash, b, i)
  {
    SlotFrom(hash, b, i, 0);
  }

  /** Slot `i` is the first that does not differ. */
  predicate Decides(hash: Digest, b: bytes, n: nat, i: nat) {
    i < n && !Differs(hash, b, i) && forall k :: 0 <= k < i ==> Differs(hash, b, k)
  }

  lemma {:induction false} FirstSlot(hash: Digest, b: bytes, n: nat, i: nat)
    requires i <= n && forall k :: 0 <= k < i ==> Differs(hash, b, k)
    ensures ValidateFrom(hash, b, n, i) == UnexpectedScript <==> forall k :: 0 <= k < n ==> Differs(hash, b, k)
    ensures ValidateFrom(hash, b, n, i) == ParserError.Ok <==>
      exists k :: Decides(hash, b, n, k) && Agrees(hash, b, k, 32)
    ensures ValidateFrom(hash, b, n, i) == MetadataError <==> exists k :: Decides(hash, b, n, k) && RunsOut(hash, b, k)
    decreases n - i
  {
    hide HashMatches, Differs, RunsOut, Agrees;
    if i < n {
      SlotIs(hash, b, i);
      if Differs(hash, b, i) { FirstSlot(hash, b, n, i + 1); } else { assert Decides(hash, b, n, i); }
    }
  }

  // ---------------------------------------------------------------- the errors

  /** Where the name stands. */
  function NameAt(b: bytes): nat
    requires b != []
  {
    var n: nat := b[0];
    1 + 32 * n
  }

  /** The list of hashes lets the script pass. */
  predicate Passes(hash: Digest, b: bytes) {
    b != [] && b[0] <= 10 && exists k :: 0 <= k < b[0] && Decides(hash, b, b[0], k) && Agrees(hash, b, k, 32)
  }

  /** The byte behind the name, where the number of arguments stands. */
  predicate CountAt(b: bytes, p: nat, name: bytes, n: byte) {
    ShortText(name) && At(b, p, name + [0]) && p + |name| + 1 < |b| && b[p + |name| + 1] == n
  }

  lemma CountIff(b: bytes, p: nat)
    ensures ReadMeta(b, p) == Bad(TooManyArguments) <==> exists name, n :: CountAt(b, p, name, n) && n > 10
    ensures ReadMeta(b, p).Bad? ==> ReadMeta(b, p).err in {TooManyArguments, MetadataError}
  {
    hide ShortText, ReadText, At, ReadArguments, IsText;
    var read := ReadString(b, p);
    NameErrors(b, p, 0);
    if name, n :| CountAt(b, p, name, n) && n > 10 {
      NameIff(b, p, name);
    }
    if read.Got? {
      NameIff(b, p, read.value);
      ReadStringIff(b, p, read.value, read.next);
      if read.next < |b| {
        assert read.next == p + |read.value| + 1;
        assert ReadByte(b, read.next) == Got(b[read.next], read.next + 1);
        ArgumentErrors(b, read.next + 1, b[read.next]);
        if b[read.next] > 10 { assert CountAt(b, p, read.value, b[read.next]); }
      }
    }
  }

  lemma NameIff(b: bytes, p: nat, name: bytes)
    ensures ReadString(b, p) == Got(name, p + |name| + 1) <==> ShortText(name) && At(b, p, name + [0])
  {
    ReadStringIff(b, p, name, p + |name| + 1);
    ShortTextIs(name);
  }

  lemma {:induction false} NameErrors(b: bytes, p: nat, len: nat)
    ensures ReadText(b, p, len).Bad? ==> ReadText(b, p, len).err == MetadataError
    decreases |b| - p
  {
    if p < |b| && len <= MAX_STRING { NameErrors(b, p + 1, len + 1); }
  }

  lemma {:induction false} ArgumentErrors(b: bytes, p: nat, n: nat)
    ensures ReadArguments(b, p, n).Bad? ==> ReadArguments(b, p, n).err == MetadataError
    decreases n
  {
    hide ReadArgument;
    if n > 0 {
      OneArgumentErrors(b, p);
      if ReadArgument(b, p).Got? { ArgumentErrors(b, ReadArgument(b, p).next, n - 1); }
    }
  }

  lemma OneArgumentErrors(b: bytes, p: nat)
    ensures ReadArgument(b, p).Bad? ==> ReadArgument(b, p).err == MetadataError
  {
    hide ReadText;
    forall q ensures ReadString(b, q).Bad? ==> ReadString(b, q).err == MetadataError { NameErrors(b, q, 0); }
  }

  /** Which bytes get which error; all others are read, or are no metadata at all. */
  lemma ErrorsIff(hash: Digest, b: bytes)
    ensures var r := Parse(hash, b);
      && (r == Bad(MetadataTooManyHashes) <==> b != [] && b[0] > 10)
      && (r == Bad(UnexpectedScript) <==> b != [] && b[0] <= 10 && forall k :: 0 <= k < b[0] ==> Differs(hash, b, k))
      && (r == Bad(TooManyArguments) <==>
          Passes(hash, b) && exists name, n :: CountAt(b, NameAt(b), name, n) && n > 10)
      && (r.Got? ==> Passes(hash, b))
      && (r.Bad? ==> r.err in {MetadataTooManyHashes, UnexpectedScript, TooManyArguments, MetadataError})
  {
    hide Decides, Differs, Agrees, RunsOut, ReadMeta, CountAt, ValidateFrom;
    if b != [] && b[0] <= 10 {
      FirstSlot(hash, b, b[0], 0);
      CountIff(b, NameAt(b));
      Validated(hash, b, b[0], 0);
      DecidesWithin(hash, b, b[0]);
    }
  }

  lemma {:induction false} Validated(hash: Digest, b: bytes, n: nat, i: nat)
    requires i <= n
    ensures ValidateFrom(hash, b, n, i) in {ParserError.Ok, UnexpectedScript, MetadataError}
    decreases n - i
  {
    hide HashMatches;
    if i < n { Validated(hash, b, n, i + 1); }
  }

  lemma DecidesWithin(hash: Digest, b: bytes, n: nat)
    ensures forall k: nat :: Decides(hash, b, n, k) ==> k < n
  {
  }
}
