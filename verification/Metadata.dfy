/**
 * Transaction metadata: the byte format that the device parses (src/tx_metadata.c), as a grammar, and
 * the parser as functions over a position. The main results are that the parser accepts a text exactly
 * when it is the rendering of well-formed metadata that lists the script hash.
 */
module Metadata {
  import opened Bytes
  import opened Errors

  const HASH_SIZE := 32
  const MAX_HASHES := 10
  const MAX_STRING := 100
  const MAX_LENGTH := 255
  const MAX_ARGS := 10
  const MAX_ARRAY_ITEMS := 20

  const NORMAL: byte := 1
  const OPTIONAL: byte := 2
  const ARRAY: byte := 3
  const STRING: byte := 4
  const HASH_ALGO: byte := 5
  const SIGNATURE_ALGO: byte := 6
  const NODE_ROLE: byte := 7
  const JSMN_STRING: byte := 3

  const STRING_TYPE: bytes := [83, 116, 114, 105, 110, 103]
  const UINT8_TYPE: bytes := [85, 73, 110, 116, 56]

  type Digest = d: bytes | |d| == HASH_SIZE witness seq(HASH_SIZE, _ => 0)

  /** One argument; `min` and `max` are zero except for arrays. */
  datatype Argument = Argument(kind: byte, min: byte, max: byte, key: bytes, index: byte, ty: bytes, jsonKind: byte)

  datatype Meta = Meta(name: bytes, args: seq<Argument>)

  // ---------------------------------------------------------------- the grammar

  predicate IsText(s: bytes) { |s| <= MAX_STRING && forall i :: 0 <= i < |s| ==> s[i] != 0 }

  predicate HasOwnType(kind: byte) { kind == NORMAL || kind == OPTIONAL || kind == ARRAY }

  /** The expected JSON type of the kinds that do not carry one. */
  function ImpliedType(kind: byte): bytes { if kind == STRING then STRING_TYPE else UINT8_TYPE }

  predicate IsArgument(a: Argument) {
    && NORMAL <= a.kind <= NODE_ROLE
    && (if a.kind == ARRAY then a.min <= a.max <= MAX_ARRAY_ITEMS else a.min == 0 && a.max == 0)
    && IsText(a.key)
    && (if HasOwnType(a.kind) then IsText(a.ty) else a.ty == ImpliedType(a.kind) && a.jsonKind == JSMN_STRING)
  }

  predicate AreArguments(args: seq<Argument>) { forall i :: 0 <= i < |args| ==> IsArgument(args[i]) }

  predicate IsMeta(m: Meta) { IsText(m.name) && |m.args| <= MAX_ARGS && AreArguments(m.args) }

  function Terminated(s: bytes): bytes { s + [0] }

  function Bounds(a: Argument): bytes { if a.kind == ARRAY then [a.min, a.max] else [] }

  function TypePart(a: Argument): bytes { if HasOwnType(a.kind) then Terminated(a.ty) + [a.jsonKind] else [] }

  function RenderArgument(a: Argument): bytes {
    [a.kind] + (Bounds(a) + (Terminated(a.key) + ([a.index] + TypePart(a))))
  }

  function RenderArguments(args: seq<Argument>): bytes {
    if args == [] then [] else RenderArgument(args[0]) + RenderArguments(args[1..])
  }

  function Concat(hashes: seq<Digest>): (r: bytes)
    ensures |r| == HASH_SIZE * |hashes|
  {
    if hashes == [] then [] else hashes[0] + Concat(hashes[1..])
  }

  function RenderMeta(m: Meta): bytes
    requires |m.args| < 256
  {
    Terminated(m.name) + ([|m.args|] + RenderArguments(m.args))
  }

  function Render(hashes: seq<Digest>, m: Meta): bytes
    requires |hashes| < 256 && |m.args| < 256
  {
    [|hashes|] + (Concat(hashes) + RenderMeta(m))
  }

  // ---------------------------------------------------------------- reading

  datatype Read<+T> = Got(value: T, next: nat) | Bad(err: ParserError)

  function ReadByte(b: bytes, p: nat): Read<byte> {
    if p < |b| then Got(b[p], p + 1) else Bad(MetadataError)
  }

  /** Reads up to and including the next zero byte; `len` characters have been read before `p`. */
  function ReadText(b: bytes, p: nat, len: nat): Read<bytes>
    decreases |b| - p
  {
    if len > MAX_STRING || p >= |b| then Bad(MetadataError)
    else if b[p] == 0 then Got([], p + 1)
    else
      var rest := ReadText(b, p + 1, len + 1);
      if rest.Bad? then rest else Got([b[p]] + rest.value, rest.next)
  }

  function ReadString(b: bytes, p: nat): Read<bytes> { ReadText(b, p, 0) }

  function ReadBounds(b: bytes, p: nat, kind: byte): Read<(byte, byte)> {
    if kind != ARRAY then Got((0, 0), p)
    else if p + 1 >= |b| || b[p] > b[p + 1] || b[p + 1] > MAX_ARRAY_ITEMS then Bad(MetadataError)
    else Got((b[p], b[p + 1]), p + 2)
  }

  function ReadType(b: bytes, p: nat, kind: byte): Read<(bytes, byte)> {
    if !HasOwnType(kind) then Got((ImpliedType(kind), JSMN_STRING), p)
    else
      var ty := ReadString(b, p);
      if ty.Bad? then Bad(ty.err)
      else
        var k := ReadByte(b, ty.next);
        if k.Bad? then Bad(k.err) else Got((ty.value, k.value), k.next)
  }

  function ReadArgument(b: bytes, p: nat): Read<Argument> {
    var kind := ReadByte(b, p);
    if kind.Bad? then Bad(kind.err)
    else if !(NORMAL <= kind.value <= NODE_ROLE) then Bad(MetadataError)
    else
      var bounds := ReadBounds(b, kind.next, kind.value);
      if bounds.Bad? then Bad(bounds.err)
      else
        var key := ReadString(b, bounds.next);
        if key.Bad? then Bad(key.err)
        else
          var index := ReadByte(b, key.next);
          if index.Bad? then Bad(index.err)
          else
            var ty := ReadType(b, index.next, kind.value);
            if ty.Bad? then Bad(ty.err)
            else
              var (min, max) := bounds.value;
              Got(Argument(kind.value, min, max, key.value, index.value, ty.value.0, ty.value.1), ty.next)
  }

  function ReadArguments(b: bytes, p: nat, n: nat): Read<seq<Argument>>
    decreases n
  {
    if n == 0 then Got([], p)
    else
      var first := ReadArgument(b, p);
      if first.Bad? then Bad(first.err)
      else
        var rest := ReadArguments(b, first.next, n - 1);
        if rest.Bad? then Bad(rest.err) else Got([first.value] + rest.value, rest.next)
  }

  function ReadMeta(b: bytes, p: nat): Read<Meta> {
    var name := ReadString(b, p);
    if name.Bad? then Bad(name.err)
    else
      var n := ReadByte(b, name.next);
      if n.Bad? then Bad(n.err)
      else if n.value > MAX_ARGS then Bad(TooManyArguments)
      else
        var args := ReadArguments(b, n.next, n.value);
        if args.Bad? then Bad(args.err)
        else Got(Meta(name.value, args.value), args.next)
  }

  // ---------------------------------------------------------------- the list of script hashes

  /** The index of byte `j` of hash `i`, in the 8 bits the program keeps of it. */
  function ByteIndex(i: nat, j: nat): nat { (1 + i * HASH_SIZE + j) % 256 }

  /** Compares hash `i` from byte `j` on; None when the index runs past the metadata. */
  function HashMatches(hash: Digest, b: bytes, i: nat, j: nat): Option<bool>
    requires j <= HASH_SIZE
    decreases HASH_SIZE - j
  {
    if j == HASH_SIZE then Some(true)
    else if ByteIndex(i, j) >= |b| then None
    else if b[ByteIndex(i, j)] != hash[j] then Some(false)
    else HashMatches(hash, b, i, j + 1)
  }

  function ValidateFrom(hash: Digest, b: bytes, n: nat, i: nat): ParserError
    requires i <= n
    decreases n - i
  {
    if i == n then UnexpectedScript
    else
      match HashMatches(hash, b, i, 0)
      case None => MetadataError
      case Some(true) => ParserError.Ok
      case Some(false) => ValidateFrom(hash, b, n, i + 1)
  }

  function ValidateScriptHash(hash: Digest, b: bytes): ParserError {
    if |b| < 1 then MetadataError
    else if b[0] > MAX_HASHES then MetadataError
    else ValidateFrom(hash, b, b[0], 0)
  }

  /** The whole parser; `b` is the stored metadata. */
  function Parse(hash: Digest, b: bytes): Read<Meta> {
    if |b| == 0 then Bad(MetadataError)
    else if b[0] > MAX_HASHES then Bad(MetadataTooManyHashes)
    else if ValidateScriptHash(hash, b) != ParserError.Ok then Bad(ValidateScriptHash(hash, b))
    else
      var m := ReadMeta(b, 1 + b[0] * HASH_SIZE);
      if m.Bad? then Bad(m.err)
      else if m.next != |b| then Bad(MetadataError)
      else m
  }

  // ---------------------------------------------------------------- each reader inverts its renderer

  lemma {:induction false} ReadTextIs(b: bytes, p: nat, len: nat, s: bytes)
    requires At(b, p, Terminated(s)) && forall i :: 0 <= i < |s| ==> s[i] != 0
    ensures ReadText(b, p, len)
            == if len <= MAX_STRING && len + |s| <= MAX_STRING then Got(s, p + |s| + 1) else Bad(MetadataError)
    decreases |s|
  {
    assert b[p] == Terminated(s)[0];
    if s != [] && len <= MAX_STRING {
      assert s == [s[0]] + s[1..];
      assert Terminated(s) == [s[0]] + Terminated(s[1..]);
      AtSplit(b, p, [s[0]], Terminated(s[1..]));
      ReadTextIs(b, p + 1, len + 1, s[1..]);
    }
  }

  lemma {:induction false} ReadTextSound(b: bytes, p: nat, len: nat)
    requires ReadText(b, p, len).Got?
    ensures var s := ReadText(b, p, len).value;
      && At(b, p, Terminated(s)) && len + |s| <= MAX_STRING && ReadText(b, p, len).next == p + |s| + 1
      && forall i :: 0 <= i < |s| ==> s[i] != 0
    decreases |b| - p
  {
    var s := ReadText(b, p, len).value;
    if b[p] != 0 {
      ReadTextSound(b, p + 1, len + 1);
      var rest := ReadText(b, p + 1, len + 1).value;
      assert Terminated(s) == [b[p]] + Terminated(rest);
      AtSplit(b, p, [b[p]], Terminated(rest));
    }
  }

  /** A string is read exactly when a terminated text stands there. */
  lemma ReadStringIff(b: bytes, p: nat, s: bytes, next: nat)
    ensures ReadString(b, p) == Got(s, next) <==> IsText(s) && At(b, p, Terminated(s)) && next == p + |s| + 1
  {
    if ReadString(b, p).Got? { ReadTextSound(b, p, 0); }
    if IsText(s) && At(b, p, Terminated(s)) { ReadTextIs(b, p, 0, s); }
  }

  lemma ByteAt(b: bytes, p: nat, x: byte)
    ensures At(b, p, [x]) <==> p < |b| && b[p] == x
  {
    assert [x][0] == x;
  }

  predicate TypeFits(a: Argument) {
    if HasOwnType(a.kind) then IsText(a.ty) else a.ty == ImpliedType(a.kind) && a.jsonKind == JSMN_STRING
  }

  lemma ReadTypeIff(b: bytes, p: nat, a: Argument, next: nat)
    requires p <= |b|
    ensures ReadType(b, p, a.kind) == Got((a.ty, a.jsonKind), next)
            <==> TypeFits(a) && At(b, p, TypePart(a)) && next == p + |TypePart(a)|
  {
    if HasOwnType(a.kind) {
      ReadStringIff(b, p, a.ty, p + |a.ty| + 1);
      AtSplit(b, p, Terminated(a.ty), [a.jsonKind]);
      ByteAt(b, p + |a.ty| + 1, a.jsonKind);
      var ty := ReadString(b, p);
      if ty.Got? { ReadStringIff(b, p, ty.value, ty.next); }
    }
  }

  lemma ReadBoundsIff(b: bytes, p: nat, a: Argument, next: nat)
    requires p <= |b|
    ensures ReadBounds(b, p, a.kind) == Got((a.min, a.max), next) <==>
      && (if a.kind == ARRAY then a.min <= a.max <= MAX_ARRAY_ITEMS else a.min == 0 && a.max == 0)
      && At(b, p, Bounds(a)) && next == p + |Bounds(a)|
  {
    if a.kind == ARRAY {
      assert Bounds(a) == [a.min] + [a.max];
      AtSplit(b, p, [a.min], [a.max]);
      ByteAt(b, p, a.min);
      ByteAt(b, p + 1, a.max);
    }
  }

  /** Where the parts of an argument stand. */
  function KeyAt(p: nat, a: Argument): nat { p + 1 + |Bounds(a)| }

  function IndexAt(p: nat, a: Argument): nat { KeyAt(p, a) + |a.key| + 1 }

  lemma ArgumentAt(b: bytes, p: nat, a: Argument)
    ensures At(b, p, RenderArgument(a)) <==>
      && p < |b| && b[p] == a.kind && At(b, p + 1, Bounds(a))
      && At(b, KeyAt(p, a), Terminated(a.key))
      && IndexAt(p, a) < |b| && b[IndexAt(p, a)] == a.index && At(b, IndexAt(p, a) + 1, TypePart(a))
    ensures |RenderArgument(a)| == IndexAt(0, a) + 1 + |TypePart(a)|
  {
    hide At;
    AtSplit(b, p, [a.kind], Bounds(a) + (Terminated(a.key) + ([a.index] + TypePart(a))));
    AtSplit(b, p + 1, Bounds(a), Terminated(a.key) + ([a.index] + TypePart(a)));
    AtSplit(b, KeyAt(p, a), Terminated(a.key), [a.index] + TypePart(a));
    AtSplit(b, IndexAt(p, a), [a.index], TypePart(a));
    ByteAt(b, p, a.kind);
    ByteAt(b, IndexAt(p, a), a.index);
  }

  lemma ReadArgumentFits(b: bytes, p: nat)
    requires p <= |b| && ReadArgument(b, p).Got?
    ensures IsArgument(ReadArgument(b, p).value)
  {
    var a, next := ReadArgument(b, p).value, ReadArgument(b, p).next;
    var bounds := ReadBounds(b, p + 1, a.kind);
    var key := ReadString(b, bounds.next);
    ReadStringIff(b, bounds.next, a.key, key.next);
    ReadTypeIff(b, key.next + 1, a, next);
  }

  lemma ReadArgumentSound(b: bytes, p: nat)
    requires p <= |b| && ReadArgument(b, p).Got?
    ensures var a := ReadArgument(b, p).value;
      IsArgument(a) && At(b, p, RenderArgument(a)) && ReadArgument(b, p).next == p + |RenderArgument(a)|
  {
    var a, next := ReadArgument(b, p).value, ReadArgument(b, p).next;
    var bounds := ReadBounds(b, p + 1, a.kind);
    var key := ReadString(b, bounds.next);
    assert At(b, p + 1, Bounds(a)) && bounds.next == KeyAt(p, a) by { ReadBoundsIff(b, p + 1, a, bounds.next); }
    assert At(b, KeyAt(p, a), Terminated(a.key)) && key.next == IndexAt(p, a) by {
      ReadStringIff(b, bounds.next, a.key, key.next);
    }
    assert At(b, IndexAt(p, a) + 1, TypePart(a)) && next == IndexAt(p, a) + 1 + |TypePart(a)| by {
      ReadTypeIff(b, key.next + 1, a, next);
    }
    ArgumentAt(b, p, a);
    ReadArgumentFits(b, p);
  }

  lemma ReadArgumentJoin(b: bytes, p: nat, a: Argument, q1: nat, q2: nat, next: nat)
    requires p < |b| && b[p] == a.kind && NORMAL <= a.kind <= NODE_ROLE
    requires ReadBounds(b, p + 1, a.kind) == Got((a.min, a.max), q1)
    requires ReadString(b, q1) == Got(a.key, q2) && q2 < |b| && b[q2] == a.index
    requires ReadType(b, q2 + 1, a.kind) == Got((a.ty, a.jsonKind), next)
    ensures ReadArgument(b, p) == Got(a, next)
  {
  }

  lemma ReadArgumentComplete(b: bytes, p: nat, a: Argument)
    requires IsArgument(a) && At(b, p, RenderArgument(a))
    ensures ReadArgument(b, p) == Got(a, p + |RenderArgument(a)|)
  {
    var q1, q2 := KeyAt(p, a), IndexAt(p, a);
    var next := q2 + 1 + |TypePart(a)|;
    ArgumentAt(b, p, a);
    assert ReadBounds(b, p + 1, a.kind) == Got((a.min, a.max), q1) by { ReadBoundsIff(b, p + 1, a, q1); }
    assert ReadString(b, q1) == Got(a.key, q2) by { ReadStringIff(b, q1, a.key, q2); }
    assert ReadType(b, q2 + 1, a.kind) == Got((a.ty, a.jsonKind), next) by { ReadTypeIff(b, q2 + 1, a, next); }
    ReadArgumentJoin(b, p, a, q1, q2, next);
  }

  lemma {:induction false} ReadArgumentsSound(b: bytes, p: nat, n: nat)
    requires p <= |b| && ReadArguments(b, p, n).Got?
    ensures var args := ReadArguments(b, p, n).value;
      && AreArguments(args) && |args| == n && At(b, p, RenderArguments(args))
      && ReadArguments(b, p, n).next == p + |RenderArguments(args)|
    decreases n
  {
    if n > 0 {
      var args, first := ReadArguments(b, p, n).value, ReadArgument(b, p);
      ReadArgumentSound(b, p);
      ReadArgumentsSound(b, first.next, n - 1);
      assert args[1..] == ReadArguments(b, first.next, n - 1).value;
      AtSplit(b, p, RenderArgument(args[0]), RenderArguments(args[1..]));
    }
  }

  lemma ReadArgumentsStep(b: bytes, p: nat, args: seq<Argument>, q: nat, next: nat)
    requires args != [] && ReadArgument(b, p) == Got(args[0], q)
    requires ReadArguments(b, q, |args[1..]|) == Got(args[1..], next)
    ensures ReadArguments(b, p, |args|) == Got(args, next)
  {
    assert [args[0]] + args[1..] == args;
  }

  lemma {:induction false} ReadArgumentsComplete(b: bytes, p: nat, args: seq<Argument>)
    requires AreArguments(args) && At(b, p, RenderArguments(args))
    ensures ReadArguments(b, p, |args|) == Got(args, p + |RenderArguments(args)|)
    decreases |args|
  {
    hide ReadArgument;
    if args != [] {
      var q, next := p + |RenderArgument(args[0])|, p + |RenderArguments(args)|;
      assert At(b, p, RenderArgument(args[0])) && At(b, q, RenderArguments(args[1..])) by {
        AtSplit(b, p, RenderArgument(args[0]), RenderArguments(args[1..]));
      }
      assert ReadArgument(b, p) == Got(args[0], q) by { ReadArgumentComplete(b, p, args[0]); }
      assert ReadArguments(b, q, |args[1..]|) == Got(args[1..], next) by { ReadArgumentsComplete(b, q, args[1..]); }
      ReadArgumentsStep(b, p, args, q, next);
    }
  }

  lemma MetaAt(b: bytes, p: nat, m: Meta)
    requires |m.args| < 256
    ensures At(b, p, RenderMeta(m)) <==>
      && At(b, p, Terminated(m.name)) && p + |m.name| + 1 < |b| && b[p + |m.name| + 1] == |m.args|
      && At(b, p + |m.name| + 2, RenderArguments(m.args))
  {
    AtSplit(b, p, Terminated(m.name), [|m.args|] + RenderArguments(m.args));
    AtSplit(b, p + |m.name| + 1, [|m.args|], RenderArguments(m.args));
    ByteAt(b, p + |m.name| + 1, |m.args|);
  }

  lemma ReadMetaSound(b: bytes, p: nat)
    requires ReadMeta(b, p).Got?
    ensures var m := ReadMeta(b, p).value;
      IsMeta(m) && At(b, p, RenderMeta(m)) && ReadMeta(b, p).next == p + |RenderMeta(m)|
  {
    hide ReadArguments;
    var m := ReadMeta(b, p).value;
    var name := ReadString(b, p);
    var q := p + |m.name| + 1;
    assert IsText(m.name) && At(b, p, Terminated(m.name)) && name.next == q by {
      ReadStringIff(b, p, m.name, name.next);
    }
    assert AreArguments(m.args) && |m.args| == b[q] && At(b, q + 1, RenderArguments(m.args))
      && ReadMeta(b, p).next == q + 1 + |RenderArguments(m.args)| by { ReadArgumentsSound(b, q + 1, b[q]); }
    MetaAt(b, p, m);
  }

  lemma ReadMetaJoin(b: bytes, p: nat, m: Meta, q: nat, next: nat)
    requires ReadString(b, p) == Got(m.name, q) && q < |b| && b[q] == |m.args| <= MAX_ARGS
    requires ReadArguments(b, q + 1, |m.args|) == Got(m.args, next)
    ensures ReadMeta(b, p) == Got(m, next)
  {
  }

  lemma ReadMetaFromParts(b: bytes, p: nat, m: Meta, q: nat)
    requires IsMeta(m) && q == p + |m.name| + 1 && At(b, p, Terminated(m.name))
    requires q < |b| && b[q] == |m.args| && At(b, q + 1, RenderArguments(m.args))
    ensures ReadMeta(b, p) == Got(m, q + 1 + |RenderArguments(m.args)|)
  {
    hide ReadMeta, ReadArguments, RenderArguments;
    assert ReadString(b, p) == Got(m.name, q) by { ReadStringIff(b, p, m.name, q); }
    var next := q + 1 + |RenderArguments(m.args)|;
    assert ReadArguments(b, q + 1, |m.args|) == Got(m.args, next) by { ReadArgumentsComplete(b, q + 1, m.args); }
    ReadMetaJoin(b, p, m, q, next);
  }

  lemma ReadMetaComplete(b: bytes, p: nat, m: Meta)
    requires IsMeta(m) && At(b, p, RenderMeta(m))
    ensures ReadMeta(b, p) == Got(m, p + |RenderMeta(m)|)
  {
    assert p + |RenderMeta(m)| == p + |m.name| + 2 + |RenderArguments(m.args)|;
    assert ReadMeta(b, p) == Got(m, p + |m.name| + 2 + |RenderArguments(m.args)|) by {
      MetaAt(b, p, m);
      ReadMetaFromParts(b, p, m, p + |m.name| + 1);
    }
  }

  // ---------------------------------------------------------------- the script hash really is listed

  /** The hash that the metadata lists at index `i`. */
  predicate Lists(b: bytes, i: nat, hash: Digest) { At(b, 1 + i * HASH_SIZE, hash) }

  lemma {:induction false} HashMatchesIff(hash: Digest, b: bytes, i: nat, j: nat)
    requires j <= HASH_SIZE && 1 + (i + 1) * HASH_SIZE <= |b| <= MAX_LENGTH
    ensures HashMatches(hash, b, i, j) == Some(forall k :: j <= k < HASH_SIZE ==> b[1 + i * HASH_SIZE + k] == hash[k])
    decreases HASH_SIZE - j
  {
    if j < HASH_SIZE {
      assert ByteIndex(i, j) == 1 + i * HASH_SIZE + j;
      HashMatchesIff(hash, b, i, j + 1);
    }
  }

  /** A match that was not cut short compared every byte, at the wrapped indices. */
  lemma {:induction false} HashMatchesSound(hash: Digest, b: bytes, i: nat, j: nat)
    requires j <= HASH_SIZE && HashMatches(hash, b, i, j) == Some(true)
    ensures forall k :: j <= k < HASH_SIZE ==> ByteIndex(i, k) < |b| && b[ByteIndex(i, k)] == hash[k]
    decreases HASH_SIZE - j
  {
    if j < HASH_SIZE { HashMatchesSound(hash, b, i, j + 1); }
  }

  /** Where the wrapped index of byte `j` points: hashes 8 and 9 read hashes 0 and 1 again. */
  lemma ByteIndexWraps(i: nat, j: nat)
    requires i < MAX_HASHES && j < HASH_SIZE
    ensures i < 7 ==> ByteIndex(i, j) == 1 + i * HASH_SIZE + j
    ensures i >= 8 ==> ByteIndex(i, j) == 1 + (i - 8) * HASH_SIZE + j
    ensures i == 7 && j == 30 ==> ByteIndex(i, j) == MAX_LENGTH
  {
  }

  lemma MatchAtListed(hash: Digest, b: bytes, i: nat, k: nat)
    requires forall j :: 0 <= j < HASH_SIZE ==> ByteIndex(i, j) < |b| && b[ByteIndex(i, j)] == hash[j]
    requires forall j :: 0 <= j < HASH_SIZE ==> ByteIndex(i, j) == 1 + k * HASH_SIZE + j
    ensures Lists(b, k, hash)
  {
    var start := 1 + k * HASH_SIZE;
    assert ByteIndex(i, 31) == start + 31;
    forall j | 0 <= j < HASH_SIZE ensures start + j < |b| && hash[j] == b[start + j] {
      assert ByteIndex(i, j) == start + j;
    }
  }

  /** Although the index has 8 bits and wraps from the eighth hash on, a match is a listed hash. */
  lemma MatchIsListed(hash: Digest, b: bytes, i: nat)
    requires i < MAX_HASHES && |b| <= MAX_LENGTH && HashMatches(hash, b, i, 0) == Some(true)
    ensures exists k :: 0 <= k < 7 && k <= i && Lists(b, k, hash)
  {
    var k := if i < 7 then i else i - 8;
    EighthNeverMatches(hash, b);
    HashMatchesSound(hash, b, i, 0);
    forall j | 0 <= j < HASH_SIZE ensures ByteIndex(i, j) == 1 + k * HASH_SIZE + j { ByteIndexWraps(i, j); }
    MatchAtListed(hash, b, i, k);
  }

  /** The index of its last byte but one is 255, behind any stored metadata. */
  lemma EighthNeverMatches(hash: Digest, b: bytes)
    requires |b| <= MAX_LENGTH
    ensures HashMatches(hash, b, 7, 0) != Some(true)
  {
    ByteIndexWraps(7, 30);
    if HashMatches(hash, b, 7, 0) == Some(true) { HashMatchesSound(hash, b, 7, 0); }
  }

  lemma {:induction false} ValidateFromSound(hash: Digest, b: bytes, n: nat, i: nat)
    requires i <= n <= MAX_HASHES && |b| <= MAX_LENGTH && ValidateFrom(hash, b, n, i) == ParserError.Ok
    ensures exists k :: 0 <= k < n && k < 7 && Lists(b, k, hash)
    decreases n - i
  {
    match HashMatches(hash, b, i, 0)
    case Some(true) => MatchIsListed(hash, b, i);
    case Some(false) => ValidateFromSound(hash, b, n, i + 1);
  }

  /** Acceptance of a script hash, for any bytes: the hash is one of the first seven listed. */
  lemma ValidateSound(hash: Digest, b: bytes)
    requires |b| <= MAX_LENGTH && ValidateScriptHash(hash, b) == ParserError.Ok
    ensures exists k :: 0 <= k < b[0] && k < 7 && Lists(b, k, hash)
  {
    ValidateFromSound(hash, b, b[0], 0);
  }

  lemma {:induction false} ValidateFromComplete(hash: Digest, b: bytes, n: nat, i: nat, k: nat)
    requires i <= k < n && 1 + n * HASH_SIZE <= |b| <= MAX_LENGTH && Lists(b, k, hash)
    ensures ValidateFrom(hash, b, n, i) == ParserError.Ok
    decreases n - i
  {
    HashMatchesIff(hash, b, i, 0);
    if HashMatches(hash, b, i, 0) == Some(false) && i < k { ValidateFromComplete(hash, b, n, i + 1, k); }
  }

  // ---------------------------------------------------------------- the parser accepts the grammar, and only that

  lemma {:induction false} ConcatAt(b: bytes, p: nat, hashes: seq<Digest>)
    requires p <= |b|
    ensures At(b, p, Concat(hashes)) <==> forall k :: 0 <= k < |hashes| ==> At(b, p + k * HASH_SIZE, hashes[k])
    decreases |hashes|
  {
    if hashes != [] {
      var first, rest := hashes[0], hashes[1..];
      AtSplit(b, p, first, Concat(rest));
      if p + HASH_SIZE <= |b| {
        ConcatAt(b, p + HASH_SIZE, rest);
        if forall k :: 0 <= k < |rest| ==> At(b, p + HASH_SIZE + k * HASH_SIZE, rest[k]) {
          forall k | 0 < k < |hashes| ensures At(b, p + k * HASH_SIZE, hashes[k]) {
            assert At(b, p + HASH_SIZE + (k - 1) * HASH_SIZE, rest[k - 1]);
          }
        }
        if forall k :: 0 <= k < |hashes| ==> At(b, p + k * HASH_SIZE, hashes[k]) {
          forall k | 0 <= k < |rest| ensures At(b, p + HASH_SIZE + k * HASH_SIZE, rest[k]) {
            assert At(b, p + (k + 1) * HASH_SIZE, hashes[k + 1]);
          }
        }
      } else {
        assert !At(b, p + 0 * HASH_SIZE, hashes[0]);
      }
    }
  }

  /** The metadata `m` under a list of script hashes that includes this one. */
  predicate RenderedWith(b: bytes, m: Meta, hashes: seq<Digest>, hash: Digest) {
    |hashes| <= MAX_HASHES && hash in hashes && IsMeta(m) && b == Render(hashes, m)
  }

  lemma RenderAt(b: bytes, m: Meta, hashes: seq<Digest>)
    requires |hashes| < 256 && |m.args| < 256
    ensures At(b, 0, Render(hashes, m)) <==>
      && |b| > 0 && b[0] == |hashes| && At(b, 1, Concat(hashes)) && At(b, 1 + |hashes| * HASH_SIZE, RenderMeta(m))
    ensures |Render(hashes, m)| == 1 + |hashes| * HASH_SIZE + |RenderMeta(m)|
  {
    AtSplit(b, 0, [|hashes|], Concat(hashes) + RenderMeta(m));
    AtSplit(b, 1, Concat(hashes), RenderMeta(m));
    ByteAt(b, 0, |hashes|);
  }

  lemma ValidateListed(hash: Digest, b: bytes, hashes: seq<Digest>)
    requires 1 + |hashes| * HASH_SIZE <= |b| <= MAX_LENGTH && At(b, 1, Concat(hashes)) && hash in hashes
    ensures ValidateFrom(hash, b, |hashes|, 0) == ParserError.Ok
  {
    var k :| 0 <= k < |hashes| && hashes[k] == hash;
    ConcatAt(b, 1, hashes);
    assert Lists(b, k, hash);
    ValidateFromComplete(hash, b, |hashes|, 0, k);
  }

  lemma ParseComplete(hash: Digest, b: bytes, m: Meta, hashes: seq<Digest>)
    requires |b| <= MAX_LENGTH && RenderedWith(b, m, hashes, hash)
    ensures Parse(hash, b) == Got(m, |b|)
  {
    RenderAt(b, m, hashes);
    ParseListed(hash, b, m, hashes);
  }

  lemma ParseListed(hash: Digest, b: bytes, m: Meta, hashes: seq<Digest>)
    requires 0 < |b| <= MAX_LENGTH && b[0] == |hashes| <= MAX_HASHES && hash in hashes && IsMeta(m)
    requires At(b, 1, Concat(hashes)) && At(b, 1 + |hashes| * HASH_SIZE, RenderMeta(m))
    requires |b| == 1 + |hashes| * HASH_SIZE + |RenderMeta(m)|
    ensures Parse(hash, b) == Got(m, |b|)
  {
    ValidateListed(hash, b, hashes);
    ParseListedMeta(hash, b, |hashes|, m);
  }

  lemma ParseListedMeta(hash: Digest, b: bytes, n: nat, m: Meta)
    requires 0 < |b| && b[0] == n <= MAX_HASHES && IsMeta(m) && ValidateFrom(hash, b, n, 0) == ParserError.Ok
    requires At(b, 1 + n * HASH_SIZE, RenderMeta(m)) && |b| == 1 + n * HASH_SIZE + |RenderMeta(m)|
    ensures Parse(hash, b) == Got(m, |b|)
  {
    hide ReadMeta;
    ReadMetaComplete(b, 1 + n * HASH_SIZE, m);
    ParseParts(hash, b, n, m);
  }

  lemma ParseParts(hash: Digest, b: bytes, n: nat, m: Meta)
    requires 0 < |b| && b[0] == n <= MAX_HASHES && ValidateFrom(hash, b, n, 0) == ParserError.Ok
    requires ReadMeta(b, 1 + n * HASH_SIZE) == Got(m, |b|)
    ensures Parse(hash, b) == Got(m, |b|)
  {
  }

  lemma ListedHashes(b: bytes, n: nat) returns (hashes: seq<Digest>)
    requires 1 + n * HASH_SIZE <= |b|
    ensures |hashes| == n && At(b, 1, Concat(hashes)) && forall k :: 0 <= k < n ==> Lists(b, k, hashes[k])
  {
    hashes := [];
    for i := 0 to n
      invariant |hashes| == i && forall k :: 0 <= k < i ==> Lists(b, k, hashes[k])
    {
      var hash: Digest := b[1 + i * HASH_SIZE..1 + (i + 1) * HASH_SIZE];
      AtSlice(b, 1 + i * HASH_SIZE, hash);
      hashes := hashes + [hash];
    }
    ConcatAt(b, 1, hashes);
  }

  lemma ListsOne(b: bytes, k: nat, x: Digest, y: Digest)
    requires Lists(b, k, x) && Lists(b, k, y)
    ensures x == y
  {
    forall i | 0 <= i < HASH_SIZE ensures x[i] == y[i] { assert b[1 + k * HASH_SIZE + i] == x[i]; }
  }

  lemma ParseSound(hash: Digest, b: bytes) returns (hashes: seq<Digest>)
    requires |b| <= MAX_LENGTH && Parse(hash, b).Got?
    ensures |hashes| <= 7 && RenderedWith(b, Parse(hash, b).value, hashes, hash)
  {
    hide ReadMeta, ValidateFrom, ByteIndex, AreArguments;
    var m, n := Parse(hash, b).value, b[0];
    assert IsMeta(m) && At(b, 1 + n * HASH_SIZE, RenderMeta(m)) && |b| == 1 + n * HASH_SIZE + |RenderMeta(m)| by {
      ReadMetaSound(b, 1 + n * HASH_SIZE);
    }
    hashes := ListedHashes(b, n);
    assert hash in hashes by {
      ValidateSound(hash, b);
      var k :| 0 <= k < n && k < 7 && Lists(b, k, hash);
      ListsOne(b, k, hashes[k], hash);
    }
    RenderAt(b, m, hashes);
    AtSlice(b, 0, Render(hashes, m));
  }

  /** Over all stored bytes: acceptance, and what is accepted, are decided by the grammar alone. */
  lemma ParseIff(hash: Digest, b: bytes, m: Meta)
    requires |b| <= MAX_LENGTH
    ensures Parse(hash, b) == Got(m, |b|) <==> exists hashes :: RenderedWith(b, m, hashes, hash)
    ensures Parse(hash, b).Got? ==> Parse(hash, b).next == |b|
  {
    if Parse(hash, b).Got? {
      var hashes := ParseSound(hash, b);
      assert RenderedWith(b, Parse(hash, b).value, hashes, hash);
    }
    if exists hashes :: RenderedWith(b, m, hashes, hash) {
      var hashes :| RenderedWith(b, m, hashes, hash);
      ParseComplete(hash, b, m, hashes);
    }
  }
}
