/**
 * The host's printer of transaction metadata (transaction_metadata/tree/index.js) and its round trip
 * through the device's parser. Labels and names are the shortened ones, and `enumKind` is the kind that
 * the label of a UInt8 argument selects; the tables that produce them are not part of this model.
 */
module Template {
  import opened Bytes
  import opened Errors
  import opened Metadata

  const QUESTION: byte := 63
  const BRACKET: byte := 91
  const MIN_ARRAY_LENGTH: byte := 0
  const MAX_ARRAY_LENGTH: byte := 3

  datatype ArgTemplate = ArgTemplate(ty: bytes, title: bytes, enumKind: byte)
  datatype Template = Template(testnet: Digest, mainnet: Digest, name: bytes, args: seq<ArgTemplate>)

  predicate IsEnumKind(k: byte) { k == NORMAL || k == HASH_ALGO || k == SIGNATURE_ALGO || k == NODE_ROLE }

  predicate NoZero(s: bytes) { forall i :: 0 <= i < |s| ==> s[i] != 0 }

  predicate IsArrayType(ty: bytes) { ty != [] && ty[0] == BRACKET }

  predicate IsOptionalType(ty: bytes) { ty != [] && ty[|ty| - 1] == QUESTION }

  /** The text between the first and the last character. */
  function Inner(ty: bytes): bytes { if |ty| < 2 then [] else ty[1..|ty| - 1] }

  /** The printed argument; None when the script stops with an error, as it does for optional arrays. */
  function ProcessArg(arg: ArgTemplate, idx: nat): Option<bytes> {
    var title := Terminated(arg.title);
    if idx > 255 then None
    else if arg.ty == STRING_TYPE then Some([STRING] + title + [idx])
    else if arg.ty == UINT8_TYPE && arg.enumKind != NORMAL then Some([arg.enumKind] + title + [idx])
    else if !IsArrayType(arg.ty) && !IsOptionalType(arg.ty) then
      Some([NORMAL] + title + [idx] + Terminated(arg.ty) + [JSMN_STRING])
    else if !IsArrayType(arg.ty) then
      Some([OPTIONAL] + title + [idx] + Terminated(arg.ty[..|arg.ty| - 1]) + [JSMN_STRING])
    else if !IsOptionalType(arg.ty) then
      Some([ARRAY] + [MIN_ARRAY_LENGTH] + [MAX_ARRAY_LENGTH] + title + [idx] + Terminated(Inner(arg.ty))
           + [JSMN_STRING])
    else None
  }

  function ProcessArgs(args: seq<ArgTemplate>, idx: nat): Option<bytes> {
    if args == [] then Some([])
    else
      var first, rest := ProcessArg(args[0], idx), ProcessArgs(args[1..], idx + 1);
      if first.None? || rest.None? then None else Some(first.value + rest.value)
  }

  /** The printed metadata, or None when the script stops with an error. */
  function Print(t: Template): Option<bytes> {
    var args := ProcessArgs(t.args, 0);
    if |t.args| > 255 || args.None? then None
    else
      var r := [2] + t.testnet + t.mainnet + Terminated(t.name) + [|t.args|] + args.value;
      if |r| > MAX_LENGTH then None else Some(r)
  }

  // ---------------------------------------------------------------- what the device should read

  /** The argument that a template stands for. */
  function ArgumentOf(arg: ArgTemplate, idx: byte): Argument {
    if arg.ty == STRING_TYPE then Argument(STRING, 0, 0, arg.title, idx, STRING_TYPE, JSMN_STRING)
    else if arg.ty == UINT8_TYPE && arg.enumKind != NORMAL then
      Argument(arg.enumKind, 0, 0, arg.title, idx, UINT8_TYPE, JSMN_STRING)
    else if IsArrayType(arg.ty) then
      Argument(ARRAY, MIN_ARRAY_LENGTH, MAX_ARRAY_LENGTH, arg.title, idx, Inner(arg.ty), JSMN_STRING)
    else if IsOptionalType(arg.ty) then
      Argument(OPTIONAL, 0, 0, arg.title, idx, arg.ty[..|arg.ty| - 1], JSMN_STRING)
    else Argument(NORMAL, 0, 0, arg.title, idx, arg.ty, JSMN_STRING)
  }

  function ArgumentsOf(args: seq<ArgTemplate>, idx: nat): (r: seq<Argument>)
    requires idx + |args| <= 256
    ensures |r| == |args|
  {
    if args == [] then [] else [ArgumentOf(args[0], idx)] + ArgumentsOf(args[1..], idx + 1)
  }

  function MetaOf(t: Template): Meta
    requires |t.args| <= 255
  {
    Meta(t.name, ArgumentsOf(t.args, 0))
  }

  /** The manifest's strings have no zero bytes and enum labels select one of the three enums. */
  predicate IsArgTemplate(a: ArgTemplate) { NoZero(a.ty) && NoZero(a.title) && IsEnumKind(a.enumKind) }

  predicate IsTemplate(t: Template) {
    NoZero(t.name) && forall i :: 0 <= i < |t.args| ==> IsArgTemplate(t.args[i])
  }

  lemma ProcessArgRenders(arg: ArgTemplate, idx: nat)
    requires ProcessArg(arg, idx).Some? && IsEnumKind(arg.enumKind)
    ensures idx <= 255 && ProcessArg(arg, idx).value == RenderArgument(ArgumentOf(arg, idx))
  {
    hide Terminated;
    var a := ArgumentOf(arg, idx);
    var title, ty := Terminated(arg.title), Terminated(a.ty);
    if !HasOwnType(a.kind) {
      assert [a.kind] + ([] + (title + ([idx] + []))) == [a.kind] + title + [idx];
    } else if a.kind == ARRAY {
      assert [ARRAY] + ([a.min, a.max] + (title + ([idx] + (ty + [JSMN_STRING]))))
          == [ARRAY] + [a.min] + [a.max] + title + [idx] + ty + [JSMN_STRING];
    } else {
      assert [a.kind] + ([] + (title + ([idx] + (ty + [JSMN_STRING]))))
          == [a.kind] + title + [idx] + ty + [JSMN_STRING];
    }
  }

  lemma {:induction false} ProcessArgsRenders(args: seq<ArgTemplate>, idx: nat)
    requires ProcessArgs(args, idx).Some? && idx + |args| <= 256
    requires forall i :: 0 <= i < |args| ==> IsEnumKind(args[i].enumKind)
    ensures ProcessArgs(args, idx).value == RenderArguments(ArgumentsOf(args, idx))
    decreases |args|
  {
    if args != [] {
      ProcessArgRenders(args[0], idx);
      ProcessArgsRenders(args[1..], idx + 1);
      assert ArgumentsOf(args, idx)[1..] == ArgumentsOf(args[1..], idx + 1);
    }
  }

  /** The script prints what the grammar renders. */
  lemma PrintRenders(t: Template)
    requires Print(t).Some? && IsTemplate(t)
    ensures |t.args| <= 255 && |Print(t).value| <= MAX_LENGTH
    ensures Print(t).value == Render([t.testnet, t.mainnet], MetaOf(t))
  {
    hide Terminated;
    ProcessArgsRenders(t.args, 0);
    var hashes := [t.testnet, t.mainnet];
    assert hashes[1..] == [t.mainnet] && [t.mainnet][1..] == [];
    assert Concat(hashes) == t.testnet + (t.mainnet + []);
    var tail := [|t.args|] + RenderArguments(ArgumentsOf(t.args, 0));
    assert Print(t).value == [2] + (t.testnet + (t.mainnet + []) + (Terminated(t.name) + tail));
  }

  // ---------------------------------------------------------------- the printed bytes

  /** Labels select no kind of their own, or one of the three enums. */
  lemma EnumKinds(k: byte)
    ensures IsEnumKind(k) <==> k in {1, 5, 6, 7}
  {
  }

  lemma StringForm(arg: ArgTemplate, idx: byte)
    requires arg.ty == Ascii("String")
    ensures ProcessArg(arg, idx) == Some([4] + arg.title + [0, idx])
  {
    assert STRING_TYPE == Ascii("String");
    assert [4] + (arg.title + [0]) + [idx] == [4] + arg.title + [0, idx];
  }

  lemma EnumForm(arg: ArgTemplate, idx: byte)
    requires arg.ty == Ascii("UInt8") && arg.enumKind != 1
    ensures ProcessArg(arg, idx) == Some([arg.enumKind] + arg.title + [0, idx])
  {
    assert UINT8_TYPE == Ascii("UInt8") && |STRING_TYPE| == 6;
    assert [arg.enumKind] + (arg.title + [0]) + [idx] == [arg.enumKind] + arg.title + [0, idx];
  }

  /** The type of an array is written in brackets; it holds up to three items. */
  lemma ArrayForm(arg: ArgTemplate, idx: byte, ty: bytes)
    requires arg.ty == Ascii("[") + ty + Ascii("]")
    ensures ProcessArg(arg, idx) == Some([3, 0, 3] + arg.title + [0, idx] + ty + [0, 3])
  {
    assert Ascii("[") == [91] && Ascii("]") == [93];
    assert arg.ty[0] == 91 && arg.ty[|arg.ty| - 1] == 93 && Inner(arg.ty) == ty;
    assert arg.ty != STRING_TYPE && arg.ty != UINT8_TYPE;
    assert [3] + [0] + [3] + (arg.title + [0]) + [idx] + (ty + [0]) + [3]
        == [3, 0, 3] + arg.title + [0, idx] + ty + [0, 3];
  }

  /** The type of an optional argument ends in a question mark. */
  lemma OptionalForm(arg: ArgTemplate, idx: byte, ty: bytes)
    requires arg.ty == ty + Ascii("?") && !(ty != [] && ty[0] == Ascii("[")[0])
    ensures ProcessArg(arg, idx) == Some([2] + arg.title + [0, idx] + ty + [0, 3])
  {
    assert Ascii("?") == [63] && Ascii("[") == [91];
    assert arg.ty[|arg.ty| - 1] == 63 && arg.ty[..|arg.ty| - 1] == ty && arg.ty[0] == (if ty == [] then 63 else ty[0]);
    assert STRING_TYPE[5] == 103 && UINT8_TYPE[4] == 56;
    assert [2] + (arg.title + [0]) + [idx] + (ty + [0]) + [3] == [2] + arg.title + [0, idx] + ty + [0, 3];
  }

  /** Every other type is printed as it is. */
  lemma NormalForm(arg: ArgTemplate, idx: byte)
    requires arg.ty != Ascii("String") && !(arg.ty == Ascii("UInt8") && arg.enumKind != 1)
    requires arg.ty != [] ==> arg.ty[0] != Ascii("[")[0] && arg.ty[|arg.ty| - 1] != Ascii("?")[0]
    ensures ProcessArg(arg, idx) == Some([1] + arg.title + [0, idx] + arg.ty + [0, 3])
  {
    assert STRING_TYPE == Ascii("String") && UINT8_TYPE == Ascii("UInt8");
    assert [1] + (arg.title + [0]) + [idx] + (arg.ty + [0]) + [3] == [1] + arg.title + [0, idx] + arg.ty + [0, 3];
  }

  // ---------------------------------------------------------------- the round trip

  /** No string is longer than the device reads. */
  predicate FitsArgument(a: Argument) { |a.key| <= MAX_STRING && |a.ty| <= MAX_STRING }

  predicate Fits(m: Meta) {
    |m.name| <= 100 && |m.args| <= 10 && forall i :: 0 <= i < |m.args| ==> FitsArgument(m.args[i])
  }

  lemma ArgumentOfFits(arg: ArgTemplate, idx: byte)
    requires IsArgTemplate(arg)
    ensures IsArgument(ArgumentOf(arg, idx)) <==> FitsArgument(ArgumentOf(arg, idx))
    ensures NoZero(ArgumentOf(arg, idx).key) && NoZero(ArgumentOf(arg, idx).ty)
  {
  }

  lemma {:induction false} ArgumentsOfAt(args: seq<ArgTemplate>, idx: nat, i: nat)
    requires idx + |args| <= 256 && i < |args|
    ensures ArgumentsOf(args, idx)[i] == ArgumentOf(args[i], idx + i)
    decreases i
  {
    if i > 0 { ArgumentsOfAt(args[1..], idx + 1, i - 1); }
  }

  lemma MetaOfFits(t: Template)
    requires IsTemplate(t) && |t.args| <= 255
    ensures IsMeta(MetaOf(t)) <==> Fits(MetaOf(t))
  {
    forall i | 0 <= i < |t.args|
      ensures IsArgument(MetaOf(t).args[i]) <==> FitsArgument(MetaOf(t).args[i])
    {
      ArgumentsOfAt(t.args, 0, i);
      ArgumentOfFits(t.args[i], i);
    }
  }

  /** The device's reader on a rendered string without zero bytes. */
  lemma ReadRenderedString(b: bytes, p: nat, s: bytes)
    requires NoZero(s) && At(b, p, Terminated(s))
    ensures ReadString(b, p) == if |s| <= MAX_STRING then Got(s, p + |s| + 1) else Bad(MetadataError)
  {
    ReadTextIs(b, p, 0, s);
  }

  lemma ReadRenderedArgument(b: bytes, p: nat, arg: ArgTemplate, idx: byte)
    requires IsArgTemplate(arg) && At(b, p, RenderArgument(ArgumentOf(arg, idx)))
    ensures var a := ArgumentOf(arg, idx);
      if FitsArgument(a) then ReadArgument(b, p) == Got(a, p + |RenderArgument(a)|) else ReadArgument(b, p).Bad?
  {
    hide Terminated;
    var a := ArgumentOf(arg, idx);
    ArgumentOfFits(arg, idx);
    if FitsArgument(a) {
      ReadArgumentComplete(b, p, a);
    } else {
      ArgumentAt(b, p, a);
      ReadBoundsIff(b, p + 1, a, KeyAt(p, a));
      ReadRenderedString(b, KeyAt(p, a), a.key);
      if |a.key| <= MAX_STRING {
        AtSplit(b, IndexAt(p, a) + 1, Terminated(a.ty), [a.jsonKind]);
        ReadRenderedString(b, IndexAt(p, a) + 1, a.ty);
      }
    }
  }

  lemma {:induction false} ReadRenderedArguments(b: bytes, p: nat, args: seq<ArgTemplate>, idx: nat)
    requires idx + |args| <= 256 && (forall i :: 0 <= i < |args| ==> IsArgTemplate(args[i]))
    requires At(b, p, RenderArguments(ArgumentsOf(args, idx)))
    requires exists i :: 0 <= i < |args| && !FitsArgument(ArgumentsOf(args, idx)[i])
    ensures ReadArguments(b, p, |args|).Bad?
    decreases |args|
  {
    hide ReadArgument, RenderArgument, FitsArgument, IsArgTemplate;
    var meant := ArgumentsOf(args, idx);
    assert At(b, p, RenderArgument(meant[0])) && At(b, p + |RenderArgument(meant[0])|, RenderArguments(meant[1..])) by {
      AtSplit(b, p, RenderArgument(meant[0]), RenderArguments(meant[1..]));
    }
    ReadRenderedArgument(b, p, args[0], idx);
    if FitsArgument(meant[0]) {
      assert meant[1..] == ArgumentsOf(args[1..], idx + 1);
      ReadRenderedArguments(b, p + |RenderArgument(meant[0])|, args[1..], idx + 1);
    }
  }

  lemma ReadRenderedMeta(b: bytes, p: nat, t: Template)
    requires IsTemplate(t) && |t.args| <= 255 && At(b, p, RenderMeta(MetaOf(t))) && !Fits(MetaOf(t))
    ensures ReadMeta(b, p).Bad?
  {
    hide At, RenderArguments;
    var args := ArgumentsOf(t.args, 0);
    assert At(b, p, Terminated(t.name)) && p + |t.name| + 1 < |b| && b[p + |t.name| + 1] == |t.args|
      && At(b, p + |t.name| + 2, RenderArguments(args)) by { MetaAt(b, p, MetaOf(t)); }
    ReadRenderedString(b, p, t.name);
    if |t.name| <= MAX_STRING && |t.args| <= MAX_ARGS {
      assert exists i :: 0 <= i < |args| && !FitsArgument(args[i]);
      ReadRenderedArguments(b, p + |t.name| + 2, t.args, 0);
    }
  }

  /**
   * For every manifest entry that the script prints, and either of its script hashes, the device reads back
   * the same name, kinds, titles, indices, bounds and types, exactly when no string is longer than it reads
   * and there are not too many arguments. The script itself checks neither.
   */
  lemma PrintThenParse(t: Template, hash: Digest)
    requires IsTemplate(t) && Print(t).Some? && (hash == t.testnet || hash == t.mainnet)
    ensures |t.args| <= 255
    ensures var b := Print(t).value;
      if Fits(MetaOf(t)) then Parse(hash, b) == Got(MetaOf(t), |b|) else Parse(hash, b).Bad?
  {
    var b, hashes := Print(t).value, [t.testnet, t.mainnet];
    PrintRenders(t);
    MetaOfFits(t);
    if Fits(MetaOf(t)) {
      assert hash in hashes;
      ParseComplete(hash, b, MetaOf(t), hashes);
    } else {
      RenderAt(b, MetaOf(t), hashes);
      ReadRenderedMeta(b, 1 + 2 * HASH_SIZE, t);
    }
  }

  /** The condition is needed: a name one character too long is printed and then refused. */
  lemma LongNameIsRefused(hash: Digest)
    ensures var t := Template(hash, hash, seq(101, _ => 65), []);
      IsTemplate(t) && Print(t).Some? && Parse(hash, Print(t).value).Bad?
  {
    var t := Template(hash, hash, seq(101, _ => 65), []);
    PrintThenParse(t, hash);
  }
}
