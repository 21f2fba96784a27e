/**
 * The rules of BIP-173, BIP-350 and BIP-141 for valid addresses, written out with their numbers: what is decoded,
 * what can be encoded, and which checksum constant goes with which witness version.
 */
module Bech32Rules {
  import opened Bytes
  import opened Polymod
  import opened Checksum
  import opened Bech32
  import opened Segwit
  import Bech32Vectors

  predicate IsUpper(c: byte) { 65 <= c <= 90 }

  predicate IsLower(c: byte) { 97 <= c <= 122 }

  predicate OneCase(s: bytes) { (forall c :: c in s ==> !IsUpper(c)) || (forall c :: c in s ==> !IsLower(c)) }

  function Small(c: byte): byte { if IsUpper(c) then c + 32 else c }

  /** The characters of a human-readable part. */
  predicate IsHuman(hrp: bytes) { forall i :: 0 <= i < |hrp| ==> 33 <= hrp[i] <= 126 && !IsUpper(hrp[i]) }

  /** The text from `at` on is written with these characters, in either case. */
  predicate Reads(s: bytes, at: nat, text: bytes) {
    at + |text| == |s| && forall i :: 0 <= i < |text| ==> Small(s[at + i]) == text[i]
  }

  /** The 5-bit values in the alphabet. */
  function InAlphabet(vs: seq<Symbol>): (r: bytes)
    ensures |r| == |vs|
  {
    seq(|vs|, i requires 0 <= i < |vs| => Ascii("qpzry9x8gf2tvdw0s3jn54khce6mua7l")[vs[i]])
  }

  /** The human-readable part as it goes into the checksum: the high bits, a zero, the low bits. */
  function Prefix(hrp: bytes): seq<Symbol> {
    seq(2 * |hrp| + 1, i requires 0 <= i < 2 * |hrp| + 1 =>
      if i < |hrp| then hrp[i] / 32 else if i == |hrp| then 0 else hrp[i - |hrp| - 1] % 32)
  }

  /** A valid text of at most 90 characters: a part of at least one, the character 1, and at least six values. */
  predicate IsValidText(s: bytes, hrp: bytes, vs: seq<Symbol>, constant: bv32) {
    && |s| <= 90 && 1 <= |hrp| && IsHuman(hrp) && 6 <= |vs| && OneCase(s)
    && Reads(s, 0, hrp + [49] + InAlphabet(vs)) && Fold(1, Prefix(hrp) + vs) == constant
  }

  // ---------------------------------------------------------------- the same notions in the program's terms

  lemma CaseIs(s: bytes)
    ensures OneCase(s) <==> !Mixed(s)
  {
    if !HasUpper(s) { forall c | c in s ensures !IsUpper(c) { var i :| 0 <= i < |s| && s[i] == c; } }
    if !HasLower(s) { forall c | c in s ensures !IsLower(c) { var i :| 0 <= i < |s| && s[i] == c; } }
    if Mixed(s) {
      var i :| 0 <= i < |s| && 65 <= s[i] <= 90;
      var j :| 0 <= j < |s| && 97 <= s[j] <= 122;
      assert s[i] in s && s[j] in s;
    }
  }

  lemma HumanIs(hrp: bytes)
    ensures IsHuman(hrp) <==> IsHrp(hrp)
  {
  }

  lemma AlphabetIs(vs: seq<Symbol>)
    ensures InAlphabet(vs) == Chars(vs)
  {
    hide CharOf, Ascii;
    Bech32Vectors.Alphabet();
  }

  lemma PrefixIs(hrp: bytes)
    ensures Prefix(hrp) == Expanded(hrp)
  {
  }

  lemma ReadsIs(s: bytes, text: bytes)
    ensures Reads(s, 0, text) <==> Lowered(s) == text
  {
    if Reads(s, 0, text) { assert forall i :: 0 <= i < |s| ==> Lowered(s)[i] == text[i]; }
    if Lowered(s) == text { assert forall i :: 0 <= i < |s| ==> Small(s[i]) == Lowered(s)[i]; }
  }

  // ---------------------------------------------------------------- encoding

  /** What can be encoded. */
  lemma EncodableIff(hrp: bytes, data: bytes, enc: Encoding)
    ensures Encode(hrp, data, enc).Some? <==>
      IsHuman(hrp) && |hrp| + 1 + |data| + 6 <= 90 && forall i :: 0 <= i < |data| ==> data[i] < 32
  {
    hide ChecksumOf, StateOf;
    HumanIs(hrp);
  }

  /** What is encoded: the data and six more values that lead the register to the constant. */
  lemma EncodedIs(hrp: bytes, data: bytes, enc: Encoding, s: bytes, vs: seq<Symbol>)
    requires |vs| >= 6 && data == vs[..|vs| - 6] && s == hrp + [49] + InAlphabet(vs)
    requires Encode(hrp, data, enc).Some?
    ensures Encode(hrp, data, enc) == Some(s) <==> Fold(1, Prefix(hrp) + vs) == FinalConstant(enc)
  {
    hide ChecksumOf, Fold, CharOf, Expanded, Prefix, InAlphabet, IsHrp, Encode, Chars, FinalConstant, StateOf;
    AlphabetIs(vs);
    PrefixIs(hrp);
    var front, last := vs[..|vs| - 6], vs[|vs| - 6..];
    assert front + last == vs;
    var checksum := ChecksumOf(StateOf(hrp, front), FinalConstant(enc));
    EncodeIs(hrp, data, front, enc);
    ConstantSmall(enc);
    StateIs(hrp, vs);
    StateWithChecksum(hrp, front, last, FinalConstant(enc));
    SameEncoded(hrp, vs, front + checksum);
    if vs == front + checksum { assert last == (front + checksum)[|vs| - 6..]; }
  }

  lemma SameEncoded(hrp: bytes, vs: seq<Symbol>, ws: seq<Symbol>)
    ensures hrp + [49] + Chars(vs) == hrp + ([49] + Chars(ws)) <==> vs == ws
  {
    hide Chars;
    if hrp + [49] + Chars(vs) == hrp + ([49] + Chars(ws)) {
      SameTail(hrp, Chars(vs), Chars(ws));
      SameSymbols(vs, ws);
    }
  }

  lemma EncodeIs(hrp: bytes, data: bytes, front: seq<Symbol>, enc: Encoding)
    requires Encode(hrp, data, enc).Some? && data == front
    ensures Encode(hrp, data, enc)
         == Some(hrp + ([49] + Chars(front + ChecksumOf(StateOf(hrp, front), FinalConstant(enc)))))
  {
    hide ChecksumOf, StateOf, IsHrp, Chars;
    assert SymbolsIn(data) == front;
  }

  lemma ConstantSmall(enc: Encoding)
    ensures FinalConstant(enc) < STATE_LIMIT
  {
  }

  lemma StateIs(hrp: bytes, vs: seq<Symbol>)
    ensures StateOf(hrp, vs) == Fold(1, Expanded(hrp) + vs)
  {
  }

  lemma SameTail(hrp: bytes, t: bytes, u: bytes)
    requires hrp + [49] + t == hrp + ([49] + u)
    ensures t == u
  {
    assert t == (hrp + [49] + t)[|hrp| + 1..];
    assert u == (hrp + ([49] + u))[|hrp| + 1..];
  }

  lemma SameSymbols(vs: seq<Symbol>, ws: seq<Symbol>)
    requires Chars(vs) == Chars(ws)
    ensures vs == ws
  {
    hide RevOf, CharOf;
    ValuesOfChars(vs);
    ValuesOfChars(ws);
  }

  // ---------------------------------------------------------------- decoding

  /** What is decoded, and as what: the valid texts, without their last six values. */
  lemma DecodedIff(s: bytes, hrp: bytes, data: bytes, enc: Encoding)
    requires enc != NoEncoding
    ensures Decode(s) == Some(Decoded(hrp, data, enc)) <==>
      exists vs :: IsValidText(s, hrp, vs, FinalConstant(enc)) && data == vs[..|vs| - 6]
  {
    hide Decode, Encode, Fold, Prefix, InAlphabet, IsHuman, OneCase, Reads;
    DecodeIff(s, hrp, data, enc);
    CaseIs(s);
    if Decode(s) == Some(Decoded(hrp, data, enc)) {
      EncodableIff(hrp, data, enc);
      var vs := EncodedValues(hrp, data, enc);
      EncodedIs(hrp, data, enc, Lowered(s), vs);
      ReadsIs(s, hrp + [49] + InAlphabet(vs));
    }
    if vs :| IsValidText(s, hrp, vs, FinalConstant(enc)) && data == vs[..|vs| - 6] {
      ReadsIs(s, hrp + [49] + InAlphabet(vs));
      EncodableIff(hrp, data, enc);
      EncodedIs(hrp, data, enc, Lowered(s), vs);
    }
  }

  lemma EncodedValues(hrp: bytes, data: bytes, enc: Encoding) returns (vs: seq<Symbol>)
    requires Encode(hrp, data, enc).Some?
    ensures |vs| == |data| + 6 && data == vs[..|vs| - 6] && Encode(hrp, data, enc).value == hrp + [49] + InAlphabet(vs)
  {
    hide CharOf, Fold, ChecksumOf, Expanded;
    vs := SymbolsIn(data) + ChecksumOf(StateOf(hrp, SymbolsIn(data)), FinalConstant(enc));
    AlphabetIs(vs);
    assert vs[..|data|] == SymbolsIn(data);
    assert hrp + ([49] + Chars(vs)) == hrp + [49] + Chars(vs);
  }

  /** The constants of BIP-173 and BIP-350, and none without an encoding. */
  lemma Constants()
    ensures FinalConstant(Bech32) == 1 && FinalConstant(Bech32m) == 0x2bc830a3 && FinalConstant(NoEncoding) == 0
  {
  }

  // ---------------------------------------------------------------- witness programs

  /** Programs of 2 to 40 bytes, of 20 or 32 for version 0. */
  predicate IsWitness(version: int, program: bytes) {
    version <= 16 && 2 <= |program| <= 40 && (version == 0 ==> |program| == 20 || |program| == 32)
  }

  /** What can be encoded as an address; a negative version passes if its byte is a 5-bit value. */
  lemma WitnessEncodableIff(hrp: bytes, version: int, program: bytes)
    ensures SegwitEncode(hrp, version, program).Some? <==>
      IsWitness(version, program) && IsHuman(hrp) && |hrp| + 8 + |ToSymbols(program)| <= 90 && version % 256 < 32
  {
    hide Encode, ToSymbols, IsHuman;
    if IsWitness(version, program) {
      var data: bytes := [version % 256] + ToSymbols(program);
      EncodableIff(hrp, data, if version > 0 then Bech32m else Bech32);
      if forall i :: 0 <= i < |data| ==> data[i] < 32 { assert data[0] < 32; }
    }
  }

  /** A decoded address is a valid text of values: the version and the program, with the constant of the version. */
  lemma WitnessDecodedIff(hrp: bytes, s: bytes, version: nat, program: bytes)
    ensures SegwitDecode(hrp, s) == Some((version, program)) <==>
      && IsWitness(version, program)
      && exists vs :: IsValidText(s, hrp, vs, if version == 0 then 1 else 0x2bc830a3)
           && vs[..|vs| - 6] == [version] + ToSymbols(program)
  {
    hide Decode, Encode, ToSymbols, FromSymbols, IsValidText, Mixed, Lowered;
    SegwitIff(hrp, s, version, program);
    Constants();
    if IsWitness(version, program) {
      var data: bytes := [version % 256] + ToSymbols(program);
      var enc := if version > 0 then Bech32m else Bech32;
      ToSymbolsLength(program);
      DecodeIff(s, hrp, data, enc);
      DecodedIff(s, hrp, data, enc);
    }
  }
}
