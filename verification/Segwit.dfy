/** Segregated-witness addresses (BIP-173, BIP-350) as in deps/ledger-zxlib/src/segwit_addr.c. */
module Segwit {
  import opened Bytes
  import opened BitString
  import opened Bech32

  const MAX_VERSION := 16
  const MIN_PROGRAM := 2
  const MAX_PROGRAM := 40

  predicate IsProgramLength(version: int, n: nat) {
    MIN_PROGRAM <= n <= MAX_PROGRAM && (version == 0 ==> n == 20 || n == 32)
  }

  lemma ShlValues()
    ensures Shl(1, 5) == 32 && Shl(1, 8) == 256
  {
    assert Shl(1, 4) == 16;
    assert Shl(1, 6) == 64;
  }

  function AsBytes(vs: seq<nat>): (r: bytes)
    requires forall i :: 0 <= i < |vs| ==> vs[i] < 256
    ensures r == vs
  {
    seq(|vs|, i requires 0 <= i < |vs| => vs[i])
  }

  /** A witness program in 5-bit values, padded. */
  function ToSymbols(program: bytes): (r: bytes)
    ensures AreSymbols(r)
  {
    ShlValues();
    AsBytes(Convert(program, 8, 5, true).value)
  }

  function FromSymbols(symbols: bytes): (r: Option<bytes>) {
    ShlValues();
    var out := Convert(symbols, 5, 8, false);
    if out.None? then None else Some(AsBytes(out.value))
  }

  /** The version is stored in one byte: a negative one comes out as something else. */
  function SegwitEncode(hrp: bytes, version: int, program: bytes): Option<bytes> {
    if version > MAX_VERSION || !IsProgramLength(version, |program|) then None
    else Encode(hrp, [version % 256] + ToSymbols(program), if version > 0 then Bech32m else Bech32)
  }

  function SegwitDecode(hrp: bytes, addr: bytes): Option<(nat, bytes)> {
    var d := Decode(addr);
    if d.None? || d.value.data == [] || |d.value.data| > 65 || d.value.hrp != hrp then None
    else
      var version := d.value.data[0];
      if version > MAX_VERSION || d.value.enc != (if version > 0 then Bech32m else Bech32) then None
      else
        var program := FromSymbols(d.value.data[1..]);
        if program.None? || !IsProgramLength(version, |program.value|) then None
        else Some((version, program.value))
  }

  /** The 5-bit form of a program and its way back, both directions. */
  lemma SymbolsIff(symbols: bytes, program: bytes)
    requires AreSymbols(symbols)
    ensures FromSymbols(symbols) == Some(program) <==> ToSymbols(program) == symbols
  {
    hide Convert;
    ShlValues();
    ConvertIff(symbols, program, 5, 8);
  }

  lemma EncodeNeedsSymbols(hrp: bytes, data: bytes, enc: Encoding)
    requires Encode(hrp, data, enc).Some?
    ensures AreSymbols(data) && |hrp| + 7 + |data| <= Bech32.MAX_LENGTH
  {
  }

  lemma DecodeGivesSymbols(addr: bytes)
    requires Decode(addr).Some?
    ensures AreSymbols(Decode(addr).value.data)
  {
    var d := Decode(addr).value;
    DecodeIff(addr, d.hrp, d.data, d.enc);
    EncodeNeedsSymbols(d.hrp, d.data, d.enc);
  }

  lemma ToSymbolsLength(program: bytes)
    requires |program| <= MAX_PROGRAM
    ensures |ToSymbols(program)| <= 64
  {
    var b := AllBits(program, 8);
    assert |b| <= 320;
    SplitLength(b, 5);
  }

  lemma {:induction false} SplitLength(b: seq<bool>, w: nat)
    requires w > 0
    ensures |Split(b, w)| * w + |Rest(b, w)| == |b|
    decreases |b|
  {
    if |b| >= w {
      SplitLength(b[w..], w);
      Times(|Split(b, w)|, w);
    }
  }

  /**
   * Decoding accepts exactly the encodings, in one case, under a human-readable part that is not empty. The
   * version of a decoded address is a symbol, so it is never negative.
   */
  lemma SegwitIff(hrp: bytes, addr: bytes, version: nat, program: bytes)
    ensures SegwitDecode(hrp, addr) == Some((version, program))
       <==> hrp != [] && !Mixed(addr) && SegwitEncode(hrp, version, program) == Some(Lowered(addr))
  {
    hide Decode, Encode, FromSymbols, ToSymbols, Mixed, Lowered;
    var enc := if version > 0 then Bech32m else Bech32;
    if SegwitDecode(hrp, addr) == Some((version, program)) {
      var d := Decode(addr).value;
      DecodeGivesSymbols(addr);
      SymbolsIff(d.data[1..], program);
      assert d.data == [version % 256] + ToSymbols(program);
      DecodeIff(addr, hrp, d.data, enc);
    }
    if hrp != [] && !Mixed(addr) && SegwitEncode(hrp, version, program) == Some(Lowered(addr)) {
      var data: bytes := [version % 256] + ToSymbols(program);
      ToSymbolsLength(program);
      DecodeIff(addr, hrp, data, enc);
      SymbolsIff(ToSymbols(program), program);
      assert data[1..] == ToSymbols(program);
    }
  }

  lemma EncodedIsLower(hrp: bytes, data: bytes, enc: Encoding)
    requires Encode(hrp, data, enc).Some?
    ensures Lowered(Encode(hrp, data, enc).value) == Encode(hrp, data, enc).value
      && !Mixed(Encode(hrp, data, enc).value)
  {
    hide CharOf, RevOf, Lower, Checksum.ChecksumOf;
    var vs := SymbolsIn(data) + Checksum.ChecksumOf(StateOf(hrp, SymbolsIn(data)), FinalConstant(enc));
    var a := hrp + ([SEPARATOR] + Chars(vs));
    forall i | 0 <= i < |a| ensures Lower(a[i]) == a[i] && !(65 <= a[i] <= 90) {
      if i > |hrp| {
        RevOfChar(vs[i - |hrp| - 1]);
        LowerFixed(a[i]);
      } else {
        LowerFixed(a[i]);
      }
    }
  }

  lemma LowerFixed(c: byte)
    ensures Lower(c) == c <==> !(65 <= c <= 90)
  {
  }

  /** What decoding makes of an encoded address. */
  function Returned(hrp: bytes, version: int, program: bytes): Option<(nat, bytes)> {
    if hrp == [] then None
    else if version >= 0 then Some((version, program))
    else if version % 256 == 0 && IsProgramLength(0, |program|) then Some((0, program))
    else None
  }

  /**
   * Every address that is encoded: without a human-readable part it is not decoded, with a version that is not
   * negative it is decoded as it was, and one with a negative version is decoded with version 0 if the byte it
   * is stored in and the length of the program allow it, and not decoded otherwise.
   */
  lemma SegwitRoundTrip(hrp: bytes, version: int, program: bytes)
    requires SegwitEncode(hrp, version, program).Some?
    ensures SegwitDecode(hrp, SegwitEncode(hrp, version, program).value) == Returned(hrp, version, program)
  {
    hide Decode, Encode, Mixed, Lowered, ToSymbols, FromSymbols;
    var addr, enc := SegwitEncode(hrp, version, program).value, if version > 0 then Bech32m else Bech32;
    var data: bytes := [version % 256] + ToSymbols(program);
    EncodedIsLower(hrp, data, enc);
    if hrp == [] {
      NoHumanPart(hrp, addr);
    } else {
      DecodeIff(addr, hrp, data, enc);
      ToSymbolsLength(program);
      SymbolsIff(ToSymbols(program), program);
      assert data[1..] == ToSymbols(program);
    }
  }

  lemma NoHumanPart(hrp: bytes, addr: bytes)
    ensures hrp == [] ==> SegwitDecode(hrp, addr) == None
  {
    hide Encode, Mixed, Lowered, FromSymbols;
    if Decode(addr).Some? {
      var d := Decode(addr).value;
      DecodeIff(addr, d.hrp, d.data, d.enc);
    }
  }

  lemma SmallEncoded(hrp: bytes, v: byte, program: bytes, enc: Encoding)
    requires |hrp| <= 2 && |program| == 20 && v < 32 && enc != NoEncoding
    requires forall i :: 0 <= i < |hrp| ==> hrp[i] == 97
    ensures Encode(hrp, [v] + ToSymbols(program), enc).Some?
  {
    hide ToSymbols;
    ToSymbolsLength(program);
  }

  /** An address that is lost: version -256 is stored as 0 and comes back as 0. */
  lemma NegativeVersionIsLost()
    ensures var program := seq(20, _ => 0);
      && SegwitEncode([97], -256, program).Some?
      && SegwitDecode([97], SegwitEncode([97], -256, program).value) == Some((0, program))
  {
    hide Encode, Decode, ToSymbols;
    var program: bytes := seq(20, _ => 0);
    SmallEncoded([97], 0, program, Bech32);
    SegwitRoundTrip([97], -256, program);
  }

  /** Another one: without a human-readable part nothing is decoded. */
  lemma EmptyHumanPartIsLost()
    ensures var program := seq(20, _ => 0);
      && SegwitEncode([], 0, program).Some?
      && SegwitDecode([], SegwitEncode([], 0, program).value) == None
  {
    hide Encode, Decode, ToSymbols;
    var program: bytes := seq(20, _ => 0);
    SmallEncoded([], 0, program, Bech32);
    SegwitRoundTrip([], 0, program);
  }

  // ---------------------------------------------------------------- the program

  method SegwitAddrEncode(hrp: bytes, version: int, program: bytes) returns (r: Option<bytes>)
    ensures r == SegwitEncode(hrp, version, program)
  {
    hide Convert, Encode;
    if version > 16 { return None; }
    if version == 0 && |program| != 20 && |program| != 32 { return None; }
    if |program| < 2 || |program| > 40 { return None; }
    var enc := Bech32;
    if version > 0 { enc := Bech32m; }
    ShlValues();
    var symbols := ConvertBits(program, 8, 5, true);
    var data: bytes := [version % 256] + AsBytes(symbols.value);
    r := Bech32Encode(hrp, data, enc);
  }

  method SegwitAddrDecode(hrp: bytes, addr: bytes) returns (r: Option<(nat, bytes)>)
    ensures r == SegwitDecode(hrp, addr)
  {
    hide Convert, Decode;
    var d := Bech32Decode(addr);
    if d.None? { return None; }
    DecodeGivesSymbols(addr);
    var data := d.value.data;
    if |data| == 0 || |data| > 65 { return None; }
    if hrp != d.value.hrp { return None; }
    if data[0] > 16 { return None; }
    if data[0] == 0 && d.value.enc != Bech32 { return None; }
    if data[0] > 0 && d.value.enc != Bech32m { return None; }
    ShlValues();
    var program := ConvertBits(data[1..], 5, 8, false);
    if program.None? { return None; }
    if |program.value| < 2 || |program.value| > 40 { return None; }
    if data[0] == 0 && |program.value| != 20 && |program.value| != 32 { return None; }
    return Some((data[0], AsBytes(program.value)));
  }
}
