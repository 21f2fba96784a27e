/**
 * Bech32 and Bech32m (BIP-173 and BIP-350) as the program encodes and decodes them
 * (deps/ledger-zxlib/src/segwit_addr.c). Decoding is proved to accept exactly the encodings, in either case.
 */
module Bech32 {
  import opened Bytes
  import opened Polymod
  import opened Checksum

  const SEPARATOR: byte := 49
  const MAX_LENGTH := 90

  datatype Encoding = NoEncoding | Bech32 | Bech32m

  function FinalConstant(enc: Encoding): bv32 {
    match enc
    case Bech32 => 1
    case Bech32m => 0x2bc830a3
    case NoEncoding => 0
  }

  // ---------------------------------------------------------------- characters

  /** The alphabet "qpzry9x8gf2tvdw0s3jn54khce6mua7l". */
  function CharOf(v: Symbol): byte {
    if v == 0 then 113 else if v == 1 then 112 else if v == 2 then 122 else if v == 3 then 114
    else if v == 4 then 121 else if v == 5 then 57 else if v == 6 then 120 else if v == 7 then 56
    else if v == 8 then 103 else if v == 9 then 102 else if v == 10 then 50 else if v == 11 then 116
    else if v == 12 then 118 else if v == 13 then 100 else if v == 14 then 119 else if v == 15 then 48
    else if v == 16 then 115 else if v == 17 then 51 else if v == 18 then 106 else if v == 19 then 110
    else if v == 20 then 53 else if v == 21 then 52 else if v == 22 then 107 else if v == 23 then 104
    else if v == 24 then 99 else if v == 25 then 101 else if v == 26 then 54 else if v == 27 then 109
    else if v == 28 then 117 else if v == 29 then 97 else if v == 30 then 55 else 108
  }

  function Lower(c: byte): byte { if 65 <= c <= 90 then c + 32 else c }

  /** The reverse table, for letters of either case; -1 where there is none. */
  function RevOf(c: byte): (r: int)
    ensures -1 <= r < 32
  {
    var l := Lower(c);
    if l == 113 then 0 else if l == 112 then 1 else if l == 122 then 2 else if l == 114 then 3
    else if l == 121 then 4 else if l == 57 then 5 else if l == 120 then 6 else if l == 56 then 7
    else if l == 103 then 8 else if l == 102 then 9 else if l == 50 then 10 else if l == 116 then 11
    else if l == 118 then 12 else if l == 100 then 13 else if l == 119 then 14 else if l == 48 then 15
    else if l == 115 then 16 else if l == 51 then 17 else if l == 106 then 18 else if l == 110 then 19
    else if l == 53 then 20 else if l == 52 then 21 else if l == 107 then 22 else if l == 104 then 23
    else if l == 99 then 24 else if l == 101 then 25 else if l == 54 then 26 else if l == 109 then 27
    else if l == 117 then 28 else if l == 97 then 29 else if l == 55 then 30 else if l == 108 then 31 else -1
  }

  predicate IsChar(c: byte) { RevOf(c) >= 0 }

  lemma RevOfChar(v: Symbol)
    ensures RevOf(CharOf(v)) == v && Lower(CharOf(v)) == CharOf(v) && CharOf(v) != SEPARATOR && 33 <= CharOf(v) <= 126
  {
  }

  lemma CharOfRev(c: byte)
    ensures -1 <= RevOf(c) < 32 && RevOf(c) == RevOf(Lower(c))
    ensures IsChar(c) ==> CharOf(RevOf(c)) == Lower(c) && c != SEPARATOR
  {
  }

  function Chars(vs: seq<Symbol>): (r: bytes)
    ensures |r| == |vs|
  {
    seq(|vs|, i requires 0 <= i < |vs| => CharOf(vs[i]))
  }

  function Lowered(s: bytes): (r: bytes)
    ensures |r| == |s|
  {
    seq(|s|, i requires 0 <= i < |s| => Lower(s[i]))
  }

  predicate AreChars(s: bytes) { forall i :: 0 <= i < |s| ==> IsChar(s[i]) }

  function Values(s: bytes): (r: seq<Symbol>)
    requires AreChars(s)
    ensures |r| == |s|
  {
    seq(|s|, i requires 0 <= i < |s| => CharValue(s[i]))
  }

  function CharValue(c: byte): Symbol
    requires IsChar(c)
  {
    CharOfRev(c);
    RevOf(c)
  }

  predicate IsPrintable(s: bytes) { forall i :: 0 <= i < |s| ==> 33 <= s[i] <= 126 }

  predicate HasUpper(s: bytes) { exists i :: 0 <= i < |s| && 65 <= s[i] <= 90 }

  predicate HasLower(s: bytes) { exists i :: 0 <= i < |s| && 97 <= s[i] <= 122 }

  predicate Mixed(s: bytes) { HasLower(s) && HasUpper(s) }

  lemma ValuesOfChars(vs: seq<Symbol>)
    ensures AreChars(Chars(vs)) && Values(Chars(vs)) == vs && SEPARATOR !in Chars(vs)
  {
    forall i | 0 <= i < |vs|
      ensures IsChar(Chars(vs)[i]) && Chars(vs)[i] != SEPARATOR && RevOf(Chars(vs)[i]) == vs[i]
    {
      RevOfChar(vs[i]);
    }
  }

  /** Lower-casing keeps what the characters stand for, and gives back the alphabet's own characters. */
  lemma LoweredChars(s: bytes)
    ensures AreChars(s) <==> AreChars(Lowered(s))
    ensures AreChars(s) ==> Values(s) == Values(Lowered(s)) && Chars(Values(s)) == Lowered(s) && SEPARATOR !in s
  {
    hide RevOf, CharOf, Lower;
    forall i | 0 <= i < |s|
      ensures RevOf(s[i]) == RevOf(Lowered(s)[i])
      ensures IsChar(s[i]) ==> CharOf(RevOf(s[i])) == Lower(s[i]) && s[i] != SEPARATOR
    {
      CharOfRev(s[i]);
    }
    if AreChars(Lowered(s)) {
      forall i | 0 <= i < |s| ensures IsChar(s[i]) { assert IsChar(Lowered(s)[i]); }
    }
    if AreChars(s) {
      forall i | 0 <= i < |s| ensures IsChar(Lowered(s)[i]) { assert IsChar(s[i]); }
      assert Values(s) == Values(Lowered(s));
      assert Chars(Values(s)) == Lowered(s);
    }
  }

  // ---------------------------------------------------------------- the checked sequence

  function Highs(hrp: bytes): (r: seq<Symbol>)
    ensures |r| == |hrp|
  {
    seq(|hrp|, i requires 0 <= i < |hrp| => hrp[i] / 32)
  }

  function Lows(hrp: bytes): (r: seq<Symbol>)
    ensures |r| == |hrp|
  {
    seq(|hrp|, i requires 0 <= i < |hrp| => hrp[i] % 32)
  }

  function Expanded(hrp: bytes): seq<Symbol> { Highs(hrp) + [0] + Lows(hrp) }

  const START: bv32 := 1

  /** The register after the human-readable part and the data. */
  function StateOf(hrp: bytes, data: seq<Symbol>): bv32 { Fold(START, Expanded(hrp) + data) }

  lemma StateBound(hrp: bytes, data: seq<Symbol>)
    ensures StateOf(hrp, data) < STATE_LIMIT
  {
    FoldBound(START, Expanded(hrp) + data);
  }

  /** With a checksum behind the data, the register ends in the constant exactly for the right one. */
  lemma StateWithChecksum(hrp: bytes, data: seq<Symbol>, checksum: seq<Symbol>, constant: bv32)
    requires |checksum| == CHECKSUM_SIZE && constant < STATE_LIMIT
    ensures StateOf(hrp, data + checksum) == constant <==> checksum == ChecksumOf(StateOf(hrp, data), constant)
  {
    assert Expanded(hrp) + (data + checksum) == Expanded(hrp) + data + checksum;
    FoldConcat(START, Expanded(hrp) + data, checksum);
    StateBound(hrp, data);
    ChecksumIff(StateOf(hrp, data), constant, checksum);
  }

  // ---------------------------------------------------------------- encoding

  predicate IsHrp(hrp: bytes) { IsPrintable(hrp) && !HasUpper(hrp) }

  predicate AreSymbols(data: bytes) { forall i :: 0 <= i < |data| ==> data[i] < 32 }

  function SymbolsIn(data: bytes): (r: seq<Symbol>)
    requires AreSymbols(data)
    ensures |r| == |data|
  {
    seq(|data|, i requires 0 <= i < |data| => data[i])
  }

  function Encode(hrp: bytes, data: bytes, enc: Encoding): Option<bytes> {
    if !IsHrp(hrp) || |hrp| + 7 + |data| > MAX_LENGTH || !AreSymbols(data) then None
    else
      var vs := SymbolsIn(data);
      Some(hrp + ([SEPARATOR] + Chars(vs + ChecksumOf(StateOf(hrp, vs), FinalConstant(enc)))))
  }

  // ---------------------------------------------------------------- decoding

  datatype Decoded = Decoded(hrp: bytes, data: bytes, enc: Encoding)

  /** The number of characters behind the last separator; all of them if there is none. */
  function TailLen(s: bytes): (r: nat)
    ensures r <= |s|
    decreases |s|
  {
    if s == [] || s[|s| - 1] == SEPARATOR then 0 else 1 + TailLen(s[..|s| - 1])
  }

  function EncodingOf(chk: bv32): Encoding {
    if chk == FinalConstant(Bech32) then Bech32 else if chk == FinalConstant(Bech32m) then Bech32m else NoEncoding
  }

  function Decode(input: bytes): Option<Decoded> {
    var n, t := |input|, TailLen(input);
    if n < 8 || n > MAX_LENGTH || 1 + t >= n || t < CHECKSUM_SIZE then None
    else
      var head, tail := input[..n - 1 - t], input[n - t..];
      if !IsPrintable(head) || !AreChars(tail) || Mixed(input) then None
      else
        var enc := EncodingOf(StateOf(Lowered(head), Values(tail)));
        if enc == NoEncoding then None else Some(Decoded(Lowered(head), Values(tail)[..t - CHECKSUM_SIZE], enc))
  }

  lemma {:induction false} TailIs(a: bytes, tail: bytes)
    requires SEPARATOR !in tail
    ensures TailLen(a + ([SEPARATOR] + tail)) == |tail|
    decreases |tail|
  {
    var s := a + ([SEPARATOR] + tail);
    if tail != [] {
      assert s[..|s| - 1] == a + ([SEPARATOR] + tail[..|tail| - 1]);
      TailIs(a, tail[..|tail| - 1]);
    }
  }

  /** A text with a separator falls apart at the last one. */
  lemma {:induction false} TailParts(s: bytes)
    requires TailLen(s) < |s|
    ensures var t := TailLen(s); s[|s| - 1 - t] == SEPARATOR && SEPARATOR !in s[|s| - t..]
    ensures var t := TailLen(s); s == s[..|s| - 1 - t] + ([SEPARATOR] + s[|s| - t..])
    decreases |s|
  {
    if s[|s| - 1] != SEPARATOR {
      var init := s[..|s| - 1];
      TailParts(init);
      assert s[|s| - TailLen(s)..] == init[|init| - TailLen(init)..] + [s[|s| - 1]];
    }
  }

  lemma LoweredParts(a: bytes, tail: bytes)
    ensures Lowered(a + ([SEPARATOR] + tail)) == Lowered(a) + ([SEPARATOR] + Lowered(tail))
  {
  }

  lemma LoweredHead(head: bytes)
    ensures IsPrintable(head) <==> IsPrintable(Lowered(head))
    ensures !HasUpper(Lowered(head))
  {
    forall i | 0 <= i < |head| ensures 33 <= head[i] <= 126 <==> 33 <= Lowered(head)[i] <= 126 { }
    if IsPrintable(Lowered(head)) { assert forall i :: 0 <= i < |head| ==> 33 <= Lowered(head)[i] <= 126; }
  }

  lemma ConstantOf(chk: bv32, enc: Encoding)
    requires enc != NoEncoding
    ensures EncodingOf(chk) == enc <==> chk == FinalConstant(enc)
    ensures FinalConstant(enc) < STATE_LIMIT
  {
  }

  /** The text as head, separator and tail; decoding and encoding agree part by part. */
  lemma DecodeParts(head: bytes, tail: bytes, hrp: bytes, data: bytes, enc: Encoding)
    requires AreChars(tail) && IsPrintable(head) && enc != NoEncoding
    requires |tail| >= CHECKSUM_SIZE && |head| + 1 + |tail| <= MAX_LENGTH
    ensures Lowered(head) == hrp ==>
      (Values(tail)[..|tail| - CHECKSUM_SIZE] == data && EncodingOf(StateOf(Lowered(head), Values(tail))) == enc
       <==> |data| == |tail| - CHECKSUM_SIZE
            && Encode(hrp, data, enc) == Some(Lowered(head) + ([SEPARATOR] + Lowered(tail))))
  {
    hide RevOf, CharOf, Lower, StateOf, ChecksumOf, FinalConstant, EncodingOf, IsPrintable;
    var vs, m := Values(tail), |tail| - CHECKSUM_SIZE;
    LoweredHead(head);
    LoweredChars(tail);
    var state := StateOf(Lowered(head), vs[..m]);
    ConstantOf(StateOf(Lowered(head), vs), enc);
    assert StateOf(Lowered(head), vs) == FinalConstant(enc) <==> vs[m..] == ChecksumOf(state, FinalConstant(enc)) by {
      assert vs == vs[..m] + vs[m..];
      StateWithChecksum(Lowered(head), vs[..m], vs[m..], FinalConstant(enc));
    }
    if Lowered(head) == hrp && vs[..m] == data && EncodingOf(StateOf(Lowered(head), vs)) == enc {
      assert SymbolsIn(data) == vs[..m];
      assert SymbolsIn(data) + ChecksumOf(StateOf(hrp, SymbolsIn(data)), FinalConstant(enc)) == vs;
    }
    if |data| == m && AreSymbols(data) && Lowered(head) == hrp {
      var right := SymbolsIn(data) + ChecksumOf(StateOf(hrp, SymbolsIn(data)), FinalConstant(enc));
      ValuesOfChars(right);
      if Encode(hrp, data, enc) == Some(Lowered(head) + ([SEPARATOR] + Lowered(tail))) {
        SameParts(hrp, Chars(right), Lowered(tail));
        assert right == vs;
        assert right[..m] == SymbolsIn(data)
            && right[m..] == ChecksumOf(StateOf(hrp, SymbolsIn(data)), FinalConstant(enc));
      }
    }
  }

  lemma SameParts(a: bytes, t: bytes, u: bytes)
    requires a + ([SEPARATOR] + t) == a + ([SEPARATOR] + u)
    ensures t == u
  {
    assert t == (a + ([SEPARATOR] + t))[|a| + 1..];
    assert u == (a + ([SEPARATOR] + u))[|a| + 1..];
  }

  lemma LowerSeparator(c: byte)
    ensures Lower(c) == SEPARATOR <==> c == SEPARATOR
  {
  }

  lemma EncodedParts(hrp: bytes, tail: bytes, input: bytes)
    requires Lowered(input) == hrp + ([SEPARATOR] + tail) && AreChars(tail)
    ensures input == input[..|hrp|] + ([SEPARATOR] + input[|hrp| + 1..])
    ensures Lowered(input[..|hrp|]) == hrp && Lowered(input[|hrp| + 1..]) == tail && AreChars(input[|hrp| + 1..])
    ensures TailLen(input) == |tail|
  {
    hide RevOf, CharOf, Lower, TailLen, IsChar;
    var head, rest := input[..|hrp|], input[|hrp| + 1..];
    LowerSeparator(input[|hrp|]);
    assert Lowered(input)[|hrp|] == SEPARATOR;
    assert Lowered(head) == Lowered(input)[..|hrp|];
    assert Lowered(rest) == Lowered(input)[|hrp| + 1..];
    LoweredChars(rest);
    TailIs(head, rest);
  }

  /**
   * Decoding undoes encoding, and accepts nothing else: a text is accepted, with this result, exactly when it
   * is the encoding of the result, written in one case, and the human-readable part is not empty.
   */
  lemma DecodeIff(input: bytes, hrp: bytes, data: bytes, enc: Encoding)
    ensures Decode(input) == Some(Decoded(hrp, data, enc))
       <==> hrp != [] && enc != NoEncoding && !Mixed(input) && Encode(hrp, data, enc) == Some(Lowered(input))
  {
    hide RevOf, CharOf, Lower, StateOf, ChecksumOf, FinalConstant, EncodingOf, Mixed;
    if Decode(input) == Some(Decoded(hrp, data, enc)) {
      TailParts(input);
      var head, tail := input[..|input| - 1 - TailLen(input)], input[|input| - TailLen(input)..];
      DecodeParts(head, tail, hrp, data, enc);
      LoweredParts(head, tail);
    }
    if hrp != [] && enc != NoEncoding && !Mixed(input) && Encode(hrp, data, enc) == Some(Lowered(input)) {
      var right := SymbolsIn(data) + ChecksumOf(StateOf(hrp, SymbolsIn(data)), FinalConstant(enc));
      ValuesOfChars(right);
      EncodedParts(hrp, Chars(right), input);
      var head, tail := input[..|hrp|], input[|hrp| + 1..];
      LoweredHead(head);
      LoweredParts(head, tail);
      DecodeParts(head, tail, hrp, data, enc);
      assert head == input[..|input| - 1 - TailLen(input)] && tail == input[|input| - TailLen(input)..];
    }
  }

  /**
   * Changing characters of the data part to other characters of the alphabet, all within six neighbouring
   * places, never gives another text accepted under the same encoding; a single character is a special case.
   */
  lemma SubstitutionDetected(head: bytes, before: bytes, a: bytes, b: bytes, after: bytes)
    requires |a| == |b| <= CHECKSUM_SIZE && AreChars(before + a + after) && AreChars(before + b + after)
    requires AreChars(a) && AreChars(b) && Values(a) != Values(b)
    requires var s, t := head + ([SEPARATOR] + (before + a + after)), head + ([SEPARATOR] + (before + b + after));
      Decode(s).Some? && Decode(t).Some?
    ensures var s, t := head + ([SEPARATOR] + (before + a + after)), head + ([SEPARATOR] + (before + b + after));
      Decode(s).value.enc != Decode(t).value.enc
  {
    hide RevOf, CharOf, Lower, FinalConstant, EncodingOf, Xor, Step, Wide, Fold;
    DecodeState(head, before + a + after);
    DecodeState(head, before + b + after);
    var hrp := Lowered(head);
    AreCharsParts(before, a, after);
    AreCharsParts(before, b, after);
    assert Expanded(hrp) + Values(before + a + after) == (Expanded(hrp) + Values(before)) + Values(a) + Values(after);
    assert Expanded(hrp) + Values(before + b + after) == (Expanded(hrp) + Values(before)) + Values(b) + Values(after);
    BurstDetected(START, Expanded(hrp) + Values(before), Values(a), Values(b), Values(after));
  }

  lemma AreCharsParts(before: bytes, a: bytes, after: bytes)
    requires AreChars(before + a + after)
    ensures AreChars(before) && AreChars(a) && AreChars(after)
    ensures Values(before + a + after) == Values(before) + Values(a) + Values(after)
  {
    var s := before + a + after;
    assert forall i :: 0 <= i < |before| ==> before[i] == s[i];
    assert forall i :: 0 <= i < |a| ==> a[i] == s[|before| + i];
    assert forall i :: 0 <= i < |after| ==> after[i] == s[|before| + |a| + i];
  }

  /** The encoding of an accepted text fixes the state at its end. */
  lemma DecodeState(head: bytes, tail: bytes)
    requires AreChars(tail) && Decode(head + ([SEPARATOR] + tail)).Some?
    ensures var enc := Decode(head + ([SEPARATOR] + tail)).value.enc;
      enc != NoEncoding && StateOf(Lowered(head), Values(tail)) == FinalConstant(enc)
  {
    hide RevOf, CharOf, Lower, FinalConstant, StateOf;
    LoweredChars(tail);
    TailIs(head, tail);
    var input := head + ([SEPARATOR] + tail);
    assert input[..|input| - 1 - |tail|] == head && input[|input| - |tail|..] == tail;
    ConstantOf(StateOf(Lowered(head), Values(tail)), EncodingOf(StateOf(Lowered(head), Values(tail))));
  }

  // ---------------------------------------------------------------- the program

  lemma FoldOne(s: bv32, vs: seq<Symbol>, v: Symbol)
    ensures Fold(s, vs + [v]) == Xor(Step(Fold(s, vs)), Wide(v))
  {
    assert (vs + [v])[..|vs|] == vs;
  }

  /** The first loop: the register over the upper bits, unless a character is not allowed. */
  method FoldHighs(hrp: bytes) returns (chk: Option<bv32>)
    ensures chk == if IsHrp(hrp) then Some(Fold(START, Highs(hrp))) else None
  {
    hide Xor, Step, Wide, Fold;
    var c: bv32 := START;
    FoldEmpty(START);
    for i := 0 to |hrp|
      invariant IsHrp(hrp[..i]) && c == Fold(START, Highs(hrp[..i]))
    {
      var ch := hrp[i];
      assert hrp[..i + 1][i] == ch && hrp[..i + 1][..i] == hrp[..i];
      if ch < 33 || ch > 126 { return None; }
      if 65 <= ch <= 90 { return None; }
      FoldOne(START, Highs(hrp[..i]), ch / 32);
      assert Highs(hrp[..i + 1]) == Highs(hrp[..i]) + [ch / 32];
      c := Xor(Step(c), Wide(ch / 32));
    }
    assert hrp[..|hrp|] == hrp;
    return Some(c);
  }

  /** The second loop: the register over the lower bits, and the copy of the human-readable part. */
  method FoldLows(hrp: bytes, chk: bv32) returns (c: bv32, output: bytes)
    requires chk == Fold(START, Highs(hrp) + [0])
    ensures c == Fold(START, Expanded(hrp)) && output == hrp
  {
    hide Xor, Step, Wide, Fold;
    c, output := chk, [];
    assert Highs(hrp) + [0] + Lows(hrp[..0]) == Highs(hrp) + [0];
    for i := 0 to |hrp|
      invariant output == hrp[..i] && c == Fold(START, Highs(hrp) + [0] + Lows(hrp[..i]))
    {
      FoldOne(START, Highs(hrp) + [0] + Lows(hrp[..i]), hrp[i] % 32);
      assert Highs(hrp) + [0] + Lows(hrp[..i + 1]) == Highs(hrp) + [0] + Lows(hrp[..i]) + [hrp[i] % 32];
      c := Xor(Step(c), Wide(hrp[i] % 32));
      output := output + [hrp[i]];
    }
    assert hrp[..|hrp|] == hrp;
  }

  /** The last two loops: six zeros through the register, and the checksum out of it. */
  method AppendChecksum(output: bytes, chk: bv32, enc: Encoding) returns (r: bytes)
    ensures r == output + Chars(ChecksumOf(chk, FinalConstant(enc)))
  {
    hide Xor, Step, Wide, CharOf, Fold, FinalConstant, SymbolsOf;
    var c := chk;
    FoldEmpty(chk);
    for i := 0 to CHECKSUM_SIZE
      invariant c == Fold(chk, Zeros(i))
    {
      FoldOne(chk, Zeros(i), 0);
      assert Zeros(i + 1) == Zeros(i) + [0];
      c := Xor(Step(c), Wide(0));
    }
    c := Xor(c, FinalConstant(enc));
    var checksum := SymbolsOf(c);
    r := output;
    for i := 0 to CHECKSUM_SIZE
      invariant r == output + Chars(checksum[..i])
    {
      assert Chars(checksum[..i + 1]) == Chars(checksum[..i]) + [CharOf(checksum[i])];
      r := r + [CharOf(checksum[i])];
    }
    assert checksum[..CHECKSUM_SIZE] == checksum;
  }

  method Bech32Encode(hrp: bytes, data: bytes, enc: Encoding) returns (r: Option<bytes>)
    ensures r == Encode(hrp, data, enc)
  {
    hide Xor, Step, Wide, CharOf, Fold, FinalConstant, ChecksumOf;
    var highs := FoldHighs(hrp);
    if highs.None? { return None; }
    if |hrp| + 7 + |data| > MAX_LENGTH { return None; }
    FoldOne(START, Highs(hrp), 0);
    var chk, output := FoldLows(hrp, Xor(Step(highs.value), Wide(0)));
    output := output + [SEPARATOR];
    assert Expanded(hrp) + SymbolsIn(data[..0]) == Expanded(hrp);
    for i := 0 to |data|
      invariant AreSymbols(data[..i]) && output == hrp + ([SEPARATOR] + Chars(SymbolsIn(data[..i])))
      invariant chk == Fold(START, Expanded(hrp) + SymbolsIn(data[..i]))
    {
      assert data[..i + 1][i] == data[i] && data[..i + 1][..i] == data[..i];
      if data[i] >= 32 { return None; }
      var v: Symbol := data[i];
      FoldOne(START, Expanded(hrp) + SymbolsIn(data[..i]), v);
      assert Expanded(hrp) + SymbolsIn(data[..i + 1]) == Expanded(hrp) + SymbolsIn(data[..i]) + [v];
      assert Chars(SymbolsIn(data[..i + 1])) == Chars(SymbolsIn(data[..i])) + [CharOf(v)];
      chk := Xor(Step(chk), Wide(v));
      output := output + [CharOf(v)];
    }
    assert data[..|data|] == data;
    output := AppendChecksum(output, chk, enc);
    assert output == hrp + ([SEPARATOR] + Chars(SymbolsIn(data) + ChecksumOf(chk, FinalConstant(enc))));
    return Some(output);
  }

  lemma FoldEmpty(s: bv32)
    ensures Fold(s, []) == s
  {
  }

  // ---------------------------------------------------------------- decoding, as the program does it

  /** The search for the separator from the end, as a count. */
  method FindTail(input: bytes) returns (n: nat)
    ensures n == TailLen(input)
  {
    n := 0;
    assert input[..|input|] == input;
    while n < |input| && input[|input| - 1 - n] != SEPARATOR
      invariant n <= |input| && TailLen(input) == n + TailLen(input[..|input| - n])
    {
      assert input[..|input| - n][..|input| - n - 1] == input[..|input| - n - 1];
      n := n + 1;
    }
  }

  /** Which cases a part has been seen in. */
  datatype Cases = Cases(lower: bool, upper: bool)

  predicate Seen(s: bytes, cases: Cases) { cases.lower == HasLower(s) && cases.upper == HasUpper(s) }

  lemma SeenOne(s: bytes, c: byte, cases: Cases)
    requires Seen(s, cases)
    ensures Seen(s + [c], Cases(cases.lower || 97 <= c <= 122, cases.upper || 65 <= c <= 90))
  {
    var t := s + [c];
    if HasLower(s) { var i :| 0 <= i < |s| && 97 <= s[i] <= 122; assert t[i] == s[i]; }
    if HasUpper(s) { var i :| 0 <= i < |s| && 65 <= s[i] <= 90; assert t[i] == s[i]; }
    assert t[|s|] == c;
  }

  /** The two loops over the human-readable part; it is lower-cased on the way. */
  method DecodeHead(head: bytes) returns (ok: bool, hrp: bytes, chk: bv32, cases: Cases)
    ensures ok == IsPrintable(head)
    ensures ok ==> hrp == Lowered(head) && chk == Fold(START, Expanded(hrp)) && Seen(head, cases)
  {
    hide Xor, Step, Wide, Fold, Seen;
    hrp, chk, cases := [], START, Cases(false, false);
    FoldEmpty(START);
    assert Highs([]) == [] && head[..0] == [];
    NothingSeen();
    for i := 0 to |head|
      invariant IsPrintable(head[..i]) && hrp == Lowered(head[..i]) && Seen(head[..i], cases)
      invariant chk == Fold(START, Highs(hrp))
    {
      var ch := head[i];
      assert head[..i + 1] == head[..i] + [ch];
      if ch < 33 || ch > 126 {
        assert !IsPrintable(head);
        ok := false;
        return;
      }
      SeenOne(head[..i], ch, cases);
      if 97 <= ch <= 122 {
        cases := cases.(lower := true);
      } else if 65 <= ch <= 90 {
        cases := cases.(upper := true);
        ch := ch - 65 + 97;
      }
      FoldOne(START, Highs(hrp), ch / 32);
      assert Highs(hrp + [ch]) == Highs(hrp) + [ch / 32];
      hrp := hrp + [ch];
      chk := Xor(Step(chk), Wide(ch / 32));
    }
    assert head[..|head|] == head;
    FoldOne(START, Highs(hrp), 0);
    chk := Xor(Step(chk), Wide(0));
    assert Highs(hrp) + [0] + Lows(hrp)[..0] == Highs(hrp) + [0];
    for i := 0 to |head|
      invariant chk == Fold(START, Highs(hrp) + [0] + Lows(hrp)[..i])
    {
      FoldOne(START, Highs(hrp) + [0] + Lows(hrp)[..i], head[i] % 32);
      assert Highs(hrp) + [0] + Lows(hrp)[..i + 1] == Highs(hrp) + [0] + Lows(hrp)[..i] + [head[i] % 32];
      chk := Xor(Step(chk), Wide(head[i] % 32));
    }
    assert Highs(hrp) + [0] + Lows(hrp)[..|head|] == Expanded(hrp);
    ok := true;
  }

  lemma NothingSeen()
    ensures Seen([], Cases(false, false))
  {
  }

  /** The loop over the data part; the last six values are checked but not kept. */
  method DecodeTail(tail: bytes, head: bytes, hrp: bytes, start: bv32, seen: Cases)
    returns (ok: bool, data: bytes, chk: bv32, cases: Cases)
    requires |tail| >= CHECKSUM_SIZE && start == Fold(START, Expanded(hrp)) && Seen(head, seen)
    ensures ok == AreChars(tail)
    ensures ok ==> data == Values(tail)[..|tail| - CHECKSUM_SIZE] && chk == StateOf(hrp, Values(tail))
    ensures ok ==> Seen(head + tail, cases)
  {
    hide Xor, Step, Wide, Fold, Seen, RevOf;
    data, chk, cases := [], start, seen;
    assert Expanded(hrp) + Values(tail[..0]) == Expanded(hrp) && head + tail[..0] == head;
    for i := 0 to |tail|
      invariant AreChars(tail[..i]) && Seen(head + tail[..i], cases)
      invariant chk == Fold(START, Expanded(hrp) + Values(tail[..i]))
      invariant data == Values(tail[..i])[..if i < |tail| - CHECKSUM_SIZE then i else |tail| - CHECKSUM_SIZE]
    {
      var c := tail[i];
      assert head + tail[..i + 1] == head + tail[..i] + [c] && tail[..i + 1][i] == c && tail[..i + 1][..i] == tail[..i];
      SeenOne(head + tail[..i], c, cases);
      cases := Cases(cases.lower || 97 <= c <= 122, cases.upper || 65 <= c <= 90);
      var v := RevOf(c);
      if v == -1 {
        assert !AreChars(tail);
        ok := false;
        return;
      }
      FoldOne(START, Expanded(hrp) + Values(tail[..i]), v);
      assert Values(tail[..i + 1]) == Values(tail[..i]) + [v];
      assert Expanded(hrp) + Values(tail[..i + 1]) == Expanded(hrp) + Values(tail[..i]) + [v];
      chk := Xor(Step(chk), Wide(v));
      if i + CHECKSUM_SIZE < |tail| { data := data + [v]; }
    }
    assert tail[..|tail|] == tail;
    ok := true;
  }

  method Bech32Decode(input: bytes) returns (r: Option<Decoded>)
    ensures r == Decode(input)
  {
    hide Xor, Step, Wide, Fold, RevOf, FinalConstant, TailLen, StateOf, HasLower, HasUpper, AreChars, IsPrintable;
    var n := |input|;
    if n < 8 || n > MAX_LENGTH { return None; }
    var t := FindTail(input);
    if 1 + t >= n || t < CHECKSUM_SIZE { return None; }
    TailParts(input);
    var ok, hrp, chk, cases := DecodeHead(input[..n - 1 - t]);
    if !ok { return None; }
    var data;
    ok, data, chk, cases := DecodeTail(input[n - t..], input[..n - 1 - t], hrp, chk, cases);
    if !ok { return None; }
    SeenAround(input[..n - 1 - t], input[n - t..], cases);
    if cases.lower && cases.upper { return None; }
    if chk == FinalConstant(Bech32) { return Some(Decoded(hrp, data, Bech32)); }
    if chk == FinalConstant(Bech32m) { return Some(Decoded(hrp, data, Bech32m)); }
    return None;
  }

  lemma SeenAround(head: bytes, tail: bytes, cases: Cases)
    requires Seen(head + tail, cases)
    ensures Seen(head + ([SEPARATOR] + tail), cases)
  {
    var s, t := head + tail, head + ([SEPARATOR] + tail);
    assert forall i :: 0 <= i < |s| ==> s[i] == t[if i < |head| then i else i + 1];
    assert forall i :: 0 <= i < |t| && i != |head| ==> t[i] == s[if i < |head| then i else i - 1];
  }
}
