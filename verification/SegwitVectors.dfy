/** The regrouping of bytes into symbols written out, and an address that BIP-173 gives as valid. */
module SegwitVectors {
  import opened Bytes
  import opened BitString
  import opened Checksum
  import opened Bech32
  import opened Segwit
  import Bech32Vectors

  // ---------------------------------------------------------------- five bytes are eight symbols

  /** The symbols of five bytes, by division. */
  function Symbols(a: byte, b: byte, c: byte, d: byte, e: byte): (r: bytes)
    ensures AreSymbols(r) && |r| == 8
  {
    [a / 8, a % 8 * 4 + b / 64, b / 2 % 32, b % 2 * 16 + c / 16, c % 16 * 2 + d / 128, d / 4 % 32, d % 4 * 8 + e / 32,
     e % 32]
  }

  lemma Powers(v: nat)
    ensures Shl(v, 1) == 2 * v && Shl(v, 2) == 4 * v && Shl(v, 3) == 8 * v && Shl(v, 4) == 16 * v && Shl(v, 5) == 32 * v
  {
  }

  /** The bits of a number cut in two. */
  lemma Cut(v: nat, hi: nat, w: nat, lo: nat, a: nat)
    requires lo < Shl(1, a) && v == Shl(hi, a) + lo
    ensures ToBits(v, w + a) == ToBits(hi, w) + ToBits(lo, a)
  {
    hide Shl, ToBits;
    ShlBits(hi, w, a, lo);
  }

  lemma CutTwoOfFive(v: nat, hi: nat, lo: nat)
    requires lo < 4 && v == 4 * hi + lo
    ensures ToBits(v, 5) == ToBits(hi, 3) + ToBits(lo, 2)
  {
    hide ToBits;
    Powers(hi);
    Powers(1);
    Cut(v, hi, 3, lo, 2);
  }

  lemma CutThree(v: nat, hi: nat, lo: nat)
    requires lo < 8 && v == 8 * hi + lo
    ensures ToBits(v, 5) == ToBits(hi, 2) + ToBits(lo, 3) && ToBits(v, 8) == ToBits(hi, 5) + ToBits(lo, 3)
  {
    hide ToBits;
    Powers(hi);
    Powers(1);
    Cut(v, hi, 2, lo, 3);
    Cut(v, hi, 5, lo, 3);
  }

  lemma CutFour(v: nat, hi: nat, lo: nat)
    requires lo < 16 && v == 16 * hi + lo
    ensures ToBits(v, 5) == ToBits(hi, 1) + ToBits(lo, 4) && ToBits(v, 8) == ToBits(hi, 4) + ToBits(lo, 4)
  {
    hide ToBits;
    Powers(hi);
    Powers(1);
    Cut(v, hi, 1, lo, 4);
    Cut(v, hi, 4, lo, 4);
  }

  lemma CutOneOfFive(v: nat, hi: nat, lo: nat)
    requires lo < 2 && v == 2 * hi + lo
    ensures ToBits(v, 5) == ToBits(hi, 4) + ToBits(lo, 1)
    ensures ToBits(v, 6) == ToBits(hi, 5) + ToBits(lo, 1)
  {
    hide ToBits;
    Powers(hi);
    Powers(1);
    Cut(v, hi, 4, lo, 1);
    Cut(v, hi, 5, lo, 1);
  }

  lemma CutFive(v: nat, hi: nat, lo: nat)
    requires lo < 32 && v == 32 * hi + lo
    ensures ToBits(v, 8) == ToBits(hi, 3) + ToBits(lo, 5)
  {
    hide ToBits;
    Powers(hi);
    Powers(1);
    Cut(v, hi, 3, lo, 5);
  }

  lemma SixAndSeven(v: nat)
    ensures Shl(v, 6) == 64 * v && Shl(v, 7) == 128 * v
  {
    Powers(2 * v);
    assert Shl(v, 6) == 2 * Shl(v, 5) && Shl(v, 7) == 2 * Shl(v, 6);
    Powers(v);
  }

  /** Two, five and one bit. */
  lemma CutSecond(b: byte)
    ensures ToBits(b, 8) == ToBits(b / 64, 2) + ToBits(b / 2 % 32, 5) + ToBits(b % 2, 1)
  {
    hide ToBits, Shl;
    SixAndSeven(1);
    SixAndSeven(b / 64);
    Cut(b, b / 64, 2, b % 64, 6);
    CutOneOfFive(b % 64, b / 2 % 32, b % 2);
  }

  /** One, five and two bits. */
  lemma CutFourth(d: byte)
    ensures ToBits(d, 8) == ToBits(d / 128, 1) + ToBits(d / 4 % 32, 5) + ToBits(d % 4, 2)
  {
    hide ToBits, Shl;
    Powers(1);
    Powers(d / 4 % 32);
    SixAndSeven(1);
    SixAndSeven(d / 128);
    Cut(d, d / 128, 1, d % 128, 7);
    Cut(d % 128, d / 4 % 32, 5, d % 4, 2);
  }

  lemma Five(a: nat, b: nat, c: nat, d: nat, e: nat, w: nat)
    ensures AllBits([a, b, c, d, e], w) == ToBits(a, w) + ToBits(b, w) + ToBits(c, w) + ToBits(d, w) + ToBits(e, w)
  {
    hide ToBits, AllBits;
    AllBitsConcat([a, b, c, d], [e], w);
    AllBitsConcat([a, b, c], [d], w);
    AllBitsConcat([a, b], [c], w);
    AllBitsConcat([a], [b], w);
    AllBitsOne(a, w);
    AllBitsOne(b, w);
    AllBitsOne(c, w);
    AllBitsOne(d, w);
    AllBitsOne(e, w);
    assert [a] + [b] == [a, b] && [a, b] + [c] == [a, b, c] && [a, b, c] + [d] == [a, b, c, d];
    assert [a, b, c, d] + [e] == [a, b, c, d, e];
  }

  lemma Eight(a: nat, b: nat, c: nat, d: nat, e: nat, f: nat, g: nat, h: nat, w: nat)
    ensures AllBits([a, b, c, d, e, f, g, h], w)
         == ToBits(a, w) + ToBits(b, w) + ToBits(c, w) + ToBits(d, w) + ToBits(e, w) + (ToBits(f, w) + ToBits(g, w)
            + ToBits(h, w))
  {
    hide ToBits, AllBits;
    AllBitsConcat([a, b, c, d, e], [f, g, h], w);
    Five(a, b, c, d, e, w);
    AllBitsConcat([f, g], [h], w);
    AllBitsConcat([f], [g], w);
    AllBitsOne(f, w);
    AllBitsOne(g, w);
    AllBitsOne(h, w);
    assert [f] + [g] == [f, g] && [f, g] + [h] == [f, g, h];
    assert [a, b, c, d, e] + [f, g, h] == [a, b, c, d, e, f, g, h];
  }

  /** Where the pieces of the bytes stand among the pieces of the symbols. */
  lemma Pieces(a: seq<bool>, a': seq<bool>, b: seq<bool>, b': seq<bool>, b'': seq<bool>, c: seq<bool>, c': seq<bool>,
               d: seq<bool>, d': seq<bool>, d'': seq<bool>, e: seq<bool>, e': seq<bool>)
    ensures (a + a') + (b + b' + b'') + (c + c') + (d + d' + d'') + (e + e')
         == a + (a' + b) + b' + (b'' + c) + (c' + d) + (d' + (d'' + e) + e')
  {
  }

  lemma FortyBits(a: byte, b: byte, c: byte, d: byte, e: byte)
    ensures AllBits([a, b, c, d, e], 8) == AllBits(Symbols(a, b, c, d, e), 5)
  {
    hide ToBits, AllBits, Shl;
    Five(a, b, c, d, e, 8);
    Eight(a / 8, a % 8 * 4 + b / 64, b / 2 % 32, b % 2 * 16 + c / 16, c % 16 * 2 + d / 128, d / 4 % 32,
      d % 4 * 8 + e / 32, e % 32, 5);
    CutThree(a, a / 8, a % 8);
    CutSecond(b);
    CutFour(c, c / 16, c % 16);
    CutFourth(d);
    CutFive(e, e / 32, e % 32);
    CutTwoOfFive(a % 8 * 4 + b / 64, a % 8, b / 64);
    CutFour(b % 2 * 16 + c / 16, b % 2, c / 16);
    CutOneOfFive(c % 16 * 2 + d / 128, c % 16, d / 128);
    CutThree(d % 4 * 8 + e / 32, d % 4, e / 32);
    Pieces(ToBits(a / 8, 5), ToBits(a % 8, 3), ToBits(b / 64, 2), ToBits(b / 2 % 32, 5), ToBits(b % 2, 1),
      ToBits(c / 16, 4), ToBits(c % 16, 4), ToBits(d / 128, 1), ToBits(d / 4 % 32, 5), ToBits(d % 4, 2),
      ToBits(e / 32, 3), ToBits(e % 32, 5));
  }

  lemma {:induction false} SplitBehind(vs: seq<nat>, w: nat, rest: seq<bool>)
    requires w > 0 && Below(vs, w)
    ensures Split(AllBits(vs, w) + rest, w) == vs + Split(rest, w) && Rest(AllBits(vs, w) + rest, w) == Rest(rest, w)
    decreases |vs|
  {
    hide ToBits, FromBits, Low, AllBits, Split, Rest;
    if vs == [] {
      NoBits(w);
      assert [] + rest == rest;
    } else {
      var first, more := ToBits(vs[0], w), AllBits(vs[1..], w) + rest;
      assert AllBits(vs, w) + rest == first + more by { FirstBits(vs, w); }
      FromToBits(vs[0], w);
      LowBound(vs[0], w);
      SplitBehind(vs[1..], w, rest);
      SplitFirst(first, w, more);
      assert [vs[0]] + (vs[1..] + Split(rest, w)) == vs + Split(rest, w);
    }
  }

  lemma FirstBits(vs: seq<nat>, w: nat)
    requires vs != []
    ensures AllBits(vs, w) == ToBits(vs[0], w) + AllBits(vs[1..], w)
  {
  }

  lemma SplitFirst(first: seq<bool>, w: nat, more: seq<bool>)
    requires |first| == w > 0
    ensures Split(first + more, w) == [FromBits(first)] + Split(more, w) && Rest(first + more, w) == Rest(more, w)
  {
    assert (first + more)[..w] == first && (first + more)[w..] == more;
  }

  /** Every five bytes are eight symbols, whatever follows. */
  lemma FiveBytes(a: byte, b: byte, c: byte, d: byte, e: byte, rest: bytes)
    ensures ToSymbols([a, b, c, d, e] + rest) == Symbols(a, b, c, d, e) + ToSymbols(rest)
  {
    hide AllBits, Split, Rest, Shl, Filled;
    var all, s := [a, b, c, d, e] + rest, Symbols(a, b, c, d, e);
    ShlValues();
    AllBitsConcat([a, b, c, d, e], rest, 8);
    FortyBits(a, b, c, d, e);
    SplitBehind(s, 5, AllBits(rest, 8));
    var out, tail := Split(AllBits(rest, 8), 5), Rest(AllBits(rest, 8), 5);
    if tail != [] { assert s + (out + [Filled(tail, 5)]) == s + out + [Filled(tail, 5)]; }
  }

  lemma NoSymbols()
    ensures ToSymbols([]) == []
  {
    assert AllBits([], 8) == [] && Split([], 5) == [] && Rest([], 5) == [];
  }

  lemma FiveMore(five: bytes, rest: bytes, s: bytes, more: bytes)
    requires |five| == 5 && Symbols(five[0], five[1], five[2], five[3], five[4]) == s && ToSymbols(rest) == more
    ensures ToSymbols(five + rest) == s + more
  {
    hide ToSymbols, Symbols;
    assert five == [five[0], five[1], five[2], five[3], five[4]];
    FiveBytes(five[0], five[1], five[2], five[3], five[4], rest);
  }

  lemma WitnessSymbols()
    ensures Symbols(0x75, 0x1e, 0x76, 0xe8, 0x19) == [14, 20, 15, 7, 13, 26, 0, 25]
    ensures Symbols(0x91, 0x96, 0xd4, 0x54, 0x94) == [18, 6, 11, 13, 8, 21, 4, 20]
    ensures Symbols(0x1c, 0x45, 0xd1, 0xb3, 0xa3) == [3, 17, 2, 29, 3, 12, 29, 3]
    ensures Symbols(0x23, 0xf1, 0x43, 0x3b, 0xd6) == [4, 15, 24, 20, 6, 14, 30, 22]
  {
  }

  const PROGRAM_A: bytes := [0x75, 0x1e, 0x76, 0xe8, 0x19]
  const PROGRAM_B: bytes := [0x91, 0x96, 0xd4, 0x54, 0x94]
  const PROGRAM_C: bytes := [0x1c, 0x45, 0xd1, 0xb3, 0xa3]
  const PROGRAM_D: bytes := [0x23, 0xf1, 0x43, 0x3b, 0xd6]

  lemma WitnessProgram()
    ensures ToSymbols(PROGRAM_A + (PROGRAM_B + (PROGRAM_C + (PROGRAM_D + []))))
         == [14, 20, 15, 7, 13, 26, 0, 25] + ([18, 6, 11, 13, 8, 21, 4, 20] + ([3, 17, 2, 29, 3, 12, 29, 3]
            + ([4, 15, 24, 20, 6, 14, 30, 22] + [])))
  {
    hide ToSymbols, Symbols;
    WitnessSymbols();
    NoSymbols();
    FiveMore(PROGRAM_D, [], [4, 15, 24, 20, 6, 14, 30, 22], []);
    FiveMore(PROGRAM_C, PROGRAM_D + [], [3, 17, 2, 29, 3, 12, 29, 3], [4, 15, 24, 20, 6, 14, 30, 22] + []);
    FiveMore(PROGRAM_B, PROGRAM_C + (PROGRAM_D + []), [18, 6, 11, 13, 8, 21, 4, 20],
      [3, 17, 2, 29, 3, 12, 29, 3] + ([4, 15, 24, 20, 6, 14, 30, 22] + []));
    FiveMore(PROGRAM_A, PROGRAM_B + (PROGRAM_C + (PROGRAM_D + [])), [14, 20, 15, 7, 13, 26, 0, 25],
      [18, 6, 11, 13, 8, 21, 4, 20] + ([3, 17, 2, 29, 3, 12, 29, 3] + ([4, 15, 24, 20, 6, 14, 30, 22] + [])));
  }

  lemma VersionAndSymbols()
    ensures [0] + ([14, 20, 15, 7, 13, 26, 0, 25] + ([18, 6, 11, 13, 8, 21, 4, 20] + ([3, 17, 2, 29, 3, 12, 29, 3]
            + ([4, 15, 24, 20, 6, 14, 30, 22] + []))))
         == [0, 14, 20, 15, 7, 13, 26, 0, 25, 18, 6, 11, 13, 8, 21, 4, 20, 3, 17, 2, 29, 3, 12, 29, 3, 4, 15, 24, 20,
             6, 14, 30, 22]
  {
  }

  /** The address of the program of version 0 that BIP-173 gives as an example. */
  lemma WitnessAddress()
    ensures SegwitEncode(Ascii("bc"), 0, PROGRAM_A + (PROGRAM_B + (PROGRAM_C + (PROGRAM_D + []))))
         == Some(Ascii("bc1") + (Ascii("qw508d6qejxtdg4y") + Ascii("5r3zarvary0c5xw7") + Ascii("kv8f3t4")))
  {
    hide ToSymbols, Encode, Ascii;
    WitnessProgram();
    Bech32Vectors.WitnessText();
    VersionAndSymbols();
  }
}
