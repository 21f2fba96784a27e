/** Texts that BIP-173 and BIP-350 give as valid, as the model encodes them. */
module Bech32Vectors {
  import opened Bytes
  import opened Polymod
  import opened Checksum
  import opened Bech32

  /** The alphabet of BIP-173. */
  lemma Alphabet()
    ensures forall v: Symbol :: CharOf(v) == Ascii("qpzry9x8gf2tvdw0s3jn54khce6mua7l")[v]
  {
  }

  function Next(c: bv32, v: Symbol): bv32 { Xor(Step(c), Wide(v)) }

  lemma One(c: bv32, v: Symbol, d: bv32)
    requires Next(c, v) == d
    ensures Fold(c, [v]) == d
  {
    assert [v][..0] == [] && Fold(c, []) == c;
  }

  lemma Four(c: bv32, s: Symbol, t: Symbol, u: Symbol, v: Symbol, d: bv32)
    requires Next(Next(Next(Next(c, s), t), u), v) == d
    ensures Fold(c, [s, t, u, v]) == d
  {
    hide Next, Fold;
    var c1 := Next(c, s);
    var c2 := Next(c1, t);
    var c3 := Next(c2, u);
    One(c, s, c1);
    One(c1, t, c2);
    One(c2, u, c3);
    One(c3, v, d);
    Join(c, [s], c1, [t], c2, [s, t]);
    Join(c2, [u], c3, [v], d, [u, v]);
    Join(c, [s, t], c2, [u, v], d, [s, t, u, v]);
  }

  lemma Join(c: bv32, vs: seq<Symbol>, d: bv32, ws: seq<Symbol>, e: bv32, all: seq<Symbol>)
    requires Fold(c, vs) == d && Fold(d, ws) == e && all == vs + ws
    ensures Fold(c, all) == e
  {
    FoldConcat(c, vs, ws);
  }

  lemma CharsJoin(vs: seq<Symbol>, ws: seq<Symbol>, all: seq<Symbol>)
    requires all == vs + ws
    ensures Chars(all) == Chars(vs) + Chars(ws)
  {
  }

  /** A checksum that ends in the constant is the one that encoding appends. */
  lemma Known(hrp: bytes, data: bytes, enc: Encoding, checksum: seq<Symbol>, h: bv32, expanded: seq<Symbol>,
              symbols: seq<Symbol>)
    requires (forall i :: 0 <= i < |hrp| ==> 97 <= hrp[i] <= 122) && AreSymbols(data)
    requires |hrp| + 7 + |data| <= 90 && |checksum| == 6
    requires expanded == Expanded(hrp) && symbols == SymbolsIn(data) + checksum
    requires Fold(1, expanded) == h && Fold(h, symbols) == FinalConstant(enc)
    ensures Encode(hrp, data, enc) == Some(hrp + [49] + Chars(symbols))
  {
    hide Fold, Chars;
    FoldConcat(1, Expanded(hrp), symbols);
    StateWithChecksum(hrp, SymbolsIn(data), checksum, FinalConstant(enc));
    assert hrp + ([49] + Chars(symbols)) == hrp + [49] + Chars(symbols);
  }

  lemma ShortestBech32StartSteps()
    ensures Next(0x00000001, 3) == 0x00000023
    ensures Next(0x00000023, 0) == 0x00000460
    ensures Next(0x00000460, 1) == 0x00008c01
  {
  }

  lemma ShortestBech32Start()
    ensures Fold(0x00000001, [3, 0, 1]) == 0x00008c01
  {
    hide Fold, Next;
    ShortestBech32StartSteps();
    One(0x00000001, 3, 0x00000023);
    One(0x00000023, 0, 0x00000460);
    One(0x00000460, 1, 0x00008c01);
    Join(0x00000023, [0], 0x00000460, [1], 0x00008c01, [0, 1]);
    Join(0x00000001, [3], 0x00000023, [0, 1], 0x00008c01, [3, 0, 1]);
  }

  lemma ShortestBech32RestSteps()
    ensures Next(Next(Next(Next(0x00008c01, 10), 28), 25), 31) == 0x02f84386
    ensures Next(0x02f84386, 20) == 0x24622766
    ensures Next(0x24622766, 31) == 0x00000001
  {
  }

  lemma ShortestBech32Rest()
    ensures Fold(0x00008c01, [10, 28, 25, 31, 20, 31]) == 0x00000001
  {
    hide Fold, Next;
    ShortestBech32RestSteps();
    Four(0x00008c01, 10, 28, 25, 31, 0x02f84386);
    One(0x02f84386, 20, 0x24622766);
    One(0x24622766, 31, 0x00000001);
    Join(0x02f84386, [20], 0x24622766, [31], 0x00000001, [20, 31]);
    Join(0x00008c01, [10, 28, 25, 31], 0x02f84386, [20, 31], 0x00000001, [10, 28, 25, 31, 20, 31]);
  }

  lemma ShortestBech32Text()
    ensures Chars([10, 28, 25, 31, 20, 31]) == Ascii("2uel5l")
  {
  }

  lemma ShortestBech32Symbols()
    ensures AreSymbols([]) && SymbolsIn([]) + [10, 28, 25, 31, 20, 31] == [10, 28, 25, 31, 20, 31]
    ensures Expanded(Ascii("a")) == [3, 0, 1] && Ascii("a") + [49] == Ascii("a1")
  {
  }

  /** The shortest text of BIP-173. */
  lemma ShortestBech32()
    ensures Encode(Ascii("a"), [], Bech32) == Some(Ascii("a1") + Ascii("2uel5l"))
  {
    hide Encode, Fold, Chars, CharOf, Expanded, SymbolsIn, AreSymbols;
    ShortestBech32Start();
    ShortestBech32Rest();
    ShortestBech32Text();
    ShortestBech32Symbols();
    Known(Ascii("a"), [], Bech32, [10, 28, 25, 31, 20, 31], 0x00008c01, [3, 0, 1], [10, 28, 25, 31, 20, 31]);
  }

  lemma ShortestBech32mStartSteps()
    ensures Next(0x00000001, 3) == 0x00000023
    ensures Next(0x00000023, 0) == 0x00000460
    ensures Next(0x00000460, 1) == 0x00008c01
  {
  }

  lemma ShortestBech32mStart()
    ensures Fold(0x00000001, [3, 0, 1]) == 0x00008c01
  {
    hide Fold, Next;
    ShortestBech32mStartSteps();
    One(0x00000001, 3, 0x00000023);
    One(0x00000023, 0, 0x00000460);
    One(0x00000460, 1, 0x00008c01);
    Join(0x00000023, [0], 0x00000460, [1], 0x00008c01, [0, 1]);
    Join(0x00000001, [3], 0x00000023, [0, 1], 0x00008c01, [3, 0, 1]);
  }

  lemma ShortestBech32mRestSteps()
    ensures Next(Next(Next(Next(0x00008c01, 31), 0), 9), 19) == 0x02f2b18a
    ensures Next(0x02f2b18a, 17) == 0x253c66e3
    ensures Next(0x253c66e3, 29) == 0x2bc830a3
  {
  }

  lemma ShortestBech32mRest()
    ensures Fold(0x00008c01, [31, 0, 9, 19, 17, 29]) == 0x2bc830a3
  {
    hide Fold, Next;
    ShortestBech32mRestSteps();
    Four(0x00008c01, 31, 0, 9, 19, 0x02f2b18a);
    One(0x02f2b18a, 17, 0x253c66e3);
    One(0x253c66e3, 29, 0x2bc830a3);
    Join(0x02f2b18a, [17], 0x253c66e3, [29], 0x2bc830a3, [17, 29]);
    Join(0x00008c01, [31, 0, 9, 19], 0x02f2b18a, [17, 29], 0x2bc830a3, [31, 0, 9, 19, 17, 29]);
  }

  lemma ShortestBech32mText()
    ensures Chars([31, 0, 9, 19, 17, 29]) == Ascii("lqfn3a")
  {
  }

  lemma ShortestBech32mSymbols()
    ensures AreSymbols([]) && SymbolsIn([]) + [31, 0, 9, 19, 17, 29] == [31, 0, 9, 19, 17, 29]
    ensures Expanded(Ascii("a")) == [3, 0, 1] && Ascii("a") + [49] == Ascii("a1")
  {
  }

  /** The shortest text of BIP-350. */
  lemma ShortestBech32m()
    ensures Encode(Ascii("a"), [], Bech32m) == Some(Ascii("a1") + Ascii("lqfn3a"))
  {
    hide Encode, Fold, Chars, CharOf, Expanded, SymbolsIn, AreSymbols;
    ShortestBech32mStart();
    ShortestBech32mRest();
    ShortestBech32mText();
    ShortestBech32mSymbols();
    Known(Ascii("a"), [], Bech32m, [31, 0, 9, 19, 17, 29], 0x00008c01, [3, 0, 1], [31, 0, 9, 19, 17, 29]);
  }

  lemma WitnessTextStartSteps()
    ensures Next(Next(Next(Next(0x00000001, 3), 3), 0), 2) == 0x00118c02
    ensures Next(0x00118c02, 3) == 0x02318043
  {
  }

  lemma WitnessTextStart()
    ensures Fold(0x00000001, [3, 3, 0, 2, 3]) == 0x02318043
  {
    hide Fold, Next;
    WitnessTextStartSteps();
    Four(0x00000001, 3, 3, 0, 2, 0x00118c02);
    One(0x00118c02, 3, 0x02318043);
    Join(0x00000001, [3, 3, 0, 2], 0x00118c02, [3], 0x02318043, [3, 3, 0, 2, 3]);
  }

  lemma WitnessTextRestASteps()
    ensures Next(Next(Next(Next(0x02318043, 0), 14), 20), 15) == 0x087e0c09
    ensures Next(Next(Next(Next(0x087e0c09, 7), 13), 26), 0) == 0x0c9f52e2
    ensures Next(Next(Next(Next(0x0c9f52e2, 25), 18), 6), 11) == 0x18d0d994
    ensures Next(Next(Next(Next(0x18d0d994, 13), 8), 21), 4) == 0x07f4d934
  {
  }

  lemma WitnessTextRestA()
    ensures Fold(0x02318043, [0, 14, 20, 15, 7, 13, 26, 0, 25, 18, 6, 11, 13, 8, 21, 4]) == 0x07f4d934
  {
    hide Fold, Next;
    WitnessTextRestASteps();
    Four(0x02318043, 0, 14, 20, 15, 0x087e0c09);
    Four(0x087e0c09, 7, 13, 26, 0, 0x0c9f52e2);
    Join(0x02318043, [0, 14, 20, 15], 0x087e0c09, [7, 13, 26, 0], 0x0c9f52e2, [0, 14, 20, 15, 7, 13, 26, 0]);
    Four(0x0c9f52e2, 25, 18, 6, 11, 0x18d0d994);
    Four(0x18d0d994, 13, 8, 21, 4, 0x07f4d934);
    Join(0x0c9f52e2, [25, 18, 6, 11], 0x18d0d994, [13, 8, 21, 4], 0x07f4d934, [25, 18, 6, 11, 13, 8, 21, 4]);
    Join(0x02318043, [0, 14, 20, 15, 7, 13, 26, 0], 0x0c9f52e2, [25, 18, 6, 11, 13, 8, 21, 4], 0x07f4d934, [0, 14,
      20, 15, 7, 13, 26, 0, 25, 18, 6, 11, 13, 8, 21, 4]);
  }

  lemma WitnessTextRestBSteps()
    ensures Next(Next(Next(Next(0x07f4d934, 20), 3), 17), 2) == 0x03a8fd3c
    ensures Next(Next(Next(Next(0x03a8fd3c, 29), 3), 12), 29) == 0x0c964f37
    ensures Next(Next(Next(Next(0x0c964f37, 3), 4), 15), 24) == 0x367a4cd5
    ensures Next(Next(Next(Next(0x367a4cd5, 20), 6), 14), 30) == 0x2a353740
  {
  }

  lemma WitnessTextRestB()
    ensures Fold(0x07f4d934, [20, 3, 17, 2, 29, 3, 12, 29, 3, 4, 15, 24, 20, 6, 14, 30]) == 0x2a353740
  {
    hide Fold, Next;
    WitnessTextRestBSteps();
    Four(0x07f4d934, 20, 3, 17, 2, 0x03a8fd3c);
    Four(0x03a8fd3c, 29, 3, 12, 29, 0x0c964f37);
    Join(0x07f4d934, [20, 3, 17, 2], 0x03a8fd3c, [29, 3, 12, 29], 0x0c964f37, [20, 3, 17, 2, 29, 3, 12, 29]);
    Four(0x0c964f37, 3, 4, 15, 24, 0x367a4cd5);
    Four(0x367a4cd5, 20, 6, 14, 30, 0x2a353740);
    Join(0x0c964f37, [3, 4, 15, 24], 0x367a4cd5, [20, 6, 14, 30], 0x2a353740, [3, 4, 15, 24, 20, 6, 14, 30]);
    Join(0x07f4d934, [20, 3, 17, 2, 29, 3, 12, 29], 0x0c964f37, [3, 4, 15, 24, 20, 6, 14, 30], 0x2a353740, [20, 3,
      17, 2, 29, 3, 12, 29, 3, 4, 15, 24, 20, 6, 14, 30]);
  }

  lemma WitnessTextRestCSteps()
    ensures Next(Next(Next(Next(0x2a353740, 22), 12), 7), 9) == 0x009f99f7
    ensures Next(0x009f99f7, 17) == 0x13f33ef1
    ensures Next(0x13f33ef1, 11) == 0x384fba44
    ensures Next(0x384fba44, 21) == 0x00000001
  {
  }

  lemma WitnessTextRestC()
    ensures Fold(0x2a353740, [22, 12, 7, 9, 17, 11, 21]) == 0x00000001
  {
    hide Fold, Next;
    WitnessTextRestCSteps();
    Four(0x2a353740, 22, 12, 7, 9, 0x009f99f7);
    One(0x009f99f7, 17, 0x13f33ef1);
    One(0x13f33ef1, 11, 0x384fba44);
    One(0x384fba44, 21, 0x00000001);
    Join(0x13f33ef1, [11], 0x384fba44, [21], 0x00000001, [11, 21]);
    Join(0x009f99f7, [17], 0x13f33ef1, [11, 21], 0x00000001, [17, 11, 21]);
    Join(0x2a353740, [22, 12, 7, 9], 0x009f99f7, [17, 11, 21], 0x00000001, [22, 12, 7, 9, 17, 11, 21]);
  }

  lemma WitnessTextRest()
    ensures Fold(0x02318043, [0, 14, 20, 15, 7, 13, 26, 0, 25, 18, 6, 11, 13, 8, 21, 4, 20, 3, 17, 2, 29, 3, 12, 29,
      3, 4, 15, 24, 20, 6, 14, 30, 22, 12, 7, 9, 17, 11, 21]) == 0x00000001
  {
    hide Fold, Next;
    WitnessTextRestA();
    WitnessTextRestB();
    WitnessTextRestC();
    Join(0x02318043, [0, 14, 20, 15, 7, 13, 26, 0, 25, 18, 6, 11, 13, 8, 21, 4], 0x07f4d934, [20, 3, 17, 2, 29, 3,
      12, 29, 3, 4, 15, 24, 20, 6, 14, 30], 0x2a353740, [0, 14, 20, 15, 7, 13, 26, 0, 25, 18, 6, 11, 13, 8, 21, 4, 20,
      3, 17, 2, 29, 3, 12, 29, 3, 4, 15, 24, 20, 6, 14, 30]);
    Join(0x02318043, [0, 14, 20, 15, 7, 13, 26, 0, 25, 18, 6, 11, 13, 8, 21, 4, 20, 3, 17, 2, 29, 3, 12, 29, 3, 4,
      15, 24, 20, 6, 14, 30], 0x2a353740, [22, 12, 7, 9, 17, 11, 21], 0x00000001, [0, 14, 20, 15, 7, 13, 26, 0, 25,
      18, 6, 11, 13, 8, 21, 4, 20, 3, 17, 2, 29, 3, 12, 29, 3, 4, 15, 24, 20, 6, 14, 30, 22, 12, 7, 9, 17, 11, 21]);
  }

  lemma WitnessTextTextA()
    ensures Chars([0, 14, 20, 15, 7, 13, 26, 0, 25, 18, 6, 11, 13, 8, 21, 4]) == Ascii("qw508d6qejxtdg4y")
  {
  }

  lemma WitnessTextTextB()
    ensures Chars([20, 3, 17, 2, 29, 3, 12, 29, 3, 4, 15, 24, 20, 6, 14, 30]) == Ascii("5r3zarvary0c5xw7")
  {
  }

  lemma WitnessTextTextC()
    ensures Chars([22, 12, 7, 9, 17, 11, 21]) == Ascii("kv8f3t4")
  {
  }

  lemma WitnessTextText()
    ensures Chars([0, 14, 20, 15, 7, 13, 26, 0, 25, 18, 6, 11, 13, 8, 21, 4, 20, 3, 17, 2, 29, 3, 12, 29, 3, 4, 15,
      24, 20, 6, 14, 30, 22, 12, 7, 9, 17, 11, 21]) == Ascii("qw508d6qejxtdg4y") + Ascii("5r3zarvary0c5xw7") +
      Ascii("kv8f3t4")
  {
    hide Chars, Ascii;
    WitnessTextTextA();
    WitnessTextTextB();
    WitnessTextTextC();
    CharsJoin([0, 14, 20, 15, 7, 13, 26, 0, 25, 18, 6, 11, 13, 8, 21, 4], [20, 3, 17, 2, 29, 3, 12, 29, 3, 4, 15,
      24, 20, 6, 14, 30], [0, 14, 20, 15, 7, 13, 26, 0, 25, 18, 6, 11, 13, 8, 21, 4, 20, 3, 17, 2, 29, 3, 12, 29, 3,
      4, 15, 24, 20, 6, 14, 30]);
    CharsJoin([0, 14, 20, 15, 7, 13, 26, 0, 25, 18, 6, 11, 13, 8, 21, 4, 20, 3, 17, 2, 29, 3, 12, 29, 3, 4, 15, 24,
      20, 6, 14, 30], [22, 12, 7, 9, 17, 11, 21], [0, 14, 20, 15, 7, 13, 26, 0, 25, 18, 6, 11, 13, 8, 21, 4, 20, 3,
      17, 2, 29, 3, 12, 29, 3, 4, 15, 24, 20, 6, 14, 30, 22, 12, 7, 9, 17, 11, 21]);
  }

  lemma WitnessTextSymbols()
    ensures AreSymbols([0, 14, 20, 15, 7, 13, 26, 0, 25, 18, 6, 11, 13, 8, 21, 4, 20, 3, 17, 2, 29, 3, 12, 29, 3, 4,
      15, 24, 20, 6, 14, 30, 22]) && SymbolsIn([0, 14, 20, 15, 7, 13, 26, 0, 25, 18, 6, 11, 13, 8, 21, 4, 20, 3, 17,
      2, 29, 3, 12, 29, 3, 4, 15, 24, 20, 6, 14, 30, 22]) + [12, 7, 9, 17, 11, 21] == [0, 14, 20, 15, 7, 13, 26, 0,
      25, 18, 6, 11, 13, 8, 21, 4, 20, 3, 17, 2, 29, 3, 12, 29, 3, 4, 15, 24, 20, 6, 14, 30, 22, 12, 7, 9, 17, 11, 21]
    ensures Expanded(Ascii("bc")) == [3, 3, 0, 2, 3] && Ascii("bc") + [49] == Ascii("bc1")
  {
  }

  /** The text of a version 0 witness program of BIP-173. */
  lemma WitnessText()
    ensures Encode(Ascii("bc"), [0, 14, 20, 15, 7, 13, 26, 0, 25, 18, 6, 11, 13, 8, 21, 4, 20, 3, 17, 2, 29, 3, 12,
      29, 3, 4, 15, 24, 20, 6, 14, 30, 22], Bech32) == Some(Ascii("bc1") + (Ascii("qw508d6qejxtdg4y") +
      Ascii("5r3zarvary0c5xw7") + Ascii("kv8f3t4")))
  {
    hide Encode, Fold, Chars, CharOf, Expanded, SymbolsIn, AreSymbols;
    WitnessTextStart();
    WitnessTextRest();
    WitnessTextText();
    WitnessTextSymbols();
    Known(Ascii("bc"), [0, 14, 20, 15, 7, 13, 26, 0, 25, 18, 6, 11, 13, 8, 21, 4, 20, 3, 17, 2, 29, 3, 12, 29, 3, 4,
      15, 24, 20, 6, 14, 30, 22], Bech32, [12, 7, 9, 17, 11, 21], 0x02318043, [3, 3, 0, 2, 3], [0, 14, 20, 15, 7, 13,
      26, 0, 25, 18, 6, 11, 13, 8, 21, 4, 20, 3, 17, 2, 29, 3, 12, 29, 3, 4, 15, 24, 20, 6, 14, 30, 22, 12, 7, 9, 17,
      11, 21]);
  }
}
