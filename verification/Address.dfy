/**
 * The check of account addresses (src/parser_tx.c): a linear code over 64-bit words with one coset for each
 * chain. Words are numbers below two to the 64, and
 * exclusive or is taken bit by bit.
 */
module Address {
  import opened Bytes
  import opened Errors
  import opened BitString

  const WORD_BITS := 64

  const MAINNET: nat := 0
  const TESTNET: nat := 0x6834ba37b3980209
  const EMULATOR: nat := 0x1cb159857af02018

  datatype Chain = Emulator | Testnet | Mainnet

  function CodeWord(c: Chain): nat {
    match c
    case Mainnet => MAINNET
    case Testnet => TESTNET
    case Emulator => EMULATOR
  }

  /** The columns of the parity check matrix. */
  function Column(i: nat): nat
    requires i < WORD_BITS
  {
    if i == 0 then 0x00001 else if i == 1 then 0x00002 else if i == 2 then 0x00004 else if i == 3 then 0x00008
    else if i == 4 then 0x00010 else if i == 5 then 0x00020 else if i == 6 then 0x00040 else if i == 7 then 0x00080
    else if i == 8 then 0x00100 else if i == 9 then 0x00200 else if i == 10 then 0x00400 else if i == 11 then 0x00800
    else if i == 12 then 0x01000 else if i == 13 then 0x02000 else if i == 14 then 0x04000 else if i == 15 then 0x08000
    else if i == 16 then 0x10000 else if i == 17 then 0x20000 else if i == 18 then 0x40000 else if i == 19 then 0x7328d
    else if i == 20 then 0x6689a else if i == 21 then 0x6112f else if i == 22 then 0x6084b else if i == 23 then 0x433fd
    else if i == 24 then 0x42aab else if i == 25 then 0x41951 else if i == 26 then 0x233ce else if i == 27 then 0x22a81
    else if i == 28 then 0x21948 else if i == 29 then 0x1ef60 else if i == 30 then 0x1deca else if i == 31 then 0x1c639
    else if i == 32 then 0x1bdd8 else if i == 33 then 0x1a535 else if i == 34 then 0x194ac else if i == 35 then 0x18c46
    else if i == 36 then 0x1632b else if i == 37 then 0x1529b else if i == 38 then 0x14a43 else if i == 39 then 0x13184
    else if i == 40 then 0x12942 else if i == 41 then 0x118c1 else if i == 42 then 0x0f812 else if i == 43 then 0x0e027
    else if i == 44 then 0x0d00e else if i == 45 then 0x0c83c else if i == 46 then 0x0b01d else if i == 47 then 0x0a831
    else if i == 48 then 0x0982b else if i == 49 then 0x07034 else if i == 50 then 0x0682a else if i == 51 then 0x05819
    else if i == 52 then 0x03807 else if i == 53 then 0x007d2 else if i == 54 then 0x00727 else if i == 55 then 0x0068e
    else if i == 56 then 0x0067c else if i == 57 then 0x0059d else if i == 58 then 0x004eb else if i == 59 then 0x003b4
    else if i == 60 then 0x0036a else if i == 61 then 0x002d9 else if i == 62 then 0x001c7 else 0x0003f
  }

  /** Exclusive or of the low `n` bits. */
  function XorLow(a: nat, b: nat, n: nat): nat {
    if n == 0 then 0 else 2 * XorLow(a / 2, b / 2, n - 1) + (a % 2 + b % 2) % 2
  }

  function Xor(a: nat, b: nat): nat { XorLow(a, b, WORD_BITS) }

  function Pick(w: nat, k: nat): nat
    requires k < WORD_BITS
  {
    if w % 2 == 1 then Column(k) else 0
  }

  /** The sum of the columns that the bits of `w` select from column `k` on. */
  function Parity(w: nat, k: nat): nat
    requires k <= WORD_BITS
    decreases WORD_BITS - k
  {
    if k == WORD_BITS then 0 else Xor(Pick(w, k), Parity(w / 2, k + 1))
  }

  function Syndrome(w: nat): nat { Parity(w, 0) }

  /** The program's check: not the chain's own code word, and a code word after removing it. */
  predicate IsValid(chain: nat, address: nat) {
    var codeWord := Xor(address, chain);
    codeWord != 0 && Syndrome(codeWord) == 0
  }

  // ---------------------------------------------------------------- exclusive or

  predicate IsWord(w: nat) { w < 0x1_0000_0000_0000_0000 }

  lemma ShlFour(v: nat, a: nat)
    ensures Shl(v, a + 4) == 16 * Shl(v, a)
  {
    assert Shl(v, a + 2) == 4 * Shl(v, a);
  }

  lemma ShlSixteen(v: nat, a: nat)
    ensures Shl(v, a + 16) == 0x10000 * Shl(v, a)
  {
    hide Shl;
    ShlFour(v, a);
    ShlFour(v, a + 4);
    ShlFour(v, a + 8);
    ShlFour(v, a + 12);
  }

  lemma WordLimit()
    ensures Shl(1, WORD_BITS) == 0x1_0000_0000_0000_0000
  {
    assert Shl(1, 0) == 1;
    hide Shl;
    ShlSixteen(1, 48);
    ShlSixteen(1, 32);
    ShlSixteen(1, 16);
    ShlSixteen(1, 0);
  }

  lemma WordLow(w: nat)
    requires IsWord(w)
    ensures Low(w, WORD_BITS) == w
  {
    hide Shl, Low;
    WordLimit();
    LowBound(w, WORD_BITS);
  }

  lemma {:induction false} XorLowBound(a: nat, b: nat, n: nat)
    ensures XorLow(a, b, n) < Shl(1, n)
  {
    if n > 0 { XorLowBound(a / 2, b / 2, n - 1); }
  }

  lemma {:induction false} XorLowZero(a: nat, b: nat, n: nat)
    ensures XorLow(a, b, n) == 0 <==> Low(a, n) == Low(b, n)
  {
    if n > 0 { XorLowZero(a / 2, b / 2, n - 1); }
  }

  lemma {:induction false} XorLowUnit(a: nat, n: nat)
    ensures XorLow(a, 0, n) == Low(a, n) && XorLow(0, a, n) == Low(a, n) && XorLow(a, a, n) == 0
  {
    if n > 0 { XorLowUnit(a / 2, n - 1); }
  }

  lemma XorLowIs(a: nat, b: nat, n: nat)
    requires n > 0
    ensures XorLow(a, b, n) == 2 * XorLow(a / 2, b / 2, n - 1) + (a % 2 + b % 2) % 2
  {
  }

  lemma JoinBits(a: nat, b: nat, c: nat, d: nat, n: nat, x: nat, y: nat)
    requires n > 0 && x / 2 == XorLow(a / 2, b / 2, n - 1) && y / 2 == XorLow(c / 2, d / 2, n - 1)
    requires x % 2 == (a % 2 + b % 2) % 2 && y % 2 == (c % 2 + d % 2) % 2
    ensures XorLow(x, y, n)
         == 2 * XorLow(XorLow(a / 2, b / 2, n - 1), XorLow(c / 2, d / 2, n - 1), n - 1)
            + (a % 2 + b % 2 + (c % 2 + d % 2)) % 2
  {
    hide XorLow;
    XorLowIs(x, y, n);
  }

  lemma {:induction false} XorLowPairs(a: nat, b: nat, c: nat, d: nat, n: nat)
    ensures XorLow(XorLow(a, b, n), XorLow(c, d, n), n) == XorLow(XorLow(a, c, n), XorLow(b, d, n), n)
  {
    if n > 0 {
      hide XorLow;
      XorLowPairs(a / 2, b / 2, c / 2, d / 2, n - 1);
      XorLowHalves(a, b, n);
      XorLowHalves(c, d, n);
      JoinBits(a, b, c, d, n, XorLow(a, b, n), XorLow(c, d, n));
      XorLowHalves(a, c, n);
      XorLowHalves(b, d, n);
      JoinBits(a, c, b, d, n, XorLow(a, c, n), XorLow(b, d, n));
    }
  }

  lemma XorLowHalves(a: nat, b: nat, n: nat)
    requires n > 0
    ensures XorLow(a, b, n) / 2 == XorLow(a / 2, b / 2, n - 1) && XorLow(a, b, n) % 2 == (a % 2 + b % 2) % 2
  {
  }

  lemma XorWord(a: nat, b: nat)
    ensures IsWord(Xor(a, b))
  {
    hide Shl;
    WordLimit();
    XorLowBound(a, b, WORD_BITS);
  }

  lemma XorUnit(a: nat)
    requires IsWord(a)
    ensures Xor(a, 0) == a && Xor(0, a) == a && Xor(a, a) == 0
  {
    hide Low;
    XorLowUnit(a, WORD_BITS);
    WordLow(a);
  }

  lemma XorZero(a: nat, b: nat)
    requires IsWord(a) && IsWord(b)
    ensures Xor(a, b) == 0 <==> a == b
  {
    hide Low;
    XorLowZero(a, b, WORD_BITS);
    WordLow(a);
    WordLow(b);
  }

  lemma ParityWord(w: nat, k: nat)
    requires k <= WORD_BITS
    ensures IsWord(Parity(w, k))
  {
    hide Xor;
    if k < WORD_BITS { XorWord(Pick(w, k), Parity(w / 2, k + 1)); }
  }

  // ---------------------------------------------------------------- linearity

  lemma ColumnWord(i: nat)
    requires i < WORD_BITS
    ensures 0 < Column(i) < 0x80000
  {
  }

  lemma PickLinear(a: nat, b: nat, x: nat, k: nat)
    requires k < WORD_BITS && x % 2 == (a % 2 + b % 2) % 2
    ensures Pick(x, k) == Xor(Pick(a, k), Pick(b, k))
  {
    hide Column, Xor;
    ColumnWord(k);
    XorUnit(Column(k));
    XorUnit(0);
  }

  lemma {:induction false} ParityLinear(a: nat, b: nat, k: nat)
    requires k <= WORD_BITS
    ensures Parity(XorLow(a, b, WORD_BITS - k), k) == Xor(Parity(a, k), Parity(b, k))
    decreases WORD_BITS - k
  {
    hide Column, Xor, Pick, XorLow;
    if k == WORD_BITS {
      XorUnit(0);
    } else {
      var x := XorLow(a, b, WORD_BITS - k);
      XorLowHalves(a, b, WORD_BITS - k);
      ParityLinear(a / 2, b / 2, k + 1);
      PickLinear(a, b, x, k);
      XorPairs(Pick(a, k), Pick(b, k), Parity(a / 2, k + 1), Parity(b / 2, k + 1));
    }
  }

  lemma XorPairs(a: nat, b: nat, c: nat, d: nat)
    ensures Xor(Xor(a, b), Xor(c, d)) == Xor(Xor(a, c), Xor(b, d))
  {
    hide XorLow;
    XorLowPairs(a, b, c, d, WORD_BITS);
  }

  /** The check is membership in a coset of the code: the same syndrome as the chain's word, and another word. */
  lemma IsValidIff(chain: nat, address: nat)
    requires IsWord(chain) && IsWord(address)
    ensures IsValid(chain, address) <==> address != chain && Syndrome(address) == Syndrome(chain)
  {
    hide Parity;
    XorZero(address, chain);
    ParityLinear(address, chain, 0);
    ParityWord(address, 0);
    ParityWord(chain, 0);
    XorZero(Syndrome(address), Syndrome(chain));
  }

  // ---------------------------------------------------------------- the columns

  predicate IsUnit(c: nat) {
    c in {0x1, 0x2, 0x4, 0x8, 0x10, 0x20, 0x40, 0x80, 0x100, 0x200, 0x400, 0x800, 0x1000, 0x2000, 0x4000, 0x8000,
        0x10000, 0x20000, 0x40000}
  }

  lemma UnitColumns(i: nat)
    requires i < WORD_BITS
    ensures IsUnit(Column(i)) <==> i < 19
  {
  }

  lemma Ascends(i: nat)
    requires i < 18
    ensures Column(i) < Column(i + 1)
  {
  }

  lemma Descends(i: nat)
    requires 19 <= i < 63
    ensures Column(i + 1) < Column(i)
  {
  }

  lemma {:induction false} AscendsTo(i: nat, j: nat)
    requires i < j < 19
    ensures Column(i) < Column(j)
    decreases j
  {
    hide Column;
    Ascends(j - 1);
    if i < j - 1 { AscendsTo(i, j - 1); }
  }

  lemma {:induction false} DescendsTo(i: nat, j: nat)
    requires 19 <= i < j < WORD_BITS
    ensures Column(j) < Column(i)
    decreases j
  {
    hide Column;
    Descends(j - 1);
    if i < j - 1 { DescendsTo(i, j - 1); }
  }

  /** No two columns are the same and none is zero, so that sums of one or two columns are not zero. */
  lemma ColumnsDiffer(i: nat, j: nat)
    requires i < WORD_BITS && j < WORD_BITS && i != j
    ensures Column(i) != 0 && Xor(Column(i), Column(j)) != 0
  {
    hide Column, IsUnit, Xor;
    UnitColumns(i);
    UnitColumns(j);
    ColumnWord(i);
    ColumnWord(j);
    if i < j < 19 {
      AscendsTo(i, j);
    } else if j < i < 19 {
      AscendsTo(j, i);
    } else if 19 <= i < j {
      DescendsTo(i, j);
    } else if 19 <= j < i {
      DescendsTo(j, i);
    }
    XorZero(Column(i), Column(j));
  }

  // ---------------------------------------------------------------- two bits of the syndrome

  lemma {:induction false} XorLowBit(a: nat, b: nat, n: nat, i: nat)
    requires i < n
    ensures Shr(XorLow(a, b, n), i) % 2 == (Shr(a, i) % 2 + Shr(b, i) % 2) % 2
    decreases i
  {
    hide XorLow;
    XorLowHalves(a, b, n);
    if i > 0 { XorLowBit(a / 2, b / 2, n - 1, i - 1); }
  }

  predicate HasBit(i: nat, bit: nat)
    requires i < WORD_BITS
  {
    Shr(Column(i), bit) % 2 == 1
  }

  /** How many of the next `m` columns are selected and have the bit. */
  function Chosen(w: nat, k: nat, m: nat, bit: nat): nat
    requires k + m <= WORD_BITS
    decreases m
  {
    if m == 0 then 0 else (if w % 2 == 1 && HasBit(k, bit) then 1 else 0) + Chosen(w / 2, k + 1, m - 1, bit)
  }

  /** A bit of the syndrome is the parity of the selected columns that have it. */
  lemma {:induction false} ParityBit(w: nat, k: nat, bit: nat)
    requires k <= WORD_BITS && bit < WORD_BITS
    ensures Shr(Parity(w, k), bit) % 2 == Chosen(w, k, WORD_BITS - k, bit) % 2
    decreases WORD_BITS - k
  {
    hide Shr, Column, XorLow;
    ShrZero(bit);
    if k < WORD_BITS {
      ParityBit(w / 2, k + 1, bit);
      XorLowBit(Pick(w, k), Parity(w / 2, k + 1), WORD_BITS, bit);
    }
  }

  lemma {:induction false} ShrZero(n: nat)
    ensures Shr(0, n) == 0
  {
    if n > 0 { ShrZero(n - 1); }
  }

  lemma {:induction false} ChosenSplit(w: nat, k: nat, a: nat, b: nat, bit: nat)
    requires k + a + b <= WORD_BITS
    ensures Chosen(w, k, a + b, bit) == Chosen(w, k, a, bit) + Chosen(Shr(w, a), k + a, b, bit)
    decreases a
  {
    hide HasBit;
    if a > 0 { ChosenSplit(w / 2, k + 1, a - 1, b, bit); }
  }

  function Ones(w: nat, m: nat): nat { if m == 0 then 0 else w % 2 + Ones(w / 2, m - 1) }

  lemma {:induction false} ChosenAll(w: nat, k: nat, m: nat, bit: nat)
    requires k + m <= WORD_BITS && forall i :: k <= i < k + m ==> HasBit(i, bit)
    ensures Chosen(w, k, m, bit) == Ones(w, m)
    decreases m
  {
    hide HasBit;
    if m > 0 { ChosenAll(w / 2, k + 1, m - 1, bit); }
  }

  lemma {:induction false} ChosenNone(w: nat, k: nat, m: nat, bit: nat)
    requires k + m <= WORD_BITS && forall i :: k <= i < k + m ==> !HasBit(i, bit)
    ensures Chosen(w, k, m, bit) == 0
    decreases m
  {
    hide HasBit;
    if m > 0 { ChosenNone(w / 2, k + 1, m - 1, bit); }
  }

  lemma ShrFour(v: nat, a: nat)
    ensures Shr(v, a + 4) == Shr(v / 16, a)
  {
    assert Shr(v, a + 4) == Shr(v / 2 / 2, a + 2);
    assert Shr(v / 2 / 2, a + 2) == Shr(v / 2 / 2 / 2 / 2, a);
  }

  lemma ShrSixteen(v: nat, a: nat)
    ensures Shr(v, a + 16) == Shr(v / 0x10000, a)
  {
    hide Shr;
    ShrFour(v, a + 12);
    ShrFour(v / 16, a + 8);
    ShrFour(v / 16 / 16, a + 4);
    ShrFour(v / 16 / 16 / 16, a);
  }

  lemma HighBits(i: nat)
    requires i < WORD_BITS
    ensures HasBit(i, 18) <==> 18 <= i < 26
    ensures HasBit(i, 16) <==> i == 16 || i == 19 || 29 <= i < 42
  {
    hide Shr;
    ShrSixteen(Column(i), 2);
    ShrSixteen(Column(i), 0);
    ShrLittle(Column(i) / 0x10000);
  }

  lemma ShrLittle(v: nat)
    ensures Shr(v, 0) == v && Shr(v, 2) == v / 4
  {
    assert Shr(v / 2, 1) == v / 2 / 2;
  }

  lemma TopBit(w: nat)
    ensures Shr(Syndrome(w), 18) % 2 == Ones(Shr(w, 18), 8) % 2
  {
    hide HasBit, Shr, Parity, Chosen, Ones;
    ParityBit(w, 0, 18);
    forall i | 0 <= i < WORD_BITS ensures HasBit(i, 18) <==> 18 <= i < 26 { HighBits(i); }
    ChosenSplit(w, 0, 18, 46, 18);
    ChosenNone(w, 0, 18, 18);
    ChosenSplit(Shr(w, 18), 18, 8, 38, 18);
    ChosenAll(Shr(w, 18), 18, 8, 18);
    ChosenNone(Shr(Shr(w, 18), 8), 26, 38, 18);
  }

  lemma MiddleBit(w: nat)
    ensures Shr(Syndrome(w), 16) % 2 == (Ones(Shr(w, 16), 1) + Ones(Shr(w, 19), 1) + Ones(Shr(w, 29), 13)) % 2
  {
    hide HasBit, Shr, Parity, Chosen, Ones;
    ParityBit(w, 0, 16);
    forall i | 0 <= i < WORD_BITS ensures HasBit(i, 16) <==> i == 16 || i == 19 || 29 <= i < 42 { HighBits(i); }
    ChosenSplit(w, 0, 16, 48, 16);
    ChosenNone(w, 0, 16, 16);
    var a := Shr(w, 16);
    ChosenSplit(a, 16, 1, 47, 16);
    ChosenAll(a, 16, 1, 16);
    ShrShr(w, 16, 1);
    var b := Shr(w, 17);
    ChosenSplit(b, 17, 2, 45, 16);
    ChosenNone(b, 17, 2, 16);
    ShrShr(w, 17, 2);
    var c := Shr(w, 19);
    ChosenSplit(c, 19, 1, 44, 16);
    ChosenAll(c, 19, 1, 16);
    ShrShr(w, 19, 1);
    var d := Shr(w, 20);
    ChosenSplit(d, 20, 9, 35, 16);
    ChosenNone(d, 20, 9, 16);
    ShrShr(w, 20, 9);
    var e := Shr(w, 29);
    ChosenSplit(e, 29, 13, 22, 16);
    ChosenAll(e, 29, 13, 16);
    ChosenNone(Shr(e, 13), 42, 22, 16);
  }

  lemma {:induction false} ShrShr(w: nat, a: nat, b: nat)
    ensures Shr(Shr(w, a), b) == Shr(w, a + b)
  {
    if a > 0 { ShrShr(w / 2, a - 1, b); }
  }

  // ---------------------------------------------------------------- the three chains

  lemma {:induction false} OnesSplit(w: nat, a: nat, b: nat)
    ensures Ones(w, a + b) == Ones(w, a) + Ones(Shr(w, a), b)
    decreases a
  {
    if a > 0 { OnesSplit(w / 2, a - 1, b); }
  }

  lemma OnesFour(w: nat)
    ensures Ones(w, 4) == w % 2 + w / 2 % 2 + w / 4 % 2 + w / 8 % 2 && Ones(w, 1) == w % 2
  {
    assert w / 2 / 2 == w / 4 && w / 4 / 2 == w / 8;
    assert Ones(w / 4, 2) == w / 4 % 2 + (w / 8 % 2 + Ones(w / 8 / 2, 0));
    assert Ones(w, 4) == w % 2 + (w / 2 % 2 + Ones(w / 4, 2));
  }

  lemma OnesMore(w: nat)
    ensures Ones(w, 8) == Ones(w, 4) + Ones(w / 16, 4)
    ensures Ones(w, 13) == Ones(w, 4) + Ones(w / 16, 4) + Ones(w / 256, 4) + Ones(w / 4096, 1)
  {
    hide Ones, Shr;
    ShrFour(w, 0);
    ShrFour(w / 16, 0);
    ShrFour(w / 256, 0);
    ShrLittle(w / 16);
    ShrLittle(w / 256);
    ShrLittle(w / 4096);
    OnesSplit(w, 4, 4);
    OnesSplit(w, 4, 9);
    OnesSplit(w / 16, 4, 5);
    OnesSplit(w / 256, 4, 1);
  }

  lemma TopBitOf(w: nat, v: nat)
    requires v == w / 0x40000
    ensures Shr(Syndrome(w), 18) % 2 == (Ones(v, 4) + Ones(v / 16, 4)) % 2
  {
    hide Ones, Shr, Syndrome;
    TopBit(w);
    ShrSixteen(w, 2);
    ShrLittle(w / 0x10000);
    OnesMore(v);
  }

  lemma MiddleBitOf(w: nat, a: nat, c: nat, e: nat)
    requires a == w / 0x10000 && c == w / 0x80000 && e == w / 0x2000_0000
    ensures Shr(Syndrome(w), 16) % 2
         == (a % 2 + c % 2 + Ones(e, 4) + Ones(e / 16, 4) + Ones(e / 256, 4) + Ones(e / 4096, 1)) % 2
  {
    hide Ones, Shr, Syndrome;
    MiddleBit(w);
    ShrSixteen(w, 0);
    ShrSixteen(w, 3);
    ShrSixteen(w, 13);
    ShrMore(w / 0x10000);
    OnesFour(a);
    OnesFour(c);
    OnesMore(e);
  }

  /** The same from the two single bits and the number of bits that are set in the group of thirteen. */
  lemma MiddleParity(w: nat, a: nat, c: nat, e: nat, ones: nat)
    requires w / 0x10000 % 2 == a && w / 0x80000 % 2 == c && e == w / 0x2000_0000
    requires Ones(e, 4) + Ones(e / 16, 4) + Ones(e / 256, 4) + Ones(e / 4096, 1) == ones
    ensures Shr(Syndrome(w), 16) % 2 == (a + c + ones) % 2
  {
    hide Ones, Shr, Syndrome;
    MiddleBitOf(w, w / 0x10000, w / 0x80000, e);
  }

  lemma ShrMore(v: nat)
    ensures Shr(v, 0) == v && Shr(v, 3) == v / 8 && Shr(v, 13) == v / 0x2000
  {
    assert Shr(v / 2, 2) == Shr(v / 2 / 2, 1) == v / 2 / 2 / 2;
    ShrFour(v, 9);
    ShrFour(v / 16, 5);
    ShrFour(v / 16 / 16, 1);
    assert Shr(v / 16 / 16 / 16, 1) == v / 16 / 16 / 16 / 2;
  }

  lemma TestnetTop()
    ensures Shr(Syndrome(TESTNET), 18) % 2 == 1
  {
    hide Syndrome, Shr, Ones;
    TopBitOf(TESTNET, 0x1a0d2e8dece6);
    assert Ones(0x1a0d2e8dece6, 4) == 2 by { OnesFour(0x1a0d2e8dece6); }
    assert Ones(0x1a0d2e8dece, 4) == 3 by { OnesFour(0x1a0d2e8dece); }
  }

  lemma TestnetOnes()
    ensures Ones(0x341a5d1bd, 4) == 3 && Ones(0x341a5d1b, 4) == 3
    ensures Ones(0x341a5d1, 4) == 1 && Ones(0x341a5d, 1) == 1
  {
    hide Ones;
    OnesFour(0x341a5d1bd);
    OnesFour(0x341a5d1b);
    OnesFour(0x341a5d1);
    OnesFour(0x341a5d);
  }

  lemma TestnetMiddle()
    ensures Shr(Syndrome(TESTNET), 16) % 2 == 1
  {
    hide Syndrome, Shr, Ones;
    TestnetOnes();
    MiddleParity(TESTNET, 0, 1, 0x341a5d1bd, 8);
  }

  lemma EmulatorTop()
    ensures Shr(Syndrome(EMULATOR), 18) % 2 == 1
  {
    hide Syndrome, Shr, Ones;
    TopBitOf(EMULATOR, 0x72c56615ebc);
    assert Ones(0x72c56615ebc, 4) == 2 by { OnesFour(0x72c56615ebc); }
    assert Ones(0x72c56615eb, 4) == 3 by { OnesFour(0x72c56615eb); }
  }

  lemma EmulatorOnes()
    ensures Ones(0xe58acc2b, 4) == 3 && Ones(0xe58acc2, 4) == 1
    ensures Ones(0xe58acc, 4) == 2 && Ones(0xe58ac, 1) == 0
  {
    hide Ones;
    OnesFour(0xe58acc2b);
    OnesFour(0xe58acc2);
    OnesFour(0xe58acc);
    OnesFour(0xe58ac);
  }

  lemma EmulatorMiddle()
    ensures Shr(Syndrome(EMULATOR), 16) % 2 == 0
  {
    hide Syndrome, Shr, Ones;
    EmulatorOnes();
    MiddleParity(EMULATOR, 0, 0, 0xe58acc2b, 6);
  }

  /** The syndromes of the three chains' words are three different values. */
  lemma ChainSyndromes()
    ensures Syndrome(MAINNET) == 0
    ensures Shr(Syndrome(TESTNET), 18) % 2 == 1 && Shr(Syndrome(EMULATOR), 18) % 2 == 1
    ensures Shr(Syndrome(TESTNET), 16) % 2 == 1 && Shr(Syndrome(EMULATOR), 16) % 2 == 0
  {
    hide Syndrome, Shr;
    ZeroSyndrome();
    TestnetTop();
    TestnetMiddle();
    EmulatorTop();
    EmulatorMiddle();
  }

  lemma ZeroSyndrome()
    ensures Syndrome(0) == 0
  {
    ZeroParity(0);
  }

  lemma {:induction false} ZeroParity(k: nat)
    requires k <= WORD_BITS
    ensures Parity(0, k) == 0
    decreases WORD_BITS - k
  {
    hide Xor;
    if k < WORD_BITS {
      ZeroParity(k + 1);
      XorUnit(0);
    }
  }

  /** No address is valid for two chains, so the order in which they are tried does not matter. */
  lemma ChainsAreDisjoint(c: Chain, d: Chain, address: nat)
    requires c != d && IsWord(address)
    ensures !(IsValid(CodeWord(c), address) && IsValid(CodeWord(d), address))
  {
    hide Syndrome, Shr, IsValid;
    IsValidIff(CodeWord(c), address);
    IsValidIff(CodeWord(d), address);
    ChainSyndromes();
    ShrZero(18);
  }

  // ---------------------------------------------------------------- flipped bits

  function Bit(w: nat, i: nat): nat { Shr(w, i) % 2 }

  lemma {:induction false} NoBits(w: nat, k: nat)
    requires k <= WORD_BITS && forall i :: 0 <= i < WORD_BITS - k ==> Bit(w, i) == 0
    ensures Parity(w, k) == 0
    decreases WORD_BITS - k
  {
    hide Xor, Column;
    if k < WORD_BITS {
      assert Bit(w, 0) == 0;
      forall i | 0 <= i < WORD_BITS - (k + 1) ensures Bit(w / 2, i) == 0 { assert Bit(w / 2, i) == Bit(w, i + 1); }
      NoBits(w / 2, k + 1);
      XorUnit(0);
    }
  }

  lemma {:induction false} OneBit(w: nat, k: nat, i: nat)
    requires k + i < WORD_BITS && forall b :: 0 <= b < WORD_BITS - k ==> (Bit(w, b) == 1 <==> b == i)
    ensures Parity(w, k) == Column(k + i)
    decreases i
  {
    hide Xor, Column;
    assert Bit(w, 0) == 1 <==> i == 0;
    forall b | 0 <= b < WORD_BITS - (k + 1) ensures Bit(w / 2, b) == 1 <==> b == i - 1 {
      assert Bit(w / 2, b) == Bit(w, b + 1);
    }
    ColumnWord(k + i);
    XorUnit(Column(k + i));
    if i == 0 { NoBits(w / 2, k + 1); } else { OneBit(w / 2, k + 1, i - 1); }
  }

  lemma {:induction false} TwoBits(w: nat, k: nat, i: nat, j: nat)
    requires i < j && k + j < WORD_BITS && forall b :: 0 <= b < WORD_BITS - k ==> (Bit(w, b) == 1 <==> b == i || b == j)
    ensures Parity(w, k) == Xor(Column(k + i), Column(k + j))
    decreases i
  {
    hide Xor, Column;
    assert Bit(w, 0) == 1 <==> i == 0;
    forall b | 0 <= b < WORD_BITS - (k + 1) ensures Bit(w / 2, b) == 1 <==> b == i - 1 || b == j - 1 {
      assert Bit(w / 2, b) == Bit(w, b + 1);
    }
    if i == 0 {
      OneBit(w / 2, k + 1, j - 1);
    } else {
      TwoBits(w / 2, k + 1, i - 1, j - 1);
      XorWord(Column(k + i), Column(k + j));
      XorUnit(Xor(Column(k + i), Column(k + j)));
    }
  }

  /** Two addresses that differ in exactly one or two bits are never both valid for the same chain. */
  lemma FlipsAreDetected(chain: nat, a: nat, b: nat, i: nat, j: nat)
    requires IsWord(chain) && IsWord(a) && IsWord(b) && i <= j < WORD_BITS
    requires forall k :: 0 <= k < WORD_BITS ==> (Bit(a, k) != Bit(b, k) <==> k == i || k == j)
    ensures !(IsValid(chain, a) && IsValid(chain, b))
  {
    hide Xor, Column, Shr, IsValid, Parity;
    var d := Xor(a, b);
    forall k | 0 <= k < WORD_BITS ensures Bit(d, k) == 1 <==> k == i || k == j { XorBit(a, b, k); }
    if i == j {
      OneBit(d, 0, i);
      ColumnWord(i);
    } else {
      TwoBits(d, 0, i, j);
      ColumnsDiffer(i, j);
    }
    IsValidIff(chain, a);
    IsValidIff(chain, b);
    SyndromeOfXor(a, b);
  }

  lemma XorBit(a: nat, b: nat, k: nat)
    requires k < WORD_BITS
    ensures Bit(Xor(a, b), k) == (Bit(a, k) + Bit(b, k)) % 2
  {
    hide XorLow, Shr;
    XorLowBit(a, b, WORD_BITS, k);
  }

  lemma SyndromeOfXor(a: nat, b: nat)
    ensures Syndrome(a) == Syndrome(b) ==> Syndrome(Xor(a, b)) == 0
  {
    hide Parity, XorLow;
    ParityLinear(a, b, 0);
    ParityWord(a, 0);
    XorUnit(Syndrome(a));
  }

  // ---------------------------------------------------------------- the program

  method ValidateChainAddress(chain: nat, address: nat) returns (valid: bool)
    requires IsWord(chain) && IsWord(address)
    ensures valid == IsValid(chain, address)
  {
    hide Xor, Column;
    var codeWord := Xor(address, chain);
    if codeWord == 0 { return false; }
    var parity, w := 0, codeWord;
    ParityWord(w, 0);
    XorUnit(Parity(w, 0));
    for i := 0 to WORD_BITS
      invariant IsWord(parity) && Xor(parity, Parity(w, i)) == Syndrome(codeWord)
    {
      ParityWord(w / 2, i + 1);
      ColumnWord(i);
      XorPairs(parity, Pick(w, i), 0, Parity(w / 2, i + 1));
      XorUnit(parity);
      XorUnit(Parity(w / 2, i + 1));
      XorWord(parity, Column(i));
      if w % 2 == 1 { parity := Xor(parity, Column(i)); }
      w := w / 2;
    }
    XorUnit(parity);
    return parity == 0;
  }

  datatype ChainResult = Found(chain: Chain) | NotFound(err: ParserError)

  lemma {:induction false} AddressBound(payer: bytes)
    ensures FromBigEndian(payer) < Shl(1, 8 * |payer|)
    decreases |payer|
  {
    if payer != [] {
      AddressBound(payer[..|payer| - 1]);
      ShlFour(1, 8 * |payer| - 8);
      ShlFour(1, 8 * |payer| - 4);
    }
  }

  /** The first chain, in the order of the program, for which the payer is valid. */
  function ChainOf(payer: bytes): ChainResult {
    if |payer| != 8 then NotFound(InvalidAddress)
    else if IsValid(MAINNET, FromBigEndian(payer)) then Found(Mainnet)
    else if IsValid(TESTNET, FromBigEndian(payer)) then Found(Testnet)
    else if IsValid(EMULATOR, FromBigEndian(payer)) then Found(Emulator)
    else NotFound(UnexpectedValue)
  }

  /** The answer is a chain exactly when the payer is valid for that chain, whatever the order of the tests. */
  lemma ChainOfIff(payer: bytes, c: Chain)
    requires |payer| == 8
    ensures ChainOf(payer) == Found(c) <==> IsValid(CodeWord(c), FromBigEndian(payer))
  {
    hide IsValid, FromBigEndian, Shl;
    AddressBound(payer);
    WordLimit();
    ChainsAreDisjoint(Mainnet, Testnet, FromBigEndian(payer));
    ChainsAreDisjoint(Mainnet, Emulator, FromBigEndian(payer));
    ChainsAreDisjoint(Testnet, Emulator, FromBigEndian(payer));
  }

  method ChainIDFromPayer(payer: bytes) returns (r: ChainResult)
    ensures r == ChainOf(payer)
  {
    hide IsValid, Shl, FromBigEndian;
    if |payer| != 8 { return NotFound(InvalidAddress); }
    var address: nat := 0;
    NoAddress(payer);
    for i := 0 to 8
      invariant address == FromBigEndian(payer[..i])
    {
      AddressStep(payer, i);
      address := address * 256 % 0x1_0000_0000_0000_0000;
      address := (address + payer[i]) % 0x1_0000_0000_0000_0000;
    }
    assert payer[..8] == payer;
    AddressBound(payer);
    WordLimit();
    var valid := ValidateChainAddress(MAINNET, address);
    if valid { return Found(Mainnet); }
    valid := ValidateChainAddress(TESTNET, address);
    if valid { return Found(Testnet); }
    valid := ValidateChainAddress(EMULATOR, address);
    if valid { return Found(Emulator); }
    return NotFound(UnexpectedValue);
  }

  lemma NoAddress(payer: bytes)
    ensures FromBigEndian(payer[..0]) == 0
  {
  }

  /** One byte more keeps the value in 64 bits. */
  lemma AddressStep(payer: bytes, i: nat)
    requires i < |payer| <= 8
    ensures FromBigEndian(payer[..i + 1]) == 256 * FromBigEndian(payer[..i]) + payer[i] < 0x1_0000_0000_0000_0000
  {
    hide Shl;
    AddressBound(payer[..i + 1]);
    ByteLimit(i + 1);
    assert payer[..i + 1][..i] == payer[..i];
  }

  lemma ByteLimit(n: nat)
    requires n <= 8
    ensures Shl(1, 8 * n) <= 0x1_0000_0000_0000_0000
  {
    WordLimit();
    ShlGrows(8 * n, WORD_BITS);
  }

  lemma {:induction false} ShlGrows(a: nat, b: nat)
    requires a <= b
    ensures Shl(1, a) <= Shl(1, b)
    decreases b
  {
    if a < b { ShlGrows(a, b - 1); }
  }
}
