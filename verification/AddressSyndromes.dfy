/**
 * Syndromes of literal words (`validateChainAddress` of src/parser_tx.c) as bit-vectors: the columns of the parity
 * check matrix in groups of four, and what each digit of a word selects of a group.
 */
module AddressSyndromes {
  import opened BitString
  import opened Address

  // ---------------------------------------------------------------- syndromes as bit-vectors

  function Plus(a: bv32, b: bv32): bv32 { a ^ b }

  lemma PlusZero(a: bv32)
    ensures Plus(a, 0) == a && Plus(0, a) == a && Plus(a, a) == 0
  {
  }

  lemma PlusSides(a: bv32, b: bv32)
    ensures Plus(a, b) == Plus(b, a)
  {
  }

  lemma PlusGroups(a: bv32, b: bv32, c: bv32)
    ensures Plus(Plus(a, b), c) == Plus(a, Plus(b, c))
  {
  }

  lemma PlusPairs(a: bv32, b: bv32, c: bv32, d: bv32)
    ensures Plus(Plus(a, b), Plus(c, d)) == Plus(Plus(a, c), Plus(b, d))
  {
    hide Plus;
    PlusGroups(a, b, Plus(c, d));
    PlusGroups(b, c, d);
    PlusSides(b, c);
    PlusGroups(c, b, d);
    PlusGroups(a, c, Plus(b, d));
  }

  function Unit(on: bool, u: bv32): bv32 { if on then u else 0 }

  lemma UnitPlus(p: bool, q: bool, r: bool, u: bv32)
    requires r <==> p != q
    ensures Unit(r, u) == Plus(Unit(p, u), Unit(q, u))
  {
    hide Plus;
    PlusZero(u);
    PlusZero(0);
  }

  /** What the lowest four bits of a number select. */
  function Choice(d: nat, p: bv32, q: bv32, r: bv32, s: bv32): bv32 {
    Plus(Plus(Unit(d % 2 == 1, p), Unit(d / 2 % 2 == 1, q)), Plus(Unit(d / 4 % 2 == 1, r), Unit(d / 8 % 2 == 1, s)))
  }

  function Nibble(v: nat): bv32 { Choice(v, 1, 2, 4, 8) }

  /** Five groups of four bits. */
  function Join(a: bv32, b: bv32, c: bv32, d: bv32, e: bv32): bv32 {
    Plus(Plus(Plus(a << 16, b << 12), Plus(c << 8, d << 4)), e)
  }

  /** The lowest twenty bits. */
  function Packed(v: nat): bv32 {
    Join(Nibble(v / 0x10000), Nibble(v / 0x1000), Nibble(v / 0x100), Nibble(v / 0x10), Nibble(v))
  }

  lemma NibbleXor(a: nat, b: nat, n: nat, x: nat)
    requires n >= 4 && x == XorLow(a, b, n)
    ensures Nibble(x) == Plus(Nibble(a), Nibble(b))
  {
    hide XorLow, Unit, Plus;
    XorBits(a, b, n, x);
    UnitPlus(a % 2 == 1, b % 2 == 1, x % 2 == 1, 1);
    UnitPlus(a / 2 % 2 == 1, b / 2 % 2 == 1, x / 2 % 2 == 1, 2);
    UnitPlus(a / 4 % 2 == 1, b / 4 % 2 == 1, x / 4 % 2 == 1, 4);
    UnitPlus(a / 8 % 2 == 1, b / 8 % 2 == 1, x / 8 % 2 == 1, 8);
    Regrouped(Unit(a % 2 == 1, 1), Unit(a / 2 % 2 == 1, 2), Unit(a / 4 % 2 == 1, 4), Unit(a / 8 % 2 == 1, 8),
      Unit(b % 2 == 1, 1), Unit(b / 2 % 2 == 1, 2), Unit(b / 4 % 2 == 1, 4), Unit(b / 8 % 2 == 1, 8));
  }

  lemma XorBits(a: nat, b: nat, n: nat, x: nat)
    requires n >= 4 && x == XorLow(a, b, n)
    ensures x % 2 == 1 <==> (a % 2 == 1) != (b % 2 == 1)
    ensures x / 2 % 2 == 1 <==> (a / 2 % 2 == 1) != (b / 2 % 2 == 1)
    ensures x / 4 % 2 == 1 <==> (a / 4 % 2 == 1) != (b / 4 % 2 == 1)
    ensures x / 8 % 2 == 1 <==> (a / 8 % 2 == 1) != (b / 8 % 2 == 1)
  {
    hide XorLow;
    LowestBit(a, b, n, x);
    LowestBit(a / 2, b / 2, n - 1, x / 2);
    LowestBit(a / 2 / 2, b / 2 / 2, n - 2, x / 2 / 2);
    LowestBit(a / 2 / 2 / 2, b / 2 / 2 / 2, n - 3, x / 2 / 2 / 2);
    Halves(a);
    Halves(b);
    Halves(x);
  }

  lemma LowestBit(a: nat, b: nat, n: nat, x: nat)
    requires n > 0 && x == XorLow(a, b, n)
    ensures (x % 2 == 1 <==> (a % 2 == 1) != (b % 2 == 1)) && x / 2 == XorLow(a / 2, b / 2, n - 1)
  {
    hide XorLow;
    XorLowHalves(a, b, n);
  }

  lemma Regrouped(a: bv32, b: bv32, c: bv32, d: bv32, e: bv32, f: bv32, g: bv32, h: bv32)
    ensures Plus(Plus(Plus(a, e), Plus(b, f)), Plus(Plus(c, g), Plus(d, h)))
         == Plus(Plus(Plus(a, b), Plus(c, d)), Plus(Plus(e, f), Plus(g, h)))
  {
    hide Plus;
    PlusPairs(a, e, b, f);
    PlusPairs(c, g, d, h);
    PlusPairs(Plus(a, b), Plus(e, f), Plus(c, d), Plus(g, h));
  }

  lemma Halves(v: nat)
    ensures v / 2 / 2 == v / 4 && v / 2 / 2 / 2 == v / 8
  {
  }

  lemma {:induction false} ShrXor(a: nat, b: nat, n: nat, i: nat)
    requires i <= n
    ensures Shr(XorLow(a, b, n), i) == XorLow(Shr(a, i), Shr(b, i), n - i)
    decreases i
  {
    hide XorLow;
    if i > 0 {
      XorLowHalves(a, b, n);
      ShrXor(a / 2, b / 2, n - 1, i - 1);
    }
  }

  lemma ShrNibbles(v: nat)
    ensures Shr(v, 4) == v / 0x10 && Shr(v, 8) == v / 0x100 && Shr(v, 12) == v / 0x1000 && Shr(v, 16) == v / 0x10000
  {
    hide Shr;
    ShrLittle(v / 16);
    ShrLittle(v / 16 / 16);
    ShrLittle(v / 16 / 16 / 16);
    ShrLittle(v / 0x10000);
    ShrFour(v, 0);
    ShrFour(v, 4);
    ShrFour(v / 16, 0);
    ShrFour(v, 8);
    ShrFour(v / 16, 4);
    ShrFour(v / 16 / 16, 0);
    ShrSixteen(v, 0);
  }

  lemma PackedXor(a: nat, b: nat)
    ensures Packed(Xor(a, b)) == Plus(Packed(a), Packed(b))
  {
    hide Nibble, Join, Shr, XorLow, Plus;
    var x := Xor(a, b);
    ShrXor(a, b, WORD_BITS, 16);
    ShrXor(a, b, WORD_BITS, 12);
    ShrXor(a, b, WORD_BITS, 8);
    ShrXor(a, b, WORD_BITS, 4);
    ShrNibbles(a);
    ShrNibbles(b);
    ShrNibbles(x);
    NibbleXor(a / 0x10000, b / 0x10000, 48, x / 0x10000);
    NibbleXor(a / 0x1000, b / 0x1000, 52, x / 0x1000);
    NibbleXor(a / 0x100, b / 0x100, 56, x / 0x100);
    NibbleXor(a / 0x10, b / 0x10, 60, x / 0x10);
    NibbleXor(a, b, 64, x);
    NibbleRanges(a);
    NibbleRanges(b);
    JoinPlus(Nibble(a / 0x10000), Nibble(a / 0x1000), Nibble(a / 0x100), Nibble(a / 0x10), Nibble(a),
      Nibble(b / 0x10000), Nibble(b / 0x1000), Nibble(b / 0x100), Nibble(b / 0x10), Nibble(b));
  }

  lemma ShiftPlus16(a: bv32, b: bv32)
    requires a < 16 && b < 16
    ensures Plus(a, b) << 16 == Plus(a << 16, b << 16)
  {
  }

  lemma ShiftPlus12(a: bv32, b: bv32)
    requires a < 16 && b < 16
    ensures Plus(a, b) << 12 == Plus(a << 12, b << 12)
  {
  }

  lemma ShiftPlus8(a: bv32, b: bv32)
    requires a < 16 && b < 16
    ensures Plus(a, b) << 8 == Plus(a << 8, b << 8)
  {
  }

  lemma ShiftPlus4(a: bv32, b: bv32)
    requires a < 16 && b < 16
    ensures Plus(a, b) << 4 == Plus(a << 4, b << 4)
  {
  }

  lemma JoinPlus(a: bv32, b: bv32, c: bv32, d: bv32, e: bv32, p: bv32, q: bv32, r: bv32, s: bv32, t: bv32)
    requires a < 16 && b < 16 && c < 16 && d < 16 && p < 16 && q < 16 && r < 16 && s < 16
    ensures Join(Plus(a, p), Plus(b, q), Plus(c, r), Plus(d, s), Plus(e, t))
         == Plus(Join(a, b, c, d, e), Join(p, q, r, s, t))
  {
    hide Plus;
    ShiftPlus16(a, p);
    ShiftPlus12(b, q);
    ShiftPlus8(c, r);
    ShiftPlus4(d, s);
    Regrouped(a << 16, b << 12, c << 8, d << 4, p << 16, q << 12, r << 8, s << 4);
    PlusPairs(Plus(Plus(a << 16, b << 12), Plus(c << 8, d << 4)), Plus(Plus(p << 16, q << 12), Plus(r << 8,
      s << 4)), e, t);
  }

  lemma NibbleRange(v: nat)
    ensures Nibble(v) < 16 && (Nibble(v) == 0 ==> v % 16 == 0)
  {
    hide Choice;
    Sixteen(v);
    ChoiceIs(v, 1, 2, 4, 8);
    FourUnits(v % 2 == 1, v / 2 % 2 == 1, v / 4 % 2 == 1, v / 8 % 2 == 1, Nibble(v));
  }

  lemma ChoiceIs(d: nat, p: bv32, q: bv32, r: bv32, s: bv32)
    ensures Choice(d, p, q, r, s)
         == Plus(Plus(Unit(d % 2 == 1, p), Unit(d / 2 % 2 == 1, q)), Plus(Unit(d / 4 % 2 == 1, r),
           Unit(d / 8 % 2 == 1, s)))
  {
  }

  lemma NibbleRanges(v: nat)
    ensures Nibble(v / 0x10000) < 16 && Nibble(v / 0x1000) < 16 && Nibble(v / 0x100) < 16 && Nibble(v / 0x10) < 16
  {
    hide Nibble;
    NibbleRange(v / 0x10);
    NibbleRange(v / 0x100);
    NibbleRange(v / 0x1000);
    NibbleRange(v / 0x10000);
  }

  lemma FourUnits(p: bool, q: bool, r: bool, s: bool, x: bv32)
    requires x == Plus(Plus(Unit(p, 1), Unit(q, 2)), Plus(Unit(r, 4), Unit(s, 8)))
    ensures x < 16 && (x == 0 ==> !p && !q && !r && !s)
  {
  }

  lemma Sixteen(v: nat)
    ensures v % 16 == v % 2 + 2 * (v / 2 % 2) + 4 * (v / 4 % 2) + 8 * (v / 8 % 2)
  {
    Halves(v);
    assert v == 2 * (v / 2) + v % 2 && v / 2 == 2 * (v / 4) + v / 2 % 2 && v / 4 == 2 * (v / 8) + v / 4 % 2;
    assert v / 8 == 2 * (v / 16) + v / 8 % 2;
  }

  lemma JoinZero(a: bv32, b: bv32, c: bv32, d: bv32, e: bv32)
    requires a < 16 && b < 16 && c < 16 && d < 16 && e < 16 && Join(a, b, c, d, e) == 0
    ensures a == b == c == d == e == 0
  {
  }

  lemma PackedZero(v: nat)
    requires v < 0x80000 && Packed(v) == 0
    ensures v == 0
  {
    hide Nibble, Join;
    NibbleRange(v);
    NibbleRange(v / 0x10);
    NibbleRange(v / 0x100);
    NibbleRange(v / 0x1000);
    NibbleRange(v / 0x10000);
    JoinZero(Nibble(v / 0x10000), Nibble(v / 0x1000), Nibble(v / 0x100), Nibble(v / 0x10), Nibble(v));
  }

  lemma {:induction false} XorSmall(a: nat, b: nat, n: nat, m: nat)
    requires m <= n && a < Shl(1, m) && b < Shl(1, m)
    ensures XorLow(a, b, n) < Shl(1, m)
    decreases m
  {
    if m > 0 { XorSmall(a / 2, b / 2, n - 1, m - 1); } else { XorLowUnit(0, n); }
  }

  lemma {:induction false} ParitySmall(w: nat, k: nat)
    requires k <= WORD_BITS
    ensures Parity(w, k) < 0x80000
    decreases WORD_BITS - k
  {
    hide Xor, Column, Shl;
    if k < WORD_BITS {
      ColumnWord(k);
      ParitySmall(w / 2, k + 1);
      NineteenBits();
      XorSmall(Pick(w, k), Parity(w / 2, k + 1), WORD_BITS, 19);
      assert Xor(Pick(w, k), Parity(w / 2, k + 1)) == XorLow(Pick(w, k), Parity(w / 2, k + 1),
        WORD_BITS) by { XorIs(); }
    }
  }

  lemma XorIs()
    ensures forall a, b :: Xor(a, b) == XorLow(a, b, WORD_BITS)
  {
  }

  lemma NineteenBits()
    ensures Shl(1, 19) == 0x80000
  {
    assert Shl(1, 3) == 8;
    hide Shl;
    ShlSixteen(1, 3);
  }

  // ---------------------------------------------------------------- syndromes digit by digit

  /** A column of the program is a bit-vector of these digits. */
  predicate IsColumn(i: nat, a: nat, b: nat, c: nat, d: nat, e: nat, column: bv32)
    requires i < WORD_BITS
  {
    a < 16 && b < 16 && c < 16 && d < 16 && e < 16 && Column(i) == 0x10000 * a + 0x1000 * b + 0x100 * c + 0x10 * d + e
    && Join(Nibble(a), Nibble(b), Nibble(c), Nibble(d), Nibble(e)) == column
  }

  lemma NibblesLow()
    ensures Nibble(0) == 0 && Nibble(1) == 1 && Nibble(2) == 2 && Nibble(3) == 3
    ensures Nibble(4) == 4 && Nibble(5) == 5 && Nibble(6) == 6 && Nibble(7) == 7
  {
  }

  lemma NibblesHigh()
    ensures Nibble(8) == 8 && Nibble(9) == 9 && Nibble(10) == 10 && Nibble(11) == 11
    ensures Nibble(12) == 12 && Nibble(13) == 13 && Nibble(14) == 14 && Nibble(15) == 15
  {
  }

  lemma SameNibble(hi: nat, d: nat, v: nat)
    requires v == 16 * hi + d
    ensures Nibble(v) == Nibble(d)
  {
    hide Choice;
    SameFourBits(hi, d, v);
    ChoiceIs(v, 1, 2, 4, 8);
    ChoiceIs(d, 1, 2, 4, 8);
  }

  lemma SameFourBits(hi: nat, d: nat, v: nat)
    requires v == 16 * hi + d
    ensures v % 2 == d % 2 && v / 2 % 2 == d / 2 % 2 && v / 4 % 2 == d / 4 % 2 && v / 8 % 2 == d / 8 % 2
  {
    Halved(8 * hi, d, v);
    Halved(4 * hi, d / 2, v / 2);
    Halved(2 * hi, d / 2 / 2, v / 2 / 2);
    Halved(hi, d / 2 / 2 / 2, v / 2 / 2 / 2);
    Halves(v);
    Halves(d);
  }

  lemma Halved(hi: nat, d: nat, v: nat)
    requires v == 2 * hi + d
    ensures v % 2 == d % 2 && v / 2 == hi + d / 2
  {
  }

  lemma PackedIs(i: nat, a: nat, b: nat, c: nat, d: nat, e: nat, column: bv32)
    requires i < WORD_BITS && IsColumn(i, a, b, c, d, e, column)
    ensures Packed(Column(i)) == column
  {
    hide Column, Nibble, Join;
    var v := Column(i);
    assert v / 0x10000 == a && v / 0x1000 == 16 * a + b && v / 0x100 == 16 * (16 * a + b) + c;
    assert v / 0x10 == 16 * (16 * (16 * a + b) + c) + d && v == 16 * (v / 0x10) + e;
    SameNibble(v / 0x10, e, v);
    SameNibble(16 * (16 * a + b) + c, d, v / 0x10);
    SameNibble(16 * a + b, c, v / 0x100);
    SameNibble(a, b, v / 0x1000);
  }

  /** The columns in groups of four. */
  function Group(k: nat, d: nat): bv32 {
    if k == 0 then Choice(d, 0x00001, 0x00002, 0x00004, 0x00008)
    else if k == 4 then Choice(d, 0x00010, 0x00020, 0x00040, 0x00080)
    else if k == 8 then Choice(d, 0x00100, 0x00200, 0x00400, 0x00800)
    else if k == 12 then Choice(d, 0x01000, 0x02000, 0x04000, 0x08000)
    else if k == 16 then Choice(d, 0x10000, 0x20000, 0x40000, 0x7328d)
    else if k == 20 then Choice(d, 0x6689a, 0x6112f, 0x6084b, 0x433fd)
    else if k == 24 then Choice(d, 0x42aab, 0x41951, 0x233ce, 0x22a81)
    else if k == 28 then Choice(d, 0x21948, 0x1ef60, 0x1deca, 0x1c639)
    else if k == 32 then Choice(d, 0x1bdd8, 0x1a535, 0x194ac, 0x18c46)
    else if k == 36 then Choice(d, 0x1632b, 0x1529b, 0x14a43, 0x13184)
    else if k == 40 then Choice(d, 0x12942, 0x118c1, 0x0f812, 0x0e027)
    else if k == 44 then Choice(d, 0x0d00e, 0x0c83c, 0x0b01d, 0x0a831)
    else if k == 48 then Choice(d, 0x0982b, 0x07034, 0x0682a, 0x05819)
    else if k == 52 then Choice(d, 0x03807, 0x007d2, 0x00727, 0x0068e)
    else if k == 56 then Choice(d, 0x0067c, 0x0059d, 0x004eb, 0x003b4)
    else Choice(d, 0x0036a, 0x002d9, 0x001c7, 0x0003f)
  }

  lemma Columns0()
    ensures Packed(Column(0)) == 0x00001 && Packed(Column(1)) == 0x00002
    ensures Packed(Column(2)) == 0x00004 && Packed(Column(3)) == 0x00008
  {
    hide Packed, Nibble;
    NibblesLow();
    NibblesHigh();
    PackedIs(0, 0, 0, 0, 0, 1, 0x00001);
    PackedIs(1, 0, 0, 0, 0, 2, 0x00002);
    PackedIs(2, 0, 0, 0, 0, 4, 0x00004);
    PackedIs(3, 0, 0, 0, 0, 8, 0x00008);
  }

  lemma Columns4()
    ensures Packed(Column(4)) == 0x00010 && Packed(Column(5)) == 0x00020
    ensures Packed(Column(6)) == 0x00040 && Packed(Column(7)) == 0x00080
  {
    hide Packed, Nibble;
    NibblesLow();
    NibblesHigh();
    PackedIs(4, 0, 0, 0, 1, 0, 0x00010);
    PackedIs(5, 0, 0, 0, 2, 0, 0x00020);
    PackedIs(6, 0, 0, 0, 4, 0, 0x00040);
    PackedIs(7, 0, 0, 0, 8, 0, 0x00080);
  }

  lemma Columns8()
    ensures Packed(Column(8)) == 0x00100 && Packed(Column(9)) == 0x00200
    ensures Packed(Column(10)) == 0x00400 && Packed(Column(11)) == 0x00800
  {
    hide Packed, Nibble;
    NibblesLow();
    NibblesHigh();
    PackedIs(8, 0, 0, 1, 0, 0, 0x00100);
    PackedIs(9, 0, 0, 2, 0, 0, 0x00200);
    PackedIs(10, 0, 0, 4, 0, 0, 0x00400);
    PackedIs(11, 0, 0, 8, 0, 0, 0x00800);
  }

  lemma Columns12()
    ensures Packed(Column(12)) == 0x01000 && Packed(Column(13)) == 0x02000
    ensures Packed(Column(14)) == 0x04000 && Packed(Column(15)) == 0x08000
  {
    hide Packed, Nibble;
    NibblesLow();
    NibblesHigh();
    PackedIs(12, 0, 1, 0, 0, 0, 0x01000);
    PackedIs(13, 0, 2, 0, 0, 0, 0x02000);
    PackedIs(14, 0, 4, 0, 0, 0, 0x04000);
    PackedIs(15, 0, 8, 0, 0, 0, 0x08000);
  }

  lemma Columns16()
    ensures Packed(Column(16)) == 0x10000 && Packed(Column(17)) == 0x20000
    ensures Packed(Column(18)) == 0x40000 && Packed(Column(19)) == 0x7328d
  {
    hide Packed, Nibble;
    NibblesLow();
    NibblesHigh();
    PackedIs(16, 1, 0, 0, 0, 0, 0x10000);
    PackedIs(17, 2, 0, 0, 0, 0, 0x20000);
    PackedIs(18, 4, 0, 0, 0, 0, 0x40000);
    PackedIs(19, 7, 3, 2, 8, 13, 0x7328d);
  }

  lemma Columns20()
    ensures Packed(Column(20)) == 0x6689a && Packed(Column(21)) == 0x6112f
    ensures Packed(Column(22)) == 0x6084b && Packed(Column(23)) == 0x433fd
  {
    hide Packed, Nibble;
    NibblesLow();
    NibblesHigh();
    PackedIs(20, 6, 6, 8, 9, 10, 0x6689a);
    PackedIs(21, 6, 1, 1, 2, 15, 0x6112f);
    PackedIs(22, 6, 0, 8, 4, 11, 0x6084b);
    PackedIs(23, 4, 3, 3, 15, 13, 0x433fd);
  }

  lemma Columns24()
    ensures Packed(Column(24)) == 0x42aab && Packed(Column(25)) == 0x41951
    ensures Packed(Column(26)) == 0x233ce && Packed(Column(27)) == 0x22a81
  {
    hide Packed, Nibble;
    NibblesLow();
    NibblesHigh();
    PackedIs(24, 4, 2, 10, 10, 11, 0x42aab);
    PackedIs(25, 4, 1, 9, 5, 1, 0x41951);
    PackedIs(26, 2, 3, 3, 12, 14, 0x233ce);
    PackedIs(27, 2, 2, 10, 8, 1, 0x22a81);
  }

  lemma Columns28()
    ensures Packed(Column(28)) == 0x21948 && Packed(Column(29)) == 0x1ef60
    ensures Packed(Column(30)) == 0x1deca && Packed(Column(31)) == 0x1c639
  {
    hide Packed, Nibble;
    NibblesLow();
    NibblesHigh();
    PackedIs(28, 2, 1, 9, 4, 8, 0x21948);
    PackedIs(29, 1, 14, 15, 6, 0, 0x1ef60);
    PackedIs(30, 1, 13, 14, 12, 10, 0x1deca);
    PackedIs(31, 1, 12, 6, 3, 9, 0x1c639);
  }

  lemma Columns32()
    ensures Packed(Column(32)) == 0x1bdd8 && Packed(Column(33)) == 0x1a535
  {
    hide Packed, Nibble;
    NibblesLow();
    NibblesHigh();
    PackedIs(32, 1, 11, 13, 13, 8, 0x1bdd8);
    PackedIs(33, 1, 10, 5, 3, 5, 0x1a535);
  }

  lemma Columns34()
    ensures Packed(Column(34)) == 0x194ac && Packed(Column(35)) == 0x18c46
  {
    hide Packed, Nibble;
    NibblesLow();
    NibblesHigh();
    PackedIs(34, 1, 9, 4, 10, 12, 0x194ac);
    PackedIs(35, 1, 8, 12, 4, 6, 0x18c46);
  }

  lemma Columns36()
    ensures Packed(Column(36)) == 0x1632b && Packed(Column(37)) == 0x1529b
  {
    hide Packed, Nibble;
    NibblesLow();
    NibblesHigh();
    PackedIs(36, 1, 6, 3, 2, 11, 0x1632b);
    PackedIs(37, 1, 5, 2, 9, 11, 0x1529b);
  }

  lemma Columns38()
    ensures Packed(Column(38)) == 0x14a43 && Packed(Column(39)) == 0x13184
  {
    hide Packed, Nibble;
    NibblesLow();
    NibblesHigh();
    PackedIs(38, 1, 4, 10, 4, 3, 0x14a43);
    PackedIs(39, 1, 3, 1, 8, 4, 0x13184);
  }

  lemma Columns40()
    ensures Packed(Column(40)) == 0x12942 && Packed(Column(41)) == 0x118c1
  {
    hide Packed, Nibble;
    NibblesLow();
    NibblesHigh();
    PackedIs(40, 1, 2, 9, 4, 2, 0x12942);
    PackedIs(41, 1, 1, 8, 12, 1, 0x118c1);
  }

  lemma Columns42()
    ensures Packed(Column(42)) == 0x0f812 && Packed(Column(43)) == 0x0e027
  {
    hide Packed, Nibble;
    NibblesLow();
    NibblesHigh();
    PackedIs(42, 0, 15, 8, 1, 2, 0x0f812);
    PackedIs(43, 0, 14, 0, 2, 7, 0x0e027);
  }

  lemma Columns44()
    ensures Packed(Column(44)) == 0x0d00e && Packed(Column(45)) == 0x0c83c
  {
    hide Packed, Nibble;
    NibblesLow();
    NibblesHigh();
    PackedIs(44, 0, 13, 0, 0, 14, 0x0d00e);
    PackedIs(45, 0, 12, 8, 3, 12, 0x0c83c);
  }

  lemma Columns46()
    ensures Packed(Column(46)) == 0x0b01d && Packed(Column(47)) == 0x0a831
  {
    hide Packed, Nibble;
    NibblesLow();
    NibblesHigh();
    PackedIs(46, 0, 11, 0, 1, 13, 0x0b01d);
    PackedIs(47, 0, 10, 8, 3, 1, 0x0a831);
  }

  lemma Columns48()
    ensures Packed(Column(48)) == 0x0982b && Packed(Column(49)) == 0x07034
  {
    hide Packed, Nibble;
    NibblesLow();
    NibblesHigh();
    PackedIs(48, 0, 9, 8, 2, 11, 0x0982b);
    PackedIs(49, 0, 7, 0, 3, 4, 0x07034);
  }

  lemma Columns50()
    ensures Packed(Column(50)) == 0x0682a && Packed(Column(51)) == 0x05819
  {
    hide Packed, Nibble;
    NibblesLow();
    NibblesHigh();
    PackedIs(50, 0, 6, 8, 2, 10, 0x0682a);
    PackedIs(51, 0, 5, 8, 1, 9, 0x05819);
  }

  lemma Columns52()
    ensures Packed(Column(52)) == 0x03807 && Packed(Column(53)) == 0x007d2
  {
    hide Packed, Nibble;
    NibblesLow();
    NibblesHigh();
    PackedIs(52, 0, 3, 8, 0, 7, 0x03807);
    PackedIs(53, 0, 0, 7, 13, 2, 0x007d2);
  }

  lemma Columns54()
    ensures Packed(Column(54)) == 0x00727 && Packed(Column(55)) == 0x0068e
  {
    hide Packed, Nibble;
    NibblesLow();
    NibblesHigh();
    PackedIs(54, 0, 0, 7, 2, 7, 0x00727);
    PackedIs(55, 0, 0, 6, 8, 14, 0x0068e);
  }

  lemma Columns56()
    ensures Packed(Column(56)) == 0x0067c && Packed(Column(57)) == 0x0059d
  {
    hide Packed, Nibble;
    NibblesLow();
    NibblesHigh();
    PackedIs(56, 0, 0, 6, 7, 12, 0x0067c);
    PackedIs(57, 0, 0, 5, 9, 13, 0x0059d);
  }

  lemma Columns58()
    ensures Packed(Column(58)) == 0x004eb && Packed(Column(59)) == 0x003b4
  {
    hide Packed, Nibble;
    NibblesLow();
    NibblesHigh();
    PackedIs(58, 0, 0, 4, 14, 11, 0x004eb);
    PackedIs(59, 0, 0, 3, 11, 4, 0x003b4);
  }

  lemma Columns60()
    ensures Packed(Column(60)) == 0x0036a && Packed(Column(61)) == 0x002d9
  {
    hide Packed, Nibble;
    NibblesLow();
    NibblesHigh();
    PackedIs(60, 0, 0, 3, 6, 10, 0x0036a);
    PackedIs(61, 0, 0, 2, 13, 9, 0x002d9);
  }

  lemma Columns62()
    ensures Packed(Column(62)) == 0x001c7 && Packed(Column(63)) == 0x0003f
  {
    hide Packed, Nibble;
    NibblesLow();
    NibblesHigh();
    PackedIs(62, 0, 0, 1, 12, 7, 0x001c7);
    PackedIs(63, 0, 0, 0, 3, 15, 0x0003f);
  }

  lemma PackedStep(w: nat, k: nat)
    requires k < WORD_BITS
    ensures Packed(Parity(w, k)) == Plus(Unit(w % 2 == 1, Packed(Column(k))), Packed(Parity(w / 2, k + 1)))
  {
    hide Packed, Column, Xor, Plus;
    PackedXor(Pick(w, k), Parity(w / 2, k + 1));
    PackedOfZero();
  }

  lemma PackedOfZero()
    ensures Packed(0) == 0
  {
  }

  lemma PackedFour(w: nat, d: nat, k: nat, p: bv32, q: bv32, r: bv32, s: bv32)
    requires d < 16 && k + 4 <= WORD_BITS && Packed(Column(k)) == p && Packed(Column(k + 1)) == q
    requires Packed(Column(k + 2)) == r && Packed(Column(k + 3)) == s
    ensures Packed(Parity(16 * w + d, k)) == Plus(Choice(d, p, q, r, s), Packed(Parity(w, k + 4)))
  {
    hide Packed, Column, Parity, Plus, Unit;
    var v := 16 * w + d;
    PackedStep(v, k);
    PackedStep(v / 2, k + 1);
    PackedStep(v / 2 / 2, k + 2);
    PackedStep(v / 2 / 2 / 2, k + 3);
    assert v / 2 == 8 * w + d / 2 && v / 2 / 2 == 4 * w + d / 4 && v / 2 / 2 / 2 == 2 * w + d / 8;
    assert v / 2 / 2 / 2 / 2 == w;
    var a, b, c, e := Unit(d % 2 == 1, p), Unit(d / 2 % 2 == 1, q), Unit(d / 4 % 2 == 1, r), Unit(d / 8 % 2 == 1, s);
    var rest := Packed(Parity(w, k + 4));
    PlusGroups(c, e, rest);
    PlusGroups(Plus(a, b), Plus(c, e), rest);
    PlusGroups(a, b, Plus(Plus(c, e), rest));
  }

  lemma GroupIs(w: nat, d: nat, k: nat)
    requires d < 16 && k + 4 <= WORD_BITS && k % 4 == 0
    ensures Packed(Parity(16 * w + d, k)) == Plus(Group(k, d), Packed(Parity(w, k + 4)))
  {
    hide Packed, Column, Parity, Choice, Plus;
    if k == 0 {
      Columns0();
      PackedFour(w, d, 0, 0x00001, 0x00002, 0x00004, 0x00008);
    } else if k == 4 {
      Columns4();
      PackedFour(w, d, 4, 0x00010, 0x00020, 0x00040, 0x00080);
    } else if k == 8 {
      Columns8();
      PackedFour(w, d, 8, 0x00100, 0x00200, 0x00400, 0x00800);
    } else if k == 12 {
      Columns12();
      PackedFour(w, d, 12, 0x01000, 0x02000, 0x04000, 0x08000);
    } else if k == 16 {
      Columns16();
      PackedFour(w, d, 16, 0x10000, 0x20000, 0x40000, 0x7328d);
    } else if k == 20 {
      Columns20();
      PackedFour(w, d, 20, 0x6689a, 0x6112f, 0x6084b, 0x433fd);
    } else if k == 24 {
      Columns24();
      PackedFour(w, d, 24, 0x42aab, 0x41951, 0x233ce, 0x22a81);
    } else if k == 28 {
      Columns28();
      PackedFour(w, d, 28, 0x21948, 0x1ef60, 0x1deca, 0x1c639);
    } else if k == 32 {
      Columns32();
      Columns34();
      PackedFour(w, d, 32, 0x1bdd8, 0x1a535, 0x194ac, 0x18c46);
    } else if k == 36 {
      Columns36();
      Columns38();
      PackedFour(w, d, 36, 0x1632b, 0x1529b, 0x14a43, 0x13184);
    } else if k == 40 {
      Columns40();
      Columns42();
      PackedFour(w, d, 40, 0x12942, 0x118c1, 0x0f812, 0x0e027);
    } else if k == 44 {
      Columns44();
      Columns46();
      PackedFour(w, d, 44, 0x0d00e, 0x0c83c, 0x0b01d, 0x0a831);
    } else if k == 48 {
      Columns48();
      Columns50();
      PackedFour(w, d, 48, 0x0982b, 0x07034, 0x0682a, 0x05819);
    } else if k == 52 {
      Columns52();
      Columns54();
      PackedFour(w, d, 52, 0x03807, 0x007d2, 0x00727, 0x0068e);
    } else if k == 56 {
      Columns56();
      Columns58();
      PackedFour(w, d, 56, 0x0067c, 0x0059d, 0x004eb, 0x003b4);
    } else {
      Columns60();
      Columns62();
      PackedFour(w, d, 60, 0x0036a, 0x002d9, 0x001c7, 0x0003f);
    }
  }

  // ---------------------------------------------------------------- words by their digits

  /** Eight digits to the base 16. */
  function Half(a: nat, b: nat, c: nat, d: nat, e: nat, f: nat, g: nat, h: nat): nat {
    16 * (16 * (16 * (16 * (16 * (16 * (16 * a + b) + c) + d) + e) + f) + g) + h
  }

  predicate AreDigits(a: nat, b: nat, c: nat, d: nat, e: nat, f: nat, g: nat, h: nat) {
    a < 16 && b < 16 && c < 16 && d < 16 && e < 16 && f < 16 && g < 16 && h < 16
  }

  /** What the digits select from column `k` on. */
  function Selected(k: nat, a: nat, b: nat, c: nat, d: nat, e: nat, f: nat, g: nat, h: nat, rest: bv32): bv32 {
    Plus(Group(k, h), Plus(Group(k + 4, g), Plus(Group(k + 8, f), Plus(Group(k + 12, e), Plus(Group(k + 16, d),
      Plus(Group(k + 20, c), Plus(Group(k + 24, b), Plus(Group(k + 28, a), rest))))))))
  }

  lemma SelectedIs(w: nat, k: nat, a: nat, b: nat, c: nat, d: nat, e: nat, f: nat, g: nat, h: nat)
    requires AreDigits(a, b, c, d, e, f, g, h) && (k == 0 || k == 32)
    ensures Packed(Parity(0x1_0000_0000 * w + Half(a, b, c, d, e, f, g, h), k))
         == Selected(k, a, b, c, d, e, f, g, h, Packed(Parity(w, k + 32)))
  {
    hide Packed, Parity, Group, Plus;
    var v1 := 16 * w + a;
    var v2 := 16 * v1 + b;
    var v3 := 16 * v2 + c;
    var v4 := 16 * v3 + d;
    var v5 := 16 * v4 + e;
    var v6 := 16 * v5 + f;
    var v7 := 16 * v6 + g;
    assert 16 * v7 + h == 0x1_0000_0000 * w + Half(a, b, c, d, e, f, g, h);
    GroupIs(v7, h, k);
    GroupIs(v6, g, k + 4);
    GroupIs(v5, f, k + 8);
    GroupIs(v4, e, k + 12);
    GroupIs(v3, d, k + 16);
    GroupIs(v2, c, k + 20);
    GroupIs(v1, b, k + 24);
    GroupIs(w, a, k + 28);
  }

  /** The syndrome of a word in digits, as a bit-vector. */
  lemma SyndromeIs(v: nat, high: nat, a: nat, b: nat, c: nat, d: nat, e: nat, f: nat, g: nat, h: nat,
                   low: nat, i: nat, j: nat, k: nat, l: nat, m: nat, n: nat, o: nat, p: nat, x: bv32, y: bv32)
    requires AreDigits(a, b, c, d, e, f, g, h) && AreDigits(i, j, k, l, m, n, o, p)
    requires v == 0x1_0000_0000 * high + low && high == Half(a, b, c, d, e, f, g, h) && low == Half(i, j, k, l, m,
      n, o, p)
    requires x == Selected(32, a, b, c, d, e, f, g, h, 0) && y == Selected(0, i, j, k, l, m, n, o, p, x)
    ensures Packed(Syndrome(v)) == y && (y == 0 ==> Syndrome(v) == 0)
  {
    hide Packed, Half, Selected, AreDigits, Parity;
    SelectedIs(high, 0, i, j, k, l, m, n, o, p);
    HighSelectedIs(high, a, b, c, d, e, f, g, h);
    ParitySmall(v, 0);
    if y == 0 { PackedZero(Syndrome(v)); }
  }

  lemma HighSelectedIs(high: nat, a: nat, b: nat, c: nat, d: nat, e: nat, f: nat, g: nat, h: nat)
    requires AreDigits(a, b, c, d, e, f, g, h) && high == Half(a, b, c, d, e, f, g, h)
    ensures Packed(Parity(high, 32)) == Selected(32, a, b, c, d, e, f, g, h, 0)
  {
    hide Packed, Half, Selected, AreDigits;
    SelectedIs(0, 32, a, b, c, d, e, f, g, h);
    PackedOfZero();
    assert Parity(0, WORD_BITS) == 0;
  }

  lemma LowChoices(p: bv32, q: bv32, r: bv32, s: bv32)
    ensures Choice(0, p, q, r, s) == 0 && Choice(1, p, q, r, s) == p && Choice(2, p, q, r, s) == q
    ensures Choice(3, p, q, r, s) == Plus(p, q) && Choice(4, p, q, r, s) == r && Choice(5, p, q, r, s) == Plus(p, r)
    ensures Choice(6, p, q, r, s) == Plus(q, r) && Choice(7, p, q, r, s) == Plus(Plus(p, q), r)
  {
    hide Plus;
    PlusZero(0);
    PlusZero(p);
    PlusZero(q);
    PlusZero(r);
    PlusZero(Plus(p, q));
  }

  lemma HighChoices(p: bv32, q: bv32, r: bv32, s: bv32)
    ensures Choice(8, p, q, r, s) == s && Choice(9, p, q, r, s) == Plus(p, s) && Choice(10, p, q, r, s) == Plus(q, s)
    ensures Choice(11, p, q, r, s) == Plus(Plus(p, q), s) && Choice(12, p, q, r, s) == Plus(r, s)
    ensures Choice(13, p, q, r, s) == Plus(p, Plus(r, s)) && Choice(14, p, q, r, s) == Plus(q, Plus(r, s))
    ensures Choice(15, p, q, r, s) == Plus(Plus(p, q), Plus(r, s))
  {
    hide Plus;
    PlusZero(0);
    PlusZero(p);
    PlusZero(q);
    PlusZero(r);
    PlusZero(s);
    PlusZero(Plus(r, s));
  }

  lemma Table0()
    ensures Group(0, 0) == 0x00000 && Group(0, 1) == 0x00001 && Group(0, 2) == 0x00002 && Group(0, 3) == 0x00003
    ensures Group(0, 4) == 0x00004 && Group(0, 5) == 0x00005 && Group(0, 6) == 0x00006 && Group(0, 7) == 0x00007
    ensures Group(0, 8) == 0x00008 && Group(0, 9) == 0x00009 && Group(0, 10) == 0x0000a && Group(0, 11) == 0x0000b
    ensures Group(0, 12) == 0x0000c && Group(0, 13) == 0x0000d && Group(0, 14) == 0x0000e && Group(0, 15) == 0x0000f
  {
    hide Choice;
    LowChoices(0x00001, 0x00002, 0x00004, 0x00008);
    HighChoices(0x00001, 0x00002, 0x00004, 0x00008);
  }

  lemma Table4()
    ensures Group(4, 0) == 0x00000 && Group(4, 1) == 0x00010 && Group(4, 2) == 0x00020 && Group(4, 3) == 0x00030
    ensures Group(4, 4) == 0x00040 && Group(4, 5) == 0x00050 && Group(4, 6) == 0x00060 && Group(4, 7) == 0x00070
    ensures Group(4, 8) == 0x00080 && Group(4, 9) == 0x00090 && Group(4, 10) == 0x000a0 && Group(4, 11) == 0x000b0
    ensures Group(4, 12) == 0x000c0 && Group(4, 13) == 0x000d0 && Group(4, 14) == 0x000e0 && Group(4, 15) == 0x000f0
  {
    hide Choice;
    LowChoices(0x00010, 0x00020, 0x00040, 0x00080);
    HighChoices(0x00010, 0x00020, 0x00040, 0x00080);
  }

  lemma Table8()
    ensures Group(8, 0) == 0x00000 && Group(8, 1) == 0x00100 && Group(8, 2) == 0x00200 && Group(8, 3) == 0x00300
    ensures Group(8, 4) == 0x00400 && Group(8, 5) == 0x00500 && Group(8, 6) == 0x00600 && Group(8, 7) == 0x00700
    ensures Group(8, 8) == 0x00800 && Group(8, 9) == 0x00900 && Group(8, 10) == 0x00a00 && Group(8, 11) == 0x00b00
    ensures Group(8, 12) == 0x00c00 && Group(8, 13) == 0x00d00 && Group(8, 14) == 0x00e00 && Group(8, 15) == 0x00f00
  {
    hide Choice;
    LowChoices(0x00100, 0x00200, 0x00400, 0x00800);
    HighChoices(0x00100, 0x00200, 0x00400, 0x00800);
  }

  lemma Table12()
    ensures Group(12, 0) == 0x00000 && Group(12, 1) == 0x01000 && Group(12, 2) == 0x02000 && Group(12, 3) == 0x03000
    ensures Group(12, 4) == 0x04000 && Group(12, 5) == 0x05000 && Group(12, 6) == 0x06000 && Group(12, 7) == 0x07000
    ensures Group(12, 8) == 0x08000 && Group(12, 9) == 0x09000 && Group(12, 10) == 0x0a000 && Group(12, 11) == 0x0b000
    ensures Group(12, 12) == 0x0c000 && Group(12, 13) == 0x0d000 && Group(12, 14) == 0x0e000 && Group(12, 15)
      == 0x0f000
  {
    hide Choice;
    LowChoices(0x01000, 0x02000, 0x04000, 0x08000);
    HighChoices(0x01000, 0x02000, 0x04000, 0x08000);
  }

  lemma Table16()
    ensures Group(16, 0) == 0x00000 && Group(16, 1) == 0x10000 && Group(16, 2) == 0x20000 && Group(16, 3) == 0x30000
    ensures Group(16, 4) == 0x40000 && Group(16, 5) == 0x50000 && Group(16, 6) == 0x60000 && Group(16, 7) == 0x70000
    ensures Group(16, 8) == 0x7328d && Group(16, 9) == 0x6328d && Group(16, 10) == 0x5328d && Group(16, 11) == 0x4328d
    ensures Group(16, 12) == 0x3328d && Group(16, 13) == 0x2328d && Group(16, 14) == 0x1328d && Group(16, 15)
      == 0x0328d
  {
    hide Choice;
    LowChoices(0x10000, 0x20000, 0x40000, 0x7328d);
    HighChoices(0x10000, 0x20000, 0x40000, 0x7328d);
  }

  lemma Table20()
    ensures Group(20, 0) == 0x00000 && Group(20, 1) == 0x6689a && Group(20, 2) == 0x6112f && Group(20, 3) == 0x079b5
    ensures Group(20, 4) == 0x6084b && Group(20, 5) == 0x060d1 && Group(20, 6) == 0x01964 && Group(20, 7) == 0x671fe
    ensures Group(20, 8) == 0x433fd && Group(20, 9) == 0x25b67 && Group(20, 10) == 0x222d2 && Group(20, 11) == 0x44a48
    ensures Group(20, 12) == 0x23bb6 && Group(20, 13) == 0x4532c && Group(20, 14) == 0x42a99 && Group(20, 15)
      == 0x24203
  {
    hide Choice;
    LowChoices(0x6689a, 0x6112f, 0x6084b, 0x433fd);
    HighChoices(0x6689a, 0x6112f, 0x6084b, 0x433fd);
  }

  lemma Table24()
    ensures Group(24, 0) == 0x00000 && Group(24, 1) == 0x42aab && Group(24, 2) == 0x41951 && Group(24, 3) == 0x033fa
    ensures Group(24, 4) == 0x233ce && Group(24, 5) == 0x61965 && Group(24, 6) == 0x62a9f && Group(24, 7) == 0x20034
    ensures Group(24, 8) == 0x22a81 && Group(24, 9) == 0x6002a && Group(24, 10) == 0x633d0 && Group(24, 11) == 0x2197b
    ensures Group(24, 12) == 0x0194f && Group(24, 13) == 0x433e4 && Group(24, 14) == 0x4001e && Group(24, 15)
      == 0x02ab5
  {
    hide Choice;
    LowChoices(0x42aab, 0x41951, 0x233ce, 0x22a81);
    HighChoices(0x42aab, 0x41951, 0x233ce, 0x22a81);
  }

  lemma Table28()
    ensures Group(28, 0) == 0x00000 && Group(28, 1) == 0x21948 && Group(28, 2) == 0x1ef60 && Group(28, 3) == 0x3f628
    ensures Group(28, 4) == 0x1deca && Group(28, 5) == 0x3c782 && Group(28, 6) == 0x031aa && Group(28, 7) == 0x228e2
    ensures Group(28, 8) == 0x1c639 && Group(28, 9) == 0x3df71 && Group(28, 10) == 0x02959 && Group(28, 11) == 0x23011
    ensures Group(28, 12) == 0x018f3 && Group(28, 13) == 0x201bb && Group(28, 14) == 0x1f793 && Group(28, 15)
      == 0x3eedb
  {
    hide Choice;
    LowChoices(0x21948, 0x1ef60, 0x1deca, 0x1c639);
    HighChoices(0x21948, 0x1ef60, 0x1deca, 0x1c639);
  }

  lemma Table32()
    ensures Group(32, 0) == 0x00000 && Group(32, 1) == 0x1bdd8 && Group(32, 2) == 0x1a535 && Group(32, 3) == 0x018ed
    ensures Group(32, 4) == 0x194ac && Group(32, 5) == 0x02974 && Group(32, 6) == 0x03199 && Group(32, 7) == 0x18c41
    ensures Group(32, 8) == 0x18c46 && Group(32, 9) == 0x0319e && Group(32, 10) == 0x02973 && Group(32, 11) == 0x194ab
    ensures Group(32, 12) == 0x018ea && Group(32, 13) == 0x1a532 && Group(32, 14) == 0x1bddf && Group(32, 15)
      == 0x00007
  {
    hide Choice;
    LowChoices(0x1bdd8, 0x1a535, 0x194ac, 0x18c46);
    HighChoices(0x1bdd8, 0x1a535, 0x194ac, 0x18c46);
  }

  lemma Table36()
    ensures Group(36, 0) == 0x00000 && Group(36, 1) == 0x1632b && Group(36, 2) == 0x1529b && Group(36, 3) == 0x031b0
    ensures Group(36, 4) == 0x14a43 && Group(36, 5) == 0x02968 && Group(36, 6) == 0x018d8 && Group(36, 7) == 0x17bf3
    ensures Group(36, 8) == 0x13184 && Group(36, 9) == 0x052af && Group(36, 10) == 0x0631f && Group(36, 11) == 0x10034
    ensures Group(36, 12) == 0x07bc7 && Group(36, 13) == 0x118ec && Group(36, 14) == 0x1295c && Group(36, 15)
      == 0x04a77
  {
    hide Choice;
    LowChoices(0x1632b, 0x1529b, 0x14a43, 0x13184);
    HighChoices(0x1632b, 0x1529b, 0x14a43, 0x13184);
  }

  lemma Table40()
    ensures Group(40, 0) == 0x00000 && Group(40, 1) == 0x12942 && Group(40, 2) == 0x118c1 && Group(40, 3) == 0x03183
    ensures Group(40, 4) == 0x0f812 && Group(40, 5) == 0x1d150 && Group(40, 6) == 0x1e0d3 && Group(40, 7) == 0x0c991
    ensures Group(40, 8) == 0x0e027 && Group(40, 9) == 0x1c965 && Group(40, 10) == 0x1f8e6 && Group(40, 11) == 0x0d1a4
    ensures Group(40, 12) == 0x01835 && Group(40, 13) == 0x13177 && Group(40, 14) == 0x100f4 && Group(40, 15)
      == 0x029b6
  {
    hide Choice;
    LowChoices(0x12942, 0x118c1, 0x0f812, 0x0e027);
    HighChoices(0x12942, 0x118c1, 0x0f812, 0x0e027);
  }

  lemma Table44()
    ensures Group(44, 0) == 0x00000 && Group(44, 1) == 0x0d00e && Group(44, 2) == 0x0c83c && Group(44, 3) == 0x01832
    ensures Group(44, 4) == 0x0b01d && Group(44, 5) == 0x06013 && Group(44, 6) == 0x07821 && Group(44, 7) == 0x0a82f
    ensures Group(44, 8) == 0x0a831 && Group(44, 9) == 0x0783f && Group(44, 10) == 0x0600d && Group(44, 11) == 0x0b003
    ensures Group(44, 12) == 0x0182c && Group(44, 13) == 0x0c822 && Group(44, 14) == 0x0d010 && Group(44, 15)
      == 0x0001e
  {
    hide Choice;
    LowChoices(0x0d00e, 0x0c83c, 0x0b01d, 0x0a831);
    HighChoices(0x0d00e, 0x0c83c, 0x0b01d, 0x0a831);
  }

  lemma Table48()
    ensures Group(48, 0) == 0x00000 && Group(48, 1) == 0x0982b && Group(48, 2) == 0x07034 && Group(48, 3) == 0x0e81f
    ensures Group(48, 4) == 0x0682a && Group(48, 5) == 0x0f001 && Group(48, 6) == 0x0181e && Group(48, 7) == 0x08035
    ensures Group(48, 8) == 0x05819 && Group(48, 9) == 0x0c032 && Group(48, 10) == 0x0282d && Group(48, 11) == 0x0b006
    ensures Group(48, 12) == 0x03033 && Group(48, 13) == 0x0a818 && Group(48, 14) == 0x04007 && Group(48, 15)
      == 0x0d82c
  {
    hide Choice;
    LowChoices(0x0982b, 0x07034, 0x0682a, 0x05819);
    HighChoices(0x0982b, 0x07034, 0x0682a, 0x05819);
  }

  lemma Table52()
    ensures Group(52, 0) == 0x00000 && Group(52, 1) == 0x03807 && Group(52, 2) == 0x007d2 && Group(52, 3) == 0x03fd5
    ensures Group(52, 4) == 0x00727 && Group(52, 5) == 0x03f20 && Group(52, 6) == 0x000f5 && Group(52, 7) == 0x038f2
    ensures Group(52, 8) == 0x0068e && Group(52, 9) == 0x03e89 && Group(52, 10) == 0x0015c && Group(52, 11) == 0x0395b
    ensures Group(52, 12) == 0x001a9 && Group(52, 13) == 0x039ae && Group(52, 14) == 0x0067b && Group(52, 15)
      == 0x03e7c
  {
    hide Choice;
    LowChoices(0x03807, 0x007d2, 0x00727, 0x0068e);
    HighChoices(0x03807, 0x007d2, 0x00727, 0x0068e);
  }

  lemma Table56()
    ensures Group(56, 0) == 0x00000 && Group(56, 1) == 0x0067c && Group(56, 2) == 0x0059d && Group(56, 3) == 0x003e1
    ensures Group(56, 4) == 0x004eb && Group(56, 5) == 0x00297 && Group(56, 6) == 0x00176 && Group(56, 7) == 0x0070a
    ensures Group(56, 8) == 0x003b4 && Group(56, 9) == 0x005c8 && Group(56, 10) == 0x00629 && Group(56, 11) == 0x00055
    ensures Group(56, 12) == 0x0075f && Group(56, 13) == 0x00123 && Group(56, 14) == 0x002c2 && Group(56, 15)
      == 0x004be
  {
    hide Choice;
    LowChoices(0x0067c, 0x0059d, 0x004eb, 0x003b4);
    HighChoices(0x0067c, 0x0059d, 0x004eb, 0x003b4);
  }

  lemma Table60()
    ensures Group(60, 0) == 0x00000 && Group(60, 1) == 0x0036a && Group(60, 2) == 0x002d9 && Group(60, 3) == 0x001b3
    ensures Group(60, 4) == 0x001c7 && Group(60, 5) == 0x002ad && Group(60, 6) == 0x0031e && Group(60, 7) == 0x00074
    ensures Group(60, 8) == 0x0003f && Group(60, 9) == 0x00355 && Group(60, 10) == 0x002e6 && Group(60, 11) == 0x0018c
    ensures Group(60, 12) == 0x001f8 && Group(60, 13) == 0x00292 && Group(60, 14) == 0x00321 && Group(60, 15)
      == 0x0004b
  {
    hide Choice;
    LowChoices(0x0036a, 0x002d9, 0x001c7, 0x0003f);
    HighChoices(0x0036a, 0x002d9, 0x001c7, 0x0003f);
  }

  lemma LowTables()
    ensures Group(0, 0) == 0x00000 && Group(0, 1) == 0x00001 && Group(0, 2) == 0x00002 && Group(0, 3) == 0x00003
    ensures Group(0, 4) == 0x00004 && Group(0, 5) == 0x00005 && Group(0, 6) == 0x00006 && Group(0, 7) == 0x00007
    ensures Group(0, 8) == 0x00008 && Group(0, 9) == 0x00009 && Group(0, 10) == 0x0000a && Group(0, 11) == 0x0000b
    ensures Group(0, 12) == 0x0000c && Group(0, 13) == 0x0000d && Group(0, 14) == 0x0000e && Group(0, 15) == 0x0000f
    ensures Group(4, 0) == 0x00000 && Group(4, 1) == 0x00010 && Group(4, 2) == 0x00020 && Group(4, 3) == 0x00030
    ensures Group(4, 4) == 0x00040 && Group(4, 5) == 0x00050 && Group(4, 6) == 0x00060 && Group(4, 7) == 0x00070
    ensures Group(4, 8) == 0x00080 && Group(4, 9) == 0x00090 && Group(4, 10) == 0x000a0 && Group(4, 11) == 0x000b0
    ensures Group(4, 12) == 0x000c0 && Group(4, 13) == 0x000d0 && Group(4, 14) == 0x000e0 && Group(4, 15) == 0x000f0
    ensures Group(8, 0) == 0x00000 && Group(8, 1) == 0x00100 && Group(8, 2) == 0x00200 && Group(8, 3) == 0x00300
    ensures Group(8, 4) == 0x00400 && Group(8, 5) == 0x00500 && Group(8, 6) == 0x00600 && Group(8, 7) == 0x00700
    ensures Group(8, 8) == 0x00800 && Group(8, 9) == 0x00900 && Group(8, 10) == 0x00a00 && Group(8, 11) == 0x00b00
    ensures Group(8, 12) == 0x00c00 && Group(8, 13) == 0x00d00 && Group(8, 14) == 0x00e00 && Group(8, 15) == 0x00f00
    ensures Group(12, 0) == 0x00000 && Group(12, 1) == 0x01000 && Group(12, 2) == 0x02000 && Group(12, 3) == 0x03000
    ensures Group(12, 4) == 0x04000 && Group(12, 5) == 0x05000 && Group(12, 6) == 0x06000 && Group(12, 7) == 0x07000
    ensures Group(12, 8) == 0x08000 && Group(12, 9) == 0x09000 && Group(12, 10) == 0x0a000 && Group(12, 11) == 0x0b000
    ensures Group(12, 12) == 0x0c000 && Group(12, 13) == 0x0d000 && Group(12, 14) == 0x0e000 && Group(12, 15)
      == 0x0f000
    ensures Group(16, 0) == 0x00000 && Group(16, 1) == 0x10000 && Group(16, 2) == 0x20000 && Group(16, 3) == 0x30000
    ensures Group(16, 4) == 0x40000 && Group(16, 5) == 0x50000 && Group(16, 6) == 0x60000 && Group(16, 7) == 0x70000
    ensures Group(16, 8) == 0x7328d && Group(16, 9) == 0x6328d && Group(16, 10) == 0x5328d && Group(16, 11) == 0x4328d
    ensures Group(16, 12) == 0x3328d && Group(16, 13) == 0x2328d && Group(16, 14) == 0x1328d && Group(16, 15)
      == 0x0328d
    ensures Group(20, 0) == 0x00000 && Group(20, 1) == 0x6689a && Group(20, 2) == 0x6112f && Group(20, 3) == 0x079b5
    ensures Group(20, 4) == 0x6084b && Group(20, 5) == 0x060d1 && Group(20, 6) == 0x01964 && Group(20, 7) == 0x671fe
    ensures Group(20, 8) == 0x433fd && Group(20, 9) == 0x25b67 && Group(20, 10) == 0x222d2 && Group(20, 11) == 0x44a48
    ensures Group(20, 12) == 0x23bb6 && Group(20, 13) == 0x4532c && Group(20, 14) == 0x42a99 && Group(20, 15)
      == 0x24203
    ensures Group(24, 0) == 0x00000 && Group(24, 1) == 0x42aab && Group(24, 2) == 0x41951 && Group(24, 3) == 0x033fa
    ensures Group(24, 4) == 0x233ce && Group(24, 5) == 0x61965 && Group(24, 6) == 0x62a9f && Group(24, 7) == 0x20034
    ensures Group(24, 8) == 0x22a81 && Group(24, 9) == 0x6002a && Group(24, 10) == 0x633d0 && Group(24, 11) == 0x2197b
    ensures Group(24, 12) == 0x0194f && Group(24, 13) == 0x433e4 && Group(24, 14) == 0x4001e && Group(24, 15)
      == 0x02ab5
    ensures Group(28, 0) == 0x00000 && Group(28, 1) == 0x21948 && Group(28, 2) == 0x1ef60 && Group(28, 3) == 0x3f628
    ensures Group(28, 4) == 0x1deca && Group(28, 5) == 0x3c782 && Group(28, 6) == 0x031aa && Group(28, 7) == 0x228e2
    ensures Group(28, 8) == 0x1c639 && Group(28, 9) == 0x3df71 && Group(28, 10) == 0x02959 && Group(28, 11) == 0x23011
    ensures Group(28, 12) == 0x018f3 && Group(28, 13) == 0x201bb && Group(28, 14) == 0x1f793 && Group(28, 15)
      == 0x3eedb
  {
    hide Group;
    Table0();
    Table4();
    Table8();
    Table12();
    Table16();
    Table20();
    Table24();
    Table28();
  }

  lemma HighTables()
    ensures Group(32, 0) == 0x00000 && Group(32, 1) == 0x1bdd8 && Group(32, 2) == 0x1a535 && Group(32, 3) == 0x018ed
    ensures Group(32, 4) == 0x194ac && Group(32, 5) == 0x02974 && Group(32, 6) == 0x03199 && Group(32, 7) == 0x18c41
    ensures Group(32, 8) == 0x18c46 && Group(32, 9) == 0x0319e && Group(32, 10) == 0x02973 && Group(32, 11) == 0x194ab
    ensures Group(32, 12) == 0x018ea && Group(32, 13) == 0x1a532 && Group(32, 14) == 0x1bddf && Group(32, 15)
      == 0x00007
    ensures Group(36, 0) == 0x00000 && Group(36, 1) == 0x1632b && Group(36, 2) == 0x1529b && Group(36, 3) == 0x031b0
    ensures Group(36, 4) == 0x14a43 && Group(36, 5) == 0x02968 && Group(36, 6) == 0x018d8 && Group(36, 7) == 0x17bf3
    ensures Group(36, 8) == 0x13184 && Group(36, 9) == 0x052af && Group(36, 10) == 0x0631f && Group(36, 11) == 0x10034
    ensures Group(36, 12) == 0x07bc7 && Group(36, 13) == 0x118ec && Group(36, 14) == 0x1295c && Group(36, 15)
      == 0x04a77
    ensures Group(40, 0) == 0x00000 && Group(40, 1) == 0x12942 && Group(40, 2) == 0x118c1 && Group(40, 3) == 0x03183
    ensures Group(40, 4) == 0x0f812 && Group(40, 5) == 0x1d150 && Group(40, 6) == 0x1e0d3 && Group(40, 7) == 0x0c991
    ensures Group(40, 8) == 0x0e027 && Group(40, 9) == 0x1c965 && Group(40, 10) == 0x1f8e6 && Group(40, 11) == 0x0d1a4
    ensures Group(40, 12) == 0x01835 && Group(40, 13) == 0x13177 && Group(40, 14) == 0x100f4 && Group(40, 15)
      == 0x029b6
    ensures Group(44, 0) == 0x00000 && Group(44, 1) == 0x0d00e && Group(44, 2) == 0x0c83c && Group(44, 3) == 0x01832
    ensures Group(44, 4) == 0x0b01d && Group(44, 5) == 0x06013 && Group(44, 6) == 0x07821 && Group(44, 7) == 0x0a82f
    ensures Group(44, 8) == 0x0a831 && Group(44, 9) == 0x0783f && Group(44, 10) == 0x0600d && Group(44, 11) == 0x0b003
    ensures Group(44, 12) == 0x0182c && Group(44, 13) == 0x0c822 && Group(44, 14) == 0x0d010 && Group(44, 15)
      == 0x0001e
    ensures Group(48, 0) == 0x00000 && Group(48, 1) == 0x0982b && Group(48, 2) == 0x07034 && Group(48, 3) == 0x0e81f
    ensures Group(48, 4) == 0x0682a && Group(48, 5) == 0x0f001 && Group(48, 6) == 0x0181e && Group(48, 7) == 0x08035
    ensures Group(48, 8) == 0x05819 && Group(48, 9) == 0x0c032 && Group(48, 10) == 0x0282d && Group(48, 11) == 0x0b006
    ensures Group(48, 12) == 0x03033 && Group(48, 13) == 0x0a818 && Group(48, 14) == 0x04007 && Group(48, 15)
      == 0x0d82c
    ensures Group(52, 0) == 0x00000 && Group(52, 1) == 0x03807 && Group(52, 2) == 0x007d2 && Group(52, 3) == 0x03fd5
    ensures Group(52, 4) == 0x00727 && Group(52, 5) == 0x03f20 && Group(52, 6) == 0x000f5 && Group(52, 7) == 0x038f2
    ensures Group(52, 8) == 0x0068e && Group(52, 9) == 0x03e89 && Group(52, 10) == 0x0015c && Group(52, 11) == 0x0395b
    ensures Group(52, 12) == 0x001a9 && Group(52, 13) == 0x039ae && Group(52, 14) == 0x0067b && Group(52, 15)
      == 0x03e7c
    ensures Group(56, 0) == 0x00000 && Group(56, 1) == 0x0067c && Group(56, 2) == 0x0059d && Group(56, 3) == 0x003e1
    ensures Group(56, 4) == 0x004eb && Group(56, 5) == 0x00297 && Group(56, 6) == 0x00176 && Group(56, 7) == 0x0070a
    ensures Group(56, 8) == 0x003b4 && Group(56, 9) == 0x005c8 && Group(56, 10) == 0x00629 && Group(56, 11) == 0x00055
    ensures Group(56, 12) == 0x0075f && Group(56, 13) == 0x00123 && Group(56, 14) == 0x002c2 && Group(56, 15)
      == 0x004be
    ensures Group(60, 0) == 0x00000 && Group(60, 1) == 0x0036a && Group(60, 2) == 0x002d9 && Group(60, 3) == 0x001b3
    ensures Group(60, 4) == 0x001c7 && Group(60, 5) == 0x002ad && Group(60, 6) == 0x0031e && Group(60, 7) == 0x00074
    ensures Group(60, 8) == 0x0003f && Group(60, 9) == 0x00355 && Group(60, 10) == 0x002e6 && Group(60, 11) == 0x0018c
    ensures Group(60, 12) == 0x001f8 && Group(60, 13) == 0x00292 && Group(60, 14) == 0x00321 && Group(60, 15)
      == 0x0004b
  {
    hide Group;
    Table32();
    Table36();
    Table40();
    Table44();
    Table48();
    Table52();
    Table56();
    Table60();
  }

  lemma SameSyndrome(a: nat, b: nat)
    requires Packed(Syndrome(a)) == Packed(Syndrome(b))
    ensures Syndrome(a) == Syndrome(b)
  {
    hide Packed, Syndrome, XorLow, Shl;
    SyndromeSmall(a);
    SyndromeSmall(b);
    var x := Xor(Syndrome(a), Syndrome(b));
    NineteenBits();
    XorSmall(Syndrome(a), Syndrome(b), WORD_BITS, 19);
    PackedXor(Syndrome(a), Syndrome(b));
    PlusZero(Packed(Syndrome(a)));
    PackedZero(x);
    XorZero(Syndrome(a), Syndrome(b));
  }

  lemma SyndromeSmall(w: nat)
    ensures Syndrome(w) < 0x80000
  {
    hide Parity;
    ParitySmall(w, 0);
  }
}
