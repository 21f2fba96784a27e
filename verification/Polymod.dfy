/**
 * The checksum register of BIP-173 as the program steps it (deps/ledger-zxlib/src/segwit_addr.c), on 32-bit
 * words of which the lower 30 are used: five bits are shifted out at the top and fed back as constants.
 */
module Polymod {
  const STATE_LIMIT: bv32 := 0x4000_0000

  function Top(pre: bv32): bv32 { (pre >> 25) & 0xff }

  function Shifted(pre: bv32): bv32 { (pre & 0x1ffffff) << 5 }

  function Feedback(b: bv32): bv32 {
    ((0 - (b & 1)) & 0x3b6a57b2) ^ ((0 - ((b >> 1) & 1)) & 0x26508e6d) ^ ((0 - ((b >> 2) & 1)) & 0x1ea119fa)
    ^ ((0 - ((b >> 3) & 1)) & 0x3d4233dd) ^ ((0 - ((b >> 4) & 1)) & 0x2a1462b3)
  }

  function Xor(s: bv32, f: bv32): bv32 { s ^ f }

  function Step(pre: bv32): bv32 { Xor(Shifted(pre), Feedback(Top(pre))) }

  lemma StepIs(x: bv32)
    ensures Step(x) == Xor(Shifted(x), Feedback(Top(x)))
  {
  }

  lemma StepBound(x: bv32)
    ensures Step(x) < STATE_LIMIT
  {
  }

  lemma TopAdd(x: bv32, y: bv32, v: bv32)
    requires v < 0x2000000 && y == x ^ v
    ensures Top(y) == Top(x)
  {
  }

  lemma ShiftedAdd(x: bv32, y: bv32, v: bv32, w: bv32)
    requires v < 0x2000000 && y == x ^ v && w == v << 5
    ensures Shifted(y) == Shifted(x) ^ w
  {
  }

  lemma XorAdd(sx: bv32, sy: bv32, w: bv32, f: bv32, rx: bv32, ry: bv32)
    requires sy == sx ^ w && rx == Xor(sx, f) && ry == Xor(sy, f)
    ensures ry == rx ^ w
  {
  }

  lemma StepAddParts(x: bv32, y: bv32, w: bv32)
    requires Top(y) == Top(x) && Shifted(y) == Shifted(x) ^ w
    ensures Step(y) == Step(x) ^ w
  {
    StepIs(x);
    StepIs(y);
    XorAdd(Shifted(x), Shifted(y), w, Feedback(Top(x)), Step(x), Step(y));
  }

  /** What is added below the top five bits comes out shifted. */
  lemma StepAdd(x: bv32, y: bv32, v: bv32, w: bv32)
    requires v < 0x2000000 && y == x ^ v && w == v << 5
    ensures Step(y) == Step(x) ^ w
  {
    TopAdd(x, y, v);
    ShiftedAdd(x, y, v, w);
    StepAddParts(x, y, w);
  }

  lemma FeedbackInjective(b: bv32, c: bv32)
    requires b < 32 && c < 32 && Feedback(b) & 31 == Feedback(c) & 31
    ensures b == c
  {
  }

  /** Different 30-bit states have different successors. */
  lemma StepInjective(x: bv32, y: bv32)
    requires x < STATE_LIMIT && y < STATE_LIMIT && Step(x) == Step(y)
    ensures x == y
  {
    StepIs(x);
    StepIs(y);
    LowBits(x);
    LowBits(y);
    FeedbackInjective(Top(x), Top(y));
    SameWords(x, y, Feedback(Top(x)));
  }

  lemma LowBits(x: bv32)
    requires x < STATE_LIMIT
    ensures Step(x) & 31 == Feedback(Top(x)) & 31 && Top(x) < 32
  {
  }

  lemma SameWords(x: bv32, y: bv32, f: bv32)
    requires x < STATE_LIMIT && y < STATE_LIMIT && Top(x) == Top(y) && Xor(Shifted(x), f) == Xor(Shifted(y), f)
    ensures x == y
  {
  }

  // ---------------------------------------------------------------- the field and the generator

  /** Multiplication by the generating element of GF(32), where its fifth power is its third power plus one. */
  function Double(x: bv32): bv32 { if x & 16 == 0 then x << 1 else (x << 1) ^ 41 }

  /** The product of two elements: the multiples of `x` that the bits of `y` select. */
  function Product(x: bv32, y: bv32): bv32 {
    var x2 := Double(x);
    var x4 := Double(x2);
    var x8 := Double(x4);
    var x16 := Double(x8);
    (if y & 1 == 0 then 0 else x) ^ (if y & 2 == 0 then 0 else x2) ^ (if y & 4 == 0 then 0 else x4)
    ^ (if y & 8 == 0 then 0 else x8) ^ (if y & 16 == 0 then 0 else x16)
  }

  /**
   * What is fed back is the product of the symbol shifted out with the generator of BIP-173,
   * x^6 + 29 x^5 + 22 x^4 + 20 x^3 + 21 x^2 + 29 x + 18.
   */
  lemma FeedbackIsGenerator(b: bv32)
    requires b < 32
    ensures Feedback(b) == (Product(29, b) << 25) ^ (Product(22, b) << 20) ^ (Product(20, b) << 15)
                           ^ (Product(21, b) << 10) ^ (Product(29, b) << 5) ^ Product(18, b)
  {
    if b < 16 { if b < 8 { } else { } } else { if b < 24 { } else { } }
  }
}
