/**
 * Binary to decimal by double dabble, in place and in both byte orders, and the printing of the digits
 * (deps/ledger-zxlib/src/bignum.c).
 */
module Bignum {
  import opened Bytes
  import opened BitString

  // ---------------------------------------------------------------- packed decimal digits

  predicate IsBcd(b: byte) { b / 16 <= 9 && b % 16 <= 9 }

  function Dec(b: byte): nat { b / 16 * 10 + b % 16 }

  predicate AreBcd(s: bytes) { forall i :: 0 <= i < |s| ==> IsBcd(s[i]) }

  /** The value of packed digits, the lowest byte first. */
  function Value(s: bytes): nat { if s == [] then 0 else Dec(s[0]) + 100 * Value(s[1..]) }

  function Power100(n: nat): (r: nat)
    ensures r > 0
  {
    if n == 0 then 1 else 100 * Power100(n - 1)
  }

  lemma {:induction false} ValueBound(s: bytes)
    requires AreBcd(s)
    ensures Value(s) < Power100(|s|)
    decreases |s|
  {
    if s != [] {
      assert IsBcd(s[0]);
      ValueBound(s[1..]);
    }
  }

  /** The adjustment before the shift: three is added to every digit above four. */
  function Fixed(b: byte): byte {
    var low := if b % 16 > 4 then (b + 3) % 256 else b;
    if low / 16 > 4 then (low + 48) % 256 else low
  }

  /** The shift of one byte, with the bit that comes in. */
  function Shifted(b: byte, carry: nat): byte
    requires carry <= 1
  {
    b * 2 % 256 + carry
  }

  function Out(b: byte): nat { if b > 127 then 1 else 0 }

  /** The bit that goes out is what doubling loses from the byte. */
  lemma OutIsLost(b: byte)
    ensures 0x100 * Out(b) + b * 2 % 0x100 == 2 * b
  {
  }

  function FixedDigit(d: nat): nat { if d > 4 then d + 3 else d }

  lemma FixedParts(b: byte, hi: nat, lo: nat)
    requires b == 16 * hi + lo && hi <= 9 && lo <= 9
    ensures Fixed(b) == 16 * FixedDigit(hi) + FixedDigit(lo)
  {
    assert b / 16 == hi && b % 16 == lo;
    var low := if lo > 4 then b + 3 else b;
    assert low / 16 == hi;
  }

  lemma ShiftedParts(f: byte, hi: nat, lo: nat, carry: nat)
    requires f == 16 * hi + lo && hi <= 12 && lo <= 12 && carry <= 1
    ensures var n := Shifted(f, carry);
      n / 16 == (if hi >= 8 then 2 * hi - 16 else 2 * hi) + (if lo >= 8 then 1 else 0)
      && n % 16 == (if lo >= 8 then 2 * lo - 16 else 2 * lo) + carry
  {
    assert f * 2 % 256 == if hi >= 8 then 32 * hi - 256 + 2 * lo else 32 * hi + 2 * lo;
  }

  /** Adjusting and shifting doubles the two digits; what comes out at the top is the hundred. */
  lemma ByteDoubles(b: byte, carry: nat)
    requires IsBcd(b) && carry <= 1
    ensures IsBcd(Shifted(Fixed(b), carry))
    ensures Dec(Shifted(Fixed(b), carry)) + 100 * Out(Fixed(b)) == 2 * Dec(b) + carry
  {
    hide Fixed, Shifted;
    FixedParts(b, b / 16, b % 16);
    ShiftedParts(Fixed(b), FixedDigit(b / 16), FixedDigit(b % 16), carry);
  }

  /** Adjusting and shifting a whole number, with the bit that comes in; the bit that goes out is dropped. */
  function Doubled(s: bytes, carry: nat): (r: bytes)
    requires carry <= 1
    ensures |r| == |s|
    decreases |s|
  {
    if s == [] then [] else [Shifted(Fixed(s[0]), carry)] + Doubled(s[1..], Out(Fixed(s[0])))
  }

  function Overflow(s: bytes, carry: nat): (r: nat)
    requires carry <= 1
    ensures r <= 1
    decreases |s|
  {
    if s == [] then carry else Overflow(s[1..], Out(Fixed(s[0])))
  }

  lemma {:induction false} DoubledValue(s: bytes, carry: nat)
    requires AreBcd(s) && carry <= 1
    ensures AreBcd(Doubled(s, carry))
    ensures Value(Doubled(s, carry)) + Overflow(s, carry) * Power100(|s|) == 2 * Value(s) + carry
    decreases |s|
  {
    if s != [] {
      hide Fixed, Shifted, Out, Dec, IsBcd;
      assert IsBcd(s[0]);
      ByteDoubles(s[0], carry);
      var rest, c := s[1..], Out(Fixed(s[0]));
      DoubledValue(rest, c);
      assert Doubled(s, carry)[1..] == Doubled(rest, c);
      Times100(Overflow(rest, c), Power100(|rest|));
    }
  }

  lemma Times100(a: nat, p: nat)
    requires a <= 1
    ensures a * (100 * p) == 100 * (a * p)
  {
  }

  lemma {:induction false} DoubledConcat(a: bytes, b: bytes, carry: nat)
    requires carry <= 1
    ensures Doubled(a + b, carry) == Doubled(a, carry) + Doubled(b, Overflow(a, carry))
    ensures Overflow(a + b, carry) == Overflow(b, Overflow(a, carry))
    decreases |a|
  {
    if a == [] {
      assert a + b == b;
    } else {
      hide Fixed, Shifted, Out;
      assert (a + b)[1..] == a[1..] + b;
      DoubledConcat(a[1..], b, Out(Fixed(a[0])));
    }
  }

  lemma DoubledOne(b: byte, carry: nat)
    requires carry <= 1
    ensures Doubled([b], carry) == [Shifted(Fixed(b), carry)] && Overflow([b], carry) == Out(Fixed(b))
  {
    assert [b][1..] == [];
    assert Doubled([], Out(Fixed(b))) == [] && Overflow([], Out(Fixed(b))) == Out(Fixed(b));
  }

  // ---------------------------------------------------------------- all bits

  function BitValue(b: bool): (r: nat)
    ensures r <= 1
  {
    if b then 1 else 0
  }

  /** The digits after taking in the bits, the highest first. */
  function Dabbled(n: nat, bits: seq<bool>): (r: bytes)
    ensures |r| == n
    decreases |bits|
  {
    if bits == [] then seq(n, _ => 0) else Doubled(Dabbled(n, bits[..|bits| - 1]), BitValue(bits[|bits| - 1]))
  }

  lemma {:induction false} ZeroValue(n: nat)
    ensures var z: bytes := seq(n, _ => 0); AreBcd(z) && Value(z) == 0
  {
    var z: bytes := seq(n, _ => 0);
    if n > 0 {
      ZeroValue(n - 1);
      assert z[1..] == seq(n - 1, _ => 0);
    }
  }

  /** Every digit is decimal, and together they are the number modulo the capacity. */
  lemma {:induction false} DabbledValue(n: nat, bits: seq<bool>) returns (q: nat)
    ensures AreBcd(Dabbled(n, bits)) && Value(Dabbled(n, bits)) + q * Power100(n) == FromBits(bits)
    decreases |bits|
  {
    if bits == [] {
      ZeroValue(n);
      q := 0;
    } else {
      var before, bit := bits[..|bits| - 1], BitValue(bits[|bits| - 1]);
      var q' := DabbledValue(n, before);
      var s := Dabbled(n, before);
      DoubledValue(s, bit);
      q := 2 * q' + Overflow(s, bit);
      DistributeOver(q', Overflow(s, bit), Power100(n));
    }
  }

  lemma DistributeOver(a: nat, b: nat, p: nat)
    ensures (2 * a + b) * p == 2 * (a * p) + b * p
  {
  }

  lemma ModuloIs(x: nat, y: nat, q: nat, p: nat)
    requires x == y + q * p && y < p
    ensures x % p == y
  {
    var d := x / p;
    assert x == p * d + x % p;
    if d > q {
      SmallerProduct(q, d, p);
    } else if d < q {
      SmallerProduct(d, q, p);
    }
  }

  lemma SmallerProduct(a: nat, b: nat, p: nat)
    requires a < b
    ensures a * p + p <= b * p
  {
    assert b * p == (b - a) * p + a * p;
    assert (b - a) * p == (b - a - 1) * p + p;
  }

  /** The exact meaning of the conversion: decimal digits of the number modulo the capacity. */
  lemma DabbleIsModulo(n: nat, bits: seq<bool>)
    ensures AreBcd(Dabbled(n, bits)) && Value(Dabbled(n, bits)) == FromBits(bits) % Power100(n)
  {
    var q := DabbledValue(n, bits);
    ValueBound(Dabbled(n, bits));
    ModuloIs(FromBits(bits), Value(Dabbled(n, bits)), q, Power100(n));
  }

  // ---------------------------------------------------------------- printing

  /** The character of a digit; digits above nine, which no conversion leaves, come out as letters. */
  function HexChar(d: nat): byte
    requires d < 16
  {
    if d < 10 then 48 + d else 55 + d
  }

  /** Digits behind those already printed; a zero byte in front of all others prints nothing. */
  function PrintByte(text: bytes, b: byte): bytes {
    if text == [] && b == 0 then []
    else if text == [] && b / 16 == 0 then [HexChar(b % 16)]
    else text + [HexChar(b / 16)] + [HexChar(b % 16)]
  }

  /** What is printed for packed digits, the highest byte first. */
  function Printed(s: bytes): bytes
    decreases |s|
  {
    if s == [] then [] else PrintByte(Printed(s[..|s| - 1]), s[|s| - 1])
  }

  /** The usual decimal notation. */
  function Decimal(n: nat): bytes { if n < 10 then [48 + n] else Decimal(n / 10) + [48 + n % 10] }

  function HighValue(s: bytes): nat
    decreases |s|
  {
    if s == [] then 0 else 100 * HighValue(s[..|s| - 1]) + Dec(s[|s| - 1])
  }

  function Reversed(s: bytes): (r: bytes)
    ensures |r| == |s|
  {
    seq(|s|, i requires 0 <= i < |s| => s[|s| - 1 - i])
  }

  lemma {:induction false} HighValueReversed(s: bytes)
    ensures HighValue(Reversed(s)) == Value(s)
    decreases |s|
  {
    if s != [] {
      assert Reversed(s)[..|s| - 1] == Reversed(s[1..]);
      HighValueReversed(s[1..]);
    }
  }

  lemma DecimalTwo(v: nat, hi: nat, lo: nat)
    requires v > 0 && hi <= 9 && lo <= 9
    ensures Decimal(100 * v + (10 * hi + lo)) == Decimal(v) + [48 + hi] + [48 + lo]
  {
    var n := 100 * v + (10 * hi + lo);
    assert n / 10 == 10 * v + hi && n % 10 == lo;
    assert (n / 10) / 10 == v && (n / 10) % 10 == hi;
  }

  lemma PrintFirst(b: byte)
    requires IsBcd(b)
    ensures PrintByte([], b) == if Dec(b) == 0 then [] else Decimal(Dec(b))
  {
    assert Dec(b) / 10 == b / 16 && Dec(b) % 10 == b % 16;
    if b / 16 > 0 { assert Decimal(Dec(b)) == Decimal(b / 16) + [48 + b % 16]; }
  }

  /** Printing gives the usual notation, and nothing for zero. */
  lemma {:induction false} PrintedIsDecimal(s: bytes)
    requires AreBcd(s)
    ensures Printed(s) == if HighValue(s) == 0 then [] else Decimal(HighValue(s))
    decreases |s|
  {
    if s != [] {
      var init, b := s[..|s| - 1], s[|s| - 1];
      assert IsBcd(b);
      PrintedIsDecimal(init);
      DecimalNotEmpty(HighValue(init));
      PrintNext(Printed(init), HighValue(init), b);
    }
  }

  lemma DecimalNotEmpty(n: nat)
    ensures Decimal(n) != []
  {
  }

  lemma PrintNext(text: bytes, v: nat, b: byte)
    requires IsBcd(b) && (if v == 0 then text == [] else text == Decimal(v) && text != [])
    ensures PrintByte(text, b) == if 100 * v + Dec(b) == 0 then [] else Decimal(100 * v + Dec(b))
  {
    if v == 0 { PrintFirst(b); } else { DecimalTwo(v, b / 16, b % 16); }
  }

  // ---------------------------------------------------------------- the input bits

  lemma {:induction false} FromBitsConcat(a: seq<bool>, b: seq<bool>)
    ensures FromBits(a + b) == Shl(FromBits(a), |b|) + FromBits(b)
    decreases |b|
  {
    if b == [] {
      assert a + b == a;
    } else {
      assert (a + b)[..|a + b| - 1] == a + b[..|b| - 1];
      FromBitsConcat(a, b[..|b| - 1]);
    }
  }

  lemma ShlByte(v: nat)
    ensures Shl(v, 8) == 256 * v
  {
    assert Shl(v, 1) == 2 * v;
    assert Shl(v, 3) == 8 * v;
    assert Shl(v, 5) == 32 * v;
    assert Shl(v, 7) == 128 * v;
  }

  /** The bits of the bytes, read as one number. */
  lemma {:induction false} BitsAreNumber(s: bytes)
    ensures FromBits(AllBits(s, 8)) == FromBigEndian(s)
    decreases |s|
  {
    if s != [] {
      var init, b := s[..|s| - 1], s[|s| - 1];
      BitsAreNumber(init);
      AllBitsConcat(init, [b], 8);
      AllBitsOne(b, 8);
      assert init + [b] == s;
      FromBitsConcat(AllBits(init, 8), ToBits(b, 8));
      FromToBits(b, 8);
      ShlByte(FromBits(AllBits(init, 8)));
      ShlByte(1);
      LowBound(b, 8);
    }
  }

  lemma {:induction false} BitOf(v: nat, w: nat, j: nat)
    requires j < w
    ensures ToBits(v, w)[j] == (Shr(v, w - 1 - j) % 2 == 1)
    decreases w
  {
    if j < w - 1 { BitOf(v / 2, w - 1, j); }
  }

  /** Where the `k`-th bit is. */
  lemma {:induction false} BitAt(s: bytes, i: nat, j: nat)
    requires i < |s| && j < 8
    ensures |AllBits(s, 8)| == 8 * |s| && AllBits(s, 8)[8 * i + j] == (Shr(s[i], 7 - j) % 2 == 1)
    decreases i
  {
    if i == 0 { BitOf(s[0], 8, j); } else { BitAt(s[1..], i - 1, j); }
  }

  // ---------------------------------------------------------------- the program, lowest byte first

  function FixedAll(s: bytes): (r: bytes)
    ensures |r| == |s|
  {
    seq(|s|, i requires 0 <= i < |s| => Fixed(s[i]))
  }

  /** The adjustment of all digits. */
  method FixDigits(a: array<byte>)
    modifies a
    ensures a[..] == FixedAll(old(a[..]))
  {
    hide Fixed;
    for j := 0 to a.Length
      invariant forall i :: 0 <= i < j ==> a[i] == Fixed(old(a[i]))
      invariant forall i :: j <= i < a.Length ==> a[i] == old(a[i])
    {
      FixedSteps(a[j]);
      if a[j] % 16 > 4 { a[j] := (a[j] as int + 3) % 256; }
      if a[j] / 16 > 4 { a[j] := (a[j] as int + 48) % 256; }
    }
  }

  lemma FixedSteps(b: byte)
    ensures var low := if b % 16 > 4 then (b + 3) % 256 else b;
      Fixed(b) == if low / 16 > 4 then (low + 48) % 256 else low
  {
  }

  lemma DoubledStep(s: bytes, j: nat, c0: nat)
    requires j < |s| && c0 <= 1
    ensures Doubled(s[..j + 1], c0) == Doubled(s[..j], c0) + [Shifted(Fixed(s[j]), Overflow(s[..j], c0))]
    ensures Overflow(s[..j + 1], c0) == Out(Fixed(s[j]))
  {
    assert s[..j + 1] == s[..j] + [s[j]];
    DoubledConcat(s[..j], [s[j]], c0);
    DoubledOne(s[j], Overflow(s[..j], c0));
  }

  /** The shift through all bytes from the lowest, with the bit that comes in. */
  method ShiftUp(a: array<byte>, carry: nat, ghost s: bytes)
    requires carry <= 1 && a[..] == FixedAll(s)
    modifies a
    ensures a[..] == Doubled(s, carry)
  {
    hide Fixed, Shifted, Doubled, Overflow;
    var c := carry;
    NothingDoubled(carry);
    assert s[..0] == [];
    for j := 0 to a.Length
      invariant a[..j] == Doubled(s[..j], carry) && c == Overflow(s[..j], carry)
      invariant forall i :: j <= i < a.Length ==> a[i] == Fixed(s[i])
    {
      DoubledStep(s, j, carry);
      var c2 := if a[j] > 127 then 1 else 0;
      ShiftedIs(a[j], c);
      a[j] := a[j] as int * 2 % 256 + c;
      c := c2;
      assert a[..j + 1] == a[..j] + [a[j]];
    }
    assert s[..a.Length] == s;
  }

  lemma ShiftedIs(b: byte, c: nat)
    requires c <= 1
    ensures Shifted(b, c) == b * 2 % 256 + c <= 255
  {
  }

  lemma NothingDoubled(carry: nat)
    requires carry <= 1
    ensures Doubled([], carry) == [] && Overflow([], carry) == carry
  {
  }

  method BigEndianToBcd(bcdOut: array<byte>, binValue: bytes)
    modifies bcdOut
    ensures bcdOut[..] == Dabbled(bcdOut.Length, AllBits(binValue, 8))
  {
    hide Doubled, Shr, ToBits, FixedAll;
    forall i | 0 <= i < bcdOut.Length { bcdOut[i] := 0; }
    ghost var bits := AllBits(binValue, 8);
    assert bits[..0] == [];
    for bitIdx := 0 to 8 * |binValue|
      invariant bcdOut[..] == Dabbled(bcdOut.Length, bits[..bitIdx])
    {
      ghost var s := bcdOut[..];
      FixDigits(bcdOut);
      BitAt(binValue, bitIdx / 8, bitIdx % 8);
      var carry := Shr(binValue[bitIdx / 8], 7 - bitIdx % 8) % 2;
      ShiftUp(bcdOut, carry, s);
      assert bits[..bitIdx + 1][..bitIdx] == bits[..bitIdx];
    }
    assert bits[..8 * |binValue|] == bits;
  }

  /** The digits that are left are those of the number modulo the capacity; all of it when it fits. */
  lemma BigEndianIsExact(n: nat, binValue: bytes)
    ensures var digits := Dabbled(n, AllBits(binValue, 8));
      AreBcd(digits) && Value(digits) == FromBigEndian(binValue) % Power100(n)
    ensures FromBigEndian(binValue) < Power100(n) ==> Value(Dabbled(n, AllBits(binValue, 8))) == FromBigEndian(binValue)
  {
    DabbleIsModulo(n, AllBits(binValue, 8));
    BitsAreNumber(binValue);
    var v := FromBigEndian(binValue);
    if v < Power100(n) { ModuloIs(v, v, 0, Power100(n)); }
  }

  // ---------------------------------------------------------------- the program, highest byte first

  lemma ReversedUpdate(s: bytes, j: nat, b: byte)
    requires j < |s|
    ensures Reversed(s[|s| - 1 - j := b]) == Reversed(s)[j := b]
  {
  }

  lemma FixedReversed(s: bytes)
    ensures Reversed(FixedAll(s)) == FixedAll(Reversed(s))
  {
    hide Fixed;
  }

  /** The same shift over bytes stored the other way round. */
  method ShiftDown(a: array<byte>, carry: nat, ghost s: bytes)
    requires carry <= 1 && Reversed(a[..]) == FixedAll(s)
    modifies a
    ensures Reversed(a[..]) == Doubled(s, carry)
  {
    hide Fixed, Shifted, Doubled, Overflow;
    var c, n := carry, a.Length;
    NothingDoubled(carry);
    assert s[..0] == [];
    for j := 0 to n
      invariant Reversed(a[..])[..j] == Doubled(s[..j], carry) && c == Overflow(s[..j], carry)
      invariant forall i :: j <= i < n ==> Reversed(a[..])[i] == Fixed(s[i])
    {
      DoubledStep(s, j, carry);
      ghost var before := a[..];
      assert a[n - j - 1] == Reversed(a[..])[j];
      var c2 := if a[n - j - 1] > 127 then 1 else 0;
      ShiftedIs(a[n - j - 1], c);
      a[n - j - 1] := a[n - j - 1] as int * 2 % 256 + c;
      c := c2;
      ReversedUpdate(before, j, a[n - j - 1]);
      assert a[..] == before[n - j - 1 := a[n - j - 1]];
      assert Reversed(a[..])[..j + 1] == Reversed(before)[..j] + [a[n - j - 1]];
    }
    assert s[..n] == s && Reversed(a[..])[..n] == Reversed(a[..]);
  }

  method LittleEndianToBcd(bcdOut: array<byte>, binValue: bytes)
    modifies bcdOut
    ensures Reversed(bcdOut[..]) == Dabbled(bcdOut.Length, AllBits(Reversed(binValue), 8))
  {
    hide Doubled, Shr, ToBits, FixedAll;
    forall i | 0 <= i < bcdOut.Length { bcdOut[i] := 0; }
    ghost var bits := AllBits(Reversed(binValue), 8);
    assert bits[..0] == [];
    assert Reversed(bcdOut[..]) == seq(bcdOut.Length, _ => 0);
    for bitIdx := 0 to 8 * |binValue|
      invariant Reversed(bcdOut[..]) == Dabbled(bcdOut.Length, bits[..bitIdx])
    {
      ghost var s := Reversed(bcdOut[..]);
      FixedReversed(bcdOut[..]);
      FixDigits(bcdOut);
      var byteIdx := bitIdx / 8;
      BitAt(Reversed(binValue), byteIdx, bitIdx % 8);
      var carry := Shr(binValue[|binValue| - byteIdx - 1], 7 - bitIdx % 8) % 2;
      ShiftDown(bcdOut, carry, s);
      assert bits[..bitIdx + 1][..bitIdx] == bits[..bitIdx];
    }
    assert bits[..8 * |binValue|] == bits;
  }

  /** The same digits and the same value, with both byte orders turned round. */
  lemma LittleEndianIsExact(n: nat, binValue: bytes)
    ensures var digits := Dabbled(n, AllBits(Reversed(binValue), 8));
      AreBcd(digits) && HighValue(Reversed(digits)) == LittleValue(binValue) % Power100(n)
    ensures LittleValue(binValue) < Power100(n) ==>
      HighValue(Reversed(Dabbled(n, AllBits(Reversed(binValue), 8)))) == LittleValue(binValue)
  {
    BigEndianIsExact(n, Reversed(binValue));
    FromBigEndianReversed(binValue);
    HighValueReversed(Dabbled(n, AllBits(Reversed(binValue), 8)));
  }

  /** The value of bytes, the lowest first. */
  function LittleValue(s: bytes): nat { if s == [] then 0 else s[0] + 256 * LittleValue(s[1..]) }

  lemma {:induction false} FromBigEndianReversed(s: bytes)
    ensures FromBigEndian(Reversed(s)) == LittleValue(s)
    decreases |s|
  {
    if s != [] {
      assert Reversed(s)[..|s| - 1] == Reversed(s[1..]);
      FromBigEndianReversed(s[1..]);
    }
  }

  // ---------------------------------------------------------------- printing, as the program does it

  const ERR: bytes := [69, 82, 82]

  /** What is left in the output buffer: nothing, an error text, or the digits. */
  function Output(size: nat, digits: bytes): (bytes, bool) {
    if size < 4 then ([], false)
    else if 2 * |digits| > size then (ERR, false)
    else (if Printed(digits) == [] then [48] else Printed(digits), true)
  }

  /** The two characters of a byte, written behind those that stand in a zeroed buffer. */
  method PutByte(out: array<byte>, at: nat, started: bool, b: byte) returns (r: nat)
    requires at + 2 <= out.Length && started == (at > 0) && forall k :: at <= k < out.Length ==> out[k] == 0
    modifies out
    ensures at <= r <= at + 2 && out[..r] == PrintByte(old(out[..at]), b)
    ensures forall k :: r <= k < out.Length ==> out[k] == 0
  {
    r := at;
    if started || b != 0 {
      if started || b / 16 != 0 {
        out[r] := HexChar(b / 16);
        r := r + 1;
      }
      out[r] := HexChar(b % 16);
      r := r + 1;
    }
  }

  lemma PrintedNext(s: bytes, i: nat)
    requires i < |s|
    ensures Printed(s[..i + 1]) == PrintByte(Printed(s[..i]), s[i])
  {
    assert s[..i + 1][..i] == s[..i];
  }

  lemma HexChars()
    ensures forall d: nat :: d < 16 ==> HexChar(d) == Ascii("0123456789ABCDEF")[d]
  {
  }

  /** All digits of the bytes. */
  function AllDigits(s: bytes): bytes
    decreases |s|
  {
    if s == [] then [] else AllDigits(s[..|s| - 1]) + [HexChar(s[|s| - 1] / 16), HexChar(s[|s| - 1] % 16)]
  }

  predicate AreZeros(s: bytes) { forall i :: 0 <= i < |s| ==> s[i] == 48 }

  /** On any bytes, all digits are printed but the zeros in front. */
  lemma {:induction false} PrintedWithoutZeros(s: bytes) returns (zeros: bytes)
    ensures AllDigits(s) == zeros + Printed(s) && AreZeros(zeros) && (Printed(s) != [] ==> Printed(s)[0] != 48)
    decreases |s|
  {
    if s == [] {
      zeros := [];
    } else {
      hide Printed, AllDigits, HexChar;
      var b := s[|s| - 1];
      var before := PrintedWithoutZeros(s[..|s| - 1]);
      assert s[..|s|] == s;
      PrintedNext(s, |s| - 1);
      LastDigits(s);
      zeros := before + ByteZeros(Printed(s[..|s| - 1]), b);
    }
  }

  lemma LastDigits(s: bytes)
    requires s != []
    ensures AllDigits(s) == AllDigits(s[..|s| - 1]) + [HexChar(s[|s| - 1] / 16), HexChar(s[|s| - 1] % 16)]
  {
  }

  /** The zeros that a byte has in front when nothing is printed yet. */
  function ByteZeros(text: bytes, b: byte): (r: bytes)
    ensures AreZeros(r)
    ensures text + [HexChar(b / 16), HexChar(b % 16)] == (if text == [] then r else []) + PrintByte(text, b)
    ensures text != [] ==> r == []
    ensures PrintByte(text, b) != [] && (text != [] ==> text[0] != 48) ==> PrintByte(text, b)[0] != 48
  {
    if text != [] || b / 16 != 0 then [] else if b != 0 then [48] else [48, 48]
  }

  /** When printing fails, what it leaves, and when it does not. */
  lemma OutputIs(size: nat, digits: bytes)
    ensures Output(size, digits).1 <==> 4 <= size && 2 * |digits| <= size
    ensures !Output(size, digits).1 ==> Output(size, digits).0 == if size < 4 then [] else Ascii("ERR")
  {
  }

  /** What both print functions do before and behind the digits. */
  predicate Leaves(out: array<byte>, text: bytes)
    reads out
  {
    |text| <= out.Length && out[..] == text + seq(out.Length - |text|, _ => 0)
  }

  /** Prints digits stored from the highest. */
  method LittleEndianBcdPrint(out: array<byte>, inBcd: bytes) returns (ok: bool)
    modifies out
    ensures ok == Output(out.Length, inBcd).1 && Leaves(out, Output(out.Length, inBcd).0)
  {
    hide PrintByte;
    var n := out.Length;
    forall i | 0 <= i < n { out[i] := 0; }
    if n < 4 { return false; }
    if 2 * |inBcd| > n {
      out[0], out[1], out[2] := 69, 82, 82;
      return false;
    }
    var at := 0;
    for i := 0 to |inBcd|
      invariant at <= 2 * i && out[..at] == Printed(inBcd[..i]) && forall k :: at <= k < n ==> out[k] == 0
    {
      PrintedNext(inBcd, i);
      at := PutByte(out, at, at > 0, inBcd[i]);
    }
    assert inBcd[..|inBcd|] == inBcd;
    if at == 0 { out[0] := 48; }
    return true;
  }

  /** Prints digits stored from the lowest. */
  method BigEndianBcdPrint(out: array<byte>, bcdIn: bytes) returns (ok: bool)
    modifies out
    ensures ok == Output(out.Length, Reversed(bcdIn)).1 && Leaves(out, Output(out.Length, Reversed(bcdIn)).0)
  {
    hide PrintByte;
    var n := out.Length;
    forall i | 0 <= i < n { out[i] := 0; }
    if n < 4 { return false; }
    if 2 * |bcdIn| > n {
      out[0], out[1], out[2] := 69, 82, 82;
      return false;
    }
    var at := 0;
    ghost var digits := Reversed(bcdIn);
    for i := 0 to |bcdIn|
      invariant at <= 2 * i && out[..at] == Printed(digits[..i]) && forall k :: at <= k < n ==> out[k] == 0
    {
      PrintedNext(digits, i);
      at := PutByte(out, at, at > 0, bcdIn[|bcdIn| - i - 1]);
    }
    assert digits[..|bcdIn|] == digits;
    if at == 0 { out[0] := 48; }
    return true;
  }

  /** A number that fits its digits and whose digits fit the buffer is printed in the usual notation. */
  lemma PrintIsDecimal(size: nat, digits: bytes)
    requires AreBcd(digits) && 4 <= size && 2 * |digits| <= size
    ensures Output(size, digits) == (Decimal(HighValue(digits)), true)
  {
    PrintedIsDecimal(digits);
    DecimalNotEmpty(HighValue(digits));
  }

  /** Conversion and printing together, in both byte orders. */
  lemma PrintsTheNumber(size: nat, n: nat, binValue: bytes)
    requires 4 <= size && 2 * n <= size
    ensures AreBcd(Reversed(Dabbled(n, AllBits(binValue, 8))))
      && AreBcd(Reversed(Dabbled(n, AllBits(Reversed(binValue), 8))))
    ensures FromBigEndian(binValue) < Power100(n) ==>
      Output(size, Reversed(Dabbled(n, AllBits(binValue, 8)))) == (Decimal(FromBigEndian(binValue)), true)
    ensures LittleValue(binValue) < Power100(n) ==>
      Output(size, Reversed(Dabbled(n, AllBits(Reversed(binValue), 8)))) == (Decimal(LittleValue(binValue)), true)
  {
    hide Dabbled, Printed, Decimal;
    var big, little := Dabbled(n, AllBits(binValue, 8)), Dabbled(n, AllBits(Reversed(binValue), 8));
    BigEndianIsExact(n, binValue);
    LittleEndianIsExact(n, binValue);
    HighValueReversed(big);
    PrintIsDecimal(size, Reversed(big));
    PrintIsDecimal(size, Reversed(little));
  }
}
